/** The CAN transport: an open flag, an eventfd wake counter and the socket's receive queue. */
module StdCanInterfaces {
  import opened Messages

  /** What the socket delivers at one read: a whole frame, or a datagram of another size. */
  datatype Datagram<F> = Whole(frame: F) | Runt

  datatype Transport<F> = Transport(open: bool, wake: nat, queue: seq<Datagram<F>>, broken: bool) {
    /** poll() on the socket and the wake descriptor returns. */
    predicate Ready() {
      wake > 0 || queue != [] || broken
    }
  }

  /** On failure nothing is kept; an already open transport is left as it is, its wake counter included. */
  function Opened<F>(t: Transport<F>, fails: bool): (bool, Transport<F>) {
    if t.open then (true, t)
    else if fails then (false, t)
    else (true, Transport(true, 0, [], false))
  }

  function ClosedT<F>(t: Transport<F>): Transport<F> {
    if t.open then Transport(false, t.wake, [], false) else t
  }

  function Interrupted<F>(t: Transport<F>): Transport<F> {
    t.(wake := t.wake + 1)
  }

  function Drained<F>(t: Transport<F>): Transport<F> {
    t.(wake := 0)
  }

  /** recvmsg() on a ready socket: a dead one is closed, a runt is dropped. */
  function Received<F>(t: Transport<F>): (Option<F>, Transport<F>)
    requires t.queue != [] || t.broken
  {
    if t.broken then (None, ClosedT(t))
    else (if t.queue[0].Whole? then Some(t.queue[0].frame) else None, t.(queue := t.queue[1..]))
  }

  class StdCanInterface<F> {
    var sock: int
    var wake: nat
    var queue: seq<Datagram<F>>
    var broken: bool
    /** The frames handed to the callback, oldest first. */
    var delivered: seq<F>

    function State(): Transport<F> reads this {
      Transport(sock >= 0, wake, queue, broken)
    }

    /** A closed transport has no socket queue; the descriptor is -1 or valid. */
    ghost predicate Valid() reads this {
      sock >= -1 && (sock < 0 ==> queue == [] && !broken)
    }

    constructor ()
      ensures Valid() && State() == Transport(false, 0, [], false) && delivered == []
    {
      sock, wake, queue, broken, delivered := -1, 0, [], false, [];
    }

    /** `fd` is what the operating system gives for a bound socket, negative if any step failed. */
    method Init(fd: int) returns (ok: bool)
      requires Valid() && fd >= -1
      modifies this
      ensures Valid() && delivered == old(delivered)
      ensures (ok, State()) == Opened(old(State()), fd < 0)
    {
      if sock != -1 {
        return true;
      }
      if fd < 0 {
        return false;
      }
      DrainWake();
      sock, queue, broken := fd, [], false;
      ok := true;
    }

    method Close()
      requires Valid()
      modifies this
      ensures Valid() && delivered == old(delivered) && State() == ClosedT(old(State()))
    {
      if sock >= 0 {
        sock, queue, broken := -1, [], false;
      }
    }

    method InterruptRead()
      requires Valid()
      modifies this
      ensures Valid() && delivered == old(delivered) && State() == Interrupted(old(State()))
    {
      wake := wake + 1;
    }

    method DrainWake()
      requires Valid()
      modifies this
      ensures Valid() && delivered == old(delivered) && State() == Drained(old(State()))
      ensures sock == old(sock)
    {
      wake := 0;
    }

    /**
     * One read by a thread that is not blocked. A pending wake wins over queued frames and takes none of them;
     * otherwise the head of the queue is consumed, and the result is true exactly if it was a whole frame, which
     * the callback then got.
     */
    method ReadCanMessage() returns (ok: bool)
      requires Valid() && (sock >= 0 ==> State().Ready())
      modifies this
      ensures Valid()
      ensures old(sock) < 0 ==> !ok && State() == old(State()) && delivered == old(delivered)
      ensures old(sock >= 0 && wake > 0) ==> !ok && State() == Drained(old(State())) && delivered == old(delivered)
      ensures old(sock >= 0 && wake == 0) ==>
                var (got, after) := Received(old(State()));
                && State() == after && ok == got.Some?
                && delivered == old(delivered) + if got.Some? then [got.value] else []
    {
      if sock < 0 {
        return false;
      }
      if wake > 0 {
        DrainWake();
        return false;
      }
      if broken {
        Close();
        return false;
      }
      var head := queue[0];
      queue := queue[1..];
      if head.Runt? {
        return false;
      }
      delivered := delivered + [head.frame];
      ok := true;
    }

    method IsOpen() returns (b: bool)
      requires Valid()
      ensures b == State().open
    {
      b := sock >= 0;
    }
  }
}
