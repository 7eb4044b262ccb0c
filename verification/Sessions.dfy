/**
 * Connecting, reading and disconnecting, as an interleaving of the controlling thread, the read thread, the
 * bus, and any thread that resets the cache. Atomics and locks are sequentially consistent.
 */
module Sessions {
  import opened Messages
  import opened StdCanInterfaces
  import C = PartsCache

  /** A frame of the multipart message the cache holds, or of another message if `part` is out of its range. */
  datatype BusFrame<P> = BusFrame(part: nat, payload: P)

  /** A stored slot remembers, for the proof, the session whose frame it came from. */
  datatype Slot<P> = Slot(session: nat, payload: P)

  /** Where the read thread is; `NotRunning` means there is no thread to join. */
  datatype Reader = NotRunning | LoopTop | CheckOpen | EnterRead | Polling | Draining | Receiving | InCallback | Exited

  /** Where the controlling thread is in connectPort() or disconnectPort(). */
  datatype Controller = Down | Opening | Connected | Up | Stopping | Posted | Joined | Shut | Forgotten

  datatype State<P> = State(
    ctrl: Controller, reader: Reader, stop: bool, connected: bool, transport: Transport<BusFrame<P>>,
    cache: C.Cache<Slot<P>>,
    session: nat,         // how many times a read thread was started
    sinceStop: nat)       // frames delivered since disconnectPort() stored the stop flag

  datatype Action<P> =
    // connectPort()
    | Open(fails: bool) | StoreConnected | StartThread(start: bool)
    // disconnectPort()
    | StoreStop | Interrupt | Join | CloseSocket | ResetStates | StoreDisconnected
    // readLoop(), readCanMessage() and the callback
    | Read(timestamp: real, now: int) | ReadFails
    // the bus
    | Arrive(datagram: Datagram<BusFrame<P>>) | Break
    // reset() by another thread
    | ClearCache

  predicate IsController<P>(a: Action<P>) {
    a.Open? || a.StoreConnected? || a.StartThread? || a.StoreStop? || a.Interrupt? || a.Join? || a.CloseSocket?
    || a.ResetStates? || a.StoreDisconnected?
  }

  /** A running reader can take its next step; only poll() can block it. */
  predicate ReaderEnabled<P>(s: State<P>) {
    match s.reader
    case NotRunning => false
    case Exited => false
    case Polling => s.transport.Ready()
    case Receiving => s.transport.queue != [] || s.transport.broken
    case _ => true
  }

  predicate Enabled<P>(s: State<P>, a: Action<P>) {
    match a
    case Open(_) => s.ctrl == Down
    case StoreConnected => s.ctrl == Opening
    case StartThread(_) => s.ctrl == Connected
    case StoreStop => s.ctrl == Up
    case Interrupt => s.ctrl == Stopping
    case Join => s.ctrl == Posted && (s.reader == Exited || s.reader == NotRunning)
    case CloseSocket => s.ctrl == Joined
    case ResetStates => s.ctrl == Shut
    case StoreDisconnected => s.ctrl == Forgotten
    case Read(_, _) => ReaderEnabled(s)
    case ReadFails => s.reader == Polling || s.reader == Receiving
    case Arrive(_) => s.transport.open
    case Break => s.transport.open
    case ClearCache => true
  }

  function CacheStep<P>(s: State<P>, zero: seq<Slot<P>>, a: C.Action<Slot<P>>): (r: State<P>)
    requires C.WellFormed(s.cache, zero)
    ensures C.WellFormed(r.cache, zero)
  {
    s.(cache := C.Step(s.cache, zero, a))
  }

  function ReaderStep<P>(s: State<P>, zero: seq<Slot<P>>, timestamp: real, now: int): (r: State<P>)
    requires C.WellFormed(s.cache, zero) && ReaderEnabled(s)
    ensures C.WellFormed(r.cache, zero)
  {
    match s.reader
    case LoopTop => s.(reader := if s.stop then Exited else CheckOpen)
    case CheckOpen => s.(reader := if s.transport.open then EnterRead else Exited)
    case EnterRead => s.(reader := if s.transport.open then Polling else LoopTop)
    case Polling => s.(reader := if s.transport.wake > 0 then Draining else Receiving)
    case Draining => s.(reader := LoopTop, transport := Drained(s.transport))
    case Receiving =>
      var (got, t) := Received(s.transport);
      if got.None? then s.(reader := LoopTop, transport := t)
      else
        var f := got.value;
        CacheStep(s.(reader := InCallback, transport := t, sinceStop := s.sinceStop + 1), zero,
                  C.Begin(f.part, Slot(s.session, f.payload)))
    case InCallback => CacheStep(s.(reader := LoopTop), zero, C.Finish(timestamp, now))
    case _ => s
  }

  /** One atomic step; an action that is not enabled does nothing. */
  function Step<P>(s: State<P>, zero: seq<Slot<P>>, a: Action<P>): (r: State<P>)
    requires C.WellFormed(s.cache, zero)
    ensures C.WellFormed(r.cache, zero)
  {
    if !Enabled(s, a) then s
    else match a
      case Open(fails) =>
        var (ok, t) := Opened(s.transport, fails);
        if ok then s.(ctrl := Opening, transport := t) else s
      case StoreConnected => s.(ctrl := Connected, connected := true)
      case StartThread(start) =>
        if start then s.(ctrl := Up, stop := false, reader := LoopTop, session := s.session + 1, sinceStop := 0)
        else s.(ctrl := Up, sinceStop := 0)
      case StoreStop => s.(ctrl := Stopping, stop := true, sinceStop := 0)
      case Interrupt => s.(ctrl := Posted, transport := Interrupted(s.transport))
      case Join => s.(ctrl := Joined, reader := NotRunning)
      case CloseSocket => s.(ctrl := Shut, transport := ClosedT(s.transport))
      case ResetStates => CacheStep(s.(ctrl := Forgotten), zero, C.Clear)
      case StoreDisconnected => s.(ctrl := Down, connected := false)
      case Read(ts, now) => ReaderStep(s, zero, ts, now)
      case ReadFails => s.(reader := LoopTop)
      case Arrive(d) => s.(transport := s.transport.(queue := s.transport.queue + [d]))
      case Break => s.(transport := s.transport.(broken := true))
      case ClearCache => CacheStep(s, zero, C.Clear)
  }

  /** A new interface, whose transport may have been opened by its constructor or adopted already open. */
  function Start<P>(zero: seq<Slot<P>>, timeout: int, open: bool): State<P> {
    State(Down, NotRunning, false, false, Transport(open, 0, [], false), C.Start(zero, timeout), 0, 0)
  }

  function Run<P>(s: State<P>, zero: seq<Slot<P>>, actions: seq<Action<P>>): (r: State<P>)
    requires C.WellFormed(s.cache, zero)
    ensures C.WellFormed(r.cache, zero)
    decreases |actions|
  {
    if actions == [] then s else Run(Step(s, zero, actions[0]), zero, actions[1..])
  }

  // ---------- What every step keeps ----------

  /** Past the stop check of its loop, the reader may still deliver one frame. */
  predicate MayStillDeliver(r: Reader) {
    r == CheckOpen || r == EnterRead || r == Polling || r == Receiving
  }

  predicate NoThread(c: Controller) {
    c == Down || c == Opening || c == Connected || c == Joined || c == Shut || c == Forgotten
  }

  ghost predicate HandshakeInv<P>(s: State<P>) {
    && (NoThread(s.ctrl) ==> s.reader == NotRunning)
    && (s.ctrl == Down && s.transport.open ==> s.transport.wake == 0)
    && (s.ctrl == Opening || s.ctrl == Connected || s.ctrl == Up || s.ctrl == Stopping ==> s.transport.wake == 0)
    && (s.ctrl == Stopping || s.ctrl == Posted ==> s.stop && s.sinceStop + (if MayStillDeliver(s.reader) then 1 else 0) <= 1)
    && (s.ctrl == Posted ==>
          s.transport.wake > 0 || s.reader == LoopTop || s.reader == Exited || s.reader == NotRunning)
    && (s.reader == Draining ==> s.ctrl == Posted && s.transport.wake > 0)
    && (s.reader == Receiving ==> s.transport.queue != [] || s.transport.broken)
    && (s.ctrl == Shut || s.ctrl == Forgotten ==> !s.transport.open)
  }

  /** Every slot, arrived or not, is blank or came from the current session. */
  ghost predicate OfSession<P>(slots: seq<Slot<P>>, zero: seq<Slot<P>>, session: nat) {
    |slots| == |zero| && forall p :: 0 <= p < |zero| ==> slots[p] == zero[p] || slots[p].session == session
  }

  /** Nothing in the cache, or on its way there, came from an earlier session. */
  ghost predicate CacheInv<P>(s: State<P>, zero: seq<Slot<P>>) {
    && C.Inv(s.cache, zero)
    && (s.cache.reader.Holding? ==>
          && s.reader == InCallback && s.cache.reader.slot.session == s.session
          && OfSession(s.cache.reader.copy, zero, s.session))
    && OfSession(s.cache.cell.value, zero, s.session)
    && (Forgets(s.ctrl) ==> s.cache.cell.value == zero)
    && (forall p :: 0 <= p < |zero| && s.cache.cell.initialized[p] ==>
          s.cache.cell.value[p].session == s.session && !Forgets(s.ctrl))
  }

  /** Between the reset of a disconnect and the start of the next read thread, nothing is remembered. */
  predicate Forgets(c: Controller) {
    c == Forgotten || c == Down || c == Opening || c == Connected
  }

  lemma ReadKeepsHandshake<P>(s: State<P>, zero: seq<Slot<P>>, timestamp: real, now: int)
    requires C.WellFormed(s.cache, zero) && HandshakeInv(s) && ReaderEnabled(s)
    ensures HandshakeInv(ReaderStep(s, zero, timestamp, now))
  {}

  lemma StepKeepsHandshake<P>(s: State<P>, zero: seq<Slot<P>>, a: Action<P>)
    requires C.WellFormed(s.cache, zero) && HandshakeInv(s)
    ensures HandshakeInv(Step(s, zero, a))
  {
    if a.Read? {
      if Enabled(s, a) {
        ReadKeepsHandshake(s, zero, a.timestamp, a.now);
      }
    } else {
      OtherStepKeepsHandshake(s, zero, a);
    }
  }

  lemma OtherStepKeepsHandshake<P>(s: State<P>, zero: seq<Slot<P>>, a: Action<P>)
    requires C.WellFormed(s.cache, zero) && HandshakeInv(s) && !a.Read?
    ensures HandshakeInv(Step(s, zero, a))
  {}

  /** Steps that leave the cache alone. */
  lemma OtherStepKeepsCache<P>(s: State<P>, zero: seq<Slot<P>>, a: Action<P>)
    requires HandshakeInv(s) && CacheInv(s, zero) && !a.Read? && !a.ClearCache? && !a.ResetStates?
    ensures CacheInv(Step(s, zero, a), zero)
  {
    assert Step(s, zero, a).cache == s.cache;
  }

  lemma ResetKeepsCache<P>(s: State<P>, zero: seq<Slot<P>>, ctrl: Controller)
    requires CacheInv(s, zero)
    ensures CacheInv(CacheStep(s.(ctrl := ctrl), zero, C.Clear), zero)
  {
    C.StepKeepsInv(s.cache, zero, C.Clear);
  }

  lemma ReadKeepsCache<P>(s: State<P>, zero: seq<Slot<P>>, timestamp: real, now: int)
    requires HandshakeInv(s) && CacheInv(s, zero) && ReaderEnabled(s)
    ensures CacheInv(ReaderStep(s, zero, timestamp, now), zero)
  {
    if s.reader == InCallback {
      C.StepKeepsInv(s.cache, zero, C.Finish(timestamp, now));
    } else if s.reader == Receiving {
      var got := Received(s.transport).0;
      if got.Some? {
        C.StepKeepsInv(s.cache, zero, C.Begin(got.value.part, Slot(s.session, got.value.payload)));
      }
    }
  }

  lemma StepKeepsCache<P>(s: State<P>, zero: seq<Slot<P>>, a: Action<P>)
    requires HandshakeInv(s) && CacheInv(s, zero)
    ensures CacheInv(Step(s, zero, a), zero)
  {
    if !Enabled(s, a) {
    } else if a.ClearCache? {
      ResetKeepsCache(s, zero, s.ctrl);
    } else if a.ResetStates? {
      ResetKeepsCache(s, zero, Forgotten);
    } else if a.Read? {
      ReadKeepsCache(s, zero, a.timestamp, a.now);
    } else {
      OtherStepKeepsCache(s, zero, a);
    }
  }

  ghost predicate Inv<P>(s: State<P>, zero: seq<Slot<P>>) {
    HandshakeInv(s) && CacheInv(s, zero)
  }

  lemma {:induction false} RunKeepsInv<P>(s: State<P>, zero: seq<Slot<P>>, actions: seq<Action<P>>)
    requires C.WellFormed(s.cache, zero) && Inv(s, zero)
    ensures Inv(Run(s, zero, actions), zero)
    decreases |actions|
  {
    if actions == [] {
    } else {
      StepKeepsHandshake(s, zero, actions[0]);
      StepKeepsCache(s, zero, actions[0]);
      RunKeepsInv(Step(s, zero, actions[0]), zero, actions[1..]);
    }
  }

  lemma ReachableInv<P>(zero: seq<Slot<P>>, timeout: int, open: bool, actions: seq<Action<P>>)
    ensures Inv(Run(Start(zero, timeout, open), zero, actions), zero)
  {
    C.RunKeepsInv(zero, timeout, []);
    RunKeepsInv(Start(zero, timeout, open), zero, actions);
  }

  // ---------- The properties ----------

  /** Once the interrupt is posted, a reader that still runs is never blocked: in poll() it finds the wake pending. */
  lemma NoLostWakeUp<P>(zero: seq<Slot<P>>, timeout: int, open: bool, actions: seq<Action<P>>)
    ensures var s := Run(Start(zero, timeout, open), zero, actions);
            s.ctrl == Posted ==>
              && (s.reader == Polling ==> s.transport.wake > 0)
              && (s.reader != Exited && s.reader != NotRunning ==> ReaderEnabled(s))
  {
    ReachableInv(zero, timeout, open, actions);
  }

  /** However busy the bus, at most one more frame is delivered after the stop flag is stored, and so after the interrupt. */
  lemma AtMostOneMoreFrame<P>(zero: seq<Slot<P>>, timeout: int, open: bool, actions: seq<Action<P>>)
    ensures var s := Run(Start(zero, timeout, open), zero, actions);
            s.ctrl == Stopping || s.ctrl == Posted ==> s.sinceStop <= 1
  {
    ReachableInv(zero, timeout, open, actions);
  }

  /** A read is cancelled only by the interrupt of its own session's disconnect, never by one left over. */
  lemma LeftoverWakeCancelsNothing<P>(zero: seq<Slot<P>>, timeout: int, open: bool, actions: seq<Action<P>>)
    ensures var s := Run(Start(zero, timeout, open), zero, actions);
            && (s.reader == Draining ==> s.ctrl == Posted)
            && (s.ctrl == Up ==> s.transport.wake == 0)
  {
    ReachableInv(zero, timeout, open, actions);
  }

  /** A socket found dead is closed, and the reader has left its loop two steps later. */
  lemma DeadSocketEndsReader<P>(s: State<P>, zero: seq<Slot<P>>, timestamp: real, now: int)
    requires C.WellFormed(s.cache, zero) && s.reader == Receiving && s.transport.broken && s.transport.open
    ensures var t := Step(s, zero, Read(timestamp, now));
            var u := Step(t, zero, Read(timestamp, now));
            !t.transport.open && Step(u, zero, Read(timestamp, now)).reader == Exited
  {}

  // ---------- What is stored is what was received ----------

  /** A whole frame that was read from the socket, and the session that read it. */
  datatype Receipt<P> = Receipt(session: nat, frame: BusFrame<P>)

  /** The frame a step took from the head of the socket's queue, if it took one. */
  ghost function TakenBy<P>(s: State<P>, t: State<P>): seq<Receipt<P>> {
    var queue := s.transport.queue;
    if queue != [] && queue[0].Whole? && t.transport.queue == queue[1..] && t.transport.open == s.transport.open then
      [Receipt(s.session, queue[0].frame)]
    else []
  }

  /** All the frames a run takes from the socket, oldest first. */
  ghost function Taken<P>(s: State<P>, zero: seq<Slot<P>>, actions: seq<Action<P>>): seq<Receipt<P>>
    requires C.WellFormed(s.cache, zero)
    decreases |actions|
  {
    if actions == [] then []
    else TakenBy(s, Step(s, zero, actions[0])) + Taken(Step(s, zero, actions[0]), zero, actions[1..])
  }

  /** Storing each frame of the cache's message in its own part; frames of other messages are not stored. */
  function AsStored<P>(taken: seq<Receipt<P>>, parts: nat): seq<C.Event<Slot<P>>> {
    if taken == [] then []
    else
      var last := taken[|taken| - 1];
      AsStored(taken[..|taken| - 1], parts)
      + if last.frame.part < parts then [C.Stored(last.frame.part, Slot(last.session, last.frame.payload))] else []
  }

  function StoredIn<V>(log: seq<C.Event<V>>): seq<C.Event<V>> {
    if log == [] then []
    else StoredIn(log[..|log| - 1]) + if log[|log| - 1].Stored? then [log[|log| - 1]] else []
  }

  lemma StoredInAppend<V>(log: seq<C.Event<V>>, e: C.Event<V>)
    ensures StoredIn(log + [e]) == StoredIn(log) + if e.Stored? then [e] else []
  {
    assert (log + [e])[..|log|] == log;
  }

  lemma AsStoredAppend<P>(taken: seq<Receipt<P>>, r: Receipt<P>, parts: nat)
    ensures AsStored(taken + [r], parts) == AsStored(taken, parts)
            + if r.frame.part < parts then [C.Stored(r.frame.part, Slot(r.session, r.frame.payload))] else []
  {
    assert (taken + [r])[..|taken|] == taken;
  }

  /** The frames whose callback has returned: all of them but the one the reader is handing on. */
  function HandedOn<P>(s: State<P>, taken: seq<Receipt<P>>): seq<Receipt<P>> {
    if s.reader == InCallback && taken != [] then taken[..|taken| - 1] else taken
  }

  /** The cache's history is that of the frames handed on, and the reader is handing on the last frame taken. */
  ghost predicate Traced<P>(s: State<P>, zero: seq<Slot<P>>, taken: seq<Receipt<P>>) {
    && StoredIn(s.cache.log) == AsStored(HandedOn(s, taken), |zero|)
    && (s.reader == InCallback ==>
          && taken != []
          && var r := taken[|taken| - 1];
             if r.frame.part < |zero| then
               && s.cache.reader.Holding? && s.cache.reader.part == r.frame.part
               && s.cache.reader.slot == Slot(r.session, r.frame.payload)
             else s.cache.reader.Idle?)
  }

  lemma FinishStores<P>(s: State<P>, zero: seq<Slot<P>>, timestamp: real, now: int)
    requires C.WellFormed(s.cache, zero) && s.reader == InCallback
    ensures var t, h := ReaderStep(s, zero, timestamp, now), s.cache.reader;
            && t.reader == LoopTop
            && t.cache.log == s.cache.log + if h.Holding? then [C.Stored(h.part, h.slot)] else []
  {}

  lemma FinishKeepsTrace<P>(s: State<P>, zero: seq<Slot<P>>, timestamp: real, now: int, taken: seq<Receipt<P>>)
    requires C.WellFormed(s.cache, zero) && Traced(s, zero, taken) && s.reader == InCallback
    ensures Traced(ReaderStep(s, zero, timestamp, now), zero, taken)
  {
    hide ReaderStep, C.WellFormed;
    var n, h := |taken| - 1, s.cache.reader;
    FinishStores(s, zero, timestamp, now);
    assert taken == taken[..n] + [taken[n]];
    AsStoredAppend(taken[..n], taken[n], |zero|);
    if h.Holding? {
      StoredInAppend(s.cache.log, C.Stored(h.part, h.slot));
    } else {
      assert s.cache.log + [] == s.cache.log;
      assert AsStored(taken[..n], |zero|) + [] == AsStored(taken[..n], |zero|);
    }
  }

  lemma ReceiveKeepsTrace<P>(s: State<P>, zero: seq<Slot<P>>, timestamp: real, now: int, taken: seq<Receipt<P>>)
    requires CacheInv(s, zero) && Traced(s, zero, taken) && s.reader == Receiving && ReaderEnabled(s)
    ensures var t := ReaderStep(s, zero, timestamp, now); Traced(t, zero, taken + TakenBy(s, t))
  {
    var t := ReaderStep(s, zero, timestamp, now);
    if Received(s.transport).0.Some? {
      var r := Receipt(s.session, s.transport.queue[0].frame);
      assert TakenBy(s, t) == [r] && (taken + [r])[..|taken|] == taken;
      assert s.cache.reader.Idle? && t.cache.log == s.cache.log;
    } else {
      assert TakenBy(s, t) == [] && t.cache == s.cache && taken + [] == taken;
    }
  }

  lemma ReadKeepsTrace<P>(s: State<P>, zero: seq<Slot<P>>, timestamp: real, now: int, taken: seq<Receipt<P>>)
    requires CacheInv(s, zero) && Traced(s, zero, taken) && ReaderEnabled(s)
    ensures var t := ReaderStep(s, zero, timestamp, now); Traced(t, zero, taken + TakenBy(s, t))
  {
    var t := ReaderStep(s, zero, timestamp, now);
    if s.reader == Receiving {
      ReceiveKeepsTrace(s, zero, timestamp, now, taken);
    } else {
      assert TakenBy(s, t) == [] && taken + [] == taken;
      if s.reader == InCallback {
        FinishKeepsTrace(s, zero, timestamp, now, taken);
      }
    }
  }

  /** Only the reader takes frames, and no one else touches its callback. */
  lemma OthersTakeNothing<P>(s: State<P>, zero: seq<Slot<P>>, a: Action<P>)
    requires HandshakeInv(s) && CacheInv(s, zero) && !a.Read?
    ensures var t := Step(s, zero, a);
            && TakenBy(s, t) == [] && (s.reader == InCallback <==> t.reader == InCallback)
            && t.cache.reader == s.cache.reader
            && (t.cache.log == s.cache.log || t.cache.log == s.cache.log + [C.Cleared])
  {}

  lemma OtherStepKeepsTrace<P>(s: State<P>, zero: seq<Slot<P>>, a: Action<P>, taken: seq<Receipt<P>>)
    requires HandshakeInv(s) && CacheInv(s, zero) && Traced(s, zero, taken) && !a.Read?
    ensures Traced(Step(s, zero, a), zero, taken) && TakenBy(s, Step(s, zero, a)) == []
  {
    hide Step, HandshakeInv, TakenBy;
    OthersTakeNothing(s, zero, a);
    StoredInAppend(s.cache.log, C.Cleared);
    assert StoredIn(s.cache.log) + [] == StoredIn(s.cache.log);
  }

  lemma StepKeepsTrace<P>(s: State<P>, zero: seq<Slot<P>>, a: Action<P>, taken: seq<Receipt<P>>)
    requires C.WellFormed(s.cache, zero) && HandshakeInv(s) && CacheInv(s, zero) && Traced(s, zero, taken)
    ensures var t := Step(s, zero, a); Traced(t, zero, taken + TakenBy(s, t))
  {
    hide Traced, HandshakeInv, CacheInv, TakenBy;
    var t := Step(s, zero, a);
    assert taken + [] == taken;
    if a.Read? {
      if Enabled(s, a) {
        ReadKeepsTrace(s, zero, a.timestamp, a.now, taken);
      } else {
        NothingTaken(s);
      }
    } else {
      OtherStepKeepsTrace(s, zero, a, taken);
    }
  }

  lemma NothingTaken<P>(s: State<P>)
    ensures TakenBy(s, s) == []
  {}

  lemma {:induction false} RunKeepsTrace<P>(s: State<P>, zero: seq<Slot<P>>, actions: seq<Action<P>>,
                                            taken: seq<Receipt<P>>)
    requires C.WellFormed(s.cache, zero) && HandshakeInv(s) && CacheInv(s, zero) && Traced(s, zero, taken)
    ensures Traced(Run(s, zero, actions), zero, taken + Taken(s, zero, actions))
    decreases |actions|
  {
    hide Traced, HandshakeInv, CacheInv, TakenBy, Step;
    if actions == [] {
      assert taken + [] == taken;
    } else {
      var a := actions[0];
      var t := Step(s, zero, a);
      StepKeepsHandshake(s, zero, a);
      StepKeepsCache(s, zero, a);
      StepKeepsTrace(s, zero, a, taken);
      RunKeepsTrace(t, zero, actions[1..], taken + TakenBy(s, t));
      assert taken + TakenBy(s, t) + Taken(t, zero, actions[1..]) == taken + Taken(s, zero, actions);
    }
  }

  /**
   * In every run, what is stored is exactly what was received: the cache's history of stores is, in order, that of the
   * frames whose callback has returned, each in its own part and none of another message.
   */
  lemma StoredIsReceived<P>(zero: seq<Slot<P>>, timeout: int, open: bool, actions: seq<Action<P>>)
    ensures var start := Start(zero, timeout, open);
            var s := Run(start, zero, actions);
            StoredIn(s.cache.log) == AsStored(HandedOn(s, Taken(start, zero, actions)), |zero|)
  {
    var start := Start(zero, timeout, open);
    ReachableInv(zero, timeout, open, []);
    RunKeepsTrace(start, zero, actions, []);
    assert [] + Taken(start, zero, actions) == Taken(start, zero, actions);
  }

  /** The last frame of that part. */
  function LastReceived<P>(taken: seq<Receipt<P>>, part: nat): Option<Receipt<P>> {
    if taken == [] then None
    else if taken[|taken| - 1].frame.part == part then Some(taken[|taken| - 1])
    else LastReceived(taken[..|taken| - 1], part)
  }

  /** The last store of that part, whatever was cleared in between. */
  function LastEvent<V>(events: seq<C.Event<V>>, part: nat): Option<C.Event<V>> {
    if events == [] then None
    else if events[|events| - 1].Stored? && events[|events| - 1].part == part then Some(events[|events| - 1])
    else LastEvent(events[..|events| - 1], part)
  }

  lemma {:induction false} LastStoredIsLastEvent<V>(log: seq<C.Event<V>>, part: nat)
    requires C.LastStored(log, part).Some?
    ensures LastEvent(StoredIn(log), part) == Some(C.Stored(part, C.LastStored(log, part).value))
    decreases |log|
  {
    var n := |log| - 1;
    assert log == log[..n] + [log[n]];
    StoredInAppend(log[..n], log[n]);
    if log[n].part == part {
    } else {
      LastStoredIsLastEvent(log[..n], part);
      assert StoredIn(log)[..|StoredIn(log)| - 1] == StoredIn(log[..n]);
    }
  }

  lemma LastEventAppend<V>(events: seq<C.Event<V>>, e: C.Event<V>, part: nat)
    ensures LastEvent(events + [e], part) == if e.Stored? && e.part == part then Some(e) else LastEvent(events, part)
  {
    assert (events + [e])[..|events|] == events;
  }

  lemma {:induction false} LastEventIsLastReceived<P>(taken: seq<Receipt<P>>, parts: nat, part: nat)
    requires part < parts
    ensures var e, r := LastEvent(AsStored(taken, parts), part), LastReceived(taken, part);
            && (e.Some? <==> r.Some?)
            && (r.Some? ==> r.value.frame.part == part
                            && e.value == C.Stored(part, Slot(r.value.session, r.value.frame.payload)))
    decreases |taken|
  {
    if taken == [] {
    } else {
      var n := |taken| - 1;
      var r := taken[n];
      LastEventIsLastReceived(taken[..n], parts, part);
      LastEventAppend(AsStored(taken[..n], parts), C.Stored(r.frame.part, Slot(r.session, r.frame.payload)), part);
      assert AsStored(taken[..n], parts) + [] == AsStored(taken[..n], parts);
    }
  }

  /** So every part that counts as arrived shows the payload of the last frame received for it and handed on. */
  lemma ShownIsLastReceived<P>(zero: seq<Slot<P>>, timeout: int, open: bool, actions: seq<Action<P>>, p: nat)
    requires p < |zero| && Run(Start(zero, timeout, open), zero, actions).cache.cell.initialized[p]
    ensures var start := Start(zero, timeout, open);
            var s := Run(start, zero, actions);
            var last := LastReceived(HandedOn(s, Taken(start, zero, actions)), p);
            && last.Some? && last.value.frame.part == p
            && s.cache.cell.value[p] == Slot(last.value.session, last.value.frame.payload)
  {
    var s := Run(Start(zero, timeout, open), zero, actions);
    ReachableInv(zero, timeout, open, actions);
    StoredIsReceived(zero, timeout, open, actions);
    LastStoredIsLastEvent(s.cache.log, p);
    LastEventIsLastReceived(HandedOn(s, Taken(Start(zero, timeout, open), zero, actions)), |zero|, p);
  }

  /**
   * Valid or not, a snapshot shows blank slots and the current session's frames only, and a disconnected interface
   * shows the blank value. A valid one shows, in every part, the last frame received for that part, and it was received
   * in this session.
   */
  lemma SessionsAreIsolated<P>(zero: seq<Slot<P>>, timeout: int, open: bool, actions: seq<Action<P>>)
    ensures var s := Run(Start(zero, timeout, open), zero, actions);
            && (forall p :: 0 <= p < |zero| ==>
                  s.cache.cell.value[p] == zero[p] || s.cache.cell.value[p].session == s.session)
            && (s.ctrl == Down ==> s.cache.cell.value == zero)
    ensures var s := Run(Start(zero, timeout, open), zero, actions);
            |zero| > 0 && s.cache.cell.Valid() ==>
              && s.ctrl != Down
              && (forall p :: 0 <= p < |zero| ==> s.cache.cell.value[p].session == s.session)
              && (forall p :: 0 <= p < |zero| ==> C.LastStored(s.cache.log, p) == Some(s.cache.cell.value[p]))
    ensures var start := Start(zero, timeout, open);
            var s := Run(start, zero, actions);
            var handedOn := HandedOn(s, Taken(start, zero, actions));
            |zero| > 0 && s.cache.cell.Valid() ==>
              forall p :: 0 <= p < |zero| ==>
                LastReceived(handedOn, p) == Some(Receipt(s.session, BusFrame(p, s.cache.cell.value[p].payload)))
  {
    ReachableInv(zero, timeout, open, actions);
    var s := Run(Start(zero, timeout, open), zero, actions);
    if |zero| > 0 && s.cache.cell.Valid() {
      assert s.cache.cell.initialized[0];
      forall p: nat | p < |zero|
        ensures LastReceived(HandedOn(s, Taken(Start(zero, timeout, open), zero, actions)), p)
                == Some(Receipt(s.session, BusFrame(p, s.cache.cell.value[p].payload)))
      {
        ShownIsLastReceived(zero, timeout, open, actions, p);
      }
    }
  }

  /** One step's effect on what has arrived since the socket was last opened. */
  function InboxAfter<P>(s: State<P>, zero: seq<Slot<P>>, a: Action<P>, seen: seq<Datagram<BusFrame<P>>>)
    : seq<Datagram<BusFrame<P>>>
    requires C.WellFormed(s.cache, zero)
  {
    if !s.transport.open && Step(s, zero, a).transport.open then []
    else if a.Arrive? && s.transport.open then seen + [a.datagram]
    else seen
  }

  /** The same for a run, given what had arrived before it. */
  function Inbox<P>(s: State<P>, zero: seq<Slot<P>>, actions: seq<Action<P>>, seen: seq<Datagram<BusFrame<P>>>)
    : seq<Datagram<BusFrame<P>>>
    requires C.WellFormed(s.cache, zero)
    decreases |actions|
  {
    if actions == [] then seen
    else Inbox(Step(s, zero, actions[0]), zero, actions[1..], InboxAfter(s, zero, actions[0], seen))
  }

  /** The queue is the end of it. */
  ghost predicate QueuedFrom<P>(t: Transport<BusFrame<P>>, seen: seq<Datagram<BusFrame<P>>>) {
    && (!t.open ==> t.queue == [])
    && |t.queue| <= |seen| && t.queue == seen[|seen| - |t.queue|..]
  }

  /** A step leaves the queue, takes its head, adds an arrival, or opens or closes the socket. */
  lemma QueueMoves<P>(s: State<P>, zero: seq<Slot<P>>, a: Action<P>)
    requires C.WellFormed(s.cache, zero)
    ensures var t, u := s.transport, Step(s, zero, a).transport;
            || (u.open == t.open && (u.queue == t.queue || (t.queue != [] && u.queue == t.queue[1..]))
                && !(a.Arrive? && t.open))
            || (a.Arrive? && t.open && u.open && u.queue == t.queue + [a.datagram])
            || (u.open != t.open && u.queue == [])
  {}

  lemma StepKeepsQueue<P>(s: State<P>, zero: seq<Slot<P>>, a: Action<P>, seen: seq<Datagram<BusFrame<P>>>)
    requires C.WellFormed(s.cache, zero) && QueuedFrom(s.transport, seen)
    ensures QueuedFrom(Step(s, zero, a).transport, InboxAfter(s, zero, a, seen))
  {
    hide Step;
    QueueMoves(s, zero, a);
  }

  lemma {:induction false} RunKeepsQueue<P>(s: State<P>, zero: seq<Slot<P>>, actions: seq<Action<P>>,
                                            seen: seq<Datagram<BusFrame<P>>>)
    requires C.WellFormed(s.cache, zero) && QueuedFrom(s.transport, seen)
    ensures QueuedFrom(Run(s, zero, actions).transport, Inbox(s, zero, actions, seen))
    decreases |actions|
  {
    hide Step, QueuedFrom, InboxAfter;
    if actions == [] {
    } else {
      StepKeepsQueue(s, zero, actions[0], seen);
      RunKeepsQueue(Step(s, zero, actions[0]), zero, actions[1..], InboxAfter(s, zero, actions[0], seen));
    }
  }

  /**
   * In every run the socket's queue is the end of what arrived since it was opened, and empty while it is closed: no
   * session reads what an earlier one left.
   */
  lemma QueueIsThisSockets<P>(zero: seq<Slot<P>>, timeout: int, open: bool, actions: seq<Action<P>>)
    ensures var start := Start(zero, timeout, open);
            QueuedFrom(Run(start, zero, actions).transport, Inbox(start, zero, actions, []))
  {
    RunKeepsQueue(Start(zero, timeout, open), zero, actions, []);
  }

  /** How many steps a reader told to stop and woken can still take. */
  function Rank(r: Reader): nat {
    match r
    case NotRunning => 0
    case Exited => 0
    case LoopTop => 1
    case Draining => 2
    case InCallback => 2
    case Receiving => 3
    case Polling => 4
    case EnterRead => 5
    case CheckOpen => 6
  }

  function Reads<P>(actions: seq<Action<P>>): nat {
    if actions == [] then 0 else (if actions[0].Read? then 1 else 0) + Reads(actions[1..])
  }

  lemma PostedReadProgresses<P>(s: State<P>, zero: seq<Slot<P>>, a: Action<P>)
    requires Inv(s, zero) && s.ctrl == Posted && !IsController(a)
    ensures var t := Step(s, zero, a);
            && t.ctrl == Posted && Rank(t.reader) <= Rank(s.reader)
            && (a.Read? && Rank(s.reader) > 0 ==> Rank(t.reader) < Rank(s.reader))
            && (s.reader == NotRunning <==> t.reader == NotRunning)
  {}

  /**
   * join() returns: while disconnectPort() waits, whatever the bus and other threads do, the reader has left
   * its loop after at most six of its own steps, each of which it is able to take.
   */
  lemma {:induction false} JoinReturns<P>(s: State<P>, zero: seq<Slot<P>>, later: seq<Action<P>>)
    requires C.WellFormed(s.cache, zero) && Inv(s, zero) && s.ctrl == Posted
    requires forall a :: a in later ==> !IsController(a)
    ensures var t := Run(s, zero, later);
            && t.ctrl == Posted
            && (Reads(later) >= Rank(s.reader) ==> Enabled(t, Join))
    decreases |later|
  {
    if later == [] {
    } else {
      var a := later[0];
      PostedReadProgresses(s, zero, a);
      StepKeepsHandshake(s, zero, a);
      StepKeepsCache(s, zero, a);
      JoinReturns(Step(s, zero, a), zero, later[1..]);
    }
  }

  /** The same from the very start: in every run that posts the interrupt, six more reader steps reach the join. */
  lemma DisconnectCompletes<P>(zero: seq<Slot<P>>, timeout: int, open: bool, actions: seq<Action<P>>, later: seq<Action<P>>)
    requires Run(Start(zero, timeout, open), zero, actions).ctrl == Posted
    requires (forall a :: a in later ==> !IsController(a)) && Reads(later) >= 6
    ensures Enabled(Run(Run(Start(zero, timeout, open), zero, actions), zero, later), Join)
  {
    ReachableInv(zero, timeout, open, actions);
    JoinReturns(Run(Start(zero, timeout, open), zero, actions), zero, later);
  }
}
