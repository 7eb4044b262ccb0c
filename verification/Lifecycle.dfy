/** When the hardware component may stream targets, over every run of lifecycle callbacks. */
module Lifecycle {

  /** Whether the component holds a CAN interface, and whether `write` may send. */
  datatype Flags = Flags(present: bool, active: bool)

  datatype Callback = Configure | Activate | Deactivate | Cleanup | OnError | Read | Write

  /** What a callback does to the flags, by whether it reports success. */
  function Effect(c: Callback, ok: bool, f: Flags): Flags {
    match c
    case Configure => f.(present := ok)
    case Activate => if ok then f.(active := true) else f
    case Deactivate => f.(active := false)
    case Cleanup => f.(present := false)
    case OnError => Flags(false, false)
    case Read => f
    case Write => f
  }

  /** The outcomes the component can report. */
  predicate Possible(c: Callback, ok: bool, f: Flags) {
    match c
    case Configure => true
    case Activate => ok ==> f.present
    case Deactivate => ok
    case Cleanup => ok
    case OnError => ok
    case Read => ok ==> f.present
    case Write => if f.present && !f.active then ok else ok ==> f.present
  }

  /** `write` puts targets on the bus only when both flags are set. */
  predicate Streams(f: Flags) {
    f.present && f.active
  }

  datatype Node = Unconfigured | Inactive | Active | Finalized

  datatype State = State(node: Node, flags: Flags)

  /** A callback the manager makes, or shutdown, which the component does not handle. */
  datatype Event = Call(c: Callback, ok: bool) | Shutdown

  /** The callbacks the manager makes in each node; it calls OnError itself after a failure. */
  predicate Legal(n: Node, c: Callback) {
    match c
    case Configure => n == Unconfigured
    case Activate => n == Inactive
    case Deactivate => n == Active
    case Cleanup => n == Inactive
    case Read => n == Inactive || n == Active
    case Write => n == Inactive || n == Active
    case OnError => false
  }

  function Next(n: Node, c: Callback): Node {
    match c
    case Configure => Inactive
    case Activate => Active
    case Deactivate => Inactive
    case Cleanup => Unconfigured
    case OnError => Unconfigured
    case Read => n
    case Write => n
  }

  /** A failed callback is followed by OnError and leaves the component unconfigured. */
  function Step(s: State, e: Event): State {
    match e
    case Shutdown => s.(node := Finalized)
    case Call(c, ok) =>
      if !Legal(s.node, c) || !Possible(c, ok, s.flags) then s
      else
        var f := Effect(c, ok, s.flags);
        if ok then State(Next(s.node, c), f) else State(Unconfigured, Effect(OnError, true, f))
  }

  const START := State(Unconfigured, Flags(false, false))

  function Run(events: seq<Event>): State {
    if events == [] then START else Step(Run(events[..|events| - 1]), events[|events| - 1])
  }

  /**
   * Over every legal run the flags are exactly what the node says: no interface and no streaming while
   * unconfigured, an interface from configuration on, and streaming while and only while active.
   */
  lemma {:induction false} FlagsFollowNode(events: seq<Event>)
    ensures var s := Run(events);
            && (s.node == Unconfigured ==> s.flags == Flags(false, false))
            && (s.node == Inactive ==> s.flags == Flags(true, false))
            && (s.node == Active ==> s.flags == Flags(true, true))
            && (s.flags.active ==> s.flags.present)
    decreases |events|
  {
    if events == [] {
    } else {
      FlagsFollowNode(events[..|events| - 1]);
    }
  }

  /** So wherever the manager calls `write`, targets may leave exactly when the component is active. */
  lemma TargetsLeaveOnlyWhileActive(events: seq<Event>)
    ensures Legal(Run(events).node, Write) ==> (Streams(Run(events).flags) <==> Run(events).node == Active)
  {
    FlagsFollowNode(events);
  }

  /**
   * Cleanup alone leaves the streaming flag as it is: the implication above rests on the manager never
   * cleaning up an active component, and only on that.
   */
  lemma CleanupBreaksIffActive(f: Flags)
    requires f.active ==> f.present
    ensures var g := Effect(Cleanup, true, f); (g.active ==> g.present) <==> !f.active
  {}
}
