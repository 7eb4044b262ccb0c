/**
 * Concurrent three-frame commands. Any number of callers of controlJoints() and controlEndPose() take the one
 * transmit mutex, send parts one to three, and give up at the first failed send. The arm latches parts one and
 * two of each command family and acts when part three arrives.
 */
module Multipart {
  import opened Bytes
  import opened Messages
  import opened Parser
  import L = ParserLaws

  datatype Family = Joints | Pose
  /** One call and the target it was given. */
  datatype Call = Call(family: Family, target: Six)

  datatype Pc = Waiting | Sending(next: Part) | Done(ok: bool)

  datatype State = State(
    calls: seq<Call>, pcs: seq<Pc>, holder: Option<nat>, bus: seq<Frame>,
    finished: seq<nat>)   // the calls whose part three reached the bus, in bus order

  datatype Outcome = Sent | Failed(onBus: bool)

  datatype Action =
    | Invoke(call: Call)
    | Acquire(i: nat)
    | Send(i: nat, outcome: Outcome)  // a send that reports failure may or may not have reached the bus
    | Other(f: Frame)                 // any other command of the driver

  function KindOf(family: Family, part: Part): Kind {
    if family == Joints then JointCtrl(part) else MotionCtrlCartesian(part)
  }

  /** The message both functions build: the same struct each time, only the kind changing. */
  function MessageOf(c: Call, part: Part): Msg {
    DEFAULT.(kind := KindOf(c.family, part),
             cmd := if c.family == Joints then DEFAULT.cmd.(jointCtrl := c.target) else DEFAULT.cmd.(cartesian := c.target))
  }

  function FrameFor(c: Call, part: Part): (f: Frame)
    ensures f.data == PairBytes(c.target, part) && f.dlc == 8
    ensures Some(f.id) == KindToCanId(KindOf(c.family, part))
  {
    FrameOf(MessageOf(c, part), EncodeV2(MessageOf(c, part)).value)
  }

  predicate IsMultipartId(id: nat) {
    0x152 <= id <= 0x157
  }

  predicate Enabled(s: State, a: Action) {
    match a
    case Invoke(_) => true
    case Acquire(i) => i < |s.pcs| && s.pcs[i] == Waiting && s.holder == None
    case Send(i, _) => i < |s.pcs| && s.pcs[i].Sending?
    case Other(f) => !IsMultipartId(f.id)
  }

  predicate WellFormed(s: State) {
    && |s.calls| == |s.pcs|
    && (forall i :: 0 <= i < |s.pcs| ==> (s.pcs[i].Sending? <==> s.holder == Some(i)))
    && (s.holder.Some? ==> s.holder.value < |s.pcs|)
    && (forall k :: 0 <= k < |s.finished| ==> s.finished[k] < |s.calls|)
  }

  /** One atomic step; an action that is not enabled does nothing. */
  function Step(s: State, a: Action): (r: State)
    requires WellFormed(s)
    ensures WellFormed(r)
  {
    if !Enabled(s, a) then s
    else match a
      case Invoke(c) => s.(calls := s.calls + [c], pcs := s.pcs + [Waiting])
      case Acquire(i) => s.(pcs := s.pcs[i := Sending(0)], holder := Some(i))
      case Send(i, outcome) =>
        var part := s.pcs[i].next;
        var reached := outcome.Sent? || outcome.onBus;
        var bus := if reached then s.bus + [FrameFor(s.calls[i], part)] else s.bus;
        var finished := if reached && part == 2 then s.finished + [i] else s.finished;
        if outcome.Sent? && part < 2 then s.(pcs := s.pcs[i := Sending(part + 1)], bus := bus)
        else s.(pcs := s.pcs[i := Done(outcome.Sent?)], holder := None, bus := bus, finished := finished)
      case Other(f) => s.(bus := s.bus + [f])
  }

  const START := State([], [], None, [], [])

  function Run(actions: seq<Action>): (s: State)
    ensures WellFormed(s)
    decreases |actions|
  {
    if actions == [] then START else Step(Run(actions[..|actions| - 1]), actions[|actions| - 1])
  }

  // ---------- The receiving arm ----------

  /** A pair of values as read from a frame's bytes. */
  datatype Pair = Pair(first: int32, second: int32)

  /** What one command family has latched and acted on; a part three without both latches acts on nothing known. */
  datatype Latches = Latches(one: Option<Pair>, two: Option<Pair>)
  datatype Arm = Arm(joints: Latches, pose: Latches, commits: seq<Commit>)
  datatype Commit = Commit(family: Family, target: Option<Six>)

  function ReadPair(f: Frame): Pair {
    Pair(Int32At(f.data, 0), Int32At(f.data, 4))
  }

  function Target(l: Latches, last: Pair): Option<Six> {
    if l.one.Some? && l.two.Some? then
      var a, b := l.one.value, l.two.value;
      Some([a.first, a.second, b.first, b.second, last.first, last.second])
    else None
  }

  function Receive(arm: Arm, f: Frame): Arm {
    var p := ReadPair(f);
    if f.id == 0x155 then arm.(joints := arm.joints.(one := Some(p)))
    else if f.id == 0x156 then arm.(joints := arm.joints.(two := Some(p)))
    else if f.id == 0x157 then arm.(commits := arm.commits + [Commit(Joints, Target(arm.joints, p))])
    else if f.id == 0x152 then arm.(pose := arm.pose.(one := Some(p)))
    else if f.id == 0x153 then arm.(pose := arm.pose.(two := Some(p)))
    else if f.id == 0x154 then arm.(commits := arm.commits + [Commit(Pose, Target(arm.pose, p))])
    else arm
  }

  const IDLE_ARM := Arm(Latches(None, None), Latches(None, None), [])

  function Listen(bus: seq<Frame>): Arm
    decreases |bus|
  {
    if bus == [] then IDLE_ARM else Receive(Listen(bus[..|bus| - 1]), bus[|bus| - 1])
  }

  function LatchesOf(arm: Arm, family: Family): Latches {
    if family == Joints then arm.joints else arm.pose
  }

  function PairAt(c: Call, part: Part): Pair {
    Pair(c.target[2 * part], c.target[2 * part + 1])
  }

  lemma FrameReadsBack(c: Call, part: Part)
    ensures ReadPair(FrameFor(c, part)) == PairAt(c, part)
  {
    var d := PairBytes(c.target, part);
    L.PairRoundTrip(c.target, ZERO_SIX, part);
    L.PairOf(ZERO_SIX, part, d);
    assert [Int32At(d, 0), Int32At(d, 4)] == c.target[2 * part..2 * part + 2];
  }

  // ---------- Commands never mix ----------

  /** The call that holds the mutex has all the parts it has sent, and no other call's, in the arm's latches. */
  ghost predicate Follows(s: State, arm: Arm)
    requires WellFormed(s)
  {
    && (s.holder.Some? ==>
          var i := s.holder.value;
          var l := LatchesOf(arm, s.calls[i].family);
          && (s.pcs[i].next >= 1 ==> l.one == Some(PairAt(s.calls[i], 0)))
          && (s.pcs[i].next >= 2 ==> l.two == Some(PairAt(s.calls[i], 1))))
    && |arm.commits| == |s.finished|
    && (forall k :: 0 <= k < |arm.commits| ==> arm.commits[k] == CommitOf(s.calls[s.finished[k]]))
  }

  ghost predicate Inv(s: State) {
    WellFormed(s) && Follows(s, Listen(s.bus))
  }

  /** The commit of exactly the target one call was given. */
  function CommitOf(c: Call): Commit {
    Commit(c.family, Some(c.target))
  }

  lemma ListenAppend(bus: seq<Frame>, f: Frame)
    ensures Listen(bus + [f]) == Receive(Listen(bus), f)
  {
    assert (bus + [f])[..|bus|] == bus;
  }

  /** What one frame of call `c` does to the arm. */
  lemma ReceivePart(arm: Arm, c: Call, part: Part, f: Frame)
    requires Some(f.id) == KindToCanId(KindOf(c.family, part)) && ReadPair(f) == PairAt(c, part)
    ensures var l, after := LatchesOf(arm, c.family), Receive(arm, f);
            && (part == 0 ==> LatchesOf(after, c.family) == l.(one := Some(PairAt(c, 0))))
            && (part == 1 ==> LatchesOf(after, c.family) == l.(two := Some(PairAt(c, 1))))
            && (part < 2 ==> after.commits == arm.commits)
            && (part == 2 && l == Latches(Some(PairAt(c, 0)), Some(PairAt(c, 1))) ==>
                  after.commits == arm.commits + [CommitOf(c)])
  {
    assert c.target == [c.target[0], c.target[1], c.target[2], c.target[3], c.target[4], c.target[5]];
  }

  /** The first parts of a call make the arm act on nothing, and all three on exactly the call's target. */
  lemma PartsCommit(bus: seq<Frame>, c: Call, n: nat)
    requires n <= 3
    ensures Listen(bus + [FrameFor(c, 0), FrameFor(c, 1), FrameFor(c, 2)][..n]).commits
            == Listen(bus).commits + if n == 3 then [CommitOf(c)] else []
  {
    hide Listen, Receive, FrameFor;
    var f, g, h := FrameFor(c, 0), FrameFor(c, 1), FrameFor(c, 2);
    FrameReadsBack(c, 0);
    FrameReadsBack(c, 1);
    FrameReadsBack(c, 2);
    ListenAppend(bus, f);
    ListenAppend(bus + [f], g);
    ListenAppend(bus + [f] + [g], h);
    ReceivePart(Listen(bus), c, 0, f);
    ReceivePart(Listen(bus + [f]), c, 1, g);
    ReceivePart(Listen(bus + [f] + [g]), c, 2, h);
    assert bus + [f, g, h][..n]
           == if n == 0 then bus else if n == 1 then bus + [f] else if n == 2 then bus + [f] + [g]
              else bus + [f] + [g] + [h];
  }

  lemma SendKeepsInv(s: State, i: nat, outcome: Outcome)
    requires Inv(s) && Enabled(s, Send(i, outcome))
    ensures Inv(Step(s, Send(i, outcome)))
  {
    var c, part := s.calls[i], s.pcs[i].next;
    var f := FrameFor(c, part);
    FrameReadsBack(c, part);
    ListenAppend(s.bus, f);
    ReceivePart(Listen(s.bus), c, part, f);
    if outcome.Sent? || outcome.onBus {
      ReachedKeepsFollowing(s, i, outcome, Listen(s.bus), Listen(s.bus + [f]));
    }
  }

  lemma ReachedKeepsFollowing(s: State, i: nat, outcome: Outcome, arm: Arm, after: Arm)
    requires WellFormed(s) && Enabled(s, Send(i, outcome)) && Follows(s, arm)
    requires outcome.Sent? || outcome.onBus
    requires var c, part := s.calls[i], s.pcs[i].next;
             && (part == 0 ==> LatchesOf(after, c.family).one == Some(PairAt(c, 0)))
             && (part == 1 ==> LatchesOf(after, c.family) == LatchesOf(arm, c.family).(two := Some(PairAt(c, 1))))
             && after.commits == if part < 2 then arm.commits else arm.commits + [CommitOf(c)]
    ensures Follows(Step(s, Send(i, outcome)), after)
  {
    var t := Step(s, Send(i, outcome));
    assert t.calls == s.calls;
    assert t.holder.None? || t.pcs[i] == Sending(s.pcs[i].next + 1);
  }

  /** A new caller, and a caller taking the mutex, put nothing on the bus. */
  lemma CallKeepsFollowing(s: State, a: Action, arm: Arm)
    requires WellFormed(s) && Enabled(s, a) && (a.Invoke? || a.Acquire?) && Follows(s, arm)
    ensures Step(s, a).bus == s.bus && Follows(Step(s, a), arm)
  {}

  lemma OtherKeepsInv(s: State, f: Frame)
    requires Inv(s) && !IsMultipartId(f.id)
    ensures Inv(Step(s, Other(f)))
  {
    ListenAppend(s.bus, f);
    assert Listen(s.bus + [f]) == Listen(s.bus);
  }

  lemma StepKeepsInv(s: State, a: Action)
    requires Inv(s)
    ensures Inv(Step(s, a))
  {
    if Enabled(s, a) {
      match a
      case Invoke(_) => CallKeepsFollowing(s, a, Listen(s.bus));
      case Acquire(_) => CallKeepsFollowing(s, a, Listen(s.bus));
      case Send(i, outcome) => SendKeepsInv(s, i, outcome);
      case Other(f) => OtherKeepsInv(s, f);
    }
  }

  lemma {:induction false} RunKeepsInv(actions: seq<Action>)
    ensures Inv(Run(actions))
    decreases |actions|
  {
    if actions == [] {
    } else {
      RunKeepsInv(actions[..|actions| - 1]);
      StepKeepsInv(Run(actions[..|actions| - 1]), actions[|actions| - 1]);
    }
  }

  /**
   * For any number of concurrent callers and any pattern of failed sends, everything the arm acts on is the
   * whole target of one call: its k-th commit is the target of the k-th call to get its part three onto the bus.
   */
  lemma CommitsNeverMix(actions: seq<Action>, k: nat)
    requires k < |Listen(Run(actions).bus).commits|
    ensures var s := Run(actions);
            k < |s.finished| && Listen(s.bus).commits[k] == CommitOf(s.calls[s.finished[k]])
  {
    RunKeepsInv(actions);
  }

  // ---------- Exactly once ----------

  function Count(s: seq<nat>, i: nat): nat {
    if s == [] then 0 else (if s[|s| - 1] == i then 1 else 0) + Count(s[..|s| - 1], i)
  }

  lemma CountAppend(s: seq<nat>, j: nat, i: nat)
    ensures Count(s + [j], i) == Count(s, i) + if i == j then 1 else 0
  {
    assert (s + [j])[..|s|] == s;
  }

  /** A call that is still running has finished nothing; one that reported success finished exactly once. */
  ghost predicate OnceInv(s: State) {
    WellFormed(s) && forall i :: 0 <= i < |s.pcs| ==>
      && (s.pcs[i].Done? || Count(s.finished, i) == 0)
      && Count(s.finished, i) <= 1
      && (s.pcs[i] == Done(true) ==> Count(s.finished, i) == 1)
  }

  lemma StepKeepsOnce(s: State, a: Action)
    requires OnceInv(s)
    ensures OnceInv(Step(s, a))
  {
    if Enabled(s, a) && a.Send? {
      forall i | 0 <= i < |s.pcs| ensures Count(s.finished + [a.i], i) == Count(s.finished, i) + if i == a.i then 1 else 0 {
        CountAppend(s.finished, a.i, i);
      }
    } else if a.Invoke? {
      NeverFinished(s.finished, |s.calls|);
    }
  }

  lemma {:induction false} NeverFinished(finished: seq<nat>, n: nat)
    requires forall k :: 0 <= k < |finished| ==> finished[k] < n
    ensures Count(finished, n) == 0
  {
    if finished == [] {
    } else {
      NeverFinished(finished[..|finished| - 1], n);
    }
  }

  /** No call commits twice, and a call that returned true has committed once. */
  lemma {:induction false} EachCallCommitsOnce(actions: seq<Action>)
    ensures OnceInv(Run(actions))
    decreases |actions|
  {
    if actions == [] {
    } else {
      EachCallCommitsOnce(actions[..|actions| - 1]);
      StepKeepsOnce(Run(actions[..|actions| - 1]), actions[|actions| - 1]);
    }
  }
}
