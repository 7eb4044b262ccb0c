/**
 * The transmit shadow of the 0x151 mode message. Six setters share it: each changes one field of the last state
 * sent, sends the whole message, and keeps the change only if the send succeeded.
 */
module MotionShadow {
  import opened Bytes
  import opened Messages
  import opened Mit
  import opened Parser
  import L = ParserLaws

  datatype Setter =
    | SetAll(mode: MotionMode)
    | SetCtrlMode(ctrlMode: byte)
    | SetMoveMode(moveMode: byte)
    | SetSpeedPercentage(speed: byte)
    | SetMitMode(mitMode: byte)
    | SetResidenceTime(residence: byte)
    | SetInstallationPos(installation: byte)

  function ClampSpeed(b: byte): (r: byte)
    ensures r <= b && r <= 100 && (r == b || r == 100)
  {
    if b > 100 then 100 else b
  }

  /** The state a setter asks for, given the last one sent. */
  function Requested(shadow: MotionMode, a: Setter): MotionMode {
    match a
    case SetAll(m) => m.(speed := ClampSpeed(m.speed))
    case SetCtrlMode(b) => shadow.(ctrlMode := b)
    case SetMoveMode(b) => shadow.(moveMode := b)
    case SetSpeedPercentage(b) => shadow.(speed := ClampSpeed(b))
    case SetMitMode(b) => shadow.(mitMode := b)
    case SetResidenceTime(b) => shadow.(residence := b)
    case SetInstallationPos(b) => shadow.(installation := b)
  }

  predicate MoveModeAcceptable(p: Protocol, b: byte) {
    p.V2? || b <= MOVE_CPV
  }

  predicate InstallationAcceptable(p: Protocol, b: byte) {
    if p.V2? then b != HORIZONTAL_INVERTED else b <= HORIZONTAL_INVERTED
  }

  /** The caller's own value is one the protocol's 0x151 message can carry. */
  predicate OwnValueAcceptable(p: Protocol, a: Setter) {
    match a
    case SetAll(m) =>
      && (p.V2? || (AcceptsCtrlMode(m.ctrlMode) && AcceptsMitMode(m.mitMode)))
      && MoveModeAcceptable(p, m.moveMode) && InstallationAcceptable(p, m.installation)
    case SetCtrlMode(b) => p.V2? || AcceptsCtrlMode(b)
    case SetMoveMode(b) => MoveModeAcceptable(p, b)
    case SetMitMode(b) => p.V2? || AcceptsMitMode(b)
    case SetInstallationPos(b) => InstallationAcceptable(p, b)
    case SetSpeedPercentage(_) => true
    case SetResidenceTime(_) => true
  }

  function MotionMessage(c: MotionMode): Msg {
    DEFAULT.(kind := MotionCtrl2, cmd := DEFAULT.cmd.(motionMode := c))
  }

  /** What a listener on the bus takes a 0x151 frame to say. */
  function ReadMotion(p: Protocol, f: Frame): MotionMode {
    Decode(p, f, 0.0, DEFAULT).1.cmd.motionMode
  }

  /** The content of the last 0x151 frame on the bus, or the defaults if there was none. */
  function LastMotion(p: Protocol, bus: seq<Frame>): MotionMode {
    if bus == [] then DEFAULT_MOTION_MODE
    else if bus[|bus| - 1].id == 0x151 then ReadMotion(p, bus[|bus| - 1])
    else LastMotion(p, bus[..|bus| - 1])
  }

  /** The shadow is what was last said on the bus, and something the encoder accepts. */
  ghost predicate Sound(p: Protocol, shadow: MotionMode, bus: seq<Frame>) {
    shadow == LastMotion(p, bus) && AcceptsMotion(p, shadow)
  }

  lemma LastMotionAppend(p: Protocol, bus: seq<Frame>, f: Frame)
    ensures LastMotion(p, bus + [f]) == if f.id == 0x151 then ReadMotion(p, f) else LastMotion(p, bus)
  {
    assert (bus + [f])[..|bus|] == bus;
  }

  /** An accepted state is encoded, and its frame reads back as that state. */
  lemma SentStateReadsBack(p: Protocol, c: MotionMode)
    requires AcceptsMotion(p, c)
    ensures var m := MotionMessage(c); Encode(p, m).Some? && ReadMotion(p, FrameOf(m, Encode(p, m).value)) == c
  {
    var m := MotionMessage(c);
    var f := FrameOf(m, Encode(p, m).value);
    L.MotionMeans(p, m, f, AcceptFrame(f, 0.0, DEFAULT).1);
  }

  lemma EncodesIffAccepted(p: Protocol, c: MotionMode)
    ensures Encode(p, MotionMessage(c)).Some? <==> AcceptsMotion(p, c)
  {}

  /** Starting from a sound shadow, only the caller's own value decides whether the request is acceptable. */
  lemma OwnValueDecides(p: Protocol, shadow: MotionMode, a: Setter)
    requires AcceptsMotion(p, shadow)
    ensures AcceptsMotion(p, Requested(shadow, a)) <==> OwnValueAcceptable(p, a)
  {}

  // ---------- All runs of setter calls, serialised by their mutex ----------

  datatype Event =
    | Call(setter: Setter, connected: bool, transport: bool)  // a setter call and how the transport behaved
    | OtherFrame(f: Frame)                                    // any other command on the bus

  datatype State = State(shadow: MotionMode, bus: seq<Frame>, answers: seq<bool>)

  function Step(p: Protocol, s: State, e: Event): State {
    match e
    case OtherFrame(f) => if f.id == 0x151 then s else s.(bus := s.bus + [f])
    case Call(a, connected, transport) =>
      var next := Requested(s.shadow, a);
      var payload := Encode(p, MotionMessage(next));
      if connected && payload.Some? && transport then
        State(next, s.bus + [FrameOf(MotionMessage(next), payload.value)], s.answers + [true])
      else s.(answers := s.answers + [false])
  }

  function Run(p: Protocol, events: seq<Event>): State
    decreases |events|
  {
    if events == [] then State(DEFAULT_MOTION_MODE, [], [])
    else Step(p, Run(p, events[..|events| - 1]), events[|events| - 1])
  }

  /** In every reachable state the shadow is the content of the last 0x151 frame sent, and is acceptable. */
  lemma {:induction false} ShadowNeverPoisoned(p: Protocol, events: seq<Event>)
    ensures Sound(p, Run(p, events).shadow, Run(p, events).bus)
    decreases |events|
  {
    if events == [] {
    } else {
      var before, e := Run(p, events[..|events| - 1]), events[|events| - 1];
      ShadowNeverPoisoned(p, events[..|events| - 1]);
      match e
      case OtherFrame(f) => LastMotionAppend(p, before.bus, f);
      case Call(a, connected, transport) =>
        var next := Requested(before.shadow, a);
        EncodesIffAccepted(p, next);
        if AcceptsMotion(p, next) {
          SentStateReadsBack(p, next);
          LastMotionAppend(p, before.bus, FrameOf(MotionMessage(next), Encode(p, MotionMessage(next)).value));
        }
    }
  }

  /**
   * Whatever was requested or refused before, a setter succeeds exactly if its own value is acceptable and the
   * transport works.
   */
  lemma SetterFailsOnlyForItsOwnValue(p: Protocol, events: seq<Event>, a: Setter, connected: bool, transport: bool)
    ensures var answers := Run(p, events + [Call(a, connected, transport)]).answers;
            |answers| > 0 && (answers[|answers| - 1] <==> connected && transport && OwnValueAcceptable(p, a))
  {
    var e := Call(a, connected, transport);
    assert (events + [e])[..|events|] == events;
    var before := Run(p, events);
    ShadowNeverPoisoned(p, events);
    OwnValueDecides(p, before.shadow, a);
    EncodesIffAccepted(p, Requested(before.shadow, a));
  }
}
