/** A value fed by the read thread, with per-part arrival tracking. Times are steady-clock nanoseconds. */
module TimedFreqStates {
  import opened Messages

  const DEFAULT_HEALTH_TIMEOUT := 1_000_000_000
  const NANOS_PER_SECOND := 1.0e9

  /** The contents of a state, as its methods see it under the lock. */
  datatype Cell<T> = Cell(value: T, timestamp: real, timeout: int,
                          hz: seq<real>, lastReceived: seq<int>, initialized: seq<bool>) {
    /** The three per-part vectors are resized together. */
    predicate Aligned() {
      |hz| == |lastReceived| == |initialized|
    }

    predicate Valid() {
      |initialized| > 0 && forall p :: 0 <= p < |initialized| ==> initialized[p]
    }

    predicate Healthy(now: int)
      requires Aligned()
    {
      Valid() && forall p :: 0 <= p < |lastReceived| ==> now - lastReceived[p] <= timeout
    }

    /** The mean rate over the parts; a state without parts divides by zero. */
    function Rate(): Option<real> {
      if |hz| == 0 then None else Some(Sum(hz, |hz|) / |hz| as real)
    }
  }

  /** What a snapshot taken at one instant shows. */
  datatype Snapshot<T> = Snapshot(value: T, timestamp: real, hz: Option<real>, isValid: bool, isHealthy: bool)

  function Sum(s: seq<real>, n: nat): real
    requires n <= |s|
  {
    if n == 0 then 0.0 else Sum(s, n - 1) + s[n - 1]
  }

  function Fresh<T>(zero: T, parts: nat, timeout: int): Cell<T> {
    Cell(zero, 0.0, timeout, seq(parts, _ => 0.0), seq(parts, _ => 0), seq(parts, _ => false))
  }

  function Resized<A>(s: seq<A>, n: nat, fill: A): (r: seq<A>)
    ensures |r| == n
    ensures forall p :: 0 <= p < n ==> r[p] == if p < |s| then s[p] else fill
  {
    seq(n, p requires 0 <= p < n => if p < |s| then s[p] else fill)
  }

  /** The measured rate of part `p` when its next frame arrives at `now`. */
  function NextRate<T>(c: Cell<T>, p: nat, now: int): real
    requires c.Aligned() && p < |c.initialized|
  {
    if !c.initialized[p] then c.hz[p]
    else
      var dt := (now - c.lastReceived[p]) as real / NANOS_PER_SECOND;
      if dt > 0.0 then 1.0 / dt else 0.0
  }

  function SetCell<T>(c: Cell<T>, v: T, timestamp: real, p: nat, now: int): Cell<T>
    requires c.Aligned() && p < |c.initialized|
  {
    c.(value := v, timestamp := timestamp, hz := c.hz[p := NextRate(c, p, now)],
       lastReceived := c.lastReceived[p := now], initialized := c.initialized[p := true])
  }

  /** Arrival times stay stored: only the flags say they are meaningless. */
  function ResetCell<T>(c: Cell<T>, zero: T): Cell<T> {
    c.(value := zero, timestamp := 0.0, hz := seq(|c.hz|, _ => 0.0), initialized := seq(|c.initialized|, _ => false))
  }

  function ResizeCell<T>(c: Cell<T>, parts: nat): Cell<T> {
    c.(hz := Resized(c.hz, parts, 0.0), lastReceived := Resized(c.lastReceived, parts, 0),
       initialized := Resized(c.initialized, parts, false))
  }

  function SnapshotCell<T>(c: Cell<T>, now: int): Snapshot<T>
    requires c.Aligned()
  {
    Snapshot(c.value, c.timestamp, c.Rate(), c.Valid(), c.Healthy(now))
  }

  class TimedFreqState<T> {
    const zero: T
    var value: T
    var timestamp: real
    var healthTimeout: int
    var hz: seq<real>
    var lastReceived: seq<int>
    var initialized: seq<bool>

    function Contents(): Cell<T> reads this {
      Cell(value, timestamp, healthTimeout, hz, lastReceived, initialized)
    }

    ghost predicate Valid() reads this {
      Contents().Aligned()
    }

    /** One part and the default timeout until told otherwise. */
    constructor (zero: T)
      ensures Valid() && this.zero == zero && Contents() == Fresh(zero, 1, DEFAULT_HEALTH_TIMEOUT)
    {
      this.zero := zero;
      value, timestamp, healthTimeout := zero, 0.0, DEFAULT_HEALTH_TIMEOUT;
      hz, lastReceived, initialized := [0.0], [0], [false];
    }

    method SetNumCallers(n: nat)
      requires Valid()
      modifies this
      ensures Valid() && Contents() == ResizeCell(old(Contents()), n)
    {
      lastReceived := Resized(lastReceived, n, 0);
      initialized := Resized(initialized, n, false);
      hz := Resized(hz, n, 0.0);
    }

    method GetNumCallers() returns (n: nat)
      requires Valid()
      ensures n == |Contents().initialized|
    {
      n := |lastReceived|;
    }

    method SetHealthTimeout(timeout: int)
      requires Valid()
      modifies this
      ensures Valid() && Contents() == old(Contents()).(timeout := timeout)
    {
      healthTimeout := timeout;
    }

    /** An unknown part throws before anything is stored. */
    method Set(newValue: T, timestamp: real, caller: int, now: int) returns (ok: bool)
      requires Valid()
      modifies this
      ensures Valid() && (ok <==> 0 <= caller < |old(Contents()).initialized|)
      ensures Contents() == if ok then SetCell(old(Contents()), newValue, timestamp, caller, now) else old(Contents())
    {
      if !(0 <= caller < |initialized|) {
        return false;
      }
      if initialized[caller] {
        var dt := (now - lastReceived[caller]) as real / NANOS_PER_SECOND;
        hz := hz[caller := if dt > 0.0 then 1.0 / dt else 0.0];
      }
      value := newValue;
      this.timestamp := timestamp;
      lastReceived := lastReceived[caller := now];
      initialized := initialized[caller := true];
      ok := true;
    }

    method Reset()
      requires Valid()
      modifies this
      ensures Valid() && Contents() == ResetCell(old(Contents()), zero)
    {
      value, timestamp := zero, 0.0;
      initialized := seq(|initialized|, _ => false);
      hz := seq(|hz|, _ => 0.0);
    }

    method IsValid() returns (b: bool)
      requires Valid()
      ensures b == Contents().Valid()
    {
      b := |initialized| > 0;
      for i := 0 to |initialized|
        invariant b <==> |initialized| > 0 && forall p :: 0 <= p < i ==> initialized[p]
      {
        if !initialized[i] {
          return false;
        }
      }
    }

    /** Arrival times are looked at only when every part is initialised. */
    method IsHealthy(now: int) returns (b: bool)
      requires Valid()
      ensures b == Contents().Healthy(now)
    {
      b := IsValid();
      if !b {
        return;
      }
      for i := 0 to |lastReceived|
        invariant forall p :: 0 <= p < i ==> now - lastReceived[p] <= healthTimeout
      {
        if now - lastReceived[i] > healthTimeout {
          return false;
        }
      }
    }

    method GetHz() returns (rate: Option<real>)
      requires Valid()
      ensures rate == Contents().Rate()
    {
      var total := 0.0;
      for i := 0 to |hz|
        invariant total == Sum(hz, i)
      {
        total := total + hz[i];
      }
      rate := if |hz| == 0 then None else Some(total / |hz| as real);
    }

    method GetValue() returns (v: T)
      requires Valid()
      ensures v == Contents().value
    {
      v := value;
    }

    method GetSnapshot(now: int) returns (s: Snapshot<T>)
      requires Valid()
      ensures s == SnapshotCell(Contents(), now)
    {
      var rate := GetHz();
      var valid := IsValid();
      var healthy := IsHealthy(now);
      s := Snapshot(value, timestamp, rate, valid, healthy);
    }
  }

  // ---------- A reset state is indistinguishable from a new one ----------

  /** Anything a client can do to a state. */
  datatype Op<T> =
    | Set(value: T, timestamp: real, caller: int, now: int)
    | Reset
    | SetNumCallers(n: nat)
    | SetHealthTimeout(timeout: int)

  function Apply<T>(c: Cell<T>, zero: T, op: Op<T>): (r: Cell<T>)
    requires c.Aligned()
    ensures r.Aligned()
  {
    match op
    case Set(v, ts, p, now) => if 0 <= p < |c.initialized| then SetCell(c, v, ts, p, now) else c
    case Reset => ResetCell(c, zero)
    case SetNumCallers(n) => ResizeCell(c, n)
    case SetHealthTimeout(t) => c.(timeout := t)
  }

  function ApplyAll<T>(c: Cell<T>, zero: T, ops: seq<Op<T>>): (r: Cell<T>)
    requires c.Aligned()
    ensures r.Aligned()
    decreases |ops|
  {
    if ops == [] then c else ApplyAll(Apply(c, zero, ops[0]), zero, ops[1..])
  }

  /** Equal but for the arrival times of parts that have not arrived. */
  ghost predicate Alike<T>(a: Cell<T>, b: Cell<T>) {
    && a.Aligned() && b.Aligned()
    && a.value == b.value && a.timestamp == b.timestamp && a.timeout == b.timeout
    && a.hz == b.hz && a.initialized == b.initialized
    && forall p :: 0 <= p < |a.initialized| && a.initialized[p] ==> a.lastReceived[p] == b.lastReceived[p]
  }

  lemma AlikeStep<T>(a: Cell<T>, b: Cell<T>, zero: T, op: Op<T>)
    requires Alike(a, b)
    ensures Alike(Apply(a, zero, op), Apply(b, zero, op))
  {}

  lemma {:induction false} AlikeRun<T>(a: Cell<T>, b: Cell<T>, zero: T, ops: seq<Op<T>>)
    requires Alike(a, b)
    ensures Alike(ApplyAll(a, zero, ops), ApplyAll(b, zero, ops))
    decreases |ops|
  {
    if ops == [] {
    } else {
      AlikeStep(a, b, zero, ops[0]);
      AlikeRun(Apply(a, zero, ops[0]), Apply(b, zero, ops[0]), zero, ops[1..]);
    }
  }

  /**
   * After `reset()`, every later sequence of operations followed by a read at any time gives exactly what a
   * newly constructed state with the same parts and timeout would give, measured rates included, although the
   * old arrival times are still stored.
   */
  lemma ResetEqualsFresh<T>(c: Cell<T>, zero: T, ops: seq<Op<T>>, now: int)
    requires c.Aligned()
    ensures SnapshotCell(ApplyAll(ResetCell(c, zero), zero, ops), now)
            == SnapshotCell(ApplyAll(Fresh(zero, |c.initialized|, c.timeout), zero, ops), now)
  {
    AlikeRun(ResetCell(c, zero), Fresh(zero, |c.initialized|, c.timeout), zero, ops);
  }

  /** The stale arrival times do survive in the representation, so the equality above is not structural. */
  lemma ResetKeepsArrivalTimes<T>(c: Cell<T>, zero: T, p: nat)
    requires c.Aligned() && p < |c.lastReceived| && c.lastReceived[p] != 0
    ensures ResetCell(c, zero) != Fresh(zero, |c.initialized|, c.timeout)
  {
    assert ResetCell(c, zero).lastReceived[p] != Fresh(zero, |c.initialized|, c.timeout).lastReceived[p];
  }

  // ---------- What a state shows, from what was done to it ----------

  /** How many parts there are after these operations. */
  function PartsAfter<T>(parts: nat, ops: seq<Op<T>>): nat
    decreases |ops|
  {
    if ops == [] then parts
    else
      var op := ops[|ops| - 1];
      if op.SetNumCallers? then op.n else PartsAfter(parts, ops[..|ops| - 1])
  }

  function TimeoutAfter<T>(timeout: int, ops: seq<Op<T>>): int
    decreases |ops|
  {
    if ops == [] then timeout
    else
      var op := ops[|ops| - 1];
      if op.SetHealthTimeout? then op.timeout else TimeoutAfter(timeout, ops[..|ops| - 1])
  }

  /** When part `p` was last set, unless everything was reset since or the part was dropped. */
  function LastArrival<T>(parts: nat, ops: seq<Op<T>>, p: nat): Option<int>
    decreases |ops|
  {
    if ops == [] then None
    else
      var before, op := ops[..|ops| - 1], ops[|ops| - 1];
      match op
      case Set(_, _, caller, now) =>
        if caller == p && p < PartsAfter(parts, before) then Some(now) else LastArrival(parts, before, p)
      case Reset => None
      case SetNumCallers(n) => if p < n then LastArrival(parts, before, p) else None
      case SetHealthTimeout(_) => LastArrival(parts, before, p)
  }

  /** The rate part `p` was last seen to arrive at: from its last two arrivals, and 0 with fewer. */
  function LastRate<T>(parts: nat, ops: seq<Op<T>>, p: nat): real
    decreases |ops|
  {
    if ops == [] then 0.0
    else
      var before, op := ops[..|ops| - 1], ops[|ops| - 1];
      match op
      case Set(_, _, caller, now) =>
        var last := LastArrival(parts, before, p);
        if caller != p || p >= PartsAfter(parts, before) || last.None? then LastRate(parts, before, p)
        else if now <= last.value then 0.0
        else 1000000000.0 / (now - last.value) as real
      case Reset => 0.0
      case SetNumCallers(n) => if p < n then LastRate(parts, before, p) else 0.0
      case SetHealthTimeout(_) => LastRate(parts, before, p)
  }

  /** The value and time stamp of the last accepted set, or the blank value. */
  function Latest<T>(zero: T, parts: nat, ops: seq<Op<T>>): (T, real)
    decreases |ops|
  {
    if ops == [] then (zero, 0.0)
    else
      var before, op := ops[..|ops| - 1], ops[|ops| - 1];
      match op
      case Set(v, ts, caller, _) =>
        if 0 <= caller < PartsAfter(parts, before) then (v, ts) else Latest(zero, parts, before)
      case Reset => (zero, 0.0)
      case SetNumCallers(_) => Latest(zero, parts, before)
      case SetHealthTimeout(_) => Latest(zero, parts, before)
  }

  lemma {:induction false} ApplyAllAppend<T>(c: Cell<T>, zero: T, ops: seq<Op<T>>, op: Op<T>)
    requires c.Aligned()
    ensures ApplyAll(c, zero, ops + [op]) == Apply(ApplyAll(c, zero, ops), zero, op)
    decreases |ops|
  {
    if ops == [] {
      assert ops + [op] == [op] && [op][1..] == [];
    } else {
      assert (ops + [op])[1..] == ops[1..] + [op] && (ops + [op])[0] == ops[0];
      ApplyAllAppend(Apply(c, zero, ops[0]), zero, ops[1..], op);
    }
  }

  /** The cell is what the history says. */
  ghost predicate Recorded<T>(c: Cell<T>, zero: T, parts: nat, timeout: int, ops: seq<Op<T>>) {
    && c.Aligned() && |c.initialized| == PartsAfter(parts, ops) && c.timeout == TimeoutAfter(timeout, ops)
    && (c.value, c.timestamp) == Latest(zero, parts, ops)
    && forall p: nat :: p < |c.initialized| ==>
         && (c.initialized[p] <==> LastArrival(parts, ops, p).Some?)
         && (c.initialized[p] ==> c.lastReceived[p] == LastArrival(parts, ops, p).value)
         && c.hz[p] == LastRate(parts, ops, p)
  }

  lemma {:induction false} Dropped<T>(parts: nat, ops: seq<Op<T>>, p: nat)
    requires p >= PartsAfter(parts, ops)
    ensures LastArrival(parts, ops, p).None? && LastRate(parts, ops, p) == 0.0
    decreases |ops|
  {
    if ops == [] {
    } else if ops[|ops| - 1].SetNumCallers? || ops[|ops| - 1].Reset? {
    } else {
      Dropped(parts, ops[..|ops| - 1], p);
    }
  }

  lemma SetIsRecorded<T>(c: Cell<T>, zero: T, parts: nat, timeout: int, ops: seq<Op<T>>, op: Op<T>)
    requires Recorded(c, zero, parts, timeout, ops) && op.Set?
    ensures Recorded(Apply(c, zero, op), zero, parts, timeout, ops + [op])
  {
    assert (ops + [op])[..|ops|] == ops;
    var d := Apply(c, zero, op);
    forall p: nat | p < |d.initialized|
      ensures d.hz[p] == LastRate(parts, ops + [op], p)
    {
      if op.caller == p && c.initialized[p] {
        RateOfGap(op.now - c.lastReceived[p]);
      } else if op.caller == p {
        NoRateYet(parts, ops, p);
      }
    }
  }

  lemma RateOfGap(gap: int)
    ensures gap > 0 ==> gap as real / NANOS_PER_SECOND > 0.0
    ensures gap > 0 ==> 1.0 / (gap as real / NANOS_PER_SECOND) == 1000000000.0 / gap as real
    ensures gap <= 0 ==> gap as real / NANOS_PER_SECOND <= 0.0
  {}

  /** A part that has not arrived has no rate. */
  lemma {:induction false} NoRateYet<T>(parts: nat, ops: seq<Op<T>>, p: nat)
    requires LastArrival(parts, ops, p).None?
    ensures LastRate(parts, ops, p) == 0.0
    decreases |ops|
  {
    if ops == [] {
    } else {
      var op := ops[|ops| - 1];
      if op.Reset? || (op.SetNumCallers? && p >= op.n) {
      } else {
        NoRateYet(parts, ops[..|ops| - 1], p);
      }
    }
  }

  lemma OtherIsRecorded<T>(c: Cell<T>, zero: T, parts: nat, timeout: int, ops: seq<Op<T>>, op: Op<T>)
    requires Recorded(c, zero, parts, timeout, ops) && !op.Set?
    ensures Recorded(Apply(c, zero, op), zero, parts, timeout, ops + [op])
  {
    assert (ops + [op])[..|ops|] == ops;
    forall p: nat | p >= |c.initialized|
      ensures LastArrival(parts, ops, p).None? && LastRate(parts, ops, p) == 0.0
    {
      Dropped(parts, ops, p);
    }
  }

  lemma {:induction false} RunIsRecorded<T>(zero: T, parts: nat, timeout: int, ops: seq<Op<T>>)
    ensures Recorded(ApplyAll(Fresh(zero, parts, timeout), zero, ops), zero, parts, timeout, ops)
    decreases |ops|
  {
    if ops == [] {
    } else {
      var before, op := ops[..|ops| - 1], ops[|ops| - 1];
      RunIsRecorded(zero, parts, timeout, before);
      ApplyAllAppend(Fresh(zero, parts, timeout), zero, before, op);
      assert ops == before + [op];
      if op.Set? {
        SetIsRecorded(ApplyAll(Fresh(zero, parts, timeout), zero, before), zero, parts, timeout, before, op);
      } else {
        OtherIsRecorded(ApplyAll(Fresh(zero, parts, timeout), zero, before), zero, parts, timeout, before, op);
      }
    }
  }

  /** There are parts, and every one has been set since the last reset. */
  ghost predicate AllArrived<T>(parts: nat, ops: seq<Op<T>>) {
    PartsAfter(parts, ops) > 0 && forall p: nat :: p < PartsAfter(parts, ops) ==> LastArrival(parts, ops, p).Some?
  }

  /** And none of them longer ago than the timeout. */
  ghost predicate AllRecent<T>(parts: nat, timeout: int, ops: seq<Op<T>>, now: int)
    requires AllArrived(parts, ops)
  {
    forall p: nat :: p < PartsAfter(parts, ops) ==>
      now - LastArrival(parts, ops, p).value <= TimeoutAfter(timeout, ops)
  }

  lemma ValidMeans<T>(c: Cell<T>, zero: T, parts: nat, timeout: int, ops: seq<Op<T>>)
    requires Recorded(c, zero, parts, timeout, ops)
    ensures c.Valid() <==> AllArrived(parts, ops)
  {
    if c.Valid() {
      forall p: nat | p < PartsAfter(parts, ops) ensures LastArrival(parts, ops, p).Some? {
        assert c.initialized[p];
      }
    }
    if AllArrived(parts, ops) {
      forall p | 0 <= p < |c.initialized| ensures c.initialized[p] {
        assert LastArrival(parts, ops, p).Some?;
      }
    }
  }

  lemma HealthyMeans<T>(c: Cell<T>, zero: T, parts: nat, timeout: int, ops: seq<Op<T>>, now: int)
    requires Recorded(c, zero, parts, timeout, ops) && c.Valid() && AllArrived(parts, ops)
    ensures c.Healthy(now) <==> AllRecent(parts, timeout, ops, now)
  {
    if c.Healthy(now) {
      forall p: nat | p < PartsAfter(parts, ops)
        ensures now - LastArrival(parts, ops, p).value <= TimeoutAfter(timeout, ops)
      {
        assert c.initialized[p] && now - c.lastReceived[p] <= c.timeout;
      }
    }
    if AllRecent(parts, timeout, ops, now) {
      forall p | 0 <= p < |c.lastReceived| ensures now - c.lastReceived[p] <= c.timeout {
        assert c.initialized[p] && now - LastArrival(parts, ops, p).value <= TimeoutAfter(timeout, ops);
      }
    }
  }

  /**
   * After any sequence of operations a snapshot shows the value and time stamp of the last accepted set since the last
   * reset. It is valid exactly if there are parts and every one has been set since then, and healthy exactly if
   * moreover each was set no longer ago than the timeout: one older part makes it stale.
   */
  lemma SnapshotShows<T>(zero: T, parts: nat, timeout: int, ops: seq<Op<T>>, now: int)
    ensures var s := SnapshotCell(ApplyAll(Fresh(zero, parts, timeout), zero, ops), now);
            && (s.value, s.timestamp) == Latest(zero, parts, ops)
            && (s.isValid <==> AllArrived(parts, ops))
            && (s.isHealthy <==> AllArrived(parts, ops) && AllRecent(parts, timeout, ops, now))
  {
    hide AllArrived, AllRecent;
    var c := ApplyAll(Fresh(zero, parts, timeout), zero, ops);
    RunIsRecorded(zero, parts, timeout, ops);
    ValidMeans(c, zero, parts, timeout, ops);
    if c.Valid() {
      HealthyMeans(c, zero, parts, timeout, ops, now);
    }
  }

  /** The rate of one part is that of its last two arrivals, and that of several their mean. */
  lemma SnapshotRate<T>(zero: T, parts: nat, timeout: int, ops: seq<Op<T>>, now: int)
    ensures var s, n := SnapshotCell(ApplyAll(Fresh(zero, parts, timeout), zero, ops), now), PartsAfter(parts, ops);
            && (s.hz.None? <==> n == 0)
            && (n == 1 ==> s.hz == Some(LastRate(parts, ops, 0)))
            && (n > 0 ==> s.hz.value * n as real == SumOfRates(parts, ops, n))
  {
    hide ApplyAll, LastRate, SumOfRates, Sum;
    var c := ApplyAll(Fresh(zero, parts, timeout), zero, ops);
    RunIsRecorded(zero, parts, timeout, ops);
    SumsAgree(c.hz, parts, ops, |c.hz|);
    RateIsMean(c);
  }

  lemma RateIsMean<T>(c: Cell<T>)
    ensures c.Rate().None? <==> |c.hz| == 0
    ensures |c.hz| == 1 ==> c.Rate() == Some(c.hz[0])
    ensures |c.hz| > 0 ==> c.Rate().value * |c.hz| as real == Sum(c.hz, |c.hz|)
  {
    if |c.hz| > 0 {
      assert |c.hz| == 1 ==> Sum(c.hz, 1) == Sum(c.hz, 0) + c.hz[0];
      MeanTimesCount(Sum(c.hz, |c.hz|), |c.hz|);
    }
  }

  function SumOfRates<T>(parts: nat, ops: seq<Op<T>>, n: nat): real {
    if n == 0 then 0.0 else SumOfRates(parts, ops, n - 1) + LastRate(parts, ops, n - 1)
  }

  lemma {:induction false} SumsAgree<T>(hz: seq<real>, parts: nat, ops: seq<Op<T>>, n: nat)
    requires n <= |hz| && forall p: nat :: p < |hz| ==> hz[p] == LastRate(parts, ops, p)
    ensures Sum(hz, n) == SumOfRates(parts, ops, n)
    decreases n
  {
    if n == 0 {
    } else {
      SumsAgree(hz, parts, ops, n - 1);
    }
  }

  lemma MeanTimesCount(total: real, n: nat)
    requires n > 0
    ensures total / n as real * n as real == total
    ensures n == 1 ==> total / n as real == total
  {}
}
