/**
 * A multipart cache under interleaving: the reader copies the aggregate, changes one slot and stores the
 * copy back, in two separately locked steps, while other threads may reset the cache in between.
 */
module PartsCache {
  import opened Messages
  import opened TimedFreqStates

  /** The reader is between frames, or holds a copy taken before the slot of `part` is stored. */
  datatype Reader<V> = Idle | Holding(part: nat, copy: seq<V>, slot: V)

  /** What has happened to the cache: a frame's slot was stored, or everything was forgotten. */
  datatype Event<V> = Stored(part: nat, slot: V) | Cleared

  datatype Cache<V> = Cache(cell: Cell<seq<V>>, reader: Reader<V>, log: seq<Event<V>>)

  datatype Action<V> =
    | Begin(part: nat, slot: V)             // the reader's getValue()
    | Finish(timestamp: real, now: int)     // the reader's set()
    | Clear                                 // reset(), by any thread at any time

  ghost predicate WellFormed<V>(s: Cache<V>, zero: seq<V>) {
    && s.cell.Aligned() && |s.cell.value| == |zero| == |s.cell.initialized|
    && (s.reader.Holding? ==> s.reader.part < |zero| && |s.reader.copy| == |zero|)
  }

  predicate Enabled<V>(s: Cache<V>, zero: seq<V>, a: Action<V>) {
    match a
    case Begin(part, _) => s.reader.Idle? && part < |zero|
    case Finish(_, _) => s.reader.Holding?
    case Clear => true
  }

  /** One atomic step; an action that is not enabled does nothing. */
  function Step<V>(s: Cache<V>, zero: seq<V>, a: Action<V>): (r: Cache<V>)
    requires WellFormed(s, zero)
    ensures WellFormed(r, zero)
  {
    if !Enabled(s, zero, a) then s
    else match a
      case Begin(part, slot) => s.(reader := Holding(part, s.cell.value, slot))
      case Finish(ts, now) =>
        var h := s.reader;
        Cache(SetCell(s.cell, h.copy[h.part := h.slot], ts, h.part, now), Idle, s.log + [Stored(h.part, h.slot)])
      case Clear => s.(cell := ResetCell(s.cell, zero), log := s.log + [Cleared])
  }

  function Start<V>(zero: seq<V>, timeout: int): Cache<V> {
    Cache(Fresh(zero, |zero|, timeout), Idle, [])
  }

  /** The state an interleaving leads to. */
  function RunFrom<V>(s: Cache<V>, zero: seq<V>, actions: seq<Action<V>>): (r: Cache<V>)
    requires WellFormed(s, zero)
    ensures WellFormed(r, zero)
    decreases |actions|
  {
    if actions == [] then s
    else Step(RunFrom(s, zero, actions[..|actions| - 1]), zero, actions[|actions| - 1])
  }

  /** The same from a new cache. */
  function Run<V>(zero: seq<V>, timeout: int, actions: seq<Action<V>>): (s: Cache<V>)
    ensures WellFormed(s, zero)
  {
    RunFrom(Start(zero, timeout), zero, actions)
  }

  lemma {:induction false} RunAppend<V>(s: Cache<V>, zero: seq<V>, first: seq<Action<V>>, later: seq<Action<V>>)
    requires WellFormed(s, zero)
    ensures RunFrom(s, zero, first + later) == RunFrom(RunFrom(s, zero, first), zero, later)
    decreases |later|
  {
    if later == [] {
      assert first + later == first;
    } else {
      var n := |later| - 1;
      assert (first + later)[..|first + later| - 1] == first + later[..n];
      RunAppend(s, zero, first, later[..n]);
    }
  }

  /** The last slot stored for `part` since the cache was last cleared. */
  function LastStored<V>(log: seq<Event<V>>, part: nat): Option<V> {
    if log == [] then None
    else match log[|log| - 1]
      case Cleared => None
      case Stored(p, slot) => if p == part then Some(slot) else LastStored(log[..|log| - 1], part)
  }

  lemma LastStoredAppend<V>(log: seq<Event<V>>, e: Event<V>, part: nat)
    ensures LastStored(log + [e], part) ==
            if e.Cleared? then None else if e.part == part then Some(e.slot) else LastStored(log, part)
  {
    assert (log + [e])[..|log|] == log;
  }

  /** The relation that every step keeps. The reader's copy may be stale only where the cache is uninitialised. */
  ghost predicate Inv<V>(s: Cache<V>, zero: seq<V>) {
    && WellFormed(s, zero)
    && (forall p :: 0 <= p < |zero| ==> (s.cell.initialized[p] <==> LastStored(s.log, p).Some?))
    && (forall p :: 0 <= p < |zero| && s.cell.initialized[p] ==> s.cell.value[p] == LastStored(s.log, p).value)
    && (s.reader.Holding? ==>
          forall p :: 0 <= p < |zero| && s.cell.initialized[p] ==> s.reader.copy[p] == s.cell.value[p])
  }

  lemma StepKeepsInv<V>(s: Cache<V>, zero: seq<V>, a: Action<V>)
    requires Inv(s, zero)
    ensures Inv(Step(s, zero, a), zero)
  {
    if !Enabled(s, zero, a) {
    } else if a.Finish? {
      forall p | 0 <= p < |zero|
        ensures LastStored(Step(s, zero, a).log, p)
                == if p == s.reader.part then Some(s.reader.slot) else LastStored(s.log, p)
      {
        LastStoredAppend(s.log, Stored(s.reader.part, s.reader.slot), p);
      }
    } else if a.Clear? {
      forall p | 0 <= p < |zero| ensures LastStored(Step(s, zero, a).log, p).None? {
        LastStoredAppend(s.log, Cleared, p);
      }
    }
  }

  lemma {:induction false} RunKeepsInv<V>(zero: seq<V>, timeout: int, actions: seq<Action<V>>)
    ensures Inv(Run(zero, timeout, actions), zero)
    decreases |actions|
  {
    if actions == [] {
    } else {
      var n := |actions| - 1;
      RunKeepsInv(zero, timeout, actions[..n]);
      StepKeepsInv(Run(zero, timeout, actions[..n]), zero, actions[n]);
    }
  }

  /**
   * In every interleaving, a part counts as arrived exactly if it was stored since the latest reset, and its
   * slot is then the last one stored: a slot from before the reset is never shown as current.
   */
  lemma SlotIsLastSinceReset<V>(zero: seq<V>, timeout: int, actions: seq<Action<V>>, p: nat)
    requires p < |zero|
    ensures var s := Run(zero, timeout, actions);
            && (s.cell.initialized[p] <==> LastStored(s.log, p).Some?)
            && (s.cell.initialized[p] ==> LastStored(s.log, p) == Some(s.cell.value[p]))
  {
    RunKeepsInv(zero, timeout, actions);
  }

  /** A valid snapshot is, slot for slot, what was stored since the latest reset. */
  lemma ValidSnapshotIsCurrent<V>(zero: seq<V>, timeout: int, actions: seq<Action<V>>, now: int)
    ensures var s := Run(zero, timeout, actions);
            var shown := SnapshotCell(s.cell, now);
            shown.isValid ==>
              |shown.value| == |zero| && forall p :: 0 <= p < |zero| ==> LastStored(s.log, p) == Some(shown.value[p])
  {
    RunKeepsInv(zero, timeout, actions);
  }

  // ---------- What parts that have not arrived show ----------

  /** Where the reader's own update decides what is left over from before a reset. */
  function LeftOver<V>(atReset: Cache<V>, zero: seq<V>, stored: bool): seq<V> {
    if stored && atReset.reader.Holding? then atReset.reader.copy else zero
  }

  /** How a state follows a reset taken in state `atReset`. */
  ghost predicate Since<V>(atReset: Cache<V>, zero: seq<V>, s: Cache<V>)
    requires WellFormed(atReset, zero)
  {
    && WellFormed(s, zero) && |atReset.log| < |s.log|
    && var stored := |s.log| > |atReset.log| + 1;
       var left := LeftOver(atReset, zero, stored);
       && (forall p :: 0 <= p < |zero| && !s.cell.initialized[p] ==> s.cell.value[p] == left[p])
       && (!stored ==> s.cell.value == zero && (atReset.reader.Holding? ==> s.reader == atReset.reader))
       && (s.reader.Holding? && (stored || atReset.reader.Idle?) ==>
             forall p :: 0 <= p < |zero| && !s.cell.initialized[p] ==> s.reader.copy[p] == left[p])
  }

  lemma StepKeepsSince<V>(atReset: Cache<V>, zero: seq<V>, s: Cache<V>, a: Action<V>)
    requires WellFormed(atReset, zero) && Since(atReset, zero, s) && !a.Clear?
    ensures Since(atReset, zero, Step(s, zero, a))
  {}

  lemma {:induction false} RunKeepsSince<V>(atReset: Cache<V>, zero: seq<V>, later: seq<Action<V>>)
    requires WellFormed(atReset, zero) && forall a :: a in later ==> !a.Clear?
    ensures Since(atReset, zero, RunFrom(Step(atReset, zero, Clear), zero, later))
    decreases |later|
  {
    if later == [] {
    } else {
      var n := |later| - 1;
      RunKeepsSince(atReset, zero, later[..n]);
      StepKeepsSince(atReset, zero, RunFrom(Step(atReset, zero, Clear), zero, later[..n]), later[n]);
    }
  }

  /**
   * Exactly what a part that has not arrived since the latest reset shows, in every run: the blank value, unless
   * the reset fell between the reader's two steps and its update has been stored since; then what the reader's
   * copy held.
   */
  lemma UnarrivedShows<V>(zero: seq<V>, timeout: int, before: seq<Action<V>>, later: seq<Action<V>>, p: nat)
    requires p < |zero| && forall a :: a in later ==> !a.Clear?
    ensures var atReset, s := Run(zero, timeout, before), Run(zero, timeout, before + [Clear] + later);
            !s.cell.initialized[p] ==>
              s.cell.value[p] == if atReset.reader.Holding? && |s.log| > |atReset.log| + 1 then atReset.reader.copy[p]
                                 else zero[p]
  {
    var start := Start(zero, timeout);
    RunOne(zero, timeout, before, Clear);
    RunAppend(start, zero, before + [Clear], later);
    RunKeepsSince(Run(zero, timeout, before), zero, later);
  }

  /** A reset between updates forgets everything; one inside an update leaves the reader's copy, blank or not. */
  lemma ResetInsideUpdateLeavesCopy<V>(s: Cache<V>, zero: seq<V>, timestamp: real, now: int)
    requires WellFormed(s, zero) && s.reader.Holding?
    ensures var t := Step(Step(s, zero, Clear), zero, Finish(timestamp, now));
            && (forall q :: 0 <= q < |zero| && q != s.reader.part ==>
                  !t.cell.initialized[q] && t.cell.value[q] == s.reader.copy[q])
            && (Blank(t, zero) <==> forall q :: 0 <= q < |zero| && q != s.reader.part ==> s.reader.copy[q] == zero[q])
  {
    var t := Step(Step(s, zero, Clear), zero, Finish(timestamp, now));
    assert forall q :: 0 <= q < |zero| ==> (t.cell.initialized[q] <==> q == s.reader.part);
  }

  /** Every part that has not arrived shows the blank value. */
  ghost predicate Blank<V>(s: Cache<V>, zero: seq<V>)
    requires WellFormed(s, zero)
  {
    forall p :: 0 <= p < |zero| && !s.cell.initialized[p] ==> s.cell.value[p] == zero[p]
  }

  /** So after its latest reset a run is free of leftovers exactly if no such update was stored or its copy was blank. */
  lemma BlankIff<V>(zero: seq<V>, timeout: int, before: seq<Action<V>>, later: seq<Action<V>>)
    requires forall a :: a in later ==> !a.Clear?
    ensures var r, s := Run(zero, timeout, before), Run(zero, timeout, before + [Clear] + later);
            Blank(s, zero) <==>
              (r.reader.Holding? && |s.log| > |r.log| + 1 ==>
                 forall p :: 0 <= p < |zero| && !s.cell.initialized[p] ==> r.reader.copy[p] == zero[p])
  {
    forall p: nat | p < |zero| && !Run(zero, timeout, before + [Clear] + later).cell.initialized[p]
      ensures var r, s := Run(zero, timeout, before), Run(zero, timeout, before + [Clear] + later);
              s.cell.value[p] == if r.reader.Holding? && |s.log| > |r.log| + 1 then r.reader.copy[p] else zero[p]
    {
      UnarrivedShows(zero, timeout, before, later, p);
    }
  }

  /** Every reset is taken while the reader is between frames. */
  ghost predicate ResetsBetweenUpdates<V>(zero: seq<V>, timeout: int, actions: seq<Action<V>>) {
    forall i :: 0 <= i < |actions| && actions[i].Clear? ==> Run(zero, timeout, actions[..i]).reader.Idle?
  }

  /** With the reader stopped, or merely between frames, at every reset, nothing is left over in any run. */
  lemma {:induction false} BlankIfResetBetweenUpdates<V>(zero: seq<V>, timeout: int, actions: seq<Action<V>>)
    requires ResetsBetweenUpdates(zero, timeout, actions)
    ensures var s := Run(zero, timeout, actions);
            Blank(s, zero) && (s.reader.Holding? ==> s.reader.copy == s.cell.value)
    decreases |actions|
  {
    if actions == [] {
    } else {
      var n := |actions| - 1;
      assert forall i :: 0 <= i < n ==> actions[..n][..i] == actions[..i];
      BlankIfResetBetweenUpdates(zero, timeout, actions[..n]);
    }
  }

  /** A run in which a slot from before the reset is left over. */
  lemma StaleSlotSurvivesUninitialised(before: int, after: int, timeout: int)
    ensures var s := Run([0, 0], timeout, [Begin(0, before), Finish(0.0, 0), Begin(1, after), Clear, Finish(0.0, 0)]);
            s.cell.value == [before, after] && s.cell.initialized == [false, true] && LastStored(s.log, 0).None?
  {
    var zero := [0, 0];
    var a := [Begin(0, before), Finish(0.0, 0), Begin(1, after), Clear, Finish(0.0, 0)];
    RunOne(zero, timeout, [], a[0]);
    RunOne(zero, timeout, [a[0]], a[1]);
    RunOne(zero, timeout, [a[0]] + [a[1]], a[2]);
    assert Run(zero, timeout, [a[0]] + [a[1]]).cell.value == [before, 0];
    RunOne(zero, timeout, [a[0]] + [a[1]] + [a[2]], a[3]);
    RunOne(zero, timeout, [a[0]] + [a[1]] + [a[2]] + [a[3]], a[4]);
    assert a == [a[0]] + [a[1]] + [a[2]] + [a[3]] + [a[4]];
    assert Run(zero, timeout, a).cell.value == [before, 0][1 := after];
    assert Run(zero, timeout, a).cell.initialized == [false, false][1 := true];
    SlotIsLastSinceReset(zero, timeout, a, 0);
  }

  // ---------- Which frames a slot may come from ----------

  /** A stored event of a run from `s` is of a frame begun in that run, or is the update `s` was in the middle of. */
  ghost predicate Accounted<V>(s: Cache<V>, later: seq<Action<V>>, log: seq<Event<V>>, k: nat)
    requires |s.log| <= k < |log| && log[k].Stored?
  {
    || Begin(log[k].part, log[k].slot) in later
    || (s.reader.Holding? && log[k] == Stored(s.reader.part, s.reader.slot)
        && forall j :: |s.log| <= j < k ==> log[j].Cleared?)
  }

  /**
   * After any point of any run, all that is stored comes from frames begun after it, except at most one: the
   * update the reader was in the middle of, and that is the first to be stored.
   */
  lemma {:induction false} StoredIsBegunSince<V>(s: Cache<V>, zero: seq<V>, later: seq<Action<V>>)
    requires WellFormed(s, zero)
    ensures var t := RunFrom(s, zero, later);
            && s.log <= t.log
            && (forall k :: |s.log| <= k < |t.log| && t.log[k].Stored? ==> Accounted(s, later, t.log, k))
            && (t.reader.Holding? ==>
                  || Begin(t.reader.part, t.reader.slot) in later
                  || (s.reader == t.reader && forall j :: |s.log| <= j < |t.log| ==> t.log[j].Cleared?))
    decreases |later|
  {
    if later == [] {
    } else {
      var n := |later| - 1;
      StoredIsBegunSince(s, zero, later[..n]);
      var u, t := RunFrom(s, zero, later[..n]), RunFrom(s, zero, later);
      assert forall a :: a in later[..n] ==> a in later;
      assert later[n] in later;
      forall k | |s.log| <= k < |t.log| && t.log[k].Stored? ensures Accounted(s, later, t.log, k) {
        if k < |u.log| {
          assert t.log[k] == u.log[k] && Accounted(s, later[..n], u.log, k);
        }
      }
    }
  }

  lemma {:induction false} LastStoredSince<V>(log: seq<Event<V>>, reset: nat, p: nat)
    requires reset < |log| && log[reset].Cleared? && LastStored(log, p).Some?
    ensures exists k :: reset < k < |log| && log[k] == Stored(p, LastStored(log, p).value)
    decreases |log|
  {
    var n := |log| - 1;
    if log[n].Stored? && log[n].part == p {
      assert log[n] == Stored(p, LastStored(log, p).value);
    } else {
      LastStoredSince(log[..n], reset, p);
      var k :| reset < k < n && log[..n][k] == Stored(p, LastStored(log[..n], p).value);
      assert log[k] == log[..n][k];
    }
  }

  /** The update the reader was in the middle of when the `reset`-th action was taken. */
  function Pending<V>(zero: seq<V>, timeout: int, actions: seq<Action<V>>, reset: nat): Reader<V>
    requires reset < |actions|
  {
    Run(zero, timeout, actions[..reset]).reader
  }

  /**
   * Whatever an arrived part shows was stored after any reset in the run, from a frame begun after that reset,
   * with one possible exception: the part whose update the reset fell into.
   */
  lemma ShownIsBegunSince<V>(zero: seq<V>, timeout: int, actions: seq<Action<V>>, reset: nat, p: nat)
    requires reset < |actions| && actions[reset] == Clear && p < |zero|
    requires Run(zero, timeout, actions).cell.initialized[p]
    ensures var shown, pending := Run(zero, timeout, actions).cell.value[p], Pending(zero, timeout, actions, reset);
            || Begin(p, shown) in actions[reset + 1..]
            || (pending.Holding? && pending.part == p && pending.slot == shown)
  {
    var before, later := actions[..reset], actions[reset + 1..];
    var r, t := Run(zero, timeout, before), Run(zero, timeout, actions);
    var s := Step(r, zero, Clear);
    assert actions == before + [Clear] + later;
    RunOne(zero, timeout, before, Clear);
    RunAppend(Start(zero, timeout), zero, before + [Clear], later);
    StoredIsBegunSince(s, zero, later);
    SlotIsLastSinceReset(zero, timeout, actions, p);
    assert t.log[|r.log|] == s.log[|r.log|];
    LastStoredSince(t.log, |r.log|, p);
    var k :| |r.log| < k < |t.log| && t.log[k] == Stored(p, t.cell.value[p]);
    assert Accounted(s, later, t.log, k);
  }

  /** The exception happens: a reset falls into an update, and the cache is complete without any frame begun since. */
  lemma PendingUpdateCompletes(slot: int, timeout: int, timestamp: real, now: int)
    ensures var actions := [Begin(0, slot), Clear, Finish(timestamp, now)];
            var s := Run([0], timeout, actions);
            s.cell.Valid() && s.cell.value == [slot] && Pending([0], timeout, actions, 1) == Holding(0, [0], slot)
  {
    var a := [Begin(0, slot), Clear, Finish(timestamp, now)];
    RunOne([0], timeout, [], a[0]);
    RunOne([0], timeout, [a[0]], a[1]);
    RunOne([0], timeout, [a[0]] + [a[1]], a[2]);
    assert a == [a[0]] + [a[1]] + [a[2]] && a[..1] == [a[0]];
  }

  lemma RunOne<V>(zero: seq<V>, timeout: int, actions: seq<Action<V>>, a: Action<V>)
    ensures Run(zero, timeout, actions + [a]) == Step(Run(zero, timeout, actions), zero, a)
  {
    assert (actions + [a])[..|actions|] == actions;
  }
}
