/** Waiting for every motor's limits, while the read thread and other callers use the same two aggregates. */
module MotorLimits {
  import opened Messages
  import opened TimedFreqStates
  import C = PartsCache

  const MS := 1_000_000
  const POLL := 10 * MS

  /** ceil(a / b) for a positive `b`, and 0 for a negative `a`. */
  function CeilDiv(a: int, b: int): nat
    requires b > 0
  {
    if a <= 0 then 0 else (a - 1) / b + 1
  }

  /** The least number of steps of length `b` that together reach `a`. */
  lemma CeilDivIsLeast(a: int, b: int, n: nat)
    requires b > 0
    ensures a <= n * b <==> CeilDiv(a, b) <= n
  {
    var q := CeilDiv(a, b);
    if a > 0 {
      assert a - 1 == (a - 1) / b * b + (a - 1) % b;
      assert q * b == (a - 1) / b * b + b;
      if q <= n {
        MulGrows(q, n, b);
      } else {
        MulGrows(n, q - 1, b);
      }
    } else {
      MulGrows(0, n, b);
    }
  }

  /** `k` rounds at least `spacing` apart fit in `span`, and the last but one began before `timeout`. */
  predicate Paced(k: nat, spacing: int, span: int, timeout: int) {
    k * spacing <= span && (k > 0 ==> (k - 1) * spacing < timeout)
  }

  lemma PacedBounds(k: nat, spacing: int, span: int, timeout: int)
    requires spacing > 0 && Paced(k, spacing, span, timeout)
    ensures k <= CeilDiv(timeout, spacing)
  {
    if k > 0 {
      MulGrows(0, k - 1, spacing);
      var q := (timeout - 1) / spacing;
      if k - 1 > q {
        MulGrows(q + 1, k - 1, spacing);
      }
    }
  }

  lemma NextRound(k: nat, spacing: int, before: int, after: int, timeout: int)
    requires Paced(k, spacing, before, timeout) && before < timeout && after >= before + spacing
    ensures Paced(k + 1, spacing, after, timeout)
  {
    assert (k + 1) * spacing == k * spacing + spacing;
  }

  lemma MulGrows(a: int, b: int, k: nat)
    requires a <= b
    ensures a * k <= b * k
  {}

  /** Query responses never go stale: the longest timeout there is. */
  const TIMEOUT := 0x7FFF_FFFF_FFFF_FFFF

  /**
   * At the end of these actions every part has been stored since the `reset`-th, which is a reset, and what it shows
   * is of a frame whose update began after it. Only the part whose update the reset fell into, if there was one, may
   * show that update's frame instead.
   */
  ghost predicate CompleteAt<V>(zero: seq<V>, actions: seq<C.Action<V>>, reset: nat) {
    && reset < |actions| && actions[reset] == C.Clear
    && var cell, pending := C.Run(zero, TIMEOUT, actions).cell, C.Pending(zero, TIMEOUT, actions, reset);
       forall p :: 0 <= p < |zero| ==>
         && cell.initialized[p]
         && (|| C.Begin(p, cell.value[p]) in actions[reset + 1..]
             || (pending.Holding? && pending.part == p && pending.slot == cell.value[p]))
  }

  /** Some time after the reset it was complete in that sense. */
  ghost predicate Answered<V>(zero: seq<V>, actions: seq<C.Action<V>>, reset: nat) {
    exists n :: reset < n <= |actions| && CompleteAt(zero, actions[..n], reset)
  }

  lemma AnsweredGrows<V>(zero: seq<V>, actions: seq<C.Action<V>>, longer: seq<C.Action<V>>, reset: nat)
    requires actions <= longer && Answered(zero, actions, reset)
    ensures Answered(zero, longer, reset)
  {
    var n :| reset < n <= |actions| && CompleteAt(zero, actions[..n], reset);
    assert longer[..n] == actions[..n];
  }

  lemma ValidMeansComplete<V>(zero: seq<V>, actions: seq<C.Action<V>>, reset: nat)
    requires reset < |actions| && actions[reset] == C.Clear && C.Run(zero, TIMEOUT, actions).cell.Valid()
    ensures Answered(zero, actions, reset)
  {
    forall p | 0 <= p < |zero|
      ensures var cell, pending := C.Run(zero, TIMEOUT, actions).cell, C.Pending(zero, TIMEOUT, actions, reset);
              || C.Begin(p, cell.value[p]) in actions[reset + 1..]
              || (pending.Holding? && pending.part == p && pending.slot == cell.value[p])
    {
      C.ShownIsBegunSince(zero, TIMEOUT, actions, reset, p);
    }
    assert CompleteAt(zero, actions, reset);
    assert actions[..|actions|] == actions;
  }

  /** The qualification is needed: with no frame begun since the reset, the aggregate can be complete. */
  lemma OldReplyCanComplete(slot: int, timestamp: real, now: int)
    ensures var actions := [C.Begin(0, slot), C.Clear, C.Finish(timestamp, now)];
            Answered([0], actions, 1) && forall p, v :: C.Begin(p, v) !in actions[2..]
  {
    C.PendingUpdateCompletes(slot, TIMEOUT, timestamp, now);
    ValidMeansComplete([0], [C.Begin(0, slot), C.Clear, C.Finish(timestamp, now)], 1);
  }

  /** One aggregate, and the read thread's progress in storing a reply in it. */
  class Aggregate<V> {
    const zero: seq<V>
    const state: TimedFreqState<seq<V>>
    /** The read thread's own variables while it stores a reply. */
    var reader: C.Reader<V>
    /** Everything done to the aggregate, by any thread. */
    ghost var actions: seq<C.Action<V>>

    /** State and reader are where the interleaving of all that was done leads to. */
    ghost predicate Valid() reads this, state {
      && state.Valid() && state.zero == zero && |zero| == 6
      && var s := C.Run(zero, TIMEOUT, actions);
         state.Contents() == s.cell && reader == s.reader
    }

    constructor (zero: seq<V>)
      requires |zero| == 6
      ensures Valid() && fresh(state) && this.zero == zero && actions == [] && reader.Idle?
    {
      this.zero := zero;
      state := new TimedFreqState(zero);
      reader, actions := C.Idle, [];
      new;
      state.SetNumCallers(6);
      state.SetHealthTimeout(TIMEOUT);
      assert state.Contents() == Fresh(zero, 6, TIMEOUT);
    }

    method Reset()
      requires Valid()
      modifies this, state
      ensures Valid() && actions == old(actions) + [C.Clear]
    {
      C.RunOne(zero, TIMEOUT, actions, C.Clear);
      state.Reset();
      actions := actions + [C.Clear];
    }

    /** The read thread starts on one motor's reply: it copies the aggregate. */
    method Begin(p: Motor, v: V)
      requires Valid() && reader.Idle?
      modifies this
      ensures Valid() && actions == old(actions) + [C.Begin(p, v)]
    {
      C.RunOne(zero, TIMEOUT, actions, C.Begin(p, v));
      var all := state.GetValue();
      reader := C.Holding(p, all, v);
      actions := actions + [C.Begin(p, v)];
    }

    /** It stores the copy with the reply's slot replaced. */
    method Finish(timestamp: real, now: int)
      requires Valid() && reader.Holding?
      modifies this, state
      ensures Valid() && actions == old(actions) + [C.Finish(timestamp, now)]
    {
      C.RunOne(zero, TIMEOUT, actions, C.Finish(timestamp, now));
      var ok := state.Set(reader.copy[reader.part := reader.slot], timestamp, reader.part, now);
      reader := C.Idle;
      actions := actions + [C.Finish(timestamp, now)];
    }

    /** True only if, as far as any reset so far is concerned, the aggregate is complete. */
    method IsValid(ghost reset: nat) returns (b: bool)
      requires Valid() && reset < |actions| && actions[reset] == C.Clear
      ensures b ==> Answered(zero, actions, reset)
    {
      b := state.IsValid();
      if b {
        ValidMeansComplete(zero, actions, reset);
      }
    }
  }

  class MotorLimitQuery {
    const angle: Aggregate<MotorLimit>
    const acc: Aggregate<MotorAcc>
    /** The steady clock, in nanoseconds. */
    var clock: int
    /** How many rounds of the twelve queries were started. */
    var rounds: nat

    ghost predicate Valid() reads this, angle, acc, angle.state, acc.state {
      angle.Valid() && acc.Valid()
    }

    constructor ()
      ensures Valid() && rounds == 0
    {
      var zero := ZERO_LIMIT;
      angle := new Aggregate([zero, zero, zero, zero, zero, zero]);
      var none := MotorAcc(0, 0);
      acc := new Aggregate([none, none, none, none, none, none]);
      clock, rounds := 0, 0;
    }

    /**
     * Other threads run: the reader starts and finishes storing any number of replies, other callers reset, and at
     * least `elapsed` time passes. The reader may be left in the middle of an update.
     */
    method Others(elapsed: nat)
      requires Valid()
      modifies this`clock, angle, acc, angle.state, acc.state
      ensures Valid() && clock >= old(clock) + elapsed
      ensures old(angle.actions) <= angle.actions && old(acc.actions) <= acc.actions
    {
      var more: nat :| true;
      clock := clock + elapsed + more;
      var events: nat := *;
      while events > 0
        invariant Valid() && clock >= old(clock) + elapsed
        invariant old(angle.actions) <= angle.actions && old(acc.actions) <= acc.actions
      {
        var which: nat := *;
        var p: Motor := *;
        if which == 0 && angle.reader.Idle? {
          var v: MotorLimit := *;
          angle.Begin(p, v);
        } else if which == 1 && angle.reader.Holding? {
          angle.Finish(0.0, clock);
        } else if which == 2 && acc.reader.Idle? {
          var v: MotorAcc := *;
          acc.Begin(p, v);
        } else if which == 3 && acc.reader.Holding? {
          acc.Finish(0.0, clock);
        } else if which == 4 {
          angle.Reset();
        } else {
          acc.Reset();
        }
        events := events - 1;
      }
    }

    /** Sends the query round, whole or in part; false if a send failed. */
    method SearchAllMotorLimits() returns (ok: bool)
      requires Valid()
      modifies this`clock, this`rounds, angle, acc, angle.state, acc.state
      ensures Valid() && clock >= old(clock) && rounds == old(rounds) + 1
      ensures old(angle.actions) <= angle.actions && old(acc.actions) <= acc.actions
    {
      rounds := rounds + 1;
      Others(0);
      ok := *;
    }

    /** Two separately locked tests: the second is made after other threads may have run again. */
    method BothValid(ghost angleSince: nat, ghost accSince: nat) returns (b: bool)
      requires Valid() && angleSince < |angle.actions| && angle.actions[angleSince] == C.Clear
      requires accSince < |acc.actions| && acc.actions[accSince] == C.Clear
      modifies this`clock, angle, acc, angle.state, acc.state
      ensures Valid() && clock >= old(clock)
      ensures old(angle.actions) <= angle.actions && old(acc.actions) <= acc.actions
      ensures b ==> Answered(angle.zero, angle.actions, angleSince) && Answered(acc.zero, acc.actions, accSince)
    {
      b := angle.IsValid(angleSince);
      if !b {
        return;
      }
      ghost var seen := angle.actions;
      Others(0);
      AnsweredGrows(angle.zero, seen, angle.actions, angleSince);
      b := acc.IsValid(accSince);
    }

    /** One turn of the wait: a pause of at least the poll period, then a new round if one is due. */
    method PauseAndRetry(lastSent: int, retryInterval: int)
      returns (nowSent: int, retried: bool, ghost pausedUntil: int)
      requires Valid() && lastSent <= clock
      modifies this`clock, this`rounds, angle, acc, angle.state, acc.state
      ensures Valid() && old(angle.actions) <= angle.actions && old(acc.actions) <= acc.actions
      ensures old(clock) + POLL <= pausedUntil <= clock && nowSent <= clock
      ensures retried <==> pausedUntil - lastSent >= retryInterval
      ensures if retried then
                rounds == old(rounds) + 1 && nowSent >= lastSent + retryInterval && nowSent >= lastSent + POLL
              else rounds == old(rounds) && nowSent == lastSent
    {
      Others(POLL);
      pausedUntil := clock;
      retried := clock - lastSent >= retryInterval;
      nowSent := lastSent;
      if retried {
        var _ := SearchAllMotorLimits();
        nowSent := clock;
      }
    }

    /** Forgets what is stored and sends the first round. */
    method ResetAndQuery() returns (sent: bool, sentAt: int, ghost angleReset: nat, ghost accReset: nat)
      requires Valid()
      modifies this`clock, this`rounds, angle, acc, angle.state, acc.state
      ensures Valid() && old(clock) <= sentAt <= clock && rounds == old(rounds) + 1
      ensures |old(angle.actions)| <= angleReset < |angle.actions| && angle.actions[angleReset] == C.Clear
      ensures |old(acc.actions)| <= accReset < |acc.actions| && acc.actions[accReset] == C.Clear
    {
      angleReset := |angle.actions|;
      angle.Reset();
      Others(0);
      accReset := |acc.actions|;
      acc.Reset();
      Others(0);
      sentAt := clock;
      sent := SearchAllMotorLimits();
    }

    /** Polls and retries until both aggregates are complete or the deadline has passed. */
    method PollUntil(deadline: int, sentAt: int, timeout: int, retryInterval: int,
                     ghost angleReset: nat, ghost accReset: nat)
      returns (ok: bool)
      requires Valid() && sentAt <= clock && deadline <= sentAt + timeout
      requires angleReset < |angle.actions| && angle.actions[angleReset] == C.Clear
      requires accReset < |acc.actions| && acc.actions[accReset] == C.Clear
      modifies this`clock, this`rounds, angle, acc, angle.state, acc.state
      ensures Valid() && old(angle.actions) <= angle.actions && old(acc.actions) <= acc.actions
      ensures ok ==> Answered(angle.zero, angle.actions, angleReset) && Answered(acc.zero, acc.actions, accReset)
      ensures !ok ==> clock >= deadline
      ensures rounds <= old(rounds) + CeilDiv(timeout, if retryInterval < POLL then POLL else retryInterval)
    {
      ghost var spacing := if retryInterval < POLL then POLL else retryInterval;
      ghost var retries: nat := 0;
      var lastSent := sentAt;
      ok := BothValid(angleReset, accReset);
      while !ok
        invariant Valid() && rounds == old(rounds) + retries
        invariant old(angle.actions) <= angle.actions && old(acc.actions) <= acc.actions
        invariant ok ==> Answered(angle.zero, angle.actions, angleReset) && Answered(acc.zero, acc.actions, accReset)
        invariant lastSent <= clock
        invariant Paced(retries, spacing, lastSent - sentAt, timeout)
        decreases deadline - clock
      {
        if clock >= deadline {
          break;
        }
        var nowSent, retried, _ := PauseAndRetry(lastSent, retryInterval);
        if retried {
          NextRound(retries, spacing, lastSent - sentAt, nowSent - sentAt, timeout);
          retries := retries + 1;
          lastSent := nowSent;
        }
        ok := BothValid(angleReset, accReset);
      }
      PacedBounds(retries, spacing, lastSent - sentAt, timeout);
    }

    /**
     * Waits until both aggregates are complete. True means that every motor's reply of both kinds was stored
     * after this call's own reset, from an update begun after it; in each aggregate the one update that the reset
     * fell into, if any, counts as well. Every call returns, having sent at most 1 + ceil(timeout / interval) rounds,
     * where a retry interval below the 10 ms poll period counts as that period. It gives up only when the first round
     * could not be sent or the timeout has passed.
     */
    method WaitForMotorLimits(timeout: int, retryInterval: int)
      returns (ok: bool, ghost angleReset: nat, ghost accReset: nat, ghost firstSent: bool)
      requires Valid()
      modifies this`clock, this`rounds, angle, acc, angle.state, acc.state
      ensures Valid()
      ensures |old(angle.actions)| <= angleReset < |angle.actions| && angle.actions[angleReset] == C.Clear
      ensures |old(acc.actions)| <= accReset < |acc.actions| && acc.actions[accReset] == C.Clear
      ensures ok ==> Answered(angle.zero, angle.actions, angleReset) && Answered(acc.zero, acc.actions, accReset)
      ensures !ok ==> !firstSent || clock >= old(clock) + timeout
      ensures rounds <= old(rounds) + 1 + CeilDiv(timeout, if retryInterval < POLL then POLL else retryInterval)
    {
      var deadline := clock + timeout;
      var sentAt;
      ok, sentAt, angleReset, accReset := ResetAndQuery();
      firstSent := ok;
      if ok {
        ok := PollUntil(deadline, sentAt, timeout, retryInterval, angleReset, accReset);
      }
    }
  }
}
