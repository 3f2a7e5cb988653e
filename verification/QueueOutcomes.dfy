/** One outcome per job, leases, retries and the number of claims, over every run of the queue. */
module QueueOutcomes {
  import opened Collections
  import opened QueueTable
  import opened QueueRuns

  // ---- one outcome per job ----

  /** Nothing can happen to the job any more: its row is terminal or gone, and its id was used. */
  predicate Ended(t: Table, id: nat) {
    id < t.nextId && (id in t.jobs ==> t.jobs[id].Terminal())
  }

  lemma EndedStep(t: Table, o: Options, op: Op, id: nat)
    requires Valid(t) && Enabled(t, o, op) && Ended(t, id)
    ensures var t' := Apply(t, o, op);
            Ended(t', id) && (id in t'.jobs ==> id in t.jobs && t'.jobs[id] == t.jobs[id])
    ensures Touched(t, o, op) != Some(id)
  {
    if !op.OpPublish? {
      StepRows(t, o, op);
      if Touched(t, o, op) == Some(id) { TouchedRow(t, o, op, id); }
    }
  }

  /** A terminal row never becomes queued or running again, and no later job takes its id. */
  lemma {:induction false} EndedForGood(t: Table, o: Options, ops: seq<Op>, n: nat, id: nat)
    requires Valid(t) && IsRun(t, o, ops) && n <= |ops| && Ended(t, id)
    ensures var t' := After(t, o, ops, n);
            Ended(t', id) && (id in t'.jobs ==> id in t.jobs && t'.jobs[id] == t.jobs[id])
    decreases n
  {
    if n > 0 {
      StepKeepsValid(t, o, ops[0]);
      EndedStep(t, o, ops[0], id);
      EndedForGood(Apply(t, o, ops[0]), o, ops[1..], n - 1, id);
    }
  }

  /** The job's fate is settled by this operation: completed, or failed with no try left. */
  predicate Decides(t: Table, o: Options, op: Op, id: nat) {
    Completes(t, op, id) || FailsForGood(t, o, op, id)
  }

  lemma CompletionEnds(t: Table, o: Options, id: nat, adapter: string, now: int)
    requires Valid(t) && HeldBy(t, id, adapter)
    ensures Ended(Complete(t, o, id, adapter, now), id)
  {
  }

  lemma FailureEnds(t: Table, o: Options, id: nat, adapter: string, now: int, recent: seq<nat>)
    requires Valid(t)
    requires var r := Fail(t, o, id, adapter, now, recent).1; r.Permanent? || r.AbortedBatch?
    ensures HeldBy(t, id, adapter) && Ended(Fail(t, o, id, adapter, now, recent).0, id)
  {
    AbortShrinks(t, o, id, if t.jobs[id].batch.Some? then t.jobs[id].batch.value else "", now);
  }

  lemma OutcomeEnds(t: Table, o: Options, op: Op, id: nat)
    requires Valid(t) && Decides(t, o, op, id)
    ensures !Ended(t, id) && Ended(Apply(t, o, op), id)
  {
    if op.OpFail? {
      FailureEnds(t, o, id, op.adapter, op.now, op.recent);
    } else {
      CompletionEnds(t, o, id, op.adapter, op.now);
    }
  }

  lemma {:induction false} NoneAfterEnd(t: Table, o: Options, ops: seq<Op>, id: nat, k: nat)
    requires Valid(t) && IsRun(t, o, ops) && k < |ops| && Ended(t, id)
    ensures !Decides(After(t, o, ops, k), o, ops[k], id)
    decreases k
  {
    if k == 0 {
      if Decides(t, o, ops[0], id) { OutcomeEnds(t, o, ops[0], id); }
    } else {
      StepKeepsValid(t, o, ops[0]);
      EndedStep(t, o, ops[0], id);
      NoneAfterEnd(Apply(t, o, ops[0]), o, ops[1..], id, k - 1);
    }
  }

  /** For each job a run holds at most one successful `complete` or permanent `fail`: never two,
      and never one of each. */
  lemma {:induction false} OneOutcome(t: Table, o: Options, ops: seq<Op>, id: nat, i: nat, k: nat)
    requires Valid(t) && IsRun(t, o, ops) && i < k < |ops|
    requires Decides(After(t, o, ops, i), o, ops[i], id)
    ensures !Decides(After(t, o, ops, k), o, ops[k], id)
    decreases i
  {
    StepKeepsValid(t, o, ops[0]);
    if i == 0 {
      OutcomeEnds(t, o, ops[0], id);
      NoneAfterEnd(Apply(t, o, ops[0]), o, ops[1..], id, k - 1);
    } else {
      OneOutcome(Apply(t, o, ops[0]), o, ops[1..], id, i - 1, k - 1);
    }
  }

  // ---- who holds a job ----

  predicate Takes(t: Table, o: Options, op: Op, id: nat, adapter: string) {
    op.OpClaim? && op.adapter == adapter && ClaimedBy(t, o, op) == Some(id)
  }

  lemma HeldStep(t: Table, o: Options, op: Op, id: nat, adapter: string)
    requires Valid(t) && Enabled(t, o, op) && id < t.nextId
    requires !HeldBy(t, id, adapter) && HeldBy(Apply(t, o, op), id, adapter)
    ensures Takes(t, o, op, id, adapter)
  {
    if !op.OpPublish? {
      StepRows(t, o, op);
      if Touched(t, o, op) == Some(id) { TouchedRow(t, o, op, id); }
    }
  }

  /** The calls an adapter makes about a job it was handed. */
  predicate SpeaksFor(op: Op, id: nat, adapter: string) {
    (op.OpComplete? || op.OpFail? || op.OpHeartbeat?) && op.id == id && op.adapter == adapter
  }

  /** An adapter that lost a job, to a reclaim by another or otherwise, can no longer complete,
      fail or extend it unless it claims the job again: its calls change nothing. */
  lemma {:induction false} LostJobStaysLost(t: Table, o: Options, ops: seq<Op>, id: nat, adapter: string, n: nat)
    requires Valid(t) && IsRun(t, o, ops) && n <= |ops|
    requires id < t.nextId && !HeldBy(t, id, adapter)
    requires forall k :: 0 <= k < n ==> !Takes(After(t, o, ops, k), o, ops[k], id, adapter)
    ensures !HeldBy(After(t, o, ops, n), id, adapter)
    ensures n < |ops| && SpeaksFor(ops[n], id, adapter) ==>
              After(t, o, ops, n + 1) == After(t, o, ops, n)
              && !Completes(After(t, o, ops, n), ops[n], id) && FailureOf(After(t, o, ops, n), o, ops[n]).NotHeld?
    decreases n
  {
    if n == 0 {
      if |ops| > 0 { AfterStep(t, o, ops, 0); }
    } else {
      StepKeepsValid(t, o, ops[0]);
      assert !Takes(After(t, o, ops, 0), o, ops[0], id, adapter);
      if HeldBy(Apply(t, o, ops[0]), id, adapter) { HeldStep(t, o, ops[0], id, adapter); }
      forall k | 0 <= k < n - 1
        ensures !Takes(After(Apply(t, o, ops[0]), o, ops[1..], k), o, ops[1..][k], id, adapter)
      {
        assert !Takes(After(t, o, ops, k + 1), o, ops[k + 1], id, adapter);
      }
      LostJobStaysLost(Apply(t, o, ops[0]), o, ops[1..], id, adapter, n - 1);
    }
  }

  /** The job is over, or `adapter` holds it until at least `until`. */
  predicate HeldUntil(t: Table, id: nat, adapter: string, until: int) {
    Ended(t, id) || (HeldBy(t, id, adapter) && t.jobs[id].leaseUntil.Some? && until <= t.jobs[id].leaseUntil.value)
  }

  lemma LeaseStep(t: Table, o: Options, op: Op, id: nat, adapter: string, since: int)
    requires Valid(t) && Enabled(t, o, op) && HeldUntil(t, id, adapter, since + o.leaseSeconds * 1000)
    requires op.OpClaim? ==> op.now <= since + o.leaseSeconds * 1000
    requires op.OpHeartbeat? ==> since <= op.now
    requires !(op.OpFail? && op.id == id && op.adapter == adapter)
    ensures HeldUntil(Apply(t, o, op), id, adapter, since + o.leaseSeconds * 1000)
    ensures ClaimedBy(t, o, op) != Some(id)
  {
    if Ended(t, id) {
      EndedStep(t, o, op, id);
    } else if !op.OpPublish? {
      StepRows(t, o, op);
      if Touched(t, o, op) == Some(id) { TouchedRow(t, o, op, id); }
    }
  }

  /** A lease is exclusive: a job claimed or extended at `since` is handed to nobody before its
      lease is over, unless its holder gives it up with `fail`. */
  lemma {:induction false} LeaseIsExclusive(t: Table, o: Options, ops: seq<Op>, id: nat, adapter: string, since: int,
                                            n: nat)
    requires Valid(t) && IsRun(t, o, ops) && n < |ops|
    requires HeldUntil(t, id, adapter, since + o.leaseSeconds * 1000)
    requires forall k :: 0 <= k <= n ==> (ops[k].OpClaim? ==> ops[k].now <= since + o.leaseSeconds * 1000)
                                         && (ops[k].OpHeartbeat? ==> since <= ops[k].now)
                                         && !(ops[k].OpFail? && ops[k].id == id && ops[k].adapter == adapter)
    ensures ClaimedBy(After(t, o, ops, n), o, ops[n]) != Some(id)
    decreases n
  {
    LeaseStep(t, o, ops[0], id, adapter, since);
    if n > 0 {
      StepKeepsValid(t, o, ops[0]);
      LeaseIsExclusive(Apply(t, o, ops[0]), o, ops[1..], id, adapter, since, n - 1);
    }
  }

  /** What a claim hands out was due, is counted as one more try, and is held from then on. */
  lemma ClaimLeases(t: Table, o: Options, op: Op, id: nat)
    requires Valid(t) && Enabled(t, o, op) && ClaimedBy(t, o, op) == Some(id)
    ensures id in t.jobs && Due(t.jobs[id], op.now)
    ensures var t' := Apply(t, o, op);
            && HeldUntil(t', id, op.adapter, op.now + o.leaseSeconds * 1000)
            && id in t'.jobs && t'.jobs[id].attempts == t.jobs[id].attempts + 1
    ensures HoldOf(t, t.jobs[id].process, t.jobs[id].batch).None?
  {
    TouchedRow(t, o, op, id);
    ClaimsRows(t, o, op.topic, op.adapter, op.now, op.first, op.second);
  }

  // ---- retries ----

  /** How often `fail` can still put this job back. */
  function TriesLeft(t: Table, id: nat): nat {
    if id !in t.jobs || t.jobs[id].Terminal() then 0
    else Max(0, t.jobs[id].maxAttempts - t.jobs[id].attempts - (if t.jobs[id].status == Queued then 1 else 0))
  }

  function RetryCount(t: Table, o: Options, ops: seq<Op>, id: nat): nat
    decreases |ops|
  {
    if ops == [] then 0
    else (if Retries(t, o, ops[0], id) then 1 else 0) + RetryCount(Apply(t, o, ops[0]), o, ops[1..], id)
  }

  lemma RetryStep(t: Table, o: Options, op: Op, id: nat)
    requires Valid(t) && Enabled(t, o, op) && id < t.nextId
    ensures TriesLeft(Apply(t, o, op), id) + (if Retries(t, o, op, id) then 1 else 0) <= TriesLeft(t, id)
  {
    if !op.OpPublish? {
      StepRows(t, o, op);
      if Touched(t, o, op) == Some(id) { TouchedRow(t, o, op, id); }
    }
  }

  lemma {:induction false} RetriesOfKnownJob(t: Table, o: Options, ops: seq<Op>, id: nat)
    requires Valid(t) && IsRun(t, o, ops) && id < t.nextId
    ensures RetryCount(t, o, ops, id) <= TriesLeft(t, id)
    decreases |ops|
  {
    if ops != [] {
      RetryStep(t, o, ops[0], id);
      StepKeepsValid(t, o, ops[0]);
      RetriesOfKnownJob(Apply(t, o, ops[0]), o, ops[1..], id);
    }
  }

  /** The `max_attempts` a job is published with in a run, 1 when it is not published at all. */
  function PublishedWith(t: Table, o: Options, ops: seq<Op>, id: nat): int
    decreases |ops|
  {
    if ops == [] then 1
    else if ops[0].OpPublish? && t.nextId == id then Either(ops[0].requested, o.maxAttempts, 3)
    else PublishedWith(Apply(t, o, ops[0]), o, ops[1..], id)
  }

  /** Whatever happens, `fail` puts a job back at most `max_attempts` - 1 times, and never when that
      is negative: reclaims after an expired lease count as tries too, so they only lower it. */
  lemma {:induction false} RetryBound(t: Table, o: Options, ops: seq<Op>, id: nat)
    requires Valid(t) && IsRun(t, o, ops) && t.nextId <= id
    ensures RetryCount(t, o, ops, id) <= Max(0, PublishedWith(t, o, ops, id) - 1)
    decreases |ops|
  {
    if ops != [] {
      StepKeepsValid(t, o, ops[0]);
      assert !Retries(t, o, ops[0], id);
      if id < Apply(t, o, ops[0]).nextId {
        PublishOnly(t, o, ops[0]);
        RetriesOfKnownJob(Apply(t, o, ops[0]), o, ops[1..], id);
      } else {
        RetryBound(Apply(t, o, ops[0]), o, ops[1..], id);
      }
    }
  }

  lemma PublishOnly(t: Table, o: Options, op: Op)
    requires Valid(t) && Enabled(t, o, op) && t.nextId < Apply(t, o, op).nextId
    ensures op.OpPublish?
  {
    if !op.OpPublish? { StepRows(t, o, op); }
  }

  lemma {:induction false} Pow2Grows(a: nat, b: nat)
    requires a <= b
    ensures 1 <= Pow2(a) <= Pow2(b)
    decreases b
  {
    if b > 0 { Pow2Grows(if a < b then a else a - 1, b - 1); }
  }

  /** The wait never shrinks as tries add up; it doubles from half a second up to sixteen seconds
      at the sixth try and is thirty seconds from the seventh on. */
  lemma BackoffGrows(a: nat, b: nat)
    requires a <= b
    ensures 500 <= Backoff(a) <= Backoff(b) <= 30000 && Backoff(1) == 500
    ensures 1 <= a && b == a + 1 && b <= 6 ==> Backoff(b) == 2 * Backoff(a)
    ensures 7 <= b ==> Backoff(b) == 30000
  {
    Pow2Grows(Max(0, a - 1), Max(0, b - 1));
    Pow2Grows(0, Max(0, a - 1));
    if 7 <= b {
      Pow2Grows(6, b - 1);
    } else {
      Pow2Grows(b, 6);
    }
    assert Pow2(6) == 64 by { assert Pow2(5) == 32 by { assert Pow2(3) == 8; } }
    assert Pow2(5) == 32 by { assert Pow2(3) == 8; }
    if b <= 6 { Pow2Grows(Max(0, b - 1), 5); }
  }

  // ---- how often jobs are handed out ----

  /** How often the row can still be claimed when no lease runs out. */
  function ClaimsLeft(j: Job): nat {
    match j.status
    case Queued => Max(1, j.maxAttempts - j.attempts)
    case Running => Max(0, j.maxAttempts - j.attempts)
    case _ => 0
  }

  function RowClaims(t: Table, id: nat): nat {
    if id in t.jobs then ClaimsLeft(t.jobs[id]) else 0
  }

  function Budget(t: Table, n: nat): nat {
    if n == 0 then 0 else Budget(t, n - 1) + RowClaims(t, n - 1)
  }

  /** Every job this run hands out was queued, not reclaimed from an expired lease. */
  ghost predicate NoLeaseExpires(t: Table, o: Options, ops: seq<Op>)
    decreases |ops|
  {
    ops == [] || (
      && ClaimsQueued(t, o, ops[0])
      && NoLeaseExpires(Apply(t, o, ops[0]), o, ops[1..]))
  }

  function ClaimCount(t: Table, o: Options, ops: seq<Op>): nat
    decreases |ops|
  {
    if ops == [] then 0
    else (if ClaimedBy(t, o, ops[0]).Some? then 1 else 0) + ClaimCount(Apply(t, o, ops[0]), o, ops[1..])
  }

  /** The sum of max(1, max_attempts) over the jobs the run publishes. */
  function PublishedClaims(o: Options, ops: seq<Op>): nat {
    if ops == [] then 0
    else (if ops[0].OpPublish? then Max(1, Either(ops[0].requested, o.maxAttempts, 3)) else 0)
         + PublishedClaims(o, ops[1..])
  }

  predicate ClaimsQueued(t: Table, o: Options, op: Op) {
    var c := ClaimedBy(t, o, op);
    c.Some? ==> c.value in t.jobs && t.jobs[c.value].status == Queued
  }

  lemma RowBudget(t: Table, o: Options, op: Op, id: nat)
    requires Valid(t) && Enabled(t, o, op) && !op.OpPublish? && ClaimsQueued(t, o, op)
    ensures RowClaims(Apply(t, o, op), id) + (if ClaimedBy(t, o, op) == Some(id) then 1 else 0) <= RowClaims(t, id)
  {
    StepRows(t, o, op);
    if Touched(t, o, op) == Some(id) { TouchedRow(t, o, op, id); }
  }

  lemma {:induction false} BudgetSum(t: Table, t': Table, claimed: Option<nat>, n: nat)
    requires forall id :: 0 <= id < n ==> RowClaims(t', id) + (if claimed == Some(id) then 1 else 0) <= RowClaims(t, id)
    ensures Budget(t', n) + (if claimed.Some? && claimed.value < n then 1 else 0) <= Budget(t, n)
    decreases n
  {
    if n > 0 { BudgetSum(t, t', claimed, n - 1); }
  }

  /** When no lease runs out, a run hands jobs out at most as often as the jobs it starts with and
      publishes allow: sum of max(1, max_attempts). */
  lemma {:induction false} ClaimBound(t: Table, o: Options, ops: seq<Op>)
    requires Valid(t) && IsRun(t, o, ops) && NoLeaseExpires(t, o, ops)
    ensures ClaimCount(t, o, ops) <= Budget(t, t.nextId) + PublishedClaims(o, ops)
    decreases |ops|
  {
    if ops != [] {
      var t' := Apply(t, o, ops[0]);
      StepKeepsValid(t, o, ops[0]);
      if ops[0].OpPublish? {
        BudgetSum(t, t', None, t.nextId);
      } else {
        StepRows(t, o, ops[0]);
        forall id | 0 <= id < t.nextId { RowBudget(t, o, ops[0], id); }
        BudgetSum(t, t', ClaimedBy(t, o, ops[0]), t.nextId);
        if ClaimedBy(t, o, ops[0]).Some? { ClaimLeases(t, o, ops[0], ClaimedBy(t, o, ops[0]).value); }
      }
      ClaimBound(t', o, ops[1..]);
    }
  }
}
