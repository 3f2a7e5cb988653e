/** Which operation gives a row its status, which one removes it, and how long a retried job waits. */
module QueueStatus {
  import opened Collections
  import opened QueueTable
  import opened QueueRuns
  import R = QueueRows

  // ---- one step, row by row ----

  /** Why the row `j` may read `k` after the operation. */
  predicate Became(t: Table, o: Options, op: Op, id: nat, j: Job, k: Job) {
    || k == j
    || (op.OpClaim? && R.IsDue(j, op.now) && R.IsFree(t.control, j) && j.queue in {op.topic, op.topic + "_batch"}
        && R.HandedOut(j, k, op.adapter, o.leaseSeconds, op.now))
    || (op.OpHeartbeat? && op.id == id && R.HeldRow(t.jobs, id, op.adapter)
        && k == j.(leaseUntil := Some(op.now + o.leaseSeconds * 1000), updatedAt := op.now))
    || (op.OpComplete? && op.id == id && R.HeldRow(t.jobs, id, op.adapter) && j.batch.Some?
        && R.EndedAs(j, k, Done, op.now))
    || (op.OpFail? && op.id == id && R.HeldRow(t.jobs, id, op.adapter) && !R.IsHeldAs(t.control, j, Aborted)
        && (if R.TriesRemain(j) then R.PutBack(j, k, Backoff(j.attempts), op.now) else R.EndedAs(j, k, Failed, op.now)))
    || (R.IsActive(j) && EndsByCancel(t, op, id, j) && R.EndedAs(j, k, Cancelled, op.now))
  }

  /** Cancelled by itself or as dismissed; or met by a claim, a failure or the panel when its batch is cancelled. */
  predicate EndsByCancel(t: Table, op: Op, id: nat, j: Job) {
    || (op.OpCancelJob? && op.id == id)
    || (op.OpDismiss? && R.IsOf(j, op.rid))
    || (R.IsHeldAs(t.control, j, Aborted)
        && (op.OpClaim? || op.OpPanel? || (op.OpFail? && op.id == id && R.HeldRow(t.jobs, id, op.adapter))))
  }

  /** Why the row may be gone: a clean-up took it when it was over, a drain when it was queued, or its queue
      was flushed, or it was completed. */
  predicate Went(t: Table, o: Options, op: Op, id: nat, j: Job) {
    || (op.OpComplete? && op.id == id && R.HeldRow(t.jobs, id, op.adapter))
    || (op.OpCleanup? && j.status in op.statuses && j.status != Running && R.IsOld(j, op.minutes, op.now))
    || (op.OpFlush? && j.queue in {op.topic, op.topic + "_batch"})
    || (j.status == Queued && (op.OpDrain? || op.OpPause? || op.OpCancel?) && R.IsOf(j, op.rid))
    || (op.OpFail? && op.id in t.jobs && R.HeldRow(t.jobs, op.id, op.adapter) && t.jobs[op.id].batch.Some?
        && (op.id == id || !R.IsActive(j) || j.status == Queued) && !R.TriesRemain(t.jobs[op.id])
        && R.IsOf(j, t.jobs[op.id].batch.value))
    || (!R.IsActive(j)
        && (|| op.OpSweep? || (op.OpCancel? && j.batch == Some(op.rid))
            || (op.OpComplete? && op.id in t.jobs && j.batch.Some? && j.batch == t.jobs[op.id].batch)))
  }

  /** The rows after a step: new ones as published, others as something in the step says. */
  ghost predicate Explained(t: Table, o: Options, op: Op, t': Table) {
    && (forall id :: id in t'.jobs && id !in t.jobs ==>
          op.OpPublish? && id == t.nextId
          && R.IsNew(t'.jobs[id], op.queue, op.payload, op.process, op.batch, R.Tries(op.requested, o.maxAttempts),
                     op.now))
    && (forall id :: id in t'.jobs && id in t.jobs ==> Became(t, o, op, id, t.jobs[id], t'.jobs[id]))
    && (forall id :: id in t.jobs && id !in t'.jobs ==> Went(t, o, op, id, t.jobs[id]))
  }

  /** Every change of a row has its operation: a row is done only by a successful complete of it, failed only
      by a failure of it with no try left, cancelled only by what cancels, running only by a claim, and queued
      again only by a failure with tries left. A row is removed only when it is over, by a drain while it is
      queued, or by its own completion or a flush. */
  lemma StepExplained(t: Table, o: Options, op: Op)
    requires Valid(t) && Enabled(t, o, op)
    ensures Explained(t, o, op, Apply(t, o, op))
  {
    match op
    case OpPublish(queue, payload, process, batch, requested, now) => PublishExplained(t, o, op);
    case OpClaim(topic, adapter, now, first, second) => ClaimExplained(t, o, topic, adapter, now, first, second);
    case OpHeartbeat(id, adapter, now) => HeartbeatExplained(t, o, id, adapter, now);
    case OpComplete(id, adapter, now) => CompleteExplained(t, o, id, adapter, now);
    case OpFail(id, adapter, now, recent) => FailExplained(t, o, id, adapter, now, recent);
    case OpPause(rid, now) => DrainExplained(t, o, rid, now);
    case OpResume(rid) => DrainExplained(t, o, rid, 0);
    case OpCancel(rid, now) => CancelExplained(t, o, rid, now);
    case OpCancelJob(id, now) => CancelJobExplained(t, o, id, now);
    case OpDismiss(rid, now) => DismissExplained(t, o, rid, now);
    case OpDrain(rid) => DrainExplained(t, o, rid, 0);
    case OpFlush(topic) => FlushExplained(t, o, topic);
    case OpCleanup(minutes, statuses, now) => CleanupExplained(t, o, minutes, statuses, now);
    case OpSweep(now) => SweepExplained(t, o, now);
    case OpPanel(listed, now) => PanelExplained(t, o, listed, now);
  }

  lemma PublishExplained(t: Table, o: Options, op: Op)
    requires Valid(t) && op.OpPublish?
    ensures Explained(t, o, op, Apply(t, o, op))
  {
  }

  lemma HeartbeatExplained(t: Table, o: Options, id: nat, adapter: string, now: int)
    ensures var op := OpHeartbeat(id, adapter, now); Explained(t, o, op, Apply(t, o, op))
  {
  }

  lemma DrainExplained(t: Table, o: Options, rid: Rid, now: int)
    ensures Explained(t, o, OpPause(rid, now), PauseBatch(t, rid, now))
    ensures Explained(t, o, OpDrain(rid), Drain(t, rid)) && Explained(t, o, OpResume(rid), ResumeBatch(t, rid))
  {
  }

  lemma CancelJobExplained(t: Table, o: Options, id: nat, now: int)
    ensures var op := OpCancelJob(id, now); Explained(t, o, op, Apply(t, o, op))
  {
  }

  lemma FlushExplained(t: Table, o: Options, topic: string)
    ensures Explained(t, o, OpFlush(topic), Flush(t, topic))
  {
  }

  lemma ClaimExplained(t: Table, o: Options, topic: string, adapter: string, now: int, first: seq<nat>,
                       second: seq<nat>)
    requires Valid(t) && ClaimWindows(t, o, topic, adapter, now, first, second)
    ensures var op := OpClaim(topic, adapter, now, first, second); Explained(t, o, op, Apply(t, o, op))
  {
    R.ClaimMeans(t, o, topic, adapter, now, first, second);
  }

  lemma CancelExplained(t: Table, o: Options, rid: Rid, now: int)
    ensures var op := OpCancel(rid, now); Explained(t, o, op, Apply(t, o, op))
  {
    R.CancelMeans(t, o, rid, now);
  }

  lemma DismissExplained(t: Table, o: Options, rid: Rid, now: int)
    ensures var op := OpDismiss(rid, now); Explained(t, o, op, Apply(t, o, op))
  {
  }

  lemma CleanupExplained(t: Table, o: Options, minutes: int, statuses: set<Status>, now: int)
    ensures var op := OpCleanup(minutes, statuses, now); Explained(t, o, op, Apply(t, o, op))
  {
    R.CleanupMeans(t, minutes, statuses, now);
  }

  lemma SweepExplained(t: Table, o: Options, now: int)
    ensures Explained(t, o, OpSweep(now), Apply(t, o, OpSweep(now)))
  {
    R.SweepMeans(t, o, now);
  }

  lemma PanelExplained(t: Table, o: Options, listed: seq<nat>, now: int)
    requires IsListing(t, listed)
    ensures var op := OpPanel(listed, now); Explained(t, o, op, Apply(t, o, op))
  {
    R.ListingMeans(t, listed, now);
  }

  lemma CompleteExplained(t: Table, o: Options, id: nat, adapter: string, now: int)
    requires Valid(t)
    ensures var op := OpComplete(id, adapter, now); Explained(t, o, op, Apply(t, o, op))
  {
    if R.HeldRow(t.jobs, id, adapter) { R.CompleteMeans(t, o, id, adapter, now); }
  }

  lemma FailExplained(t: Table, o: Options, id: nat, adapter: string, now: int, recent: seq<nat>)
    requires Valid(t)
    ensures var op := OpFail(id, adapter, now, recent); Explained(t, o, op, Apply(t, o, op))
  {
    var op := OpFail(id, adapter, now, recent);
    R.FailMeans(t, o, id, adapter, now, recent);
    FailedAsExplained(t, o, op, Apply(t, o, op), FailureOf(t, o, op));
  }

  lemma FailedAsExplained(t: Table, o: Options, op: Op, t': Table, r: FailResult)
    requires Valid(t) && op.OpFail?
    requires R.FailedAs(t.control, t.jobs, t'.control, t'.jobs, op.id, op.adapter, o.keepFailedMinutes, op.now, r)
    ensures Explained(t, o, op, t')
  {
    if r.AbortedBatch? {
      var m :| R.MarkedFailed(t.jobs, m, op.id, op.now)
               && R.CancelledBatch(m, t'.jobs, r.batch, o.keepFailedMinutes, op.now);
      AbortExplained(t, o, op, m, t', r.batch);
    } else if !r.NotHeld? {
      OneRowExplained(t, o, op, t', r);
    }
  }

  lemma OneRowExplained(t: Table, o: Options, op: Op, t': Table, r: FailResult)
    requires Valid(t) && op.OpFail? && !r.NotHeld? && !r.AbortedBatch?
    requires R.FailedAs(t.control, t.jobs, t'.control, t'.jobs, op.id, op.adapter, o.keepFailedMinutes, op.now, r)
    ensures Explained(t, o, op, t')
  {
    assert op.id in t'.jobs && Became(t, o, op, op.id, t.jobs[op.id], t'.jobs[op.id]);
  }

  lemma AbortExplained(t: Table, o: Options, op: Op, m: R.Rows, t': Table, batch: Rid)
    requires Valid(t) && op.OpFail? && R.HeldRow(t.jobs, op.id, op.adapter) && t.jobs[op.id].batch == Some(batch)
    requires !R.IsHeldAs(t.control, t.jobs[op.id], Aborted) && !R.TriesRemain(t.jobs[op.id])
    requires R.MarkedFailed(t.jobs, m, op.id, op.now)
    requires R.CancelledBatch(m, t'.jobs, batch, o.keepFailedMinutes, op.now)
    ensures Explained(t, o, op, t')
  {
    forall id | id in t'.jobs ensures id in t.jobs && Became(t, o, op, id, t.jobs[id], t'.jobs[id]) {
      assert id in m && t'.jobs[id] == m[id];
    }
    forall id | id in t.jobs && id !in t'.jobs ensures Went(t, o, op, id, t.jobs[id]) {
      assert id in m;
      if id != op.id { assert m[id] == t.jobs[id]; }
    }
  }

  // ---- over runs ----

  /** A finished row has its reason in the run: whoever reads done after it, unless the row was done before,
      finds the step at which the job's holder completed it; and failed, the one at which its holder reported
      a failure with no try left. */
  ghost predicate EndedAt(t: Table, o: Options, ops: seq<Op>, id: nat, status: Status, k: nat)
    requires k < |ops|
  {
    Ends(After(t, o, ops, k), ops[k], id, status)
  }

  /** In this table, the operation ends the row in this way. */
  predicate Ends(t: Table, op: Op, id: nat, status: Status) {
    && id in t.jobs && R.IsActive(t.jobs[id])
    && match status
       case Done => op.OpComplete? && op.id == id && R.HeldRow(t.jobs, id, op.adapter)
       case Failed => op.OpFail? && op.id == id && R.HeldRow(t.jobs, id, op.adapter)
                      && !R.TriesRemain(t.jobs[id]) && !R.IsHeldAs(t.control, t.jobs[id], Aborted)
       case Cancelled => EndsByCancel(t, op, id, t.jobs[id])
       case Queued => false
       case Running => false
  }

  lemma StatusHasReason(t: Table, o: Options, op: Op, id: nat)
    requires Valid(t) && Enabled(t, o, op) && id in Apply(t, o, op).jobs
    ensures var status := Apply(t, o, op).jobs[id].status;
            status in {Done, Failed, Cancelled} && (id in t.jobs ==> t.jobs[id].status != status)
            ==> Ends(t, op, id, status)
  {
    StepExplained(t, o, op);
    if id in t.jobs { assert Became(t, o, op, id, t.jobs[id], Apply(t, o, op).jobs[id]); }
  }

  lemma {:induction false} FinishedHasReason(t: Table, o: Options, ops: seq<Op>, id: nat, status: Status, n: nat)
    requires Valid(t) && IsRun(t, o, ops) && n <= |ops| && status in {Done, Failed, Cancelled}
    requires id in t.jobs ==> t.jobs[id].status != status
    requires id in After(t, o, ops, n).jobs && After(t, o, ops, n).jobs[id].status == status
    ensures exists k :: 0 <= k < n && EndedAt(t, o, ops, id, status, k)
    decreases n
  {
    if n > 0 {
      AfterStep(t, o, ops, n - 1);
      var t1 := After(t, o, ops, n - 1);
      RunKeepsValid(t, o, ops, n - 1);
      if id in t1.jobs && t1.jobs[id].status == status {
        FinishedHasReason(t, o, ops, id, status, n - 1);
      } else {
        StatusHasReason(t1, o, ops[n - 1], id);
        assert EndedAt(t, o, ops, id, status, n - 1);
      }
    }
  }

  // ---- the wait before a retry ----

  /** Queued and not due before `ready`, or past that: running at some later time, over, or gone. */
  predicate Waits(t: Table, id: nat, ready: int) {
    id < t.nextId && (id in t.jobs && t.jobs[id].status == Queued ==> t.jobs[id].nextRetryAt >= ready)
    && (id in t.jobs ==> t.jobs[id].status != Running)
  }

  lemma WaitingNotClaimed(t: Table, o: Options, op: Op, id: nat, ready: int)
    requires Valid(t) && Enabled(t, o, op) && Waits(t, id, ready) && (op.OpClaim? ==> op.now < ready)
    ensures ClaimedBy(t, o, op) != Some(id)
  {
    if op.OpClaim? { R.ClaimMeans(t, o, op.topic, op.adapter, op.now, op.first, op.second); }
  }

  lemma WaitStep(t: Table, o: Options, op: Op, id: nat, ready: int)
    requires Valid(t) && Enabled(t, o, op) && Waits(t, id, ready) && (op.OpClaim? ==> op.now < ready)
    ensures Waits(Apply(t, o, op), id, ready)
  {
    var t' := Apply(t, o, op);
    StepKeepsValid(t, o, op);
    StepExplained(t, o, op);
    if id in t'.jobs {
      assert id in t.jobs;
      RowWaits(t, o, op, id, t.jobs[id], t'.jobs[id], ready);
    }
  }

  lemma RowWaits(t: Table, o: Options, op: Op, id: nat, j: Job, k: Job, ready: int)
    requires Became(t, o, op, id, j, k) && id in t.jobs && t.jobs[id] == j && Waits(t, id, ready)
    requires op.OpClaim? ==> op.now < ready
    ensures k.status != Running && (k.status == Queued ==> k.nextRetryAt >= ready)
  {
  }

  lemma {:induction false} WaitIsKept(t: Table, o: Options, ops: seq<Op>, id: nat, ready: int, n: nat)
    requires Valid(t) && IsRun(t, o, ops) && n < |ops| && Waits(t, id, ready)
    requires forall k :: 0 <= k <= n && ops[k].OpClaim? ==> ops[k].now < ready
    ensures ClaimedBy(After(t, o, ops, n), o, ops[n]) != Some(id)
    decreases n
  {
    WaitingNotClaimed(t, o, ops[0], id, ready);
    if n > 0 {
      WaitStep(t, o, ops[0], id, ready);
      StepKeepsValid(t, o, ops[0]);
      WaitIsKept(Apply(t, o, ops[0]), o, ops[1..], id, ready, n - 1);
    }
  }

  /** A failed job waits: after a failure with tries left nobody is handed the job before half a second has
      passed after its first try, one second after its second, and so on, whatever happens in between. */
  lemma {:induction false} RetryWaits(t: Table, o: Options, ops: seq<Op>, n: nat)
    requires Valid(t) && IsRun(t, o, ops) && 0 < n < |ops| && ops[0].OpFail?
    requires R.HeldRow(t.jobs, ops[0].id, ops[0].adapter) && R.TriesRemain(t.jobs[ops[0].id])
    requires !R.IsHeldAs(t.control, t.jobs[ops[0].id], Aborted)
    requires forall k :: 0 < k <= n && ops[k].OpClaim? ==>
               ops[k].now < ops[0].now + Backoff(t.jobs[ops[0].id].attempts)
    ensures ClaimedBy(After(t, o, ops, n), o, ops[n]) != Some(ops[0].id)
  {
    var id := ops[0].id;
    R.FailMeans(t, o, id, ops[0].adapter, ops[0].now, ops[0].recent);
    StepKeepsValid(t, o, ops[0]);
    WaitIsKept(Apply(t, o, ops[0]), o, ops[1..], id, ops[0].now + Backoff(t.jobs[id].attempts), n - 1);
  }
}
