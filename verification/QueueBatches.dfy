/** Batches over whole runs: paused and cancelled ones hand nothing out until they are resumed, and
    an aborted one drains. */
module QueueBatches {
  import opened Collections
  import opened QueueTable
  import opened QueueRuns
  import R = QueueRows

  // ---- blocked until resume ----

  lemma SweepKeepsHold(t: Table, o: Options, rid: Rid, now: int)
    requires rid in t.control
    ensures var t' := Sweep(t, o, now);
            (rid in t'.control && t'.control[rid] == t.control[rid]) || (rid !in t'.control && !Referenced(t', rid))
  {
  }

  lemma CleanupKeepsControl(t: Table, o: Options, rid: Rid, now: int)
    ensures CancelBatch(t, o, rid, now).control == t.control[rid := Control(Aborted, now)]
  {
  }

  lemma FailKeepsHold(t: Table, o: Options, id: nat, adapter: string, now: int, recent: seq<nat>, rid: Rid)
    requires rid in t.control
    ensures var t' := Fail(t, o, id, adapter, now, recent).0;
            rid in t'.control && (t.control[rid].hold == Aborted ==> t'.control[rid].hold == Aborted)
  {
    if id in t.jobs && t.jobs[id].batch.Some? {
      CleanupKeepsControl(t.(jobs := t.jobs[id := FailedJob(t.jobs[id], now)]), o, t.jobs[id].batch.value, now);
    }
  }

  /** The hold of a batch goes away only by resuming it, or by a sweep that leaves no row of it. */
  lemma HoldStep(t: Table, o: Options, op: Op, rid: Rid)
    requires Valid(t) && Enabled(t, o, op) && rid in t.control && op != OpResume(rid)
    ensures rid in Apply(t, o, op).control || !Referenced(Apply(t, o, op), rid)
    ensures !op.OpSweep? ==> rid in Apply(t, o, op).control
    ensures t.control[rid].hold == Aborted && !(op.OpPause? && op.rid == rid) && rid in Apply(t, o, op).control
            ==> Apply(t, o, op).control[rid].hold == Aborted
  {
    match op
    case OpClaim(topic, adapter, now, first, second) => ClaimsRows(t, o, topic, adapter, now, first, second);
    case OpFail(id, adapter, now, recent) => FailKeepsHold(t, o, id, adapter, now, recent, rid);
    case OpCancel(b, now) => CleanupKeepsControl(t, o, b, now);
    case OpSweep(now) => SweepKeepsHold(t, o, rid, now);
    case OpPanel(listed, now) => ListingRows(t, listed, now);
    case _ =>
  }

  lemma HeldBatchNotClaimed(t: Table, o: Options, op: Op, rid: Rid, id: nat)
    requires Valid(t) && Enabled(t, o, op) && rid in t.control && ClaimedBy(t, o, op) == Some(id)
    ensures id in t.jobs && t.jobs[id].batch != Some(rid)
  {
    ClaimsRows(t, o, op.topic, op.adapter, op.now, op.first, op.second);
  }

  /** Rows of the batch all came later than `n`. */
  ghost predicate NewerThan(t: Table, rid: Rid, n: nat) {
    n <= t.nextId && forall id :: id in t.jobs && t.jobs[id].batch == Some(rid) ==> n <= id
  }

  /** No operation but publishing adds a row, and none moves a job to another batch. */
  lemma RowWasThere(t: Table, o: Options, op: Op, id: nat)
    requires Valid(t) && Enabled(t, o, op) && !op.OpPublish? && id in Apply(t, o, op).jobs
    ensures id in t.jobs && SameJob(t.jobs[id], Apply(t, o, op).jobs[id])
    ensures Touched(t, o, op) != Some(id) ==> Steady(t.jobs[id], Apply(t, o, op).jobs[id])
    ensures Touched(t, o, op) == Some(id) ==> Handed(o, op, t.jobs[id], Apply(t, o, op).jobs[id])
  {
    StepRows(t, o, op);
    if Touched(t, o, op) == Some(id) { TouchedRow(t, o, op, id); }
  }

  lemma NewerStep(t: Table, o: Options, op: Op, rid: Rid, n: nat)
    requires Valid(t) && Enabled(t, o, op) && NewerThan(t, rid, n)
    ensures NewerThan(Apply(t, o, op), rid, n)
  {
    if !op.OpPublish? {
      StepKeepsValid(t, o, op);
      forall id | id in Apply(t, o, op).jobs && Apply(t, o, op).jobs[id].batch == Some(rid) ensures n <= id {
        RowWasThere(t, o, op, id);
      }
    }
  }

  lemma {:induction false} NewerRun(t: Table, o: Options, ops: seq<Op>, rid: Rid, n: nat, k: nat)
    requires Valid(t) && IsRun(t, o, ops) && k < |ops| && NewerThan(t, rid, n)
    ensures NewerThan(After(t, o, ops, k), rid, n)
    ensures var c := ClaimedBy(After(t, o, ops, k), o, ops[k]);
            c.Some? ==> c.value in After(t, o, ops, k).jobs
    decreases k
  {
    if k == 0 {
      if ClaimedBy(t, o, ops[0]).Some? { TouchedRow(t, o, ops[0], ClaimedBy(t, o, ops[0]).value); }
    } else {
      StepKeepsValid(t, o, ops[0]);
      NewerStep(t, o, ops[0], rid, n);
      NewerRun(Apply(t, o, ops[0]), o, ops[1..], rid, n, k - 1);
    }
  }

  /** The job this step hands out belongs to the batch. */
  predicate HandsOut(t: Table, o: Options, op: Op, rid: Rid, id: nat) {
    ClaimedBy(t, o, op) == Some(id) && id in t.jobs && t.jobs[id].batch == Some(rid)
  }

  /** The state row was gone after `m` operations, when no row of the batch was left and the job was
      still to be published. */
  ghost predicate SweptBefore(t: Table, o: Options, ops: seq<Op>, rid: Rid, id: nat, m: nat)
    requires m <= |ops|
  {
    var t' := After(t, o, ops, m);
    rid !in t'.control && !Referenced(t', rid) && t'.nextId <= id
  }

  /** Paused or cancelled means blocked until resumed: while no operation resumes the batch, a claim
      hands out a job of it only if a sweep first removed the state row, with no row of the batch
      left in the table, and the job was published after that. So no job that was in the table at
      the pause, or published before the sweep, is ever handed out, whatever retries, expired leases
      and other batches' changes come in between. */
  lemma {:induction false} BlockedUntilResume(t: Table, o: Options, ops: seq<Op>, rid: Rid, k: nat, id: nat)
    requires Valid(t) && IsRun(t, o, ops) && k < |ops| && rid in t.control
    requires forall i :: 0 <= i <= k ==> ops[i] != OpResume(rid)
    requires HandsOut(After(t, o, ops, k), o, ops[k], rid, id)
    ensures exists m :: 0 < m <= k && SweptBefore(t, o, ops, rid, id, m)
    decreases k
  {
    var t' := Apply(t, o, ops[0]);
    if k == 0 {
      HeldBatchNotClaimed(t, o, ops[0], rid, id);
    } else {
      StepKeepsValid(t, o, ops[0]);
      HoldStep(t, o, ops[0], rid);
      if rid in t'.control {
        BlockedUntilResume(t', o, ops[1..], rid, k - 1, id);
        var m :| 0 < m <= k - 1 && SweptBefore(t', o, ops[1..], rid, id, m);
        assert SweptBefore(t, o, ops, rid, id, m + 1);
      } else {
        NewerRun(t', o, ops[1..], rid, t'.nextId, k - 1);
        assert After(t, o, ops, 1) == t' by { assert After(t', o, ops[1..], 0) == t'; }
        assert SweptBefore(t, o, ops, rid, id, 1);
      }
    }
  }

  /** Pausing or cancelling a batch puts the hold in place and leaves none of its rows queued. */
  lemma PauseAndCancelHold(t: Table, o: Options, rid: Rid, now: int)
    ensures rid in PauseBatch(t, rid, now).control && rid in CancelBatch(t, o, rid, now).control
    ensures NoneQueued(PauseBatch(t, rid, now), rid) && NoneQueued(CancelBatch(t, o, rid, now), rid)
    ensures forall id :: id in t.jobs && !t.jobs[id].Of(rid) ==>
              id in PauseBatch(t, rid, now).jobs && PauseBatch(t, rid, now).jobs[id] == t.jobs[id]
  {
    CleanupKeepsControl(t, o, rid, now);
  }

  // ---- automatic abort ----

  ghost predicate NoneQueued(t: Table, rid: Rid) {
    forall id :: id in t.jobs && t.jobs[id].batch == Some(rid) ==> t.jobs[id].status != Queued
  }

  /** The table `fail` counts over: the failed row is already marked. */
  function Marked(t: Table, id: nat, now: int): Table
    requires id in t.jobs
  {
    t.(jobs := t.jobs[id := FailedJob(t.jobs[id], now)])
  }

  predicate OutOfTries(t: Table, id: nat, adapter: string) {
    && HeldBy(t, id, adapter) && t.jobs[id].attempts >= t.jobs[id].Allowed()
    && HoldOf(t, t.jobs[id].process, t.jobs[id].batch) != Some(Aborted)
  }

  /** The failed rows with an outcome later than `id`'s. */
  function FailedSince(t: Table, rid: Rid, id: nat): set<nat>
    requires id in R.OutcomesOf(t.jobs, rid)
  {
    set x | x in R.OutcomesOf(t.jobs, rid) && t.jobs[x].status == Failed
      && t.jobs[x].completedAt.value > t.jobs[id].completedAt.value
  }

  ghost predicate DistinctTimes(t: Table, rid: Rid) {
    forall x, y :: x in R.OutcomesOf(t.jobs, rid) && y in R.OutcomesOf(t.jobs, rid) && x != y ==>
      t.jobs[x].completedAt != t.jobs[y].completedAt
  }

  /** `k` outcomes, and no success among the newest `k`: every success has `k` later failures. */
  ghost predicate NewestFailed(t: Table, rid: Rid, k: int) {
    && |R.OutcomesOf(t.jobs, rid)| >= k
    && forall d :: d in R.OutcomesOf(t.jobs, rid) && t.jobs[d].status == Done ==> |FailedSince(t, rid, d)| >= k
  }

  lemma SubsetSize<T>(a: set<T>, b: set<T>)
    requires a <= b
    ensures |a| <= |b|
  {
    assert b == a + (b - a);
  }

  lemma OutcomesAgree(t: Table, rid: Rid)
    ensures R.OutcomesOf(t.jobs, rid) == OutcomeRows(t, rid)
    ensures R.OverOf(t.jobs, rid) == TerminalRows(t, rid) && R.FailedOf(t.jobs, rid) == FailedRows(t, rid)
  {
  }

  lemma RecentOfSuccess(t: Table, rid: Rid, k: int, w: seq<nat>, i: nat)
    requires 0 < k && IsRecent(t, rid, k, w) && i < |w| && t.jobs[w[i]].status == Done
    ensures |FailedSince(t, rid, w[i])| < k
  {
    forall x | x in FailedSince(t, rid, w[i]) ensures x in Elements(w) && x != w[i] {
      if x !in w { assert false; }
    }
    SubsetSize(FailedSince(t, rid, w[i]) + {w[i]}, Elements(w));
    DistinctLength(w);
  }

  lemma RecentAllFailed(t: Table, rid: Rid, k: int, w: seq<nat>, d: nat)
    requires 0 < k && IsRecent(t, rid, k, w) && DistinctTimes(t, rid) && AllRecentFailed(t, k, w)
    requires d in OutcomeRows(t, rid) && t.jobs[d].status == Done
    ensures |FailedSince(t, rid, d)| >= k
  {
    assert d !in w;
    forall x | x in Elements(w) ensures x in FailedSince(t, rid, d) {
      var i :| 0 <= i < |w| && w[i] == x;
      assert t.jobs[w[i]].completedAt.value >= t.jobs[d].completedAt.value;
    }
    SubsetSize(Elements(w), FailedSince(t, rid, d));
    DistinctLength(w);
  }

  /** The consecutive-failure query means what it is for: with outcome times apart, its answer is
      all failures exactly when every success is older than `k` failures. */
  lemma RecentMeansConsecutive(t: Table, rid: Rid, k: int, w: seq<nat>)
    requires 0 < k && IsRecent(t, rid, k, w) && DistinctTimes(t, rid)
    ensures AllRecentFailed(t, k, w) <==> NewestFailed(t, rid, k)
  {
    OutcomesAgree(t, rid);
    if AllRecentFailed(t, k, w) {
      forall d | d in OutcomeRows(t, rid) && t.jobs[d].status == Done ensures |FailedSince(t, rid, d)| >= k {
        RecentAllFailed(t, rid, k, w, d);
      }
    } else if |w| >= k {
      var id :| id in w && !(id in t.jobs && t.jobs[id].status == Failed);
      var i :| 0 <= i < |w| && w[i] == id;
      assert w[i] in OutcomeRows(t, rid);
      RecentOfSuccess(t, rid, k, w, i);
    }
  }

  lemma AbortTests(t: Table, o: Options, id: nat, adapter: string, now: int, recent: seq<nat>)
    requires id in t.jobs && t.jobs[id].batch.Some?
    ensures var b := t.jobs[id].batch.value; var m := Marked(t, id, now);
            var r := Fail(t, o, id, adapter, now, recent).1;
            && (r.AbortedBatch? <==>
                  OutOfTries(t, id, adapter)
                  && (|FailedRows(m, b)| * 100 >= MaxPercent(t.jobs[id], o) * |TerminalRows(m, b)|
                        || AllRecentFailed(m, MaxConsecutive(t.jobs[id], o), recent)))
            && (r.AbortedBatch? ==> r.batch == b)
  {
    if HeldBy(t, id, adapter) { assert id in TerminalRows(Marked(t, id, now), t.jobs[id].batch.value); }
  }

  /** `fail` reports an abort exactly when the job is out of tries and, over the rows the batch still
      has, too large a share failed or the newest `k` outcomes are all failures. */
  lemma AbortExactly(t: Table, o: Options, id: nat, adapter: string, now: int, recent: seq<nat>)
    requires Valid(t) && FailWindow(t, o, id, adapter, now, recent) && id in t.jobs && t.jobs[id].batch.Some?
    ensures var j := t.jobs[id];
            var b := j.batch.value;
            var m := t.(jobs := t.jobs[id := FailedJob(j, now)]);
            var k := R.Limit(j.payload.abortConsecutive, o.abortConsecutive, 5);
            var percent := R.Limit(j.payload.abortPercent, o.abortPercent, 50);
            var out := R.HeldRow(t.jobs, id, adapter) && !R.TriesRemain(j) && !R.IsHeldAs(t.control, j, Aborted);
            var newest := |recent| >= k && forall x :: x in recent ==> x in m.jobs && m.jobs[x].status == Failed;
            var r := Fail(t, o, id, adapter, now, recent).1;
            && (r.AbortedBatch? <==>
                  out && (|R.FailedOf(m.jobs, b)| * 100 >= percent * |R.OverOf(m.jobs, b)| || newest))
            && (r.AbortedBatch? ==> r.batch == b)
            && (0 < k && DistinctTimes(m, b) && out ==> (newest <==> NewestFailed(m, b, k)))
  {
    AbortTests(t, o, id, adapter, now, recent);
    R.HoldsAgree(t, t.jobs[id]);
    var b, m, k := t.jobs[id].batch.value, Marked(t, id, now), MaxConsecutive(t.jobs[id], o);
    OutcomesAgree(m, b);
    if HeldBy(t, id, adapter) && 0 < k && DistinctTimes(m, b) { RecentMeansConsecutive(m, b, k, recent); }
  }

  ghost predicate RunsAsItself(t: Table, rid: Rid) {
    forall id :: id in t.jobs && t.jobs[id].batch == Some(rid) ==>
      t.jobs[id].process == None || t.jobs[id].process == Some(rid)
  }

  /** Aborted, nothing queued, and every job of the batch carries it as its own process. */
  ghost predicate Draining(t: Table, rid: Rid) {
    && NoneQueued(t, rid) && RunsAsItself(t, rid)
    && (Referenced(t, rid) ==> rid in t.control && t.control[rid].hold == Aborted)
  }

  function ActiveOf(t: Table, rid: Rid): set<nat> {
    set id | id in t.jobs && t.jobs[id].batch == Some(rid) && t.jobs[id].Active()
  }

  lemma RowOfDraining(t: Table, o: Options, op: Op, rid: Rid, id: nat)
    requires Valid(t) && Enabled(t, o, op) && Draining(t, rid) && !op.OpPublish?
    requires var t' := Apply(t, o, op); id in t'.jobs && t'.jobs[id].batch == Some(rid)
    ensures id in t.jobs && SameJob(t.jobs[id], Apply(t, o, op).jobs[id]) && Apply(t, o, op).jobs[id].status != Queued
    ensures Apply(t, o, op).jobs[id].Active() ==> t.jobs[id].Active()
  {
    RowWasThere(t, o, op, id);
    if Touched(t, o, op) == Some(id) {
      assert Referenced(t, rid);
      if op.OpClaim? { HeldBatchNotClaimed(t, o, op, rid, id); }
    }
  }

  lemma DrainingStep(t: Table, o: Options, op: Op, rid: Rid)
    requires Valid(t) && Enabled(t, o, op) && Draining(t, rid)
    requires op != OpResume(rid) && !(op.OpPause? && op.rid == rid) && !(op.OpPublish? && op.batch == Some(rid))
    ensures Draining(Apply(t, o, op), rid) && ActiveOf(Apply(t, o, op), rid) <= ActiveOf(t, rid)
  {
    var t' := Apply(t, o, op);
    if !op.OpPublish? {
      forall id | id in t'.jobs && t'.jobs[id].batch == Some(rid)
        ensures id in t.jobs && SameJob(t.jobs[id], t'.jobs[id]) && t'.jobs[id].status != Queued
        ensures t'.jobs[id].Active() ==> t.jobs[id].Active()
      {
        RowOfDraining(t, o, op, rid, id);
      }
      if Referenced(t', rid) {
        assert Referenced(t, rid);
        HoldStep(t, o, op, rid);
      }
    } else {
      assert Referenced(t', rid) ==> Referenced(t, rid);
    }
  }

  /** After an abort nothing of the batch is ever queued again and its running jobs only become
      fewer, until something is published for it or it is paused or resumed. */
  lemma {:induction false} AbortedBatchDrains(t: Table, o: Options, ops: seq<Op>, rid: Rid, n: nat)
    requires Valid(t) && IsRun(t, o, ops) && n <= |ops| && Draining(t, rid)
    requires forall i :: 0 <= i < n ==> ops[i] != OpResume(rid) && !(ops[i].OpPause? && ops[i].rid == rid)
                                        && !(ops[i].OpPublish? && ops[i].batch == Some(rid))
    ensures NoneQueued(After(t, o, ops, n), rid) && ActiveOf(After(t, o, ops, n), rid) <= ActiveOf(t, rid)
    decreases n
  {
    if n > 0 {
      StepKeepsValid(t, o, ops[0]);
      DrainingStep(t, o, ops[0], rid);
      AbortedBatchDrains(Apply(t, o, ops[0]), o, ops[1..], rid, n - 1);
    }
  }

  lemma AbortResult(t: Table, o: Options, id: nat, adapter: string, now: int, recent: seq<nat>)
    requires Fail(t, o, id, adapter, now, recent).1.AbortedBatch?
    ensures HeldBy(t, id, adapter) && t.jobs[id].batch.Some?
    ensures Fail(t, o, id, adapter, now, recent).0 == CancelBatch(Marked(t, id, now), o, t.jobs[id].batch.value, now)
  {
  }

  lemma CancelDrains(t: Table, o: Options, rid: Rid, now: int)
    requires Valid(t) && RunsAsItself(t, rid)
    ensures Draining(CancelBatch(t, o, rid, now), rid)
  {
    CleanupKeepsControl(t, o, rid, now);
    PauseAndCancelHold(t, o, rid, now);
    CancelShrinks(t, o, rid, now);
  }

  /** An abort leaves no row of the batch queued, whichever process its jobs name, and holds the batch; when
      they all carry it as their own process, it starts the draining. */
  lemma AbortDrains(t: Table, o: Options, id: nat, adapter: string, now: int, recent: seq<nat>)
    requires Valid(t) && Fail(t, o, id, adapter, now, recent).1.AbortedBatch?
    ensures id in t.jobs && t.jobs[id].batch.Some?
    ensures var b := t.jobs[id].batch.value; var t' := Fail(t, o, id, adapter, now, recent).0;
            && NoneQueued(t', b) && b in t'.control && t'.control[b].hold == Aborted
            && (RunsAsItself(t, b) ==> Draining(t', b))
  {
    AbortResult(t, o, id, adapter, now, recent);
    var b, m := t.jobs[id].batch.value, Marked(t, id, now);
    SetRowShrinks(t, id, FailedJob(t.jobs[id], now));
    CleanupKeepsControl(m, o, b, now);
    PauseAndCancelHold(m, o, b, now);
    if RunsAsItself(t, b) {
      AbortShrinks(t, o, id, b, now);
      CancelDrains(m, o, b, now);
    }
  }

  /** Why the process must be the batch itself: a job whose own process is merely paused is looked
      up there first, so it goes back to the queue although its batch was aborted. That happens in
      exactly this case. */
  lemma RequeuedDespiteAbort(t: Table, o: Options, id: nat, adapter: string, now: int, recent: seq<nat>)
    requires HeldBy(t, id, adapter) && t.jobs[id].batch.Some?
    requires t.jobs[id].batch.value in t.control && t.control[t.jobs[id].batch.value].hold == Aborted
    ensures Fail(t, o, id, adapter, now, recent).1.Retry? <==>
              t.jobs[id].process.Some? && t.jobs[id].process.value in t.control
              && t.control[t.jobs[id].process.value].hold == Paused && t.jobs[id].attempts < t.jobs[id].Allowed()
  {
  }
}
