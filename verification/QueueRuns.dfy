/** What holds of the queue over whole runs: any operations, in any order, with any clock. */
module QueueRuns {
  import opened Collections
  import opened QueueTable

  datatype Op =
    | OpPublish(queue: string, payload: Payload, process: Option<Rid>, batch: Option<Rid>, requested: int, now: int)
    | OpClaim(topic: string, adapter: string, now: int, first: seq<nat>, second: seq<nat>)
    | OpHeartbeat(id: nat, adapter: string, now: int)
    | OpComplete(id: nat, adapter: string, now: int)
    | OpFail(id: nat, adapter: string, now: int, recent: seq<nat>)
    | OpPause(rid: Rid, now: int)
    | OpResume(rid: Rid)
    | OpCancel(rid: Rid, now: int)
    | OpCancelJob(id: nat, now: int)
    | OpDismiss(rid: Rid, now: int)
    | OpDrain(rid: Rid)
    | OpFlush(topic: string)
    | OpCleanup(minutes: int, statuses: set<Status>, now: int)
    | OpSweep(now: int)
    | OpPanel(listed: seq<nat>, now: int)

  /** The answers the database gave to the operation's queries are answers it can give. */
  ghost predicate Enabled(t: Table, o: Options, op: Op) {
    match op
    case OpClaim(topic, adapter, now, first, second) => ClaimWindows(t, o, topic, adapter, now, first, second)
    case OpFail(id, adapter, now, recent) => FailWindow(t, o, id, adapter, now, recent)
    case OpPanel(listed, now) => IsListing(t, listed)
    case _ => true
  }

  function Apply(t: Table, o: Options, op: Op): Table {
    match op
    case OpPublish(queue, payload, process, batch, requested, now) =>
      Publish(t, NewJob(o, queue, payload, process, batch, requested, now))
    case OpClaim(_, adapter, now, first, second) => Claim(t, o, adapter, now, first, second).0
    case OpHeartbeat(id, adapter, now) => Heartbeat(t, o, id, adapter, now)
    case OpComplete(id, adapter, now) => Complete(t, o, id, adapter, now)
    case OpFail(id, adapter, now, recent) => Fail(t, o, id, adapter, now, recent).0
    case OpPause(rid, now) => PauseBatch(t, rid, now)
    case OpResume(rid) => ResumeBatch(t, rid)
    case OpCancel(rid, now) => CancelBatch(t, o, rid, now)
    case OpCancelJob(id, now) => CancelJob(t, id, now)
    case OpDismiss(rid, now) => Dismiss(t, rid, now)
    case OpDrain(rid) => Drain(t, rid)
    case OpFlush(topic) => Flush(t, topic)
    case OpCleanup(minutes, statuses, now) => CleanupOlder(t, minutes, statuses, now)
    case OpSweep(now) => Sweep(t, o, now)
    case OpPanel(listed, now) => FinaliseListed(t, listed, now)
  }

  /** The job a claim handed out, if any. */
  function ClaimedBy(t: Table, o: Options, op: Op): Option<nat> {
    if op.OpClaim? then Claim(t, o, op.adapter, op.now, op.first, op.second).1 else None
  }

  predicate Completes(t: Table, op: Op, id: nat) {
    op.OpComplete? && op.id == id && HeldBy(t, id, op.adapter)
  }

  function FailureOf(t: Table, o: Options, op: Op): FailResult {
    if op.OpFail? then Fail(t, o, op.id, op.adapter, op.now, op.recent).1 else NotHeld
  }

  predicate FailsForGood(t: Table, o: Options, op: Op, id: nat) {
    op.OpFail? && op.id == id && (FailureOf(t, o, op).Permanent? || FailureOf(t, o, op).AbortedBatch?)
  }

  predicate Retries(t: Table, o: Options, op: Op, id: nat) {
    op.OpFail? && op.id == id && FailureOf(t, o, op).Retry?
  }

  ghost predicate IsRun(t: Table, o: Options, ops: seq<Op>)
    decreases |ops|
  {
    ops == [] || (Enabled(t, o, ops[0]) && IsRun(Apply(t, o, ops[0]), o, ops[1..]))
  }

  /** The table after the first `n` operations. */
  function After(t: Table, o: Options, ops: seq<Op>, n: nat): Table
    requires n <= |ops|
    decreases n
  {
    if n == 0 then t else After(Apply(t, o, ops[0]), o, ops[1..], n - 1)
  }

  lemma {:induction false} AfterStep(t: Table, o: Options, ops: seq<Op>, n: nat)
    requires n < |ops|
    ensures After(t, o, ops, n + 1) == Apply(After(t, o, ops, n), o, ops[n])
    ensures IsRun(t, o, ops) ==> Enabled(After(t, o, ops, n), o, ops[n])
    decreases n
  {
    if n > 0 {
      AfterStep(Apply(t, o, ops[0]), o, ops[1..], n - 1);
    } else {
      assert After(t, o, ops, 1) == After(Apply(t, o, ops[0]), o, ops[1..], 0);
    }
  }

  // ---- one row over one step ----

  /** What every reachable table satisfies. */
  ghost predicate Valid(t: Table) {
    forall id :: id in t.jobs ==> id < t.nextId && ValidJob(t.jobs[id])
  }

  ghost predicate ValidJob(j: Job) {
    && j.maxAttempts != 0
    && (j.status == Running ==> j.attempts >= 1 && j.claimedBy.Some? && j.leaseUntil.Some?)
    && (j.status == Queued ==> j.claimedBy.None? && (j.attempts == 0 || j.attempts < j.maxAttempts))
    && (j.Terminal() ==> j.completedAt.Some?)
  }

  /** What belongs to a job for good. */
  predicate SameJob(j: Job, j': Job) {
    && j'.queue == j.queue && j'.payload == j.payload && j'.process == j.process && j'.batch == j.batch
    && j'.maxAttempts == j.maxAttempts && j'.createdAt == j.createdAt
  }

  /** A row an operation does not hand on: it stays as it is, or an active row ends. */
  predicate Steady(j: Job, j': Job) {
    j' == j || (SameJob(j, j') && j'.attempts == j.attempts && j.Active() && j'.Terminal())
  }

  /** The one row an operation may keep active under new terms: leased by a claim, extended by a
      heartbeat, or queued again by a failure. */
  function Touched(t: Table, o: Options, op: Op): Option<nat> {
    if op.OpClaim? then ClaimedBy(t, o, op)
    else if op.OpHeartbeat? && HeldBy(t, op.id, op.adapter) then Some(op.id)
    else if op.OpFail? && Retries(t, o, op, op.id) then Some(op.id)
    else None
  }

  predicate Handed(o: Options, op: Op, j: Job, j': Job) {
    match op
    case OpClaim(_, adapter, now, _, _) => Due(j, now) && j' == Leased(j, o, adapter, now)
    case OpHeartbeat(_, adapter, now) => j.status == Running && j.claimedBy == Some(adapter) && j' == Renewed(j, o, now)
    case OpFail(_, adapter, now, _) =>
      j.status == Running && j.claimedBy == Some(adapter) && j.attempts < j.Allowed() && j' == Requeued(j, now)
    case _ => false
  }

  /** Free and past its backoff, or running with its lease over. */
  predicate Due(j: Job, now: int) {
    Claimable(j, j.queue, now)
  }

  // The steps below say, operation by operation, that every row but the touched one is steady.

  ghost predicate Shrinks(t: Table, t': Table, touched: Option<nat>) {
    && t'.nextId == t.nextId
    && (forall id :: id in t'.jobs ==> id in t.jobs && ValidJob(t'.jobs[id]))
    && (forall id :: id in t'.jobs && touched != Some(id) ==> Steady(t.jobs[id], t'.jobs[id]))
  }

  lemma ShrinksThrough(t: Table, t1: Table, t2: Table)
    requires Shrinks(t, t1, None) && Shrinks(t1, t2, None)
    ensures Shrinks(t, t2, None)
  {
  }

  lemma SetRowShrinks(t: Table, id: nat, j: Job)
    requires Valid(t) && id in t.jobs && ValidJob(j)
    ensures Shrinks(t, t.(jobs := t.jobs[id := j]), Some(id)) && Valid(t.(jobs := t.jobs[id := j]))
    ensures Steady(t.jobs[id], j) ==> Shrinks(t, t.(jobs := t.jobs[id := j]), None)
  {
  }

  lemma CleanupShrinks(t: Table, o: Options, rid: Rid, now: int)
    requires Valid(t)
    ensures Shrinks(t, CleanupIfIdle(t, o, rid, now), None)
  {
  }

  lemma DrainShrinks(t: Table, rid: Rid)
    requires Valid(t)
    ensures Shrinks(t, Drain(t, rid), None) && Valid(Drain(t, rid))
  {
  }

  lemma CancelShrinks(t: Table, o: Options, rid: Rid, now: int)
    requires Valid(t)
    ensures Shrinks(t, CancelBatch(t, o, rid, now), None)
  {
    var held := SetHold(t, rid, Aborted, now);
    DrainShrinks(held, rid);
    CleanupShrinks(Drain(held, rid), o, rid, now);
    ShrinksThrough(held, Drain(held, rid), CancelBatch(t, o, rid, now));
  }

  lemma CompleteShrinks(t: Table, o: Options, id: nat, adapter: string, now: int)
    requires Valid(t)
    ensures Shrinks(t, Complete(t, o, id, adapter, now), None)
  {
    if HeldBy(t, id, adapter) {
      var done := t.(jobs := t.jobs[id := Finished(t.jobs[id], now)]);
      SetRowShrinks(t, id, Finished(t.jobs[id], now));
      if t.jobs[id].batch.Some? {
        CleanupShrinks(done, o, t.jobs[id].batch.value, now);
        ShrinksThrough(t, done, CleanupIfIdle(done, o, t.jobs[id].batch.value, now));
      } else {
        assert Shrinks(t, Without(done, id), None);
      }
    }
  }

  /** Where `fail` may leave its row. */
  lemma FailRowCases(j: Job, now: int)
    requires j.status == Running && ValidJob(j)
    ensures Steady(j, Finalised(j, now)) && ValidJob(Finalised(j, now))
    ensures Steady(j, FailedJob(j, now)) && ValidJob(FailedJob(j, now))
    ensures j.attempts < j.Allowed() ==> ValidJob(Requeued(j, now))
  {
  }

  lemma AbortShrinks(t: Table, o: Options, id: nat, batch: Rid, now: int)
    requires Valid(t) && id in t.jobs && t.jobs[id].status == Running
    ensures var failed := t.(jobs := t.jobs[id := FailedJob(t.jobs[id], now)]);
            Shrinks(t, failed, None) && Shrinks(t, CancelBatch(failed, o, batch, now), None)
  {
    FailRowCases(t.jobs[id], now);
    SetRowShrinks(t, id, FailedJob(t.jobs[id], now));
    var failed := t.(jobs := t.jobs[id := FailedJob(t.jobs[id], now)]);
    CancelShrinks(failed, o, batch, now);
    ShrinksThrough(t, failed, CancelBatch(failed, o, batch, now));
  }

  lemma FailShrinks(t: Table, o: Options, id: nat, adapter: string, now: int, recent: seq<nat>)
    requires Valid(t)
    ensures var r := Fail(t, o, id, adapter, now, recent);
            && Shrinks(t, r.0, if r.1.Retry? then Some(id) else None)
            && (r.1.Retry? ==> HeldBy(t, id, adapter) && t.jobs[id].attempts < t.jobs[id].Allowed()
                               && id in r.0.jobs && r.0.jobs[id] == Requeued(t.jobs[id], now))
  {
    if HeldBy(t, id, adapter) {
      var j := t.jobs[id];
      FailRowCases(j, now);
      if HoldOf(t, j.process, j.batch) == Some(Aborted) {
        SetRowShrinks(t, id, Finalised(j, now));
      } else if j.attempts < j.Allowed() {
        SetRowShrinks(t, id, Requeued(j, now));
      } else {
        AbortShrinks(t, o, id, if j.batch.Some? then j.batch.value else "", now);
      }
    }
  }

  lemma SweepShrinks(t: Table, o: Options, now: int)
    requires Valid(t)
    ensures Shrinks(t, Sweep(t, o, now), None)
  {
    var t1 := CleanupOlder(t, o.doneCancelledMinutes, {Done, Cancelled}, now);
    assert Shrinks(t, t1, None);
    assert Shrinks(t1, CleanupOlder(t1, o.keepFailedMinutes, {Failed}, now), None);
  }

  lemma HeartbeatShrinks(t: Table, o: Options, id: nat, adapter: string, now: int)
    requires Valid(t)
    ensures Shrinks(t, Heartbeat(t, o, id, adapter, now), if HeldBy(t, id, adapter) then Some(id) else None)
  {
    if HeldBy(t, id, adapter) { SetRowShrinks(t, id, Renewed(t.jobs[id], o, now)); }
  }

  lemma CancelJobShrinks(t: Table, id: nat, now: int)
    requires Valid(t)
    ensures Shrinks(t, CancelJob(t, id, now), None)
  {
    if id in t.jobs && t.jobs[id].Active() { SetRowShrinks(t, id, Dropped(t.jobs[id], now)); }
  }

  lemma BulkShrinks(t: Table, rid: Rid, minutes: int, statuses: set<Status>, now: int)
    requires Valid(t)
    ensures Shrinks(t, PauseBatch(t, rid, now), None) && Shrinks(t, ResumeBatch(t, rid), None)
    ensures Shrinks(t, Flush(t, rid), None) && Shrinks(t, CleanupOlder(t, minutes, statuses, now), None)
  {
  }

  lemma DismissShrinks(t: Table, rid: Rid, now: int)
    requires Valid(t)
    ensures Shrinks(t, Dismiss(t, rid, now), None)
  {
  }

  // ---- claims, row by row ----

  predicate Swept(t: Table, id: nat, now: int, j: Job)
    requires id in t.jobs
  {
    HoldOf(t, t.jobs[id].process, t.jobs[id].batch) == Some(Aborted) && j == Finalised(t.jobs[id], now)
  }

  predicate Taken(t: Table, o: Options, id: nat, adapter: string, now: int, j: Job)
    requires id in t.jobs
  {
    HoldOf(t, t.jobs[id].process, t.jobs[id].batch).None? && j == Leased(t.jobs[id], o, adapter, now)
  }

  lemma {:induction false} ScanRows(t: Table, o: Options, w: seq<nat>, adapter: string, now: int)
    requires Distinct(w)
    ensures var r := Scan(t, o, w, adapter, now);
            && r.0.control == t.control && r.0.nextId == t.nextId && r.0.jobs.Keys == t.jobs.Keys
            && (forall id :: id in t.jobs && r.1 != Some(id) ==>
                  r.0.jobs[id] == t.jobs[id] || (id in w && Swept(t, id, now, r.0.jobs[id])))
            && (r.1.Some? ==> (r.1.value in w && r.1.value in t.jobs
                               && Taken(t, o, r.1.value, adapter, now, r.0.jobs[r.1.value])))
    decreases |w|
  {
    if w != [] {
      var rest := w[1..];
      assert w[0] !in rest;
      if w[0] !in t.jobs {
        ScanRows(t, o, rest, adapter, now);
      } else {
        var j := t.jobs[w[0]];
        match HoldOf(t, j.process, j.batch)
        case Some(Aborted) => ScanRows(t.(jobs := t.jobs[w[0] := Finalised(j, now)]), o, rest, adapter, now);
        case Some(Paused) => ScanRows(t, o, rest, adapter, now);
        case None =>
      }
    }
  }

  /** A row a claim did not hand out: untouched, or an active row cancelled with its batch. */
  predicate LeftAlone(t: Table, id: nat, now: int, j: Job)
    requires id in t.jobs
  {
    j == t.jobs[id] || (t.jobs[id].Active() && Swept(t, id, now, j))
  }

  /** What claiming does to the rows: at most one is leased, it was due, and no batch of it is held. */
  ghost predicate ClaimRows(t: Table, o: Options, adapter: string, now: int, r: (Table, Option<nat>)) {
    && r.0.control == t.control && r.0.nextId == t.nextId && r.0.jobs.Keys == t.jobs.Keys
    && (forall id :: id in t.jobs && r.1 != Some(id) ==> LeftAlone(t, id, now, r.0.jobs[id]))
    && (r.1.Some? ==> (r.1.value in t.jobs && Taken(t, o, r.1.value, adapter, now, r.0.jobs[r.1.value])
                       && Due(t.jobs[r.1.value], now)))
  }

  lemma ScanQueue(t: Table, o: Options, queue: string, w: seq<nat>, adapter: string, now: int)
    requires IsWindow(t, queue, now, w)
    ensures ClaimRows(t, o, adapter, now, Scan(t, o, w, adapter, now))
  {
    ScanRows(t, o, w, adapter, now);
  }

  lemma RowTwice(t: Table, t1: Table, id: nat, now: int, j: Job)
    requires id in t.jobs && id in t1.jobs && t1.control == t.control
    requires LeftAlone(t, id, now, t1.jobs[id])
    ensures LeftAlone(t1, id, now, j) ==> LeftAlone(t, id, now, j)
    ensures t1.jobs[id].Active() ==> t1.jobs[id] == t.jobs[id]
  {
  }

  /** The second queue is read after the rows of the first one were finalised. */
  lemma ScanTwice(t: Table, o: Options, adapter: string, now: int, r1: (Table, Option<nat>), r2: (Table, Option<nat>))
    requires ClaimRows(t, o, adapter, now, r1) && r1.1.None? && ClaimRows(r1.0, o, adapter, now, r2)
    ensures ClaimRows(t, o, adapter, now, r2)
  {
    forall id | id in t.jobs
      ensures r2.1 != Some(id) ==> LeftAlone(t, id, now, r2.0.jobs[id])
      ensures r2.1 == Some(id) ==> r1.0.jobs[id] == t.jobs[id]
    {
      RowTwice(t, r1.0, id, now, r2.0.jobs[id]);
    }
  }

  lemma ClaimsRows(t: Table, o: Options, topic: string, adapter: string, now: int, first: seq<nat>, second: seq<nat>)
    requires ClaimWindows(t, o, topic, adapter, now, first, second)
    ensures ClaimRows(t, o, adapter, now, Claim(t, o, adapter, now, first, second))
  {
    ScanQueue(t, o, topic, first, adapter, now);
    var r := Scan(t, o, first, adapter, now);
    if r.1.None? {
      ScanQueue(r.0, o, topic + "_batch", second, adapter, now);
      ScanTwice(t, o, adapter, now, r, Scan(r.0, o, second, adapter, now));
    }
  }

  lemma LeftAloneIsSteady(t: Table, id: nat, now: int, j: Job)
    requires id in t.jobs && ValidJob(t.jobs[id]) && LeftAlone(t, id, now, j)
    ensures Steady(t.jobs[id], j) && ValidJob(j)
  {
  }

  lemma ClaimShrinks(t: Table, o: Options, topic: string, adapter: string, now: int, first: seq<nat>, second: seq<nat>)
    requires Valid(t) && ClaimWindows(t, o, topic, adapter, now, first, second)
    ensures var r := Claim(t, o, adapter, now, first, second); Shrinks(t, r.0, r.1)
  {
    ClaimsRows(t, o, topic, adapter, now, first, second);
    var r := Claim(t, o, adapter, now, first, second);
    forall id | id in t.jobs && r.1 != Some(id) ensures Steady(t.jobs[id], r.0.jobs[id]) && ValidJob(r.0.jobs[id]) {
      LeftAloneIsSteady(t, id, now, r.0.jobs[id]);
    }
  }

  /** The rows after some listed ones were looked at: left alone, and as they were where not listed. */
  ghost predicate Looked(t: Table, t': Table, listed: seq<nat>, now: int) {
    && t'.control == t.control && t'.nextId == t.nextId && t'.jobs.Keys == t.jobs.Keys
    && (forall id :: id in t.jobs ==> LeftAlone(t, id, now, t'.jobs[id]))
    && (forall id :: id in t.jobs && id !in listed ==> t'.jobs[id] == t.jobs[id])
  }

  lemma LookedFirst(t: Table, t1: Table, t2: Table, listed: seq<nat>, now: int)
    requires listed != [] && listed[0] !in listed[1..] && listed[0] in t.jobs && t.jobs[listed[0]].Active()
    requires HoldOf(t, t.jobs[listed[0]].process, t.jobs[listed[0]].batch) == Some(Aborted)
    requires t1 == t.(jobs := t.jobs[listed[0] := Finalised(t.jobs[listed[0]], now)])
             && Looked(t1, t2, listed[1..], now)
    ensures Looked(t, t2, listed, now)
  {
    forall id | id in t.jobs
      ensures LeftAlone(t, id, now, t2.jobs[id]) && (id !in listed ==> t2.jobs[id] == t.jobs[id])
    {
      if id != listed[0] { assert t1.jobs[id] == t.jobs[id] && LeftAlone(t1, id, now, t2.jobs[id]); }
    }
  }

  lemma {:induction false} ListingRows(t: Table, listed: seq<nat>, now: int)
    requires Valid(t) && (forall id :: id in listed ==> id in t.jobs ==> t.jobs[id].Active())
    requires Distinct(listed)
    ensures Looked(t, FinaliseListed(t, listed, now), listed, now)
    decreases |listed|
  {
    if listed != [] {
      var id, rest := listed[0], listed[1..];
      assert id !in rest;
      if id in t.jobs && HoldOf(t, t.jobs[id].process, t.jobs[id].batch) == Some(Aborted) {
        var t1 := t.(jobs := t.jobs[id := Finalised(t.jobs[id], now)]);
        FinalisedStaysValid(t, id, now);
        ListingRows(t1, rest, now);
        LookedFirst(t, t1, FinaliseListed(t1, rest, now), listed, now);
      } else {
        ListingRows(t, rest, now);
      }
    }
  }

  lemma FinalisedStaysValid(t: Table, id: nat, now: int)
    requires Valid(t) && id in t.jobs && t.jobs[id].Active()
    ensures Valid(t.(jobs := t.jobs[id := Finalised(t.jobs[id], now)]))
  {
  }

  lemma PanelShrinks(t: Table, listed: seq<nat>, now: int)
    requires Valid(t) && IsListing(t, listed)
    ensures Shrinks(t, FinaliseListed(t, listed, now), None)
  {
    ListingRows(t, listed, now);
    forall id | id in t.jobs
      ensures Steady(t.jobs[id], FinaliseListed(t, listed, now).jobs[id])
              && ValidJob(FinaliseListed(t, listed, now).jobs[id])
    {
      LeftAloneIsSteady(t, id, now, FinaliseListed(t, listed, now).jobs[id]);
    }
  }

  /** One step of the queue, publishing aside: no row is added, every row but the touched one is
      steady, and the touched one changes as its operation says. */
  lemma StepRows(t: Table, o: Options, op: Op)
    requires Valid(t) && Enabled(t, o, op) && !op.OpPublish?
    ensures Shrinks(t, Apply(t, o, op), Touched(t, o, op))
  {
    match op
    case OpClaim(topic, adapter, now, first, second) => ClaimShrinks(t, o, topic, adapter, now, first, second);
    case OpHeartbeat(id, adapter, now) => HeartbeatShrinks(t, o, id, adapter, now);
    case OpComplete(id, adapter, now) => CompleteShrinks(t, o, id, adapter, now);
    case OpFail(id, adapter, now, recent) => FailShrinks(t, o, id, adapter, now, recent);
    case OpPause(rid, now) => BulkShrinks(t, rid, 0, {}, now);
    case OpResume(rid) => BulkShrinks(t, rid, 0, {}, 0);
    case OpCancel(rid, now) => CancelShrinks(t, o, rid, now);
    case OpCancelJob(id, now) => CancelJobShrinks(t, id, now);
    case OpDismiss(rid, now) => DismissShrinks(t, rid, now);
    case OpDrain(rid) => DrainShrinks(t, rid);
    case OpFlush(topic) => BulkShrinks(t, topic, 0, {}, 0);
    case OpCleanup(minutes, statuses, now) => BulkShrinks(t, "", minutes, statuses, now);
    case OpSweep(now) => SweepShrinks(t, o, now);
    case OpPanel(listed, now) => PanelShrinks(t, listed, now);
  }

  lemma TouchedRow(t: Table, o: Options, op: Op, id: nat)
    requires Valid(t) && Enabled(t, o, op) && Touched(t, o, op) == Some(id)
    ensures id in t.jobs && id in Apply(t, o, op).jobs && Handed(o, op, t.jobs[id], Apply(t, o, op).jobs[id])
  {
    match op
    case OpClaim(topic, adapter, now, first, second) => ClaimsRows(t, o, topic, adapter, now, first, second);
    case OpFail(_, adapter, now, recent) => FailShrinks(t, o, id, adapter, now, recent);
    case _ =>
  }

  lemma StepKeepsValid(t: Table, o: Options, op: Op)
    requires Valid(t) && Enabled(t, o, op)
    ensures Valid(Apply(t, o, op)) && t.nextId <= Apply(t, o, op).nextId
  {
    if !op.OpPublish? { StepRows(t, o, op); }
  }

  /** Every table reached from a valid one, such as the empty one, is valid. */
  lemma {:induction false} RunKeepsValid(t: Table, o: Options, ops: seq<Op>, n: nat)
    requires Valid(t) && IsRun(t, o, ops) && n <= |ops|
    ensures Valid(After(t, o, ops, n)) && t.nextId <= After(t, o, ops, n).nextId
    decreases n
  {
    if n > 0 {
      StepKeepsValid(t, o, ops[0]);
      RunKeepsValid(Apply(t, o, ops[0]), o, ops[1..], n - 1);
    }
  }
}
