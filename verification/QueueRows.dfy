/** What the operations of the queue mean field by field: the rows and state rows before and after, written
    out without the functions that compute them. */
module QueueRows {
  import opened Collections
  import opened QueueTable
  import QueueRuns

  type Rows = map<nat, Job>
  type Holds = map<Rid, Control>

  // ---- single rows ----

  /** Everything about the job but its progress. */
  predicate SameTerms(j: Job, k: Job) {
    && k.queue == j.queue && k.payload == j.payload && k.process == j.process && k.batch == j.batch
    && k.maxAttempts == j.maxAttempts && k.createdAt == j.createdAt
  }

  /** The row ended at `now` with this status. */
  predicate EndedAs(j: Job, k: Job, status: Status, now: int) {
    && SameTerms(j, k) && k.attempts == j.attempts && k.nextRetryAt == j.nextRetryAt
    && k.status == status && k.leaseUntil == None && k.completedAt == Some(now) && k.updatedAt == now
  }

  predicate IsOf(j: Job, rid: Rid) { j.process == Some(rid) || j.batch == Some(rid) }

  predicate IsActive(j: Job) { j.status == Queued || j.status == Running }

  predicate HeldRow(rows: Rows, id: nat, adapter: string) {
    id in rows && rows[id].status == Running && rows[id].claimedBy == Some(adapter)
  }

  /** The state row that counts: the process's own, else the batch's. */
  predicate IsHeldAs(holds: Holds, j: Job, hold: Hold) {
    || (j.process.Some? && j.process.value in holds && holds[j.process.value].hold == hold)
    || (!(j.process.Some? && j.process.value in holds)
        && j.batch.Some? && j.batch.value in holds && holds[j.batch.value].hold == hold)
  }

  predicate IsFree(holds: Holds, j: Job) { !IsHeldAs(holds, j, Paused) && !IsHeldAs(holds, j, Aborted) }

  /** All other rows stay as they are, present or absent. */
  ghost predicate OthersKept(a: Rows, b: Rows, id: nat) {
    forall x :: x != id ==> (x in a <==> x in b) && (x in a && x in b ==> b[x] == a[x])
  }

  /** Rows may go, but what stays stays as it is. */
  ghost predicate OnlyRemoves(a: Rows, b: Rows) { forall x :: x in b ==> x in a && b[x] == a[x] }

  /** A finished row that a clean-up of its idle batch removes. */
  predicate Outlived(j: Job, batch: Rid, keepFailed: int, now: int) {
    && j.batch == Some(batch)
    && (j.status == Done || j.status == Cancelled
        || (j.status == Failed && (keepFailed <= 0 || j.updatedAt < now - keepFailed * 60000)))
  }

  ghost predicate IsIdle(rows: Rows, batch: Rid) {
    forall x :: x in rows && rows[x].batch == Some(batch) ==> !IsActive(rows[x])
  }

  /** The finished rows of the batch go, if it is idle. */
  ghost predicate Cleaned(a: Rows, b: Rows, batch: Rid, keepFailed: int, now: int) {
    && OnlyRemoves(a, b)
    && forall x :: x in a && x !in b <==> x in a && IsIdle(a, batch) && Outlived(a[x], batch, keepFailed, now)
  }

  // ---- operations ----

  predicate IsNew(j: Job, queue: string, payload: Payload, process: Option<Rid>, batch: Option<Rid>, tries: int,
                  now: int) {
    && j.queue == queue && j.payload == payload && j.process == process && j.batch == batch
    && j.status == Queued && j.attempts == 0 && j.maxAttempts == tries && j.claimedBy == None && j.leaseUntil == None
    && j.nextRetryAt == now && j.createdAt == now && j.updatedAt == now && j.completedAt == None
  }

  /** The tries a job is published with: as asked, else as configured, else three. */
  function Tries(requested: int, configured: int): int {
    if requested != 0 then requested else if configured != 0 then configured else 3
  }

  /** Due on the queue, free or with its lease over. */
  predicate IsDue(j: Job, now: int) {
    || (j.status == Queued && j.nextRetryAt <= now)
    || (j.status == Running && j.leaseUntil.Some? && j.leaseUntil.value < now)
  }

  /** Handed out: running, held by the adapter until the lease ends, one more try. */
  predicate HandedOut(j: Job, k: Job, adapter: string, leaseSeconds: int, now: int) {
    && SameTerms(j, k) && k.status == Running && k.claimedBy == Some(adapter)
    && k.leaseUntil == Some(now + leaseSeconds * 1000) && k.attempts == j.attempts + 1
    && k.nextRetryAt == j.nextRetryAt && k.completedAt == j.completedAt && k.updatedAt == now
  }

  /** Put back: queued, held by nobody, not before its wait is over, the tries kept. */
  predicate PutBack(j: Job, k: Job, wait: nat, now: int) {
    && SameTerms(j, k) && k.status == Queued && k.claimedBy == None && k.leaseUntil == None
    && k.attempts == j.attempts && k.nextRetryAt == now + wait && k.completedAt == j.completedAt && k.updatedAt == now
  }

  /** Cancelled because its batch was. */
  predicate Swept(holds: Holds, j: Job, k: Job, now: int) {
    IsHeldAs(holds, j, Aborted) && IsActive(j) && EndedAs(j, k, Cancelled, now) && k.claimedBy == None
  }

  /** A claim: `taken` is handed out, and of the others only rows of cancelled batches change. */
  ghost predicate Claimed(holds: Holds, a: Rows, b: Rows, taken: Option<nat>, topic: string, adapter: string,
                          leaseSeconds: int, now: int) {
    && b.Keys == a.Keys
    && (forall x :: x in a && taken != Some(x) ==> b[x] == a[x] || Swept(holds, a[x], b[x], now))
    && (taken.Some? ==>
          && taken.value in a && (a[taken.value].queue == topic || a[taken.value].queue == topic + "_batch")
          && IsDue(a[taken.value], now) && IsFree(holds, a[taken.value])
          && HandedOut(a[taken.value], b[taken.value], adapter, leaseSeconds, now))
  }

  /** A completion: the row ends as done. A job without a batch is not kept; with the last active job of a
      batch the finished rows of the batch go. */
  ghost predicate Completed(a: Rows, b: Rows, id: nat, keepFailed: int, now: int)
    requires id in a
  {
    var j := a[id];
    && (id in b ==> EndedAs(j, b[id], Done, now) && b[id].claimedBy == j.claimedBy)
    && (j.batch.None? ==> id !in b && OthersKept(a, b, id))
    && (j.batch.Some? && OtherActive(a, id) ==> id in b && OthersKept(a, b, id))
    && (j.batch.Some? && !OtherActive(a, id) ==>
          id !in b && forall x :: x != id ==> (x in b <==> x in a && !Outlived(a[x], j.batch.value, keepFailed, now))
                                              && (x in b ==> b[x] == a[x]))
  }

  ghost predicate OtherActive(a: Rows, id: nat)
    requires id in a
  {
    exists x :: x in a && x != id && a[x].batch == a[id].batch && IsActive(a[x])
  }

  /** A pause or cancel removes exactly the queued rows; running ones stay. */
  ghost predicate Drained(a: Rows, b: Rows, rid: Rid) {
    && OnlyRemoves(a, b)
    && forall x :: x in a ==> (x !in b <==> a[x].status == Queued && IsOf(a[x], rid))
  }

  /** A cancel: the queued rows go, and if that leaves the batch idle its finished ones. */
  ghost predicate CancelledBatch(a: Rows, b: Rows, rid: Rid, keepFailed: int, now: int) {
    && OnlyRemoves(a, b)
    && forall x :: x in a ==> (x !in b <==> || (a[x].status == Queued && IsOf(a[x], rid))
                                            || (NoneRuns(a, rid) && Outlived(a[x], rid, keepFailed, now)))
  }

  ghost predicate NoneRuns(a: Rows, batch: Rid) {
    forall x :: x in a && a[x].batch == Some(batch) ==> a[x].status != Running
  }

  /** The row failed for good. */
  ghost predicate MarkedFailed(a: Rows, b: Rows, id: nat, now: int)
    requires id in a
  {
    OthersKept(a, b, id) && id in b && EndedAs(a[id], b[id], Failed, now) && b[id].claimedBy == None
  }

  /** A failure reported by the holder, by what it comes to. */
  ghost predicate FailedAs(holds: Holds, a: Rows, holds': Holds, b: Rows, id: nat, adapter: string, keepFailed: int,
                           now: int, r: FailResult) {
    && (r.NotHeld? <==> !HeldRow(a, id, adapter))
    && (!r.AbortedBatch? ==> holds' == holds)
    && match r
       case NotHeld => b == a
       case BatchCancelled =>
         IsHeldAs(holds, a[id], Aborted) && OthersKept(a, b, id) && id in b && Swept(holds, a[id], b[id], now)
       case Retry =>
         && !IsHeldAs(holds, a[id], Aborted) && TriesRemain(a[id])
         && OthersKept(a, b, id) && id in b && PutBack(a[id], b[id], Backoff(a[id].attempts), now)
       case Permanent => !IsHeldAs(holds, a[id], Aborted) && !TriesRemain(a[id]) && MarkedFailed(a, b, id, now)
       case AbortedBatch(batch) =>
         && !IsHeldAs(holds, a[id], Aborted) && !TriesRemain(a[id]) && a[id].batch == Some(batch)
         && holds' == holds[batch := Control(Aborted, now)]
         && exists m :: MarkedFailed(a, m, id, now) && CancelledBatch(m, b, batch, keepFailed, now)
  }

  predicate TriesRemain(j: Job) { j.attempts < (if j.maxAttempts == 0 then 3 else j.maxAttempts) }

  /** Cancelled one by one, or as dismissed: what was active ends, keeping who held it. */
  ghost predicate DroppedAll(a: Rows, b: Rows, mine: nat -> bool, now: int) {
    && b.Keys == a.Keys
    && forall x :: x in a ==>
         if mine(x) && IsActive(a[x]) then EndedAs(a[x], b[x], Cancelled, now) && b[x].claimedBy == a[x].claimedBy
         else b[x] == a[x]
  }

  predicate IsOld(j: Job, minutes: int, now: int) { minutes > 0 && j.updatedAt < now - minutes * 60000 }

  /** A sweep: rows past their time, then state rows a week old that no row of a batch needs. */
  ghost predicate SweptUp(holds: Holds, a: Rows, holds': Holds, b: Rows, keepDone: int, keepFailed: int, now: int) {
    && OnlyRemoves(a, b)
    && (forall x :: x in a ==>
          (x !in b <==> || (a[x].status in {Done, Cancelled} && IsOld(a[x], keepDone, now))
                        || (a[x].status == Failed && IsOld(a[x], keepFailed, now))))
    && (forall rid :: rid in holds' ==> rid in holds && holds'[rid] == holds[rid])
    && (forall rid :: rid in holds ==>
          (rid !in holds' <==> holds[rid].updatedAt < now - 604800000 && NoRowOf(b, rid)))
  }

  /** The batch's rows that are over, those that failed, and those with an outcome to their name. */
  function OverOf(rows: Rows, batch: Rid): set<nat> {
    set x | x in rows && rows[x].batch == Some(batch) && !IsActive(rows[x])
  }

  function FailedOf(rows: Rows, batch: Rid): set<nat> {
    set x | x in rows && rows[x].batch == Some(batch) && rows[x].status == Failed
  }

  function OutcomesOf(rows: Rows, batch: Rid): set<nat> {
    set x | x in rows && rows[x].batch == Some(batch) && rows[x].status in {Done, Failed} && rows[x].completedAt.Some?
  }

  /** A limit of the job, else of the configuration, else the default. */
  function Limit(ofJob: int, configured: int, default: int): int {
    if ofJob == 0 then (if configured == 0 then default else configured) else ofJob
  }

  ghost predicate NoRowOf(b: Rows, batch: Rid) { forall x :: x in b ==> b[x].batch != Some(batch) }

  // ---- the functions of the table model mean this ----

  lemma HoldsAgree(t: Table, j: Job)
    ensures forall hold :: IsHeldAs(t.control, j, hold) <==> HoldOf(t, j.process, j.batch) == Some(hold)
    ensures IsFree(t.control, j) <==> HoldOf(t, j.process, j.batch) == None
  {
    var h := HoldOf(t, j.process, j.batch);
    assert h.Some? ==> h.value == Paused || h.value == Aborted;
  }

  /** Which queue a claim takes its job from. */
  lemma ClaimQueue(t: Table, o: Options, topic: string, adapter: string, now: int, first: seq<nat>, second: seq<nat>)
    requires ClaimWindows(t, o, topic, adapter, now, first, second)
    ensures var taken := Claim(t, o, adapter, now, first, second).1;
            taken.Some? ==> taken.value in t.jobs && t.jobs[taken.value].queue in {topic, topic + "_batch"}
  {
    QueueRuns.ScanRows(t, o, first, adapter, now);
    var r := Scan(t, o, first, adapter, now);
    if r.1.None? { QueueRuns.ScanRows(r.0, o, second, adapter, now); }
  }

  lemma RowHandedOut(t: Table, o: Options, adapter: string, now: int, id: nat, k: Job)
    requires id in t.jobs && QueueRuns.Due(t.jobs[id], now) && QueueRuns.Taken(t, o, id, adapter, now, k)
    ensures IsDue(t.jobs[id], now) && IsFree(t.control, t.jobs[id])
    ensures HandedOut(t.jobs[id], k, adapter, o.leaseSeconds, now)
  {
    HoldsAgree(t, t.jobs[id]);
  }

  lemma RowLeftAlone(t: Table, now: int, id: nat, k: Job)
    requires id in t.jobs && QueueRuns.LeftAlone(t, id, now, k)
    ensures k == t.jobs[id] || Swept(t.control, t.jobs[id], k, now)
  {
    HoldsAgree(t, t.jobs[id]);
  }

  lemma ClaimMeans(t: Table, o: Options, topic: string, adapter: string, now: int, first: seq<nat>, second: seq<nat>)
    requires ClaimWindows(t, o, topic, adapter, now, first, second)
    ensures var r := Claim(t, o, adapter, now, first, second);
            r.0.control == t.control && Claimed(t.control, t.jobs, r.0.jobs, r.1, topic, adapter, o.leaseSeconds, now)
  {
    var r := Claim(t, o, adapter, now, first, second);
    QueueRuns.ClaimsRows(t, o, topic, adapter, now, first, second);
    ClaimQueue(t, o, topic, adapter, now, first, second);
    forall x | x in t.jobs && r.1 != Some(x) ensures r.0.jobs[x] == t.jobs[x]
      || Swept(t.control, t.jobs[x], r.0.jobs[x], now) {
      RowLeftAlone(t, now, x, r.0.jobs[x]);
    }
    if r.1.Some? { RowHandedOut(t, o, adapter, now, r.1.value, r.0.jobs[r.1.value]); }
  }

  lemma CompleteMeans(t: Table, o: Options, id: nat, adapter: string, now: int)
    requires HeldRow(t.jobs, id, adapter)
    ensures var t' := Complete(t, o, id, adapter, now);
            t'.control == t.control && Completed(t.jobs, t'.jobs, id, o.keepFailedMinutes, now)
  {
    var j := t.jobs[id];
    if j.batch.Some? {
      var done := t.(jobs := t.jobs[id := Finished(j, now)]);
      assert HasActive(done, j.batch.value) <==> OtherActive(t.jobs, id) by {
        if x :| x in done.jobs && done.jobs[x].batch == j.batch && done.jobs[x].Active() {
          assert x in t.jobs && x != id;
        }
        if x :| x in t.jobs && x != id && t.jobs[x].batch == j.batch && IsActive(t.jobs[x]) {
          assert done.jobs[x] == t.jobs[x];
        }
      }
    }
  }

  lemma FailMeans(t: Table, o: Options, id: nat, adapter: string, now: int, recent: seq<nat>)
    ensures var r := Fail(t, o, id, adapter, now, recent);
            FailedAs(t.control, t.jobs, r.0.control, r.0.jobs, id, adapter, o.keepFailedMinutes, now, r.1)
  {
    if HeldRow(t.jobs, id, adapter) {
      var j := t.jobs[id];
      HoldsAgree(t, j);
      var failed := t.(jobs := t.jobs[id := FailedJob(j, now)]);
      assert MarkedFailed(t.jobs, failed.jobs, id, now);
      if j.batch.Some? { CancelMeans(failed, o, j.batch.value, now); }
    }
  }

  lemma CancelMeans(t: Table, o: Options, rid: Rid, now: int)
    ensures var t' := CancelBatch(t, o, rid, now);
            && t'.control == t.control[rid := Control(Aborted, now)]
            && CancelledBatch(t.jobs, t'.jobs, rid, o.keepFailedMinutes, now)
  {
    var d := Drain(SetHold(t, rid, Aborted, now), rid);
    assert HasActive(d, rid) <==> !NoneRuns(t.jobs, rid) by {
      if x :| x in d.jobs && d.jobs[x].batch == Some(rid) && d.jobs[x].Active() {
        assert x in t.jobs && t.jobs[x].status == Running;
      }
      if x :| x in t.jobs && t.jobs[x].batch == Some(rid) && t.jobs[x].status == Running { assert x in d.jobs; }
    }
  }

  lemma SweepMeans(t: Table, o: Options, now: int)
    ensures var t' := Sweep(t, o, now);
            SweptUp(t.control, t.jobs, t'.control, t'.jobs, o.doneCancelledMinutes, o.keepFailedMinutes, now)
  {
    var t' := Sweep(t, o, now);
    CleanupMeans(t, o.doneCancelledMinutes, {Done, Cancelled}, now);
    var t1 := CleanupOlder(t, o.doneCancelledMinutes, {Done, Cancelled}, now);
    CleanupMeans(t1, o.keepFailedMinutes, {Failed}, now);
    forall rid | rid in t.control ensures rid !in t'.control
      <==> t.control[rid].updatedAt < now - 604800000 && NoRowOf(t'.jobs, rid) {}
  }

  lemma CleanupMeans(t: Table, minutes: int, statuses: set<Status>, now: int)
    ensures var t' := CleanupOlder(t, minutes, statuses, now);
            && t'.control == t.control && OnlyRemoves(t.jobs, t'.jobs)
            && forall x :: x in t.jobs ==>
                 (x !in t'.jobs <==>
                    t.jobs[x].status in statuses && t.jobs[x].status != Running && IsOld(t.jobs[x], minutes, now))
  {
    if statuses - {Running} == {} {
      forall x | x in t.jobs && t.jobs[x].status in statuses ensures t.jobs[x].status == Running {
        assert t.jobs[x].status !in statuses - {Running};
      }
    }
  }

  /** The panel's pass over the oldest active rows: those of cancelled batches end, no other row changes. */
  ghost predicate ListedOver(holds: Holds, a: Rows, b: Rows, listed: seq<nat>, now: int) {
    && b.Keys == a.Keys
    && forall x :: x in a ==>
         if x in listed && IsHeldAs(holds, a[x], Aborted)
         then EndedAs(a[x], b[x], Cancelled, now) && b[x].claimedBy == None
         else b[x] == a[x]
  }

  lemma {:induction false} ListedRows(t: Table, listed: seq<nat>, now: int)
    requires Distinct(listed) && forall id :: id in listed ==> id in t.jobs
    ensures var t' := FinaliseListed(t, listed, now);
            t'.control == t.control && ListedOver(t.control, t.jobs, t'.jobs, listed, now)
    decreases |listed|
  {
    if listed != [] {
      var id, rest := listed[0], listed[1..];
      assert id !in rest;
      HoldsAgree(t, t.jobs[id]);
      if IsHeldAs(t.control, t.jobs[id], Aborted) {
        var t1 := t.(jobs := t.jobs[id := Finalised(t.jobs[id], now)]);
        ListedRows(t1, rest, now);
        assert FinaliseListed(t, listed, now) == FinaliseListed(t1, rest, now);
        ListedFirst(t, t1, FinaliseListed(t1, rest, now), listed, now);
      } else {
        ListedRows(t, rest, now);
        ListedFirst(t, t, FinaliseListed(t, rest, now), listed, now);
      }
    }
  }

  lemma ListedFirst(t: Table, t1: Table, t2: Table, listed: seq<nat>, now: int)
    requires listed != [] && listed[0] !in listed[1..] && listed[0] in t.jobs
    requires t1 == if IsHeldAs(t.control, t.jobs[listed[0]], Aborted)
                   then t.(jobs := t.jobs[listed[0] := Finalised(t.jobs[listed[0]], now)]) else t
    requires ListedOver(t.control, t1.jobs, t2.jobs, listed[1..], now)
    ensures ListedOver(t.control, t.jobs, t2.jobs, listed, now)
  {
    forall x | x in t.jobs ensures x in listed <==> x == listed[0] || x in listed[1..] {}
  }

  lemma ListingMeans(t: Table, listed: seq<nat>, now: int)
    requires IsListing(t, listed)
    ensures ListedOver(t.control, t.jobs, FinaliseListed(t, listed, now).jobs, listed, now)
  {
    ListedRows(t, listed, now);
  }
}
