/** The job queue as data: the rows of `queue_jobs` and `batch_state`, and what each statement of
    `JobQueue` does to them. Times are milliseconds; every operation takes the clock as `now`. */
module QueueTable {
  import opened Collections

  type Rid = string

  datatype Status = Queued | Running | Done | Failed | Cancelled

  /** What the queue reads from a job's payload. A number that is missing is 0, as in the source. */
  datatype Payload = Payload(user: string, hidden: bool, abortConsecutive: int, abortPercent: int)

  datatype Job = Job(
    queue: string, payload: Payload, process: Option<Rid>, batch: Option<Rid>,
    status: Status, attempts: nat, maxAttempts: int,
    claimedBy: Option<string>, leaseUntil: Option<int>, nextRetryAt: int,
    createdAt: int, updatedAt: int, completedAt: Option<int>)
  {
    predicate Active() { status == Queued || status == Running }

    predicate Terminal() { !Active() }

    predicate Of(rid: Rid) { process == Some(rid) || batch == Some(rid) }

    /** `max_attempts || 3`. */
    function Allowed(): int { if maxAttempts == 0 then 3 else maxAttempts }
  }

  datatype Hold = Paused | Aborted
  datatype Control = Control(hold: Hold, updatedAt: int)

  datatype Options = Options(
    maxAttempts: int, leaseSeconds: int, keepFailedMinutes: int, doneCancelledMinutes: int,
    abortConsecutive: int, abortPercent: int)

  datatype Table = Table(jobs: map<nat, Job>, control: map<Rid, Control>, nextId: nat)

  const EMPTY := Table(map[], map[], 1)
  const WEEK := 7 * 24 * 3600 * 1000
  const WINDOW := 50
  const PANEL := 200

  // ---- paused and cancelled batches ----

  function HoldOf(t: Table, process: Option<Rid>, batch: Option<Rid>): Option<Hold> {
    if process.Some? && process.value in t.control then Some(t.control[process.value].hold)
    else if batch.Some? && batch.value in t.control then Some(t.control[batch.value].hold)
    else None
  }

  function SetHold(t: Table, rid: Rid, hold: Hold, now: int): Table {
    t.(control := t.control[rid := Control(hold, now)])
  }

  // ---- publish ----

  function Either(requested: int, configured: int, fallback: int): int {
    if requested != 0 then requested else if configured != 0 then configured else fallback
  }

  function NewJob(o: Options, queue: string, payload: Payload, process: Option<Rid>, batch: Option<Rid>,
                  requested: int, now: int): Job {
    Job(queue, payload, process, batch, Queued, 0, Either(requested, o.maxAttempts, 3), None, None, now, now, now, None)
  }

  function Publish(t: Table, job: Job): Table {
    t.(jobs := t.jobs[t.nextId := job], nextId := t.nextId + 1)
  }

  // ---- claim ----

  predicate Claimable(j: Job, queue: string, now: int) {
    && j.queue == queue
    && (|| (j.status == Queued && j.nextRetryAt <= now)
        || (j.status == Running && j.leaseUntil.Some? && j.leaseUntil.value < now))
  }

  /** `w` is an answer to SELECT ... WHERE claimable ORDER BY created_at LIMIT 50. */
  ghost predicate IsWindow(t: Table, queue: string, now: int, w: seq<nat>) {
    && Distinct(w) && |w| <= 50
    && (forall id :: id in w ==> id in t.jobs && Claimable(t.jobs[id], queue, now))
    && (forall i, j :: 0 <= i < j < |w| ==> t.jobs[w[i]].createdAt <= t.jobs[w[j]].createdAt)
    && (forall id :: id in t.jobs && Claimable(t.jobs[id], queue, now) && id !in w ==>
          |w| == 50 && forall x :: x in w ==> t.jobs[x].createdAt <= t.jobs[id].createdAt)
  }

  /** The row of a job whose batch was cancelled: `status = 'cancelled'`, no claim, no lease. */
  function Finalised(j: Job, now: int): Job {
    j.(status := Cancelled, leaseUntil := None, claimedBy := None, completedAt := Some(now), updatedAt := now)
  }

  function Leased(j: Job, o: Options, adapter: string, now: int): Job {
    j.(status := Running, claimedBy := Some(adapter), leaseUntil := Some(now + o.leaseSeconds * 1000),
       attempts := j.attempts + 1, updatedAt := now)
  }

  /** Walks the candidates in order: finalises those of cancelled batches, skips those of paused
      ones, and leases the first other one. */
  function Scan(t: Table, o: Options, w: seq<nat>, adapter: string, now: int): (Table, Option<nat>)
    decreases |w|
  {
    if w == [] then (t, None)
    else if w[0] !in t.jobs then Scan(t, o, w[1..], adapter, now)
    else
      var j := t.jobs[w[0]];
      match HoldOf(t, j.process, j.batch)
      case Some(Aborted) => Scan(t.(jobs := t.jobs[w[0] := Finalised(j, now)]), o, w[1..], adapter, now)
      case Some(Paused) => Scan(t, o, w[1..], adapter, now)
      case None => (t.(jobs := t.jobs[w[0] := Leased(j, o, adapter, now)]), Some(w[0]))
  }

  /** The topic's own queue first, then its batch twin. */
  function Claim(t: Table, o: Options, adapter: string, now: int, first: seq<nat>, second: seq<nat>)
    : (Table, Option<nat>)
  {
    var r := Scan(t, o, first, adapter, now);
    if r.1.Some? then r else Scan(r.0, o, second, adapter, now)
  }

  ghost predicate ClaimWindows(t: Table, o: Options, topic: string, adapter: string, now: int, first: seq<nat>,
                               second: seq<nat>) {
    && IsWindow(t, topic, now, first)
    && var r := Scan(t, o, first, adapter, now);
       r.1.None? ==> IsWindow(r.0, topic + "_batch", now, second)
  }

  // ---- heartbeat, complete, fail ----

  predicate HeldBy(t: Table, id: nat, adapter: string) {
    id in t.jobs && t.jobs[id].status == Running && t.jobs[id].claimedBy == Some(adapter)
  }

  function Renewed(j: Job, o: Options, now: int): Job {
    j.(leaseUntil := Some(now + o.leaseSeconds * 1000), updatedAt := now)
  }

  function Heartbeat(t: Table, o: Options, id: nat, adapter: string, now: int): Table {
    if HeldBy(t, id, adapter)
    then t.(jobs := t.jobs[id := Renewed(t.jobs[id], o, now)])
    else t
  }

  predicate HasActive(t: Table, batch: Rid) {
    exists id :: id in t.jobs && t.jobs[id].batch == Some(batch) && t.jobs[id].Active()
  }

  predicate Cleanable(j: Job, o: Options, batch: Rid, now: int) {
    && j.batch == Some(batch)
    && (|| j.status == Done || j.status == Cancelled
        || (j.status == Failed && (o.keepFailedMinutes <= 0 || j.updatedAt < now - o.keepFailedMinutes * 60000)))
  }

  function CleanupBatch(t: Table, o: Options, batch: Rid, now: int): Table {
    t.(jobs := map id | id in t.jobs && !Cleanable(t.jobs[id], o, batch, now) :: t.jobs[id])
  }

  function CleanupIfIdle(t: Table, o: Options, batch: Rid, now: int): Table {
    if HasActive(t, batch) then t else CleanupBatch(t, o, batch, now)
  }

  function Without(t: Table, id: nat): Table {
    t.(jobs := t.jobs - {id})
  }

  function Finished(j: Job, now: int): Job {
    j.(status := Done, leaseUntil := None, completedAt := Some(now), updatedAt := now)
  }

  function Complete(t: Table, o: Options, id: nat, adapter: string, now: int): Table {
    if !HeldBy(t, id, adapter) then t
    else
      var done := t.(jobs := t.jobs[id := Finished(t.jobs[id], now)]);
      match t.jobs[id].batch
      case None => Without(done, id)
      case Some(b) => CleanupIfIdle(done, o, b, now)
  }

  function Pow2(n: nat): nat { if n == 0 then 1 else 2 * Pow2(n - 1) }

  /** Milliseconds before the next try: 500, 1000, 2000, ... and never more than 30000. */
  function Backoff(attempts: nat): nat {
    Min(500 * Pow2(Max(0, attempts - 1)), 30000)
  }

  function Requeued(j: Job, now: int): Job {
    j.(status := Queued, leaseUntil := None, claimedBy := None, nextRetryAt := now + Backoff(j.attempts),
       updatedAt := now)
  }

  function FailedJob(j: Job, now: int): Job {
    j.(status := Failed, leaseUntil := None, claimedBy := None, completedAt := Some(now), updatedAt := now)
  }

  datatype FailResult =
    | NotHeld
    | BatchCancelled
    | Retry
    | Permanent
    | AbortedBatch(batch: Rid)

  predicate TerminalOf(t: Table, id: nat, batch: Rid) {
    id in t.jobs && t.jobs[id].batch == Some(batch) && t.jobs[id].status !in {Queued, Running}
  }

  function TerminalRows(t: Table, batch: Rid): set<nat> {
    set id | id in t.jobs && TerminalOf(t, id, batch)
  }

  function FailedRows(t: Table, batch: Rid): set<nat> {
    set id | id in t.jobs && TerminalOf(t, id, batch) && t.jobs[id].status == Failed
  }

  /** Done and failed rows with a completion time: what the consecutive-failure query looks at. */
  function OutcomeRows(t: Table, batch: Rid): set<nat> {
    set id | id in t.jobs && t.jobs[id].batch == Some(batch)
      && (t.jobs[id].status == Done || t.jobs[id].status == Failed) && t.jobs[id].completedAt.Some?
  }

  /** `w` is an answer to SELECT ... ORDER BY completed_at DESC LIMIT k (a negative LIMIT is none). */
  ghost predicate IsRecent(t: Table, batch: Rid, k: int, w: seq<nat>) {
    && Distinct(w) && (forall i :: 0 <= i < |w| ==> w[i] in OutcomeRows(t, batch))
    && |w| == (if k < 0 then |OutcomeRows(t, batch)| else Min(k, |OutcomeRows(t, batch)|))
    && (forall i, j :: 0 <= i < j < |w| ==> t.jobs[w[i]].completedAt.value >= t.jobs[w[j]].completedAt.value)
    && (forall id, i :: id in OutcomeRows(t, batch) && id !in w && 0 <= i < |w| ==>
          t.jobs[w[i]].completedAt.value >= t.jobs[id].completedAt.value)
  }

  function MaxConsecutive(j: Job, o: Options): int { Either(j.payload.abortConsecutive, o.abortConsecutive, 5) }

  function MaxPercent(j: Job, o: Options): int { Either(j.payload.abortPercent, o.abortPercent, 50) }

  predicate TooManyFailed(t: Table, batch: Rid, percent: int) {
    |TerminalRows(t, batch)| > 0 && |FailedRows(t, batch)| * 100 >= percent * |TerminalRows(t, batch)|
  }

  predicate AllRecentFailed(t: Table, k: int, w: seq<nat>) {
    |w| >= k && forall id :: id in w ==> id in t.jobs && t.jobs[id].status == Failed
  }

  function Fail(t: Table, o: Options, id: nat, adapter: string, now: int, recent: seq<nat>): (Table, FailResult) {
    if !HeldBy(t, id, adapter) then (t, NotHeld)
    else
      var j := t.jobs[id];
      if HoldOf(t, j.process, j.batch) == Some(Aborted) then
        (t.(jobs := t.jobs[id := Finalised(j, now)]), BatchCancelled)
      else if j.attempts < j.Allowed() then
        (t.(jobs := t.jobs[id := Requeued(j, now)]), Retry)
      else
        var failed := t.(jobs := t.jobs[id := FailedJob(j, now)]);
        if j.batch.None? then (failed, Permanent)
        else if TooManyFailed(failed, j.batch.value, MaxPercent(j, o))
             || AllRecentFailed(failed, MaxConsecutive(j, o), recent)
        then (CancelBatch(failed, o, j.batch.value, now), AbortedBatch(j.batch.value))
        else (failed, Permanent)
  }

  /** `recent` answers the query `fail` makes after marking the row failed. */
  ghost predicate FailWindow(t: Table, o: Options, id: nat, adapter: string, now: int, recent: seq<nat>) {
    HeldBy(t, id, adapter) && t.jobs[id].batch.Some? ==>
      IsRecent(t.(jobs := t.jobs[id := FailedJob(t.jobs[id], now)]), t.jobs[id].batch.value,
               MaxConsecutive(t.jobs[id], o), recent)
  }

  // ---- batch control ----

  function Drain(t: Table, rid: Rid): Table {
    t.(jobs := map id | id in t.jobs && !(t.jobs[id].status == Queued && t.jobs[id].Of(rid)) :: t.jobs[id])
  }

  function PauseBatch(t: Table, rid: Rid, now: int): Table {
    Drain(SetHold(t, rid, Paused, now), rid)
  }

  function ResumeBatch(t: Table, rid: Rid): Table {
    t.(control := t.control - {rid})
  }

  function CancelBatch(t: Table, o: Options, rid: Rid, now: int): Table {
    CleanupIfIdle(Drain(SetHold(t, rid, Aborted, now), rid), o, rid, now)
  }

  /** `cancelJob` and `dismiss` clear the lease but keep `claimed_by`. */
  function Dropped(j: Job, now: int): Job {
    j.(status := Cancelled, leaseUntil := None, completedAt := Some(now), updatedAt := now)
  }

  function CancelJob(t: Table, id: nat, now: int): Table {
    if id in t.jobs && t.jobs[id].Active() then t.(jobs := t.jobs[id := Dropped(t.jobs[id], now)]) else t
  }

  function Dismiss(t: Table, rid: Rid, now: int): Table {
    t.(jobs := map id | id in t.jobs ::
         if t.jobs[id].Of(rid) && t.jobs[id].Active() then Dropped(t.jobs[id], now) else t.jobs[id])
  }

  function Flush(t: Table, topic: string): Table {
    t.(jobs := map id | id in t.jobs && t.jobs[id].queue != topic && t.jobs[id].queue != topic + "_batch" :: t.jobs[id])
  }

  // ---- sweeper ----

  function CleanupOlder(t: Table, minutes: int, statuses: set<Status>, now: int): Table {
    if statuses - {Running} == {} || minutes <= 0 then t
    else t.(jobs := map id | id in t.jobs && !IsOld(t.jobs[id], minutes, statuses - {Running}, now) :: t.jobs[id])
  }

  predicate IsOld(j: Job, minutes: int, statuses: set<Status>, now: int) {
    j.status in statuses && j.updatedAt < now - minutes * 60000
  }

  predicate Referenced(t: Table, rid: Rid) {
    exists id :: id in t.jobs && t.jobs[id].batch == Some(rid)
  }

  function Sweep(t: Table, o: Options, now: int): Table {
    var rows := CleanupOlder(CleanupOlder(t, o.doneCancelledMinutes, {Done, Cancelled}, now), o.keepFailedMinutes,
                             {Failed}, now);
    rows.(control := map rid | rid in rows.control
          && !(rows.control[rid].updatedAt < now - WEEK && !Referenced(rows, rid)) :: rows.control[rid])
  }

  // ---- the jobs panel ----

  /** The panel finalises the active rows it meets whose batch was cancelled. */
  function FinaliseListed(t: Table, listed: seq<nat>, now: int): Table
    decreases |listed|
  {
    if listed == [] then t
    else if listed[0] in t.jobs && HoldOf(t, t.jobs[listed[0]].process, t.jobs[listed[0]].batch) == Some(Aborted)
    then FinaliseListed(t.(jobs := t.jobs[listed[0] := Finalised(t.jobs[listed[0]], now)]), listed[1..], now)
    else FinaliseListed(t, listed[1..], now)
  }

  ghost predicate IsListing(t: Table, listed: seq<nat>) {
    && Distinct(listed) && |listed| <= 200
    && (forall id :: id in listed ==> id in t.jobs && t.jobs[id].Active())
    && (forall i, j :: 0 <= i < j < |listed| ==> t.jobs[listed[i]].createdAt <= t.jobs[listed[j]].createdAt)
    && (forall id :: id in t.jobs && t.jobs[id].Active() && id !in listed ==>
          |listed| == 200 && forall x :: x in listed ==> t.jobs[x].createdAt <= t.jobs[id].createdAt)
  }
}
