/** The queue as the program runs it: two tables updated in place. Each method is proved to be one
    operation of QueueRuns, with query answers the database can give, so the theorems about runs
    hold for any sequence of calls. */
module Queue {
  import opened Collections
  import opened QueueTable
  import opened QueueRuns
  import R = QueueRows

  datatype ClaimedJob = ClaimedJob(id: nat, queue: string, payload: Payload, attempts: nat, maxAttempts: int)

  datatype PanelKey = OfBatch(rid: Rid) | OfJob(id: nat)
  datatype PanelRow = PanelRow(total: nat, queued: nat, running: nat)

  /** `set_process_rid || process_rid || job_<id>`. */
  function KeyOf(id: nat, j: Job): PanelKey {
    if j.batch.Some? then OfBatch(j.batch.value)
    else if j.process.Some? then OfBatch(j.process.value)
    else OfJob(id)
  }

  /** Shown to this user: "" stands for an admin, who sees everyone's jobs. */
  predicate Shown(t: Table, id: nat, user: string)
    requires id in t.jobs
  {
    && HoldOf(t, t.jobs[id].process, t.jobs[id].batch) != Some(Aborted)
    && !t.jobs[id].payload.hidden && (user == "" || t.jobs[id].payload.user == user)
  }

  /** How many of the listed rows are shown under `key` with this status. */
  function Tally(t: Table, listed: seq<nat>, user: string, key: PanelKey, status: Status): nat {
    if listed == [] then 0
    else Tally(t, listed[..|listed| - 1], user, key, status)
         + (if Tallied(t, listed[|listed| - 1], user, key, status) then 1 else 0)
  }

  predicate Tallied(t: Table, id: nat, user: string, key: PanelKey, status: Status) {
    id in t.jobs && Shown(t, id, user) && IsKey(key, id, t.jobs[id]) && t.jobs[id].status == status
  }

  /** The entry of the job's batch, else of its process, else its own. */
  predicate IsKey(key: PanelKey, id: nat, j: Job) {
    match key
    case OfBatch(rid) => j.batch == Some(rid) || (j.batch == None && j.process == Some(rid))
    case OfJob(n) => n == id && j.batch == None && j.process == None
  }

  /** Every shown row is counted once, under its key; there are no other entries. */
  ghost predicate PanelCounts(t: Table, listed: seq<nat>, user: string, panel: map<PanelKey, PanelRow>) {
    forall key :: EntryCounts(panel, key, Tally(t, listed, user, key, Queued), Tally(t, listed, user, key, Running))
  }

  predicate EntryCounts(panel: map<PanelKey, PanelRow>, key: PanelKey, queued: nat, running: nat) {
    if key in panel then panel[key] == PanelRow(queued + running, queued, running) && queued + running > 0
    else queued == 0 && running == 0
  }

  function Counted(panel: map<PanelKey, PanelRow>, key: PanelKey, status: Status): map<PanelKey, PanelRow> {
    var row := if key in panel then panel[key] else PanelRow(0, 0, 0);
    panel[key := PanelRow(row.total + 1,
                          row.queued + (if status == Queued then 1 else 0),
                          row.running + (if status == Running then 1 else 0))]
  }

  lemma TallyAdds(t: Table, listed: seq<nat>, id: nat, user: string, key: PanelKey, status: Status)
    ensures Tally(t, listed + [id], user, key, status)
            == Tally(t, listed, user, key, status) + (if Tallied(t, id, user, key, status) then 1 else 0)
  {
    var longer := listed + [id];
    assert longer[..|longer| - 1] == listed;
  }

  lemma PanelStep(t: Table, listed: seq<nat>, id: nat, user: string, panel: map<PanelKey, PanelRow>)
    requires PanelCounts(t, listed, user, panel) && id in t.jobs && t.jobs[id].Active()
    ensures var more := Counted(panel, KeyOf(id, t.jobs[id]), t.jobs[id].status);
            PanelCounts(t, listed + [id], user, if Shown(t, id, user) then more else panel)
  {
    var panel' := if Shown(t, id, user) then Counted(panel, KeyOf(id, t.jobs[id]), t.jobs[id].status) else panel;
    forall key
      ensures EntryCounts(panel', key, Tally(t, listed + [id], user, key, Queued),
                          Tally(t, listed + [id], user, key, Running))
    {
      assert EntryCounts(panel, key, Tally(t, listed, user, key, Queued), Tally(t, listed, user, key, Running));
      TallyAdds(t, listed, id, user, key, Queued);
      TallyAdds(t, listed, id, user, key, Running);
    }
  }

  lemma {:induction false} LeastExists(key: map<nat, int>, ids: set<nat>) returns (m: nat)
    requires ids != {} && ids <= key.Keys
    ensures m in ids && forall x :: x in ids ==> key[m] <= key[x]
  {
    m :| m in ids;
    if ids != {m} {
      var m' := LeastExists(key, ids - {m});
      if key[m'] < key[m] { m := m'; }
    }
  }

  /** ORDER BY key LIMIT limit over the rows `key` is defined on. */
  method Least(key: map<nat, int>, limit: nat) returns (w: seq<nat>)
    ensures Distinct(w) && |w| == Min(limit, |key|)
    ensures forall i :: 0 <= i < |w| ==> w[i] in key
    ensures forall i, j :: 0 <= i < j < |w| ==> key[w[i]] <= key[w[j]]
    ensures forall i, x :: 0 <= i < |w| && x in key && x !in w ==> key[w[i]] <= key[x]
    ensures forall x :: x in key && x !in w ==> |w| == limit
  {
    w := [];
    var rest := key.Keys;
    while rest != {} && |w| < limit
      invariant Distinct(w) && |w| <= limit && |w| + |rest| == |key.Keys|
      invariant rest <= key.Keys && (forall i :: 0 <= i < |w| ==> w[i] in key && w[i] !in rest)
      invariant forall x :: x in key ==> x in rest || x in w
      invariant forall i, j :: 0 <= i < j < |w| ==> key[w[i]] <= key[w[j]]
      invariant forall i, x :: 0 <= i < |w| && x in rest ==> key[w[i]] <= key[x]
      decreases |rest|
    {
      ghost var least := LeastExists(key, rest);
      var m: nat :| m in rest && forall x :: x in rest ==> key[m] <= key[x];
      w := w + [m];
      rest := rest - {m};
    }
    assert |key| == |key.Keys|;
  }

  lemma FewerRows(a: map<nat, Job>, b: map<nat, Job>)
    requires a.Keys <= b.Keys
    ensures |a| <= |b|
  {
    assert |a| == |a.Keys| && |b| == |b.Keys| && b.Keys == a.Keys + (b.Keys - a.Keys);
  }

  /** The consecutive-failure query always has an answer. */
  ghost function AnswerOf(t: Table, batch: Rid, k: int): (w: seq<nat>)
    ensures IsRecent(t, batch, k, w)
  {
    AnswerExists(t, batch, k);
    var w :| IsRecent(t, batch, k, w);
    w
  }

  lemma AnswerExists(t: Table, batch: Rid, k: int)
    ensures exists w :: IsRecent(t, batch, k, w)
  {
    var key := map id | id in OutcomeRows(t, batch) :: -t.jobs[id].completedAt.value;
    assert key.Keys == OutcomeRows(t, batch) && |key| == |key.Keys|;
    var w := LeastAnswer(key, if k < 0 then |key| else Min(k, |key|));
    assert IsRecent(t, batch, k, w);
  }

  lemma {:induction false} LeastAnswer(key: map<nat, int>, n: nat) returns (w: seq<nat>)
    requires n <= |key|
    ensures Distinct(w) && |w| == n
    ensures forall i :: 0 <= i < |w| ==> w[i] in key
    ensures forall i, j :: 0 <= i < j < |w| ==> key[w[i]] <= key[w[j]]
    ensures forall i, x :: 0 <= i < |w| && x in key && x !in w ==> key[w[i]] <= key[x]
    decreases n
  {
    w := [];
    if n > 0 {
      assert |key| == |key.Keys|;
      var m := LeastExists(key, key.Keys);
      var rest := key - {m};
      assert |rest| == |rest.Keys| && rest.Keys == key.Keys - {m};
      var tail := LeastAnswer(rest, n - 1);
      w := [m] + tail;
    }
  }

  class JobQueue {
    const opts: Options
    var jobs: map<nat, Job>
    var control: map<Rid, Control>
    var nextId: nat

    ghost function State(): Table
      reads this
    {
      Table(jobs, control, nextId)
    }

    constructor (opts: Options)
      ensures this.opts == opts && State() == EMPTY
    {
      this.opts := opts;
      jobs, control, nextId := map[], map[], 1;
    }

    function Hold(process: Option<Rid>, batch: Option<Rid>): (h: Option<Hold>)
      reads this
      ensures h == HoldOf(State(), process, batch)
    {
      if process.Some? && process.value in control then Some(control[process.value].hold)
      else if batch.Some? && batch.value in control then Some(control[batch.value].hold)
      else None
    }

    method Publish(queue: string, payload: Payload, process: Option<Rid>, batch: Option<Rid>, requested: int, now: int)
      returns (id: nat)
      modifies this
      ensures State() == Apply(old(State()), opts, OpPublish(queue, payload, process, batch, requested, now))
      ensures id == old(nextId) && nextId == id + 1 && control == old(control)
      ensures id in jobs && jobs == old(jobs)[id := jobs[id]]
      ensures R.IsNew(jobs[id], queue, payload, process, batch, R.Tries(requested, opts.maxAttempts), now)
    {
      id := nextId;
      jobs := jobs[id := NewJob(opts, queue, payload, process, batch, requested, now)];
      nextId := nextId + 1;
    }

    /** The oldest 50 rows of a queue that can be claimed. */
    method Candidates(queue: string, now: int) returns (w: seq<nat>)
      ensures IsWindow(State(), queue, now, w)
    {
      w := Least(map id | id in jobs && Claimable(jobs[id], queue, now) :: jobs[id].createdAt, WINDOW);
    }

    /** One queue of a claim, in one transaction. */
    method ClaimFrom(queue: string, adapter: string, now: int) returns (taken: Option<nat>, ghost w: seq<nat>)
      modifies this`jobs
      ensures IsWindow(old(State()), queue, now, w)
      ensures (State(), taken) == Scan(old(State()), opts, w, adapter, now)
      ensures taken.Some? ==> taken.value in jobs
    {
      var candidates := Candidates(queue, now);
      w := candidates;
      taken := None;
      var i := 0;
      while i < |candidates|
        invariant 0 <= i <= |candidates| && jobs.Keys == old(jobs).Keys
        invariant Scan(State(), opts, w[i..], adapter, now) == Scan(old(State()), opts, w, adapter, now)
      {
        var id := candidates[i];
        assert w[i..][0] == id && w[i..][1..] == w[i + 1..];
        var hold := Hold(jobs[id].process, jobs[id].batch);
        if hold == Some(Aborted) {
          // Requeued after its batch was cancelled: finalised instead of run.
          jobs := jobs[id := Finalised(jobs[id], now)];
        } else if hold == None {
          jobs := jobs[id := Leased(jobs[id], opts, adapter, now)];
          taken := Some(id);
          return;
        }
        i := i + 1;
      }
    }

    method Claim(topic: string, adapter: string, now: int)
      returns (job: Option<ClaimedJob>, ghost first: seq<nat>, ghost second: seq<nat>)
      modifies this`jobs
      ensures var op := OpClaim(topic, adapter, now, first, second);
              && Enabled(old(State()), opts, op) && State() == Apply(old(State()), opts, op)
              && (job.Some? <==> ClaimedBy(old(State()), opts, op).Some?)
              && (job.Some? ==> ClaimedBy(old(State()), opts, op) == Some(job.value.id) && job.value.id in jobs
                                && job.value == ClaimedJob(job.value.id, jobs[job.value.id].queue,
                                                           jobs[job.value.id].payload,
                                                           jobs[job.value.id].attempts, jobs[job.value.id].Allowed()))
      ensures R.Claimed(control, old(jobs), jobs, if job.Some? then Some(job.value.id) else None, topic, adapter,
                        opts.leaseSeconds, now)
    {
      var taken: Option<nat>;
      second := [];
      taken, first := ClaimFrom(topic, adapter, now);
      if taken == None {
        taken, second := ClaimFrom(topic + "_batch", adapter, now);
      }
      R.ClaimMeans(old(State()), opts, topic, adapter, now, first, second);
      if taken == None { return None, first, second; }
      var j := jobs[taken.value];
      job := Some(ClaimedJob(taken.value, j.queue, j.payload, j.attempts, j.Allowed()));
    }

    method Heartbeat(id: nat, adapter: string, now: int) returns (ok: bool)
      modifies this`jobs
      ensures State() == Apply(old(State()), opts, OpHeartbeat(id, adapter, now))
      ensures ok == R.HeldRow(old(jobs), id, adapter)
      ensures if ok then id in jobs
              && jobs == old(jobs)[id := old(jobs)[id].(leaseUntil := Some(now + opts.leaseSeconds * 1000),
                                                        updatedAt := now)]
              else jobs == old(jobs)
    {
      ok := id in jobs && jobs[id].status == Running && jobs[id].claimedBy == Some(adapter);
      if ok { jobs := jobs[id := Renewed(jobs[id], opts, now)]; }
    }

    method CleanupIfIdle(batch: Rid, now: int) returns (cleaned: bool)
      modifies this`jobs
      ensures State() == QueueTable.CleanupIfIdle(old(State()), opts, batch, now)
      ensures cleaned == R.IsIdle(old(jobs), batch)
      ensures R.Cleaned(old(jobs), jobs, batch, opts.keepFailedMinutes, now)
    {
      cleaned := !exists id :: id in jobs && jobs[id].batch == Some(batch) && jobs[id].Active();
      if cleaned {
        jobs := map id | id in jobs && !Cleanable(jobs[id], opts, batch, now) :: jobs[id];
      }
    }

    method Complete(id: nat, adapter: string, now: int) returns (ok: bool)
      modifies this`jobs
      ensures State() == Apply(old(State()), opts, OpComplete(id, adapter, now))
      ensures ok == R.HeldRow(old(jobs), id, adapter)
      ensures if ok then R.Completed(old(jobs), jobs, id, opts.keepFailedMinutes, now) else jobs == old(jobs)
    {
      ok := id in jobs && jobs[id].status == Running && jobs[id].claimedBy == Some(adapter);
      if !ok { return; }
      R.CompleteMeans(old(State()), opts, id, adapter, now);
      var batch := jobs[id].batch;
      jobs := jobs[id := Finished(jobs[id], now)];
      if batch == None {
        // Single jobs need no history for the failure statistics.
        jobs := jobs - {id};
      } else {
        var _ := CleanupIfIdle(batch.value, now);
      }
    }

    /** The newest `k` outcomes of a batch. */
    method Recent(batch: Rid, k: int) returns (w: seq<nat>)
      ensures IsRecent(State(), batch, k, w)
    {
      var key := map id | id in jobs && jobs[id].batch == Some(batch)
        && (jobs[id].status == Done || jobs[id].status == Failed)
        && jobs[id].completedAt.Some? :: -jobs[id].completedAt.value;
      assert key.Keys == OutcomeRows(State(), batch);
      w := Least(key, if k < 0 then |key| else k);
    }

    method Drain(rid: Rid) returns (deleted: nat)
      modifies this`jobs
      ensures State() == QueueTable.Drain(old(State()), rid)
      ensures R.Drained(old(jobs), jobs, rid)
      ensures deleted == |old(jobs)| - |jobs|
    {
      var kept := map id | id in jobs && !(jobs[id].status == Queued && jobs[id].Of(rid)) :: jobs[id];
      FewerRows(kept, jobs);
      deleted := |jobs| - |kept|;
      jobs := kept;
    }

    method CancelBatch(rid: Rid, now: int) returns (deleted: nat, cleaned: bool)
      modifies this`jobs, this`control
      ensures State() == Apply(old(State()), opts, OpCancel(rid, now))
      ensures control == old(control)[rid := Control(Aborted, now)]
      ensures R.CancelledBatch(old(jobs), jobs, rid, opts.keepFailedMinutes, now)
    {
      control := control[rid := Control(Aborted, now)];
      deleted := Drain(rid);
      cleaned := CleanupIfIdle(rid, now);
    }

    method PauseBatch(rid: Rid, now: int) returns (deleted: nat)
      modifies this`jobs, this`control
      ensures State() == Apply(old(State()), opts, OpPause(rid, now))
      ensures control == old(control)[rid := Control(Paused, now)] && R.Drained(old(jobs), jobs, rid)
      ensures deleted == |old(jobs)| - |jobs|
    {
      control := control[rid := Control(Paused, now)];
      deleted := Drain(rid);
    }

    method ResumeBatch(rid: Rid)
      modifies this`control
      ensures State() == Apply(old(State()), opts, OpResume(rid))
      ensures forall x :: x in control <==> x in old(control) && x != rid
      ensures forall x :: x in control ==> control[x] == old(control)[x]
    {
      control := control - {rid};
    }

    /** The share of failed rows among the batch's finished rows. */
    method TooMany(batch: Rid, percent: int) returns (abort: bool)
      ensures abort == TooManyFailed(State(), batch, percent)
    {
      var terminal := set id | id in jobs && jobs[id].batch == Some(batch) && jobs[id].Terminal();
      var failed := set id | id in jobs && jobs[id].batch == Some(batch) && jobs[id].Terminal()
        && jobs[id].status == Failed;
      assert terminal == TerminalRows(State(), batch) && failed == FailedRows(State(), batch);
      abort := |terminal| > 0 && |failed| * 100 >= percent * |terminal|;
    }

    /** Percentage first, then the newest outcomes. `id` is the row just marked failed. */
    method CheckBatchAutoAbort(batch: Rid, percent: int, consecutive: int, now: int)
      returns (abort: bool, ghost w: seq<nat>)
      modifies this`jobs, this`control
      ensures IsRecent(old(State()), batch, consecutive, w)
      ensures abort == (TooManyFailed(old(State()), batch, percent) || AllRecentFailed(old(State()), consecutive, w))
      ensures State() == if abort then QueueTable.CancelBatch(old(State()), opts, batch, now) else old(State())
    {
      var recent := Recent(batch, consecutive);
      w := recent;
      abort := TooMany(batch, percent);
      if !abort {
        abort := |recent| >= consecutive && forall i :: 0 <= i < |recent| ==> jobs[recent[i]].status == Failed;
      }
      if abort { var _, _ := CancelBatch(batch, now); }
    }

    /** A failure its adapter reports, up to the batch's statistics. */
    method FailRow(id: nat, adapter: string, now: int) returns (r: FailResult, ghost recent: seq<nat>)
      modifies this`jobs, this`control
      ensures var op := OpFail(id, adapter, now, recent);
              Enabled(old(State()), opts, op) && State() == Apply(old(State()), opts, op)
              && r == FailureOf(old(State()), opts, op)
    {
      recent := [];
      if !(id in jobs && jobs[id].status == Running && jobs[id].claimedBy == Some(adapter)) { return NotHeld, recent; }
      var j := jobs[id];
      ghost var marked := old(State()).(jobs := jobs[id := FailedJob(j, now)]);
      if j.batch.Some? { recent := AnswerOf(marked, j.batch.value, MaxConsecutive(j, opts)); }
      var hold := Hold(j.process, j.batch);
      if hold == Some(Aborted) {
        jobs := jobs[id := Finalised(j, now)];
        return BatchCancelled, recent;
      }
      if j.attempts < j.Allowed() {
        jobs := jobs[id := Requeued(j, now)];
        return Retry, recent;
      }
      jobs := jobs[id := FailedJob(j, now)];
      if j.batch == None { return Permanent, recent; }
      var abort: bool;
      abort, recent := CheckBatchAutoAbort(j.batch.value, MaxPercent(j, opts), MaxConsecutive(j, opts), now);
      r := if abort then AbortedBatch(j.batch.value) else Permanent;
    }

    method Fail(id: nat, adapter: string, now: int) returns (r: FailResult, ghost recent: seq<nat>)
      modifies this`jobs, this`control
      ensures var op := OpFail(id, adapter, now, recent);
              Enabled(old(State()), opts, op) && State() == Apply(old(State()), opts, op)
              && r == FailureOf(old(State()), opts, op)
      ensures R.FailedAs(old(control), old(jobs), control, jobs, id, adapter, opts.keepFailedMinutes, now, r)
    {
      r, recent := FailRow(id, adapter, now);
      R.FailMeans(old(State()), opts, id, adapter, now, recent);
    }

    method CancelJob(id: nat, now: int) returns (ok: bool)
      modifies this`jobs
      ensures State() == Apply(old(State()), opts, OpCancelJob(id, now))
      ensures ok == (id in old(jobs) && R.IsActive(old(jobs)[id]))
      ensures R.DroppedAll(old(jobs), jobs, x => x == id, now)
    {
      ok := id in jobs && jobs[id].Active();
      if ok { jobs := jobs[id := Dropped(jobs[id], now)]; }
    }

    method Dismiss(rid: Rid, now: int) returns (ok: bool)
      modifies this`jobs
      ensures State() == Apply(old(State()), opts, OpDismiss(rid, now))
      ensures ok == exists id :: id in old(jobs) && R.IsOf(old(jobs)[id], rid) && R.IsActive(old(jobs)[id])
      ensures R.DroppedAll(old(jobs), jobs, x => x in old(jobs) && R.IsOf(old(jobs)[x], rid), now)
    {
      ok := exists id :: id in jobs && jobs[id].Of(rid) && jobs[id].Active();
      jobs := map id | id in jobs :: if jobs[id].Of(rid) && jobs[id].Active() then Dropped(jobs[id], now) else jobs[id];
    }

    method Flush(topic: string) returns (deleted: nat)
      modifies this`jobs
      ensures State() == Apply(old(State()), opts, OpFlush(topic))
      ensures R.OnlyRemoves(old(jobs), jobs)
      ensures forall x :: x in old(jobs) ==> (x !in jobs <==> old(jobs)[x].queue in {topic, topic + "_batch"})
      ensures deleted == |old(jobs)| - |jobs|
    {
      var kept := map id | id in jobs && jobs[id].queue != topic && jobs[id].queue != topic + "_batch" :: jobs[id];
      FewerRows(kept, jobs);
      deleted := |jobs| - |kept|;
      jobs := kept;
    }

    method CleanupOlderThan(minutes: int, statuses: set<Status>, now: int) returns (deleted: nat)
      modifies this`jobs
      ensures State() == Apply(old(State()), opts, OpCleanup(minutes, statuses, now))
      ensures R.OnlyRemoves(old(jobs), jobs)
      ensures forall x :: x in old(jobs) ==>
                (x !in jobs <==>
                   old(jobs)[x].status in statuses && old(jobs)[x].status != Running
                   && R.IsOld(old(jobs)[x], minutes, now))
      ensures deleted == |old(jobs)| - |jobs|
    {
      R.CleanupMeans(State(), minutes, statuses, now);
      deleted := RemoveOlder(minutes, statuses, now);
    }

    method RemoveOlder(minutes: int, statuses: set<Status>, now: int) returns (deleted: nat)
      modifies this`jobs
      ensures State() == CleanupOlder(old(State()), minutes, statuses, now)
      ensures deleted == |old(jobs)| - |jobs|
    {
      var valid := statuses - {Running};
      if valid == {} || minutes <= 0 { return 0; }
      var kept := map id | id in jobs
        && !(jobs[id].status in valid && jobs[id].updatedAt < now - minutes * 60000) :: jobs[id];
      FewerRows(kept, jobs);
      deleted := |jobs| - |kept|;
      jobs := kept;
    }

    method SweepOnce(now: int)
      modifies this`jobs, this`control
      ensures State() == Apply(old(State()), opts, OpSweep(now))
      ensures R.SweptUp(old(control), old(jobs), control, jobs, opts.doneCancelledMinutes, opts.keepFailedMinutes, now)
    {
      SweepRows(now);
      R.SweepMeans(old(State()), opts, now);
    }

    method SweepRows(now: int)
      modifies this`jobs, this`control
      ensures State() == QueueTable.Sweep(old(State()), opts, now)
    {
      var _ := RemoveOlder(opts.doneCancelledMinutes, {Done, Cancelled}, now);
      var _ := RemoveOlder(opts.keepFailedMinutes, {Failed}, now);
      SweepControl(now);
    }

    /** State rows that were not touched for a week and hold no job's batch. */
    method SweepControl(now: int)
      modifies this`control
      ensures control == map rid | rid in old(control)
                && !(old(control)[rid].updatedAt < now - WEEK
                     && !exists id :: id in jobs && jobs[id].batch == Some(rid)) :: old(control)[rid]
    {
      control := map rid | rid in control
        && !(control[rid].updatedAt < now - WEEK
             && !exists id :: id in jobs && jobs[id].batch == Some(rid)) :: control[rid];
    }

    /** The oldest 200 active rows. */
    method Listing() returns (w: seq<nat>)
      ensures IsListing(State(), w)
    {
      w := Least(map id | id in jobs && jobs[id].Active() :: jobs[id].createdAt, PANEL);
    }

    /** One listed row: finalised when its batch was cancelled, else counted when it is shown. */
    method PanelEntry(id: nat, user: string, now: int, panel: map<PanelKey, PanelRow>)
      returns (panel': map<PanelKey, PanelRow>)
      requires id in jobs
      modifies this`jobs
      ensures jobs == if HoldOf(old(State()), old(jobs)[id].process, old(jobs)[id].batch) == Some(Aborted)
                      then old(jobs)[id := Finalised(old(jobs)[id], now)] else old(jobs)
      ensures panel' == if Shown(old(State()), id, user)
              then Counted(panel, KeyOf(id, old(jobs)[id]), old(jobs)[id].status) else panel
    {
      panel' := panel;
      var j := jobs[id];
      var hold := Hold(j.process, j.batch);
      if hold == Some(Aborted) {
        jobs := jobs[id := Finalised(j, now)];
      } else if !j.payload.hidden && (user == "" || j.payload.user == user) {
        panel' := Counted(panel, KeyOf(id, j), j.status);
      }
    }

    /** The listed rows, one by one. */
    method PanelRows(rows: seq<nat>, user: string, now: int) returns (panel: map<PanelKey, PanelRow>)
      requires Distinct(rows) && forall k :: 0 <= k < |rows| ==> rows[k] in jobs && jobs[rows[k]].Active()
      modifies this`jobs
      ensures State() == FinaliseListed(old(State()), rows, now) && PanelCounts(old(State()), rows, user, panel)
    {
      panel := map[];
      ghost var t := State();
      var i := 0;
      while i < |rows|
        invariant 0 <= i <= |rows| && jobs.Keys == t.jobs.Keys
        invariant FinaliseListed(State(), rows[i..], now) == FinaliseListed(t, rows, now)
        invariant forall k :: i <= k < |rows| ==> jobs[rows[k]] == t.jobs[rows[k]]
        invariant PanelCounts(t, rows[..i], user, panel)
      {
        assert rows[i..][0] == rows[i] && rows[i..][1..] == rows[i + 1..];
        assert rows[..i + 1] == rows[..i] + [rows[i]];
        PanelStep(t, rows[..i], rows[i], user, panel);
        panel := PanelEntry(rows[i], user, now, panel);
        i := i + 1;
      }
      assert rows[..i] == rows;
    }

    /** The jobs panel: active rows per batch, oldest 200. Rows of cancelled batches are finalised
        on the way. */
    method ActiveJobs(user: string, now: int) returns (panel: map<PanelKey, PanelRow>, ghost listed: seq<nat>)
      modifies this`jobs
      ensures var op := OpPanel(listed, now);
              Enabled(old(State()), opts, op) && State() == Apply(old(State()), opts, op)
      ensures PanelCounts(old(State()), listed, user, panel)
      ensures R.ListedOver(control, old(jobs), jobs, listed, now)
    {
      var rows := Listing();
      listed := rows;
      R.ListingMeans(State(), listed, now);
      panel := PanelRows(rows, user, now);
    }
  }
}
