/** What each step of a batch changes and what it leaves, with the statuses written out; and over whole runs,
    that a stopped batch publishes, accepts and counts nothing new, and a running one goes on. */
module BatchLaws {
  import opened Collections
  import B = BatchCounting
  import opened BatchProtocol

  predicate Goes(c: Control) { c.status == B.Running || c.status == B.Resuming }

  /** A stage of the callback before which the status is read again. */
  predicate AtCheck(e: Delivery) { e.stage.Arrived? || e.stage.Stored? }

  // ---- dispatchers ----

  /** Why a dispatcher may read `q` after the step. */
  predicate Moved(b: Batch, a: Action, d: nat, p: Dispatcher, q: Dispatcher) {
    || q == p
    || (a == Look(d) && Goes(b.control) && p.rest != [] && q == Dispatcher(p.rest, true))
    || (a == Put(d) && p.cleared && p.rest != [] && q == Dispatcher(p.rest[1..], false))
    || (a == Skip(d) && !p.cleared && p.rest != [] && q == Dispatcher(p.rest[1..], false))
  }

  /** A dispatcher goes when nothing is ahead of it, or when it looks and the batch does not go on. It is
      cleared exactly by a look while the batch goes on; a new one comes from a resume, for the listed files. */
  ghost predicate DispatchersMove(b: Batch, a: Action, b': Batch)
    requires Enabled(b, a)
  {
    var was, now := b.work.dispatchers, b'.work.dispatchers;
    && (forall d :: d in was && d in now ==> Moved(b, a, d, was[d], now[d]))
    && (forall d :: d in was && d !in now <==> d in was && (a == End(d) || (a == Look(d) && !Goes(b.control))))
    && (forall d :: d in now && d !in was ==>
          a.ResumeSpawn? && Goes(b.control) && d == b.work.nextDispatcher
          && now[d] == Dispatcher(b.control.resume.pending, false))
    && (a.Look? && Goes(b.control) ==> a.d in now && now[a.d].cleared)
    && (a.Put? || a.Skip? ==> a.d in now && now[a.d].rest == was[a.d].rest[1..])
    && (a.ResumeSpawn? && Goes(b.control) ==> b.work.nextDispatcher in now)
  }

  // ---- jobs ----

  /** Why a job may read `q` after the step. */
  predicate JobMoved(b: Batch, a: Action, j: nat, p: Job, q: Job) {
    || q == p
    || (a == Claim(j) && p.phase == Waiting && !b.control.blocked && q == p.(phase := Claimed))
    || (a == FailRetry(j) && p.phase == Claimed && q == p.(phase := Waiting))
    || (a == Complete(j) && p.phase == Claimed && p.settled && q == p.(phase := Over))
    || (a == FailForGood(j) && p.phase == Claimed && q == p.(phase := Over))
    || (a == CancelOne(j) && p.phase != Over && q == p.(phase := Over))
    || (a == StopJob(j) && q == p.(phase := Over))
    || (a.Advance? && a.k in b.work.deliveries && AnsweredJob(b, a.k, j, p, q))
  }

  /** When the delivery ends, its job is settled, and marked when the delivery was turned away before anything was
      stored. */
  predicate AnsweredJob(b: Batch, k: nat, j: nat, p: Job, q: Job)
    requires k in b.work.deliveries
  {
    var e := b.work.deliveries[k];
    if j == e.job && Ends(b.control, e)
    then q == p.(settled := true, dropped := p.dropped || (e.stage.Arrived? && !Goes(b.control)))
    else q == p
  }

  predicate TakesQueued(a: Action) { a.PauseQueue? || a.StopJob? || a.CancelBatch? }

  ghost predicate JobsMove(b: Batch, a: Action, b': Batch)
    requires Enabled(b, a)
  {
    var was, now := b.work.jobs, b'.work.jobs;
    && (forall j :: j in was && j in now ==> JobMoved(b, a, j, was[j], now[j]))
    && (forall j :: j in now && j !in was ==>
          a.Put? && j == b.work.nextJob
          && now[j] == Job(b.work.dispatchers[a.d].rest[0], Waiting, false, false))
    && (a.Put? ==> b.work.nextJob in now)
    && (TakesQueued(a) ==> forall j :: j in now ==> now[j].phase != Waiting)
    && (forall j :: j in was && j !in now ==>
          a.FlushQueue? || (TakesQueued(a) && was[j].phase == Waiting && a != StopJob(j)))
    && (a.FlushQueue? ==> now == map[])
    && JobsSet(a, now)
    && (a.Advance? ==> forall j :: j in was ==> j in now && AnsweredJob(b, a.k, j, was[j], now[j]))
  }

  /** What was handed out stays known; a claim adds the job it hands out. Ids are counted by the publishing. */
  ghost predicate HandedMoves(b: Batch, a: Action, b': Batch) {
    && b'.work.nextJob == b.work.nextJob + (if a.Put? then 1 else 0)
    && (forall j :: j in b'.work.handed <==> j in b.work.handed || a == Claim(j))
    && (forall j :: j in b.work.handed && a != Claim(j) ==>
          j in b'.work.handed && b'.work.handed[j] == b.work.handed[j])
  }

  /** The step an action takes, it does take. */
  ghost predicate JobsSet(a: Action, now: map<nat, Job>) {
    && (a.Claim? ==> a.j in now && now[a.j].phase == Claimed)
    && (a.FailRetry? ==> a.j in now && now[a.j].phase == Waiting)
    && (a.Complete? || a.FailForGood? || a.CancelOne? ==> a.j in now && now[a.j].phase == Over)
    && (a.StopJob? ==> (a.j in now ==> now[a.j].phase == Over))
  }

  // ---- deliveries, outputs, counts, excuses ----

  /** The next stage of a callback, when it has one. */
  predicate StageMoved(b: Batch, p: Delivery, q: Delivery) {
    && q.job == p.job && q.input == p.input
    && match p.stage
       case Arrived => Goes(b.control) && q.stage == B.Accepted
       case Accepted => q.stage == B.Stored
       case Stored => Goes(b.control) && q.stage == B.Entered
       case Entered => q.stage == B.Loaded
       case Loaded => q.stage == B.Counted(|b.work.tallied| + 1, b.control.status)
       case Counted(_, _) => false
       case Patched(_, _) => false
       case Finished(_, _) => false
       case Dropped => false
  }

  /** A callback is turned away exactly at a check while the batch does not go on; before that its output is
      stored when it was accepted, and counted when it was loaded. */
  ghost predicate DeliveriesMove(b: Batch, a: Action, b': Batch)
    requires Enabled(b, a)
  {
    var was, now := b.work.deliveries, b'.work.deliveries;
    && (forall k :: k in was && k in now ==>
          if a == Advance(k) then StageMoved(b, was[k], now[k]) else now[k] == was[k])
    && (forall k :: k in was && k !in now <==> k in was && a == Advance(k) && Ends(b.control, was[k]))
    && (forall k :: k in now && k !in was ==>
          a.Deliver? && k == b.work.nextDelivery && now[k] == Delivery(a.j, b.work.handed[a.j], B.Arrived))
    && (a.Deliver? ==> b.work.nextDelivery in now)
  }

  predicate Ends(c: Control, e: Delivery) {
    if AtCheck(e) then !Goes(c) else e.stage.Counted? || e.stage.Patched? || e.stage.Finished? || e.stage.Dropped?
  }

  /** The delivery this step moves on. */
  predicate Moves(b: Batch, a: Action, k: nat) { a == Advance(k) && k in b.work.deliveries }

  ghost predicate ResultsMove(b: Batch, a: Action, b': Batch) {
    var w, w' := b.work, b'.work;
    && (forall x :: x in w'.outputs <==> x in w.outputs || StoresOf(b, a, x))
    && w'.tallied == w.tallied + (if CountsOne(b, a) then [w.deliveries[a.k].input] else [])
    && (forall x :: x in w'.excused <==> x in w.excused || Excuses(b, a, x))
    && w'.inputs == w.inputs
  }

  predicate StoresOf(b: Batch, a: Action, x: Rid) {
    a.Advance? && a.k in b.work.deliveries
      && b.work.deliveries[a.k] == Delivery(b.work.deliveries[a.k].job, x, B.Accepted)
  }

  predicate CountsOne(b: Batch, a: Action) {
    a.Advance? && a.k in b.work.deliveries && b.work.deliveries[a.k].stage == B.Loaded
  }

  /** Failed for good, cancelled by itself, flushed while active, or its file gone. */
  predicate Excuses(b: Batch, a: Action, x: Rid) {
    || ((a.FailForGood? || a.CancelOne?) && a.j in b.work.jobs && b.work.jobs[a.j].input == x)
    || (a.FlushQueue? && exists j :: j in b.work.jobs && b.work.jobs[j].phase != Over && b.work.jobs[j].input == x)
    || (a.Skip? && a.d in b.work.dispatchers && b.work.dispatchers[a.d].rest != []
          && b.work.dispatchers[a.d].rest[0] == x)
  }

  // ---- status and state row ----

  /** The callback that patches the batch after the last count. */
  predicate FillsCount(b: Batch, a: Action) {
    && a.Advance? && a.k in b.work.deliveries && b.work.deliveries[a.k].stage.Counted?
    && |b.work.inputs| > 0 && b.work.deliveries[a.k].stage.processed >= |b.work.inputs|
  }

  ghost predicate ControlMoves(b: Batch, a: Action, b': Batch) {
    var c, c' := b.control, b'.control;
    && c'.status == (if a.PauseWrite? || a.StopWrite? then B.Paused else if a.CancelBatch? then B.Cancelled
                     else if a.ResumeMark? then B.Resuming else if a.ResumeWrite? then B.Running
                     else if FillsCount(b, a) then B.Done else c.status)
    && c'.blocked == (TakesQueued(a) || (c.blocked && !a.SweepRow? && !a.ResumeQueue?))
    && c'.pausing == (a.PauseWrite? || (c.pausing && !a.PauseQueue?))
    && c'.stops == c.stops + (if a.StopJob? then 1 else if a.StopWrite? then -1 else 0)
  }

  /** The one resume request, and what it lists: the inputs without an output. */
  ghost predicate ResumeMoves(b: Batch, a: Action, b': Batch) {
    var r, r' := b.control.resume, b'.control.resume;
    && (a.ResumeCheck? ==> r.Idle? && b.control.status == B.Paused && r' == Checked)
    && (a.ResumeQueue? ==> r == Checked && r' == Unblocked)
    && (a.ResumeMark? ==> r == Unblocked && r' == Marked)
    && (a.ResumeList? ==> r == Marked && r'.Listed?
                          && forall x :: x in r'.pending <==> x in b.work.inputs && x !in b.work.outputs)
    && (a.ResumeSpawn? ==> r.Listed? && r' == if Goes(b.control) then Spawned else Idle)
    && (a.ResumeWrite? ==> r == Spawned && r' == Idle)
    && (a.ResumeAbort? ==> r' == Idle)
    && (!OfResume(a) ==> r' == r)
  }

  predicate OfResume(a: Action) {
    || a.ResumeCheck? || a.ResumeQueue? || a.ResumeMark? || a.ResumeList? || a.ResumeSpawn? || a.ResumeWrite?
    || a.ResumeAbort?
  }

  /** The fields that only record: set by what they are named after, and some of them cleared by a listing. */
  ghost predicate RecordsMove(b: Batch, a: Action, b': Batch) {
    var c, c' := b.control, b'.control;
    && c'.cancelled == (c.cancelled || a.CancelBatch?)
    && c'.drained == (!a.ResumeList? && (c.drained || TakesQueued(a)))
    && c'.cut == (!a.ResumeList? && (c.cut || (a.StopWrite? && c.resume.Spawned?)))
    && c'.overlap == (if a.ResumeCheck? then c.stops > 0 else c.overlap || (a.StopJob? && !c.resume.Idle?))
    && c'.early == (c.early || (FillsCount(b, a) && exists x :: x in b.work.inputs && x !in b.work.outputs))
  }

  // ---- every step obeys them ----

  ghost predicate Obeys(b: Batch, a: Action, b': Batch)
    requires Enabled(b, a)
  {
    DispatchersMove(b, a, b') && JobsMove(b, a, b') && HandedMoves(b, a, b') && DeliveriesMove(b, a, b')
      && ResultsMove(b, a, b')
    && ControlMoves(b, a, b') && ResumeMoves(b, a, b') && RecordsMove(b, a, b')
  }

  /** A step of a callback, part by part. */
  lemma AdvancedParts(w: Work, status: B.Status, k: nat)
    requires k in w.deliveries
    ensures var e, w' := w.deliveries[k], Advanced(w, status, k);
            && w'.dispatchers == w.dispatchers && w'.inputs == w.inputs && w'.excused == w.excused
            && w'.handed == w.handed && w'.nextJob == w.nextJob
            && w'.outputs == (if e.stage == B.Accepted then w.outputs + {e.input} else w.outputs)
            && w'.tallied == w.tallied + (if e.stage == B.Loaded then [e.input] else [])
  {
    AdvancedStores(w, status, k);
    AnsweredSame(w, k, true);
    AnsweredSame(w, k, false);
    AdvancedHanded(w, status, k);
  }

  lemma AdvancedHanded(w: Work, status: B.Status, k: nat)
    requires k in w.deliveries
    ensures Advanced(w, status, k).handed == w.handed && Advanced(w, status, k).nextJob == w.nextJob
  {
  }

  lemma AdvancedJobs(b: Batch, k: nat)
    requires k in b.work.deliveries
    ensures var now := Advanced(b.work, b.control.status, k).jobs;
            && now.Keys == b.work.jobs.Keys
            && forall j :: j in now ==> AnsweredJob(b, k, j, b.work.jobs[j], now[j])
  {
    var e := b.work.deliveries[k];
    if Ends(b.control, e) {
      var dropped := e.stage.Arrived? && !Goes(b.control);
      assert Advanced(b.work, b.control.status, k) == Answered(b.work, k, dropped);
      AnsweredRow(b.work, k, dropped);
    } else {
      UnansweredJobs(b, k);
    }
  }

  lemma UnansweredJobs(b: Batch, k: nat)
    requires k in b.work.deliveries && !Ends(b.control, b.work.deliveries[k])
    ensures Advanced(b.work, b.control.status, k).jobs == b.work.jobs
  {
  }

  lemma AnsweredRow(w: Work, k: nat, dropped: bool)
    requires k in w.deliveries
    ensures var now := Answered(w, k, dropped).jobs;
            && now.Keys == w.jobs.Keys
            && forall j :: j in now ==>
                 now[j] == if j == w.deliveries[k].job
                           then w.jobs[j].(settled := true, dropped := w.jobs[j].dropped || dropped) else w.jobs[j]
  {
  }

  lemma AdvancedDelivery(b: Batch, k: nat)
    requires k in b.work.deliveries
    ensures var e, w' := b.work.deliveries[k], Advanced(b.work, b.control.status, k);
            if Ends(b.control, e) then w'.deliveries == b.work.deliveries - {k}
            else k in w'.deliveries && StageMoved(b, e, w'.deliveries[k])
                 && w'.deliveries == b.work.deliveries[k := w'.deliveries[k]]
  {
  }

  lemma DispatchersObey(b: Batch, a: Action)
    requires Rows(b.work) && Enabled(b, a)
    ensures DispatchersMove(b, a, Step(b, a))
  {
    if a.Advance? { AdvancedParts(b.work, b.control.status, a.k); }
    else if OfDispatch(a) { DispatchActionObeys(b, a); }
    else { DispatchersStay(b, a); }
  }

  lemma DispatchActionObeys(b: Batch, a: Action)
    requires Rows(b.work) && Enabled(b, a) && OfDispatch(a)
    ensures DispatchersMove(b, a, Step(b, a))
  {
    if a.Skip? || a.Put? { SentObeys(b, a); }
  }

  lemma SentObeys(b: Batch, a: Action)
    requires Enabled(b, a) && (a.Skip? || a.Put?)
    ensures DispatchersMove(b, a, Step(b, a))
  {
  }

  lemma DispatchersStay(b: Batch, a: Action)
    requires Enabled(b, a) && !OfDispatch(a) && !a.Advance?
    ensures Step(b, a).work.dispatchers == b.work.dispatchers
  {
  }

  lemma JobsObey(b: Batch, a: Action)
    requires Rows(b.work) && Enabled(b, a)
    ensures JobsMove(b, a, Step(b, a))
  {
    if a.Advance? { AdvancedJobs(b, a.k); }
    else if OfJob(a) { JobActionObeys(b, a); }
    else if TakesQueued(a) { StopObeys(b, a); }
    else if a.Put? { PutObeys(b, a); }
    else { OtherActionObeys(b, a); }
  }

  lemma JobActionObeys(b: Batch, a: Action)
    requires Enabled(b, a) && OfJob(a) && !a.Advance?
    ensures JobsMove(b, a, Step(b, a))
  {
    if !a.FlushQueue? && !a.Deliver? { JobSetObeys(b, a); }
  }

  lemma JobSetObeys(b: Batch, a: Action)
    requires Enabled(b, a) && OfJob(a) && !a.Advance? && !a.FlushQueue? && !a.Deliver?
    ensures JobsMove(b, a, Step(b, a))
  {
    JobSet(b, a);
  }

  lemma JobSet(b: Batch, a: Action)
    requires Enabled(b, a) && OfJob(a) && !a.Advance? && !a.FlushQueue? && !a.Deliver?
    ensures a.j in b.work.jobs
    ensures Step(b, a).work.jobs
            == b.work.jobs[a.j := b.work.jobs[a.j].(phase := if a.Claim? then Claimed else if a.FailRetry? then Waiting
                                                    else Over)]
  {
  }

  lemma StopObeys(b: Batch, a: Action)
    requires Enabled(b, a) && TakesQueued(a)
    ensures JobsMove(b, a, Step(b, a))
  {
  }

  lemma PutObeys(b: Batch, a: Action)
    requires Rows(b.work) && Enabled(b, a) && a.Put?
    ensures JobsMove(b, a, Step(b, a))
  {
  }

  lemma OtherActionObeys(b: Batch, a: Action)
    requires Enabled(b, a) && !OfJob(a) && !TakesQueued(a) && !a.Put?
    ensures JobsMove(b, a, Step(b, a))
  {
    assert Step(b, a).work.jobs == b.work.jobs;
  }

  lemma HandedObeys(b: Batch, a: Action)
    requires Enabled(b, a)
    ensures HandedMoves(b, a, Step(b, a))
  {
    if a.Advance? { AdvancedParts(b.work, b.control.status, a.k); } else { HandedStays(b, a); }
  }

  lemma HandedStays(b: Batch, a: Action)
    requires Enabled(b, a) && !a.Advance?
    ensures Step(b, a).work.nextJob == b.work.nextJob + (if a.Put? then 1 else 0)
    ensures Step(b, a).work.handed
            == if a.Claim? then b.work.handed[a.j := b.work.jobs[a.j].input] else b.work.handed
  {
  }

  lemma DeliveriesObey(b: Batch, a: Action)
    requires Rows(b.work) && Enabled(b, a)
    ensures DeliveriesMove(b, a, Step(b, a))
  {
    if a.Advance? { AdvancedDelivery(b, a.k); } else { DeliveriesStay(b, a); }
  }

  lemma DeliveriesStay(b: Batch, a: Action)
    requires Enabled(b, a) && !a.Advance?
    ensures var w := b.work;
            Step(b, a).work.deliveries
            == if a.Deliver? then w.deliveries[w.nextDelivery := Delivery(a.j, w.handed[a.j], B.Arrived)]
              else w.deliveries
  {
  }

  lemma ResultsObey(b: Batch, a: Action)
    requires Enabled(b, a)
    ensures ResultsMove(b, a, Step(b, a))
  {
    if a.Advance? { AdvancedParts(b.work, b.control.status, a.k); } else { ResultsStay(b, a); }
  }

  lemma ResultsStay(b: Batch, a: Action)
    requires Enabled(b, a) && !a.Advance?
    ensures ResultsMove(b, a, Step(b, a))
  {
    if OfJob(a) { JobStepCounts(b, a); } else { StoresStay(b, a); }
    if a.FailForGood? || a.CancelOne? || a.FlushQueue? || a.Skip? { ExcusedGrows(b, a); } else { ExcusedStays(b, a); }
  }

  lemma ExcusedGrows(b: Batch, a: Action)
    requires Enabled(b, a) && (a.FailForGood? || a.CancelOne? || a.FlushQueue? || a.Skip?)
    ensures forall x :: x in Step(b, a).work.excused <==> x in b.work.excused || Excuses(b, a, x)
  {
  }

  lemma ExcusedStays(b: Batch, a: Action)
    requires Enabled(b, a) && !a.Advance? && !(a.FailForGood? || a.CancelOne? || a.FlushQueue? || a.Skip?)
    ensures Step(b, a).work.excused == b.work.excused
  {
  }

  predicate OfControl(a: Action) { TakesQueued(a) || OfResume(a) || a.PauseWrite? || a.StopWrite? || a.SweepRow? }

  lemma ControlObeys(b: Batch, a: Action)
    requires Enabled(b, a)
    ensures ControlMoves(b, a, Step(b, a)) && RecordsMove(b, a, Step(b, a))
  {
    if a.Advance? { AdvanceControls(b, a); }
    else if !OfControl(a) { ControlStays(b, a); }
    else if OfResume(a) { ResumeControls(b, a); }
    else { StopControls(b, a); }
  }

  lemma AdvanceControls(b: Batch, a: Action)
    requires Enabled(b, a) && a.Advance?
    ensures ControlMoves(b, a, Step(b, a)) && RecordsMove(b, a, Step(b, a))
  {
  }

  lemma ControlStays(b: Batch, a: Action)
    requires Enabled(b, a) && !a.Advance? && !OfControl(a)
    ensures Step(b, a).control == b.control
  {
  }

  lemma ResumeControls(b: Batch, a: Action)
    requires Enabled(b, a) && OfResume(a)
    ensures ControlMoves(b, a, Step(b, a)) && RecordsMove(b, a, Step(b, a))
  {
    ResumeRecords(b, a);
  }

  lemma ResumeRecords(b: Batch, a: Action)
    requires Enabled(b, a) && OfResume(a)
    ensures RecordsMove(b, a, Step(b, a))
  {
    if a.ResumeList? || a.ResumeCheck? { ListRecords(b, a); } else { RecordsStay(b, a); }
  }

  lemma ListRecords(b: Batch, a: Action)
    requires Enabled(b, a) && (a.ResumeList? || a.ResumeCheck?)
    ensures RecordsMove(b, a, Step(b, a))
  {
  }

  lemma RecordsStay(b: Batch, a: Action)
    requires Enabled(b, a) && OfResume(a) && !a.ResumeList? && !a.ResumeCheck?
    ensures var c, c' := b.control, Step(b, a).control;
            c'.cancelled == c.cancelled && c'.drained == c.drained && c'.cut == c.cut && c'.overlap == c.overlap
            && c'.early == c.early
  {
    var c := b.control;
    match a
    case ResumeQueue => assert Step(b, a).control == c.(resume := Unblocked, blocked := false);
    case ResumeMark => assert Step(b, a).control == c.(resume := Marked, status := B.Resuming);
    case ResumeSpawn => assert Step(b, a).control == c.(resume := if Goes(c) then Spawned else Idle);
    case ResumeWrite => assert Step(b, a).control == c.(resume := Idle, status := B.Running);
    case ResumeAbort => assert Step(b, a).control == c.(resume := Idle);
  }

  lemma StopControls(b: Batch, a: Action)
    requires Enabled(b, a) && OfControl(a) && !OfResume(a)
    ensures ControlMoves(b, a, Step(b, a)) && RecordsMove(b, a, Step(b, a))
  {
  }

  lemma ResumeObeys(b: Batch, a: Action)
    requires Enabled(b, a)
    ensures ResumeMoves(b, a, Step(b, a))
  {
    if OfResume(a) {
      PendingIsMissing(b.work.inputs, b.work.outputs);
    } else if !a.Advance? {
      if OfControl(a) { StopControls(b, a); } else { ControlStays(b, a); }
    }
  }

  /** Every step of a batch moves its dispatchers, jobs, callbacks, results, status and records as said above,
      and changes nothing else. */
  lemma StepObeys(b: Batch, a: Action)
    requires Rows(b.work) && Enabled(b, a)
    ensures Obeys(b, a, Step(b, a))
  {
    DispatchersObey(b, a);
    JobsObey(b, a);
    HandedObeys(b, a);
    DeliveriesObey(b, a);
    ResultsObey(b, a);
    ControlObeys(b, a);
    ResumeObeys(b, a);
  }

  // ---- a stopped batch takes nothing more ----

  /** Stopped from here to the end of the run. */
  ghost predicate StaysStopped(b: Batch, run: seq<Action>)
    requires IsRun(b, run)
    decreases |run|
  {
    && b.control.status in {B.Paused, B.Cancelling, B.Cancelled, B.Done}
    && (run != [] ==> StaysStopped(Step(b, run[0]), run[1..]))
  }

  /** Dispatchers that read a status before the stop, callbacks past their first check but not stored, and
      callbacks past their second check but not counted. */
  function ClearedOnes(w: Work): set<nat> { set d | d in w.dispatchers && w.dispatchers[d].cleared }

  function Storing(w: Work): set<nat> { set k | k in w.deliveries && w.deliveries[k].stage == B.Accepted }

  function Counting(w: Work): set<nat> {
    set k | k in w.deliveries && (w.deliveries[k].stage == B.Entered || w.deliveries[k].stage == B.Loaded)
  }

  lemma StoppedDispatchers(b: Batch, a: Action)
    requires Rows(b.work) && Enabled(b, a) && !Goes(b.control)
    ensures var w, w' := b.work, Step(b, a).work;
            && (forall d :: d in ClearedOnes(w') ==> d in ClearedOnes(w) && w'.dispatchers[d] == w.dispatchers[d])
            && (a.Put? ==> a.d in ClearedOnes(w) && a.d !in ClearedOnes(w') && w.dispatchers[a.d].rest != [])
  {
    DispatchersObey(b, a);
  }

  lemma Fewer(a: set<nat>, b: set<nat>, gone: set<nat>)
    requires a <= b - gone && gone <= b
    ensures |a| + |gone| <= |b|
  {
    assert b == a + (b - gone - a) + gone;
  }

  /** A job keeps its input, and its id is not used again. */
  lemma {:induction false} JobKeepsInput(b: Batch, run: seq<Action>, j: nat)
    requires Rows(b.work) && ListedInputs(b) && IsRun(b, run) && j < b.work.nextJob && j in Last(b, run).work.jobs
    ensures j in b.work.jobs && Last(b, run).work.jobs[j].input == b.work.jobs[j].input
    decreases |run|
  {
    if run != [] {
      StepRows(b, run[0]);
      JobsObey(b, run[0]);
      HandedObeys(b, run[0]);
      JobKeepsInput(Step(b, run[0]), run[1..], j);
    }
  }

  /** The input was first in line at a cleared dispatcher. */
  predicate WasNext(w: Work, x: Rid) {
    exists d :: d in w.dispatchers && w.dispatchers[d].cleared && w.dispatchers[d].rest != []
      && w.dispatchers[d].rest[0] == x
  }

  /** While the batch stays stopped, only a dispatcher that was cleared before still publishes, each at most
      the one file it was about to send. */
  lemma {:induction false} NothingSentWhileStopped(b: Batch, run: seq<Action>)
    requires Rows(b.work) && ListedInputs(b) && IsRun(b, run) && StaysStopped(b, run)
    ensures var w' := Last(b, run).work;
            && b.work.nextJob <= w'.nextJob <= b.work.nextJob + |ClearedOnes(b.work)|
            && forall j :: j in w'.jobs && j >= b.work.nextJob ==> WasNext(b.work, w'.jobs[j].input)
    decreases |run|
  {
    if run != [] {
      var a, b' := run[0], Step(b, run[0]);
      StepRows(b, a);
      StoppedDispatchers(b, a);
      HandedObeys(b, a);
      Fewer(ClearedOnes(b'.work), ClearedOnes(b.work), if a.Put? then {a.d} else {});
      NothingSentWhileStopped(b', run[1..]);
      var w' := Last(b, run).work;
      forall j | j in w'.jobs && j >= b.work.nextJob ensures WasNext(b.work, w'.jobs[j].input) {
        if j >= b'.work.nextJob {
          StillNext(b.work, b'.work, w'.jobs[j].input);
        } else {
          JobKeepsInput(b', run[1..], j);
          JobsObey(b, a);
        }
      }
    }
  }

  lemma StillNext(w: Work, w': Work, x: Rid)
    requires (forall d :: d in ClearedOnes(w') ==> d in ClearedOnes(w) && w'.dispatchers[d] == w.dispatchers[d])
    requires WasNext(w', x)
    ensures WasNext(w, x)
  {
    var d :| d in w'.dispatchers && w'.dispatchers[d].cleared && w'.dispatchers[d].rest != []
             && w'.dispatchers[d].rest[0] == x;
    assert d in ClearedOnes(w');
  }

  // ---- nor does it accept or count anything more ----

  lemma StoppedDeliveries(b: Batch, a: Action)
    requires Rows(b.work) && Enabled(b, a) && !Goes(b.control)
    ensures var w, w' := b.work, Step(b, a).work;
            && (forall k :: k in Storing(w') + Counting(w') ==>
                  k in w.deliveries && w.deliveries[k].input == w'.deliveries[k].input)
            && Storing(w') == (if a.Advance? then Storing(w) - {a.k} else Storing(w))
            && Counting(w') == (if CountsOne(b, a) then Counting(w) - {a.k} else Counting(w))
  {
    DeliveriesObey(b, a);
    MovedStages(b, a, Step(b, a));
  }

  lemma MovedStages(b: Batch, a: Action, b': Batch)
    requires Enabled(b, a) && !Goes(b.control) && DeliveriesMove(b, a, b')
    ensures var w, w' := b.work, b'.work;
            && (forall k :: k in Storing(w') + Counting(w') ==>
                  k in w.deliveries && w.deliveries[k].input == w'.deliveries[k].input)
            && Storing(w') == (if a.Advance? then Storing(w) - {a.k} else Storing(w))
            && Counting(w') == (if CountsOne(b, a) then Counting(w) - {a.k} else Counting(w))
  {
    forall k: nat
      ensures k in Storing(b'.work) <==> k in Storing(b.work) && a != Advance(k)
      ensures k in Counting(b'.work) <==> k in Counting(b.work) && !(CountsOne(b, a) && a == Advance(k))
    {
      MovedStage(b, a, b', k);
    }
  }

  lemma MovedStage(b: Batch, a: Action, b': Batch, k: nat)
    requires Enabled(b, a) && !Goes(b.control) && DeliveriesMove(b, a, b')
    ensures k in Storing(b'.work) <==> k in Storing(b.work) && a != Advance(k)
    ensures k in Counting(b'.work) <==> k in Counting(b.work) && !(CountsOne(b, a) && a == Advance(k))
  {
    var was, now := b.work.deliveries, b'.work.deliveries;
    if k in was {
      if k in now && a == Advance(k) { assert StageMoved(b, was[k], now[k]); }
    } else if k in now {
      assert now[k].stage == B.Arrived;
    }
  }

  /** A callback of the input was past its first check, or past its second. */
  ghost predicate WasAccepted(w: Work, x: Rid) { exists k :: k in Storing(w) && w.deliveries[k].input == x }

  ghost predicate WasEntered(w: Work, x: Rid) { exists k :: k in Counting(w) && w.deliveries[k].input == x }

  lemma StoppedResults(b: Batch, a: Action)
    requires Rows(b.work) && Enabled(b, a) && !Goes(b.control)
    ensures var w, w' := b.work, Step(b, a).work;
            && (forall x :: x in w'.outputs ==> x in w.outputs || WasAccepted(w, x))
            && (forall x :: WasAccepted(w', x) ==> WasAccepted(w, x))
            && (forall x :: WasEntered(w', x) ==> WasEntered(w, x))
            && (w'.tallied == w.tallied
                  || (w'.tallied == w.tallied + [w'.tallied[|w.tallied|]] && WasEntered(w, w'.tallied[|w.tallied|])))
            && |w'.tallied| + |Counting(w')| <= |w.tallied| + |Counting(w)|
  {
    ResultsObey(b, a);
    StoppedDeliveries(b, a);
    if CountsOne(b, a) {
      assert a.k in Counting(b.work);
      Fewer(Counting(Step(b, a).work), Counting(b.work), {a.k});
    }
  }

  /** While the batch stays stopped, an output is stored only for a callback accepted before, and an input
      counted only for one that had passed its second check: at most as many as there were. */
  lemma {:induction false} NothingAcceptedWhileStopped(b: Batch, run: seq<Action>)
    requires Rows(b.work) && ListedInputs(b) && IsRun(b, run) && StaysStopped(b, run)
    ensures var w, w' := b.work, Last(b, run).work;
            && (forall x :: x in w'.outputs ==> x in w.outputs || WasAccepted(w, x))
            && |w.tallied| <= |w'.tallied| <= |w.tallied| + |Counting(w)| && w'.tallied[..|w.tallied|] == w.tallied
            && (forall i :: |w.tallied| <= i < |w'.tallied| ==> WasEntered(w, w'.tallied[i]))
    decreases |run|
  {
    if run != [] {
      StepRows(b, run[0]);
      StoppedResults(b, run[0]);
      NothingAcceptedWhileStopped(Step(b, run[0]), run[1..]);
      TalliedThrough(b.work, Step(b, run[0]).work, Last(b, run).work);
    }
  }

  lemma TalliedThrough(w: Work, w1: Work, w2: Work)
    requires w1.tallied == w.tallied
             || (|w1.tallied| == |w.tallied| + 1 && w1.tallied == w.tallied + [w1.tallied[|w.tallied|]]
                   && WasEntered(w, w1.tallied[|w.tallied|]))
    requires |w1.tallied| <= |w2.tallied| && w2.tallied[..|w1.tallied|] == w1.tallied
    requires forall x :: WasEntered(w1, x) ==> WasEntered(w, x)
    requires forall i :: |w1.tallied| <= i < |w2.tallied| ==> WasEntered(w1, w2.tallied[i])
    ensures |w.tallied| <= |w2.tallied| && w2.tallied[..|w.tallied|] == w.tallied
    ensures forall i :: |w.tallied| <= i < |w2.tallied| ==> WasEntered(w, w2.tallied[i])
  {
    assert w1.tallied[..|w.tallied|] == w.tallied;
    assert w2.tallied[..|w.tallied|] == w2.tallied[..|w1.tallied|][..|w.tallied|];
    assert |w1.tallied| > |w.tallied| ==> w2.tallied[|w.tallied|] == w2.tallied[..|w1.tallied|][|w.tallied|];
  }

  /** After a cancel, for as long as the batch stays cancelled, what was not under way adds nothing: an input
      none of whose callbacks was accepted gets no output, one with none past its second check is not counted
      again, and nothing is published but what a dispatcher was just about to send. */
  lemma CancelledTakesNothing(b: Batch, run: seq<Action>, x: Rid)
    requires Rows(b.work) && ListedInputs(b) && IsRun(b, [CancelBatch] + run)
    requires StaysStopped(Step(b, CancelBatch), run)
    ensures var w, w' := b.work, Last(b, [CancelBatch] + run).work;
            && (x in w'.outputs && x !in w.outputs ==> WasAccepted(w, x))
            && (forall i :: |w.tallied| <= i < |w'.tallied| && w'.tallied[i] == x ==> WasEntered(w, x))
            && (ClearedOnes(w) == {} ==> w'.nextJob == w.nextJob)
            && (Storing(w) == {} ==> w'.outputs <= w.outputs) && (Counting(w) == {} ==> w'.tallied == w.tallied)
  {
    var b' := Step(b, CancelBatch);
    assert ([CancelBatch] + run)[1..] == run;
    StepRows(b, CancelBatch);
    NothingSentWhileStopped(b', run);
    NothingAcceptedWhileStopped(b', run);
    assert b'.work.deliveries == b.work.deliveries && b'.work.dispatchers == b.work.dispatchers;
    assert Storing(b'.work) == Storing(b.work) && Counting(b'.work) == Counting(b.work);
  }

  // ---- a running batch goes on ----

  lemma LookClears(b: Batch, d: nat)
    requires Goes(b.control) && Enabled(b, Look(d))
    ensures Step(b, Look(d))
            == b.(work := b.work.(dispatchers := b.work.dispatchers[d := Dispatcher(b.work.dispatchers[d].rest, true)]))
  {
  }

  lemma PutSends(b: Batch, d: nat)
    requires Enabled(b, Put(d))
    ensures var w, rest := b.work, b.work.dispatchers[d].rest;
            Step(b, Put(d)).work.jobs == w.jobs[w.nextJob := Job(rest[0], Waiting, false, false)]
            && Step(b, Put(d)).work.dispatchers == w.dispatchers[d := Dispatcher(rest[1..], false)]
  {
  }

  /** While the batch goes on, a dispatcher that looks sends the next file ahead of it. */
  lemma DispatcherSends(b: Batch, d: nat)
    requires Goes(b.control) && Enabled(b, Look(d))
    ensures exists run :: IsRun(b, run)
              && var w, w' := b.work, Last(b, run).work;
                 w'.jobs == w.jobs[w.nextJob := Job(w.dispatchers[d].rest[0], Waiting, false, false)]
                 && w'.dispatchers == w.dispatchers[d := Dispatcher(w.dispatchers[d].rest[1..], false)]
  {
    LookClears(b, d);
    var run := OneMore(b, [], Look(d));
    PutSends(Last(b, run), d);
    run := OneMore(b, run, Put(d));
  }

  /** The batch with one more delivery at this stage. */
  function With(b: Batch, e: Delivery): Batch {
    b.(work := b.work.(deliveries := b.work.deliveries[b.work.nextDelivery := e],
                       nextDelivery := b.work.nextDelivery + 1))
  }

  lemma PassesCheck(b: Batch, e: Delivery)
    requires Goes(b.control)
    ensures var k := b.work.nextDelivery;
            && (e.stage.Arrived? ==> Step(With(b, e), Advance(k)) == With(b, e.(stage := B.Accepted)))
            && (e.stage.Stored? ==> Step(With(b, e), Advance(k)) == With(b, e.(stage := B.Entered)))
            && (e.stage.Entered? ==> Step(With(b, e), Advance(k)) == With(b, e.(stage := B.Loaded)))
  {
  }

  lemma StoresAndCounts(b: Batch, e: Delivery)
    ensures var k, w := b.work.nextDelivery, b.work;
            && (e.stage.Accepted? ==>
                  Step(With(b, e), Advance(k))
                  == With(b.(work := w.(outputs := w.outputs + {e.input})), e.(stage := B.Stored)))
            && (e.stage.Loaded? ==>
                  Step(With(b, e), Advance(k))
                  == With(b.(work := w.(tallied := w.tallied + [e.input])),
                          e.(stage := B.Counted(|w.tallied| + 1, b.control.status))))
  {
  }

  /** And a result that comes in is stored and counted. */
  lemma DeliveryIsCounted(b: Batch, j: nat)
    requires Goes(b.control) && j in b.work.handed
    ensures exists run :: IsRun(b, run)
              && var w, w' := b.work, Last(b, run).work;
                 w'.outputs == w.outputs + {w.handed[j]} && w'.tallied == w.tallied + [w.handed[j]]
                 && w'.jobs == w.jobs && w'.dispatchers == w.dispatchers && Last(b, run).control == b.control
  {
    var w, k, x := b.work, b.work.nextDelivery, b.work.handed[j];
    var run := OneMore(b, [], Deliver(j));
    PassesCheck(b, Delivery(j, x, B.Arrived));
    run := OneMore(b, run, Advance(k));
    StoresAndCounts(b, Delivery(j, x, B.Accepted));
    run := OneMore(b, run, Advance(k));
    var stored := b.(work := w.(outputs := w.outputs + {x}));
    PassesCheck(stored, Delivery(j, x, B.Stored));
    run := OneMore(b, run, Advance(k));
    PassesCheck(stored, Delivery(j, x, B.Entered));
    run := OneMore(b, run, Advance(k));
    StoresAndCounts(stored, Delivery(j, x, B.Loaded));
    run := OneMore(b, run, Advance(k));
  }

  lemma OneMore(b: Batch, run: seq<Action>, a: Action) returns (run': seq<Action>)
    requires IsRun(b, run) && Enabled(Last(b, run), a)
    ensures IsRun(b, run') && Last(b, run') == Step(Last(b, run), a)
  {
    Extend(b, run, a);
    run' := run + [a];
  }

  // ---- a blocked batch hands nothing out ----

  /** From a stop on, until the state row is removed by a resume or the sweeper, no job of the batch is handed
      out, whatever is published or put back in between. */
  lemma {:induction false} BlockedHandsNothing(b: Batch, run: seq<Action>)
    requires IsRun(b, run) && b.control.blocked && forall i :: 0 <= i < |run| ==>
             !run[i].ResumeQueue? && !run[i].SweepRow?
    ensures Last(b, run).control.blocked && Last(b, run).work.handed == b.work.handed
    decreases |run|
  {
    if run != [] {
      HandedObeys(b, run[0]);
      ControlObeys(b, run[0]);
      BlockedHandsNothing(Step(b, run[0]), run[1..]);
    }
  }

  // ---- one callback, counted and in its batch ----

  /** The record BatchCounting keeps of this batch. */
  function RecordOf(b: Batch, failed: nat): B.Record {
    B.Record(b.control.status, |b.work.tallied|, failed, |b.work.inputs|)
  }

  /** A callback takes the same step here as on its own: it goes on to the same stage, is turned away where it
      is dropped, and leaves the same count and status. After the patch the two notifications remain. */
  lemma AdvanceIsNext(b: Batch, k: nat, failed: nat)
    requires k in b.work.deliveries
    ensures var e, b' := b.work.deliveries[k], Step(b, Advance(k));
            var r := B.Next(e.stage, RecordOf(b, failed));
            && RecordOf(b', failed) == r.1
            && (k in b'.work.deliveries ==> b'.work.deliveries[k] == e.(stage := r.0))
            && (k !in b'.work.deliveries <==> r.0.Dropped? || r.0.Patched? || r.0.Finished?)
  {
    AdvancedParts(b.work, b.control.status, k);
    AdvancedDelivery(b, k);
  }
}
