/** One batch as everyone who touches it sees it: background dispatchers, consumers' claims and
    result callbacks, pause, budget stop and resume, interleaving at every `await`. */
module BatchProtocol {
  import opened Collections
  import opened BatchCounting

  type Rid = string

  datatype Phase = Waiting | Claimed | Over

  /** A job row of the batch. `settled`: a result callback of it was answered; `dropped`: one of its
      callbacks was turned away by the first stop check, before any output was stored. */
  datatype Job = Job(input: Rid, phase: Phase, settled: bool, dropped: bool)
  {
    predicate Active() { phase != Over }
  }

  /** `dispatchBatchFiles` in the background: the files ahead of it, and whether it has just read a
      status that lets it publish the first of them. */
  datatype Dispatcher = Dispatcher(rest: seq<Rid>, cleared: bool)

  datatype Delivery = Delivery(job: nat, input: Rid, stage: Callback)

  /** Where the one resume request is. */
  datatype Resume = Idle | Checked | Unblocked | Marked | Listed(pending: seq<Rid>) | Spawned

  /** Jobs, outputs, dispatchers and callbacks of a batch over `inputs`. */
  datatype Work = Work(
    inputs: seq<Rid>,
    jobs: map<nat, Job>, nextJob: nat,
    handed: map<nat, Rid>,                 // jobs handed out at some time, rows since removed included
    outputs: set<Rid>,                     // inputs with an output edge of this batch
    tallied: seq<Rid>,                     // inputs counted, in order; processed_files is its length
    excused: set<Rid>,                     // failed for good, cancelled one by one, flushed, or file gone
    dispatchers: map<nat, Dispatcher>, nextDispatcher: nat,
    deliveries: map<nat, Delivery>, nextDelivery: nat)

  /** The status on the SetProcess node, the queue's state row, and the requests under way. The last
      five fields record what has happened: they decide nothing. */
  datatype Control = Control(
    status: Status,
    blocked: bool,                         // a row in the queue's batch_state
    pausing: bool,                         // a pause has written the status, not yet the queue
    resume: Resume,
    stops: nat,                            // budget stops that have not yet written the status
    overlap: bool,                         // a budget stop was half done during the last resume
    drained: bool,                         // queued rows were removed since resume last listed the inputs
    cut: bool,                             // a stop wrote its status after that resume had spawned its dispatcher
    cancelled: bool,                       // the whole batch was cancelled or aborted
    early: bool)                           // `done` was written while an input had no output

  datatype Batch = Batch(work: Work, control: Control)

  datatype Action =
    | Claim(j: nat) | Deliver(j: nat) | Advance(k: nat) | Complete(j: nat)
    | FailRetry(j: nat) | FailForGood(j: nat) | CancelOne(j: nat) | FlushQueue
    | Skip(d: nat) | Look(d: nat) | Put(d: nat) | End(d: nat)
    | PauseWrite | PauseQueue | StopJob(j: nat) | StopWrite | CancelBatch | SweepRow
    | ResumeCheck | ResumeQueue | ResumeMark | ResumeList | ResumeSpawn | ResumeWrite | ResumeAbort

  predicate IsJob(w: Work, j: nat, phase: Phase) { j in w.jobs && w.jobs[j].phase == phase }

  predicate HasNext(w: Work, d: nat, cleared: bool) {
    d in w.dispatchers && w.dispatchers[d].rest != [] && w.dispatchers[d].cleared == cleared
  }

  /** When an action can happen. A consumer completes a job only after a result callback of it was
      answered, but its callbacks come whether or not the job's row is still there. Pause and resume
      requests are serialised: neither starts while the other is under way. Budget stops and cancels
      come at any time. */
  predicate Enabled(b: Batch, a: Action) {
    var w, c := b.work, b.control;
    match a
    case Claim(j) => IsJob(w, j, Waiting) && !c.blocked
    case Deliver(j) => j in w.handed
    case Advance(k) => k in w.deliveries
    case Complete(j) => IsJob(w, j, Claimed) && w.jobs[j].settled
    case FailRetry(j) => IsJob(w, j, Claimed)
    case FailForGood(j) => IsJob(w, j, Claimed)
    case CancelOne(j) => j in w.jobs && w.jobs[j].Active()
    case FlushQueue => true
    case Skip(d) => HasNext(w, d, false)
    case Look(d) => HasNext(w, d, false)
    case Put(d) => HasNext(w, d, true)
    case End(d) => d in w.dispatchers && w.dispatchers[d].rest == []
    case PauseWrite => !c.pausing && c.resume.Idle?
    case PauseQueue => c.pausing
    case StopJob(j) => j in w.handed
    case StopWrite => c.stops > 0
    case CancelBatch => true
    case SweepRow => c.blocked && forall j :: j in w.jobs ==> !w.jobs[j].Active()
    case ResumeCheck => c.resume.Idle? && !c.pausing && c.status == Paused
    case ResumeQueue => c.resume.Checked?
    case ResumeMark => c.resume.Unblocked?
    case ResumeList => c.resume.Marked?
    case ResumeSpawn => c.resume.Listed?
    case ResumeWrite => c.resume.Spawned?
    case ResumeAbort => c.resume.Checked? || c.resume.Marked? || c.resume.Listed?
  }

  function SetJob(w: Work, j: nat, job: Job): Work { w.(jobs := w.jobs[j := job]) }

  function EndJob(w: Work, j: nat): Work
    requires j in w.jobs
  {
    SetJob(w, j, w.jobs[j].(phase := Over))
  }

  function Excuse(w: Work, x: Rid): Work { w.(excused := w.excused + {x}) }

  /** `drainByProcess`: no queued job of the batch is left. */
  function Drained(w: Work): Work { w.(jobs := map j | j in w.jobs && w.jobs[j].phase != Waiting :: w.jobs[j]) }

  /** `flush`: every row is deleted. The inputs of the active ones are given up. */
  function Flushed(w: Work): Work {
    w.(jobs := map[], excused := w.excused + set j | j in w.jobs && w.jobs[j].Active() :: w.jobs[j].input)
  }

  /** The claimed job over the budget is cancelled, if its row is still there, and the batch paused. */
  function Stopping(w: Work, j: nat): Work { Drained(if j in w.jobs then EndJob(w, j) else w) }

  /** The state row `pauseBatch` and `cancelBatch` write. */
  function Held(c: Control): Control { c.(blocked := true, drained := true) }

  function Pending(inputs: seq<Rid>, done: set<Rid>): seq<Rid> {
    if inputs == [] then []
    else (if inputs[0] in done then [] else [inputs[0]]) + Pending(inputs[1..], done)
  }

  predicate AllStored(w: Work) { forall x :: x in w.inputs ==> x in w.outputs }

  function At(w: Work, k: nat, stage: Callback): Work
    requires k in w.deliveries
  {
    w.(deliveries := w.deliveries[k := w.deliveries[k].(stage := stage)])
  }

  /** The callback is answered: the consumer may complete its job. */
  function Answered(w: Work, k: nat, dropped: bool): Work
    requires k in w.deliveries
  {
    var j := w.deliveries[k].job;
    var w' := w.(deliveries := w.deliveries - {k});
    if j in w.jobs then SetJob(w', j, w.jobs[j].(settled := true, dropped := w.jobs[j].dropped || dropped)) else w'
  }

  /** This callback counted up to the total, so its patch marks the batch done. */
  predicate WritesDone(w: Work, stage: Callback) {
    stage.Counted? && |w.inputs| > 0 && stage.processed >= |w.inputs|
  }

  /** One step of a result callback (BatchCounting.Next has the counting part of it). */
  function Advanced(w: Work, status: Status, k: nat): Work
    requires k in w.deliveries
  {
    match w.deliveries[k].stage
    case Arrived => if Stopped(status) then Answered(w, k, true) else At(w, k, Accepted)
    case Accepted => At(w, k, Stored).(outputs := w.outputs + {w.deliveries[k].input})
    case Stored => if Stopped(status) then Answered(w, k, false) else At(w, k, Entered)
    case Entered => At(w, k, Loaded)
    case Loaded => At(w, k, Counted(|w.tallied| + 1, status)).(tallied := w.tallied + [w.deliveries[k].input])
    case _ => Answered(w, k, false)
  }

  /** The first file ahead of the dispatcher is dealt with. */
  function Passed(w: Work, d: nat): Work
    requires d in w.dispatchers && w.dispatchers[d].rest != []
  {
    w.(dispatchers := w.dispatchers[d := Dispatcher(w.dispatchers[d].rest[1..], false)])
  }

  function Published(w: Work, x: Rid): Work {
    w.(jobs := w.jobs[w.nextJob := Job(x, Waiting, false, false)], nextJob := w.nextJob + 1)
  }

  function Spawn(w: Work, files: seq<Rid>): Work {
    w.(dispatchers := w.dispatchers[w.nextDispatcher := Dispatcher(files, false)],
       nextDispatcher := w.nextDispatcher + 1)
  }

  function Step(b: Batch, a: Action): Batch
    requires Enabled(b, a)
  {
    var w, c := b.work, b.control;
    match a
    case Claim(j) =>
      Batch(SetJob(w, j, w.jobs[j].(phase := Claimed)).(handed := w.handed[j := w.jobs[j].input]), c)
    case Deliver(j) =>
      Batch(w.(deliveries := w.deliveries[w.nextDelivery := Delivery(j, w.handed[j], Arrived)],
               nextDelivery := w.nextDelivery + 1), c)
    case Advance(k) =>
      Batch(Advanced(w, c.status, k),
            if WritesDone(w, w.deliveries[k].stage) then c.(status := Done, early := c.early || !AllStored(w)) else c)
    case Complete(j) => Batch(EndJob(w, j), c)
    case FailRetry(j) => Batch(SetJob(w, j, w.jobs[j].(phase := Waiting)), c)
    case FailForGood(j) => Batch(Excuse(EndJob(w, j), w.jobs[j].input), c)
    case CancelOne(j) => Batch(Excuse(EndJob(w, j), w.jobs[j].input), c)
    case FlushQueue => Batch(Flushed(w), c)
    case Skip(d) => Batch(Excuse(Passed(w, d), w.dispatchers[d].rest[0]), c)
    case Look(d) =>
      if Stopped(c.status) then Batch(w.(dispatchers := w.dispatchers - {d}), c)
      else Batch(w.(dispatchers := w.dispatchers[d := w.dispatchers[d].(cleared := true)]), c)
    case Put(d) => Batch(Published(Passed(w, d), w.dispatchers[d].rest[0]), c)
    case End(d) => Batch(w.(dispatchers := w.dispatchers - {d}), c)
    case PauseWrite => Batch(w, c.(status := Paused, pausing := true))
    case PauseQueue => Batch(Drained(w), Held(c).(pausing := false))
    case StopJob(j) => Batch(Stopping(w, j), Held(c).(stops := c.stops + 1, overlap := c.overlap || !c.resume.Idle?))
    case StopWrite => Batch(w, c.(status := Paused, stops := c.stops - 1, cut := c.cut || c.resume.Spawned?))
    case CancelBatch => Batch(Drained(w), Held(c).(status := Cancelled, cancelled := true))
    case SweepRow => Batch(w, c.(blocked := false))
    case ResumeCheck => Batch(w, c.(resume := Checked, overlap := c.stops > 0))
    case ResumeQueue => Batch(w, c.(resume := Unblocked, blocked := false))
    case ResumeMark => Batch(w, c.(resume := Marked, status := Resuming))
    case ResumeList =>
      Batch(w, c.(resume := Listed(Pending(w.inputs, w.outputs)), drained := false, cut := false))
    case ResumeSpawn =>
      if c.status == Resuming || c.status == Running then Batch(Spawn(w, c.resume.pending), c.(resume := Spawned))
      else Batch(w, c.(resume := Idle))
    case ResumeWrite => Batch(w, c.(resume := Idle, status := Running))
    case ResumeAbort => Batch(w, c.(resume := Idle))
  }

  /** A batch that was just started: everything is ahead of its first dispatcher. */
  function Start(inputs: seq<Rid>): Batch {
    Batch(Work(inputs, map[], 0, map[], {}, [], {}, map[0 := Dispatcher(inputs, false)], 1, map[], 0),
          Control(Running, false, false, Idle, 0, false, false, false, false, false))
  }

  predicate IsRun(b: Batch, run: seq<Action>)
    decreases |run|
  {
    run == [] || (Enabled(b, run[0]) && IsRun(Step(b, run[0]), run[1..]))
  }

  function Last(b: Batch, run: seq<Action>): Batch
    requires IsRun(b, run)
    decreases |run|
  {
    if run == [] then b else Last(Step(b, run[0]), run[1..])
  }

  // ---- what covers an input ----

  /** An active job of the input, none of whose callbacks was turned away. */
  predicate Serves(job: Job, x: Rid) { job.input == x && job.Active() && !job.dropped }

  ghost predicate HasJob(w: Work, x: Rid) { exists j :: j in w.jobs && Serves(w.jobs[j], x) }

  ghost predicate IsAhead(w: Work, x: Rid) { exists d :: d in w.dispatchers && x in w.dispatchers[d].rest }

  ghost predicate Covered(w: Work, x: Rid) { x in w.outputs || x in w.excused || HasJob(w, x) || IsAhead(w, x) }

  ghost predicate AllCovered(w: Work) { forall x :: x in w.inputs ==> Covered(w, x) }

  ghost predicate CoveredOr(w: Work, files: seq<Rid>) { forall x :: x in w.inputs ==> Covered(w, x) || x in files }

  // ---- invariants ----

  ghost predicate Rows(w: Work) {
    && (forall j :: j in w.jobs ==> j < w.nextJob && GoodJob(w, w.jobs[j]))
    && (forall j :: j in w.handed ==> j < w.nextJob && w.handed[j] in w.inputs)
    && (forall j :: j in w.handed && j in w.jobs ==> w.jobs[j].input == w.handed[j])
    && (forall d :: d in w.dispatchers ==>
          d < w.nextDispatcher && (forall x :: x in w.dispatchers[d].rest ==> x in w.inputs))
    && (forall k :: k in w.deliveries ==> k < w.nextDelivery && GoodDelivery(w, w.deliveries[k]))
  }

  predicate GoodJob(w: Work, job: Job) {
    job.input in w.inputs && (job.settled && !job.dropped ==> job.input in w.outputs)
  }

  predicate GoodDelivery(w: Work, e: Delivery) {
    && (e.job in w.jobs ==> w.jobs[e.job].input == e.input)
    && e.job < w.nextJob && e.input in w.inputs
    && (!e.stage.Arrived? && !e.stage.Accepted? ==> e.input in w.outputs)
    && (e.stage.Counted? ==> e.stage.processed <= |w.tallied|)
  }

  /** While a pause or resume is under way the batch is not running, and `done` is true unless it was
      written early. */
  ghost predicate Controlled(b: Batch) {
    var c := b.control;
    && (!c.resume.Idle? ==> !c.pausing)
    && (!c.resume.Idle? || c.pausing ==> c.status != Running)
    && (!c.early && c.status == Done ==> AllStored(b.work))
  }

  /** Nothing has disturbed the batch since resume last listed its inputs. */
  predicate Free(c: Control) { !c.drained && !c.cut && !c.cancelled && !c.early }

  /** Resume's promise, stage by stage. */
  ghost predicate Promised(b: Batch) {
    var w, c := b.work, b.control;
    match c.resume
    case Idle => c.status == Running ==> AllCovered(w)
    case Checked => true
    case Unblocked => true
    case Marked => true
    case Listed(files) => c.status == Resuming ==> CoveredOr(w, files)
    case Spawned => AllStored(w) || (c.status == Resuming && AllCovered(w))
  }

  ghost predicate Inv(b: Batch) { Rows(b.work) && Controlled(b) && (Free(b.control) ==> Promised(b)) }

  // ---- every step keeps the rows consistent ----

  lemma SetJobRows(w: Work, j: nat, job: Job)
    requires Rows(w) && j in w.jobs && job.input == w.jobs[j].input && GoodJob(w, job)
    ensures Rows(SetJob(w, j, job))
  {
  }

  lemma DrainedRows(w: Work)
    requires Rows(w)
    ensures Rows(Drained(w))
  {
  }

  lemma StoppingRows(w: Work, j: nat)
    requires Rows(w)
    ensures Rows(Stopping(w, j))
  {
    if j in w.jobs {
      SetJobRows(w, j, w.jobs[j].(phase := Over));
      DrainedRows(EndJob(w, j));
    } else {
      DrainedRows(w);
    }
  }

  lemma HandedRows(w: Work, j: nat)
    requires Rows(w) && j in w.jobs
    ensures Rows(w.(handed := w.handed[j := w.jobs[j].input]))
  {
  }

  lemma AnsweredRows(w: Work, k: nat, dropped: bool)
    requires Rows(w) && k in w.deliveries && (dropped || w.deliveries[k].input in w.outputs)
    ensures Rows(Answered(w, k, dropped))
  {
    assert GoodDelivery(w, w.deliveries[k]);
    var j := w.deliveries[k].job;
    var w' := w.(deliveries := w.deliveries - {k});
    assert Rows(w');
    if j in w.jobs { SetJobRows(w', j, w.jobs[j].(settled := true, dropped := w.jobs[j].dropped || dropped)); }
  }

  lemma AtRows(w: Work, k: nat, stage: Callback)
    requires Rows(w) && k in w.deliveries && GoodDelivery(w, w.deliveries[k].(stage := stage))
    ensures Rows(At(w, k, stage))
  {
  }

  lemma MoreDoneRows(w: Work, x: Rid, counted: seq<Rid>)
    requires Rows(w)
    ensures Rows(w.(outputs := w.outputs + {x})) && Rows(w.(tallied := w.tallied + counted))
  {
  }

  lemma AdvancedRows(w: Work, status: Status, k: nat)
    requires Rows(w) && k in w.deliveries
    ensures Rows(Advanced(w, status, k))
  {
    var e := w.deliveries[k];
    assert GoodDelivery(w, e);
    match e.stage
    case Arrived => if Stopped(status) { AnsweredRows(w, k, true); } else { AtRows(w, k, Accepted); }
    case Accepted =>
      MoreDoneRows(w, e.input, []);
      AtRows(w.(outputs := w.outputs + {e.input}), k, Stored);
    case Stored => if Stopped(status) { AnsweredRows(w, k, false); } else { AtRows(w, k, Entered); }
    case Entered => AtRows(w, k, Loaded);
    case Loaded =>
      MoreDoneRows(w, e.input, [e.input]);
      AtRows(w.(tallied := w.tallied + [e.input]), k, Counted(|w.tallied| + 1, status));
    case _ => AnsweredRows(w, k, false);
  }

  lemma SpawnRows(w: Work, d: nat, files: seq<Rid>)
    requires Rows(w)
    ensures (forall x :: x in files ==> x in w.inputs) ==> Rows(Spawn(w, files))
    ensures Rows(w.(dispatchers := w.dispatchers - {d}))
  {
  }

  lemma PassedRows(w: Work, d: nat)
    requires Rows(w) && d in w.dispatchers && w.dispatchers[d].rest != []
    ensures Rows(Passed(w, d)) && w.dispatchers[d].rest[0] in w.inputs
  {
  }

  lemma PublishedRows(w: Work, x: Rid)
    requires Rows(w) && x in w.inputs
    ensures Rows(Published(w, x))
  {
  }

  lemma {:induction false} PendingIsMissing(inputs: seq<Rid>, done: set<Rid>)
    ensures forall x :: x in Pending(inputs, done) <==> x in inputs && x !in done
  {
    if inputs != [] {
      PendingIsMissing(inputs[1..], done);
      assert inputs == [inputs[0]] + inputs[1..];
    }
  }

  ghost predicate ListedInputs(b: Batch) {
    b.control.resume.Listed? ==> forall x :: x in b.control.resume.pending ==> x in b.work.inputs
  }

  predicate OfDispatch(a: Action) { a.Skip? || a.Look? || a.Put? || a.End? || a.ResumeList? || a.ResumeSpawn? }

  predicate OfJob(a: Action) {
    || a.Claim? || a.Complete? || a.FailRetry? || a.FailForGood? || a.CancelOne? || a.Deliver? || a.Advance?
    || a.FlushQueue?
  }

  lemma ClaimRows(w: Work, j: nat)
    requires Rows(w) && j in w.jobs
    ensures Rows(SetJob(w, j, w.jobs[j].(phase := Claimed)).(handed := w.handed[j := w.jobs[j].input]))
  {
    SetJobRows(w, j, w.jobs[j].(phase := Claimed));
    HandedRows(SetJob(w, j, w.jobs[j].(phase := Claimed)), j);
  }

  lemma EndRows(w: Work, j: nat)
    requires Rows(w) && j in w.jobs
    ensures Rows(EndJob(w, j)) && Rows(Excuse(EndJob(w, j), w.jobs[j].input))
  {
    SetJobRows(w, j, w.jobs[j].(phase := Over));
    ExcusedRows(EndJob(w, j), w.jobs[j].input);
  }

  lemma ExcusedRows(w: Work, x: Rid)
    requires Rows(w)
    ensures Rows(Excuse(w, x))
  {
  }

  lemma DeliverRows(w: Work, j: nat)
    requires Rows(w) && j in w.handed
    ensures Rows(w.(deliveries := w.deliveries[w.nextDelivery := Delivery(j, w.handed[j], Arrived)],
                    nextDelivery := w.nextDelivery + 1))
  {
  }

  lemma FlushedRows(w: Work)
    requires Rows(w)
    ensures Rows(Flushed(w))
  {
  }

  lemma JobStepRows(b: Batch, a: Action)
    requires Rows(b.work) && Enabled(b, a) && OfJob(a)
    ensures Rows(Step(b, a).work)
  {
    var w := b.work;
    match a
    case Claim(j) => ClaimRows(w, j);
    case Deliver(j) => DeliverRows(w, j);
    case FlushQueue => FlushedRows(w);
    case Advance(k) => AdvancedRows(w, b.control.status, k);
    case FailRetry(j) => SetJobRows(w, j, w.jobs[j].(phase := Waiting));
    case Complete(j) => EndRows(w, j);
    case FailForGood(j) => EndRows(w, j);
    case CancelOne(j) => EndRows(w, j);
  }

  lemma SendStepRows(b: Batch, a: Action)
    requires Rows(b.work) && Enabled(b, a) && (a.Skip? || a.Put?)
    ensures Rows(Step(b, a).work)
  {
    var w := b.work;
    PassedRows(w, a.d);
    if a.Put? { PublishedRows(Passed(w, a.d), w.dispatchers[a.d].rest[0]); }
  }

  lemma LookRows(w: Work, d: nat)
    requires Rows(w) && d in w.dispatchers
    ensures Rows(w.(dispatchers := w.dispatchers[d := w.dispatchers[d].(cleared := true)]))
  {
  }

  lemma DispatchStepRows(b: Batch, a: Action)
    requires Rows(b.work) && ListedInputs(b) && Enabled(b, a) && OfDispatch(a)
    ensures Rows(Step(b, a).work) && ListedInputs(Step(b, a))
  {
    var w := b.work;
    if a.Skip? || a.Put? {
      SendStepRows(b, a);
    } else if a.Look? || a.End? {
      SpawnRows(w, a.d, []);
      LookRows(w, a.d);
    } else if a.ResumeList? {
      PendingIsMissing(w.inputs, w.outputs);
    } else {
      SpawnRows(w, 0, b.control.resume.pending);
    }
  }

  lemma ControlStepRows(b: Batch, a: Action)
    requires Rows(b.work) && Enabled(b, a) && !OfJob(a) && !OfDispatch(a)
    ensures Rows(Step(b, a).work)
  {
    DrainedRows(b.work);
    if a.StopJob? { StoppingRows(b.work, a.j); }
  }

  lemma AdvancedInputs(w: Work, status: Status, k: nat)
    requires k in w.deliveries
    ensures Advanced(w, status, k).inputs == w.inputs
  {
  }

  lemma StepRows(b: Batch, a: Action)
    requires Rows(b.work) && ListedInputs(b) && Enabled(b, a)
    ensures Rows(Step(b, a).work) && ListedInputs(Step(b, a)) && Step(b, a).work.inputs == b.work.inputs
  {
    if OfJob(a) { JobStepRows(b, a); } else if OfDispatch(a) { DispatchStepRows(b, a); } else { ControlStepRows(b, a); }
    if a.Advance? { AdvancedInputs(b.work, b.control.status, a.k); }
  }

  // ---- every step keeps the promise ----

  lemma AdvancedStores(w: Work, status: Status, k: nat)
    requires k in w.deliveries
    ensures w.outputs <= Advanced(w, status, k).outputs && Advanced(w, status, k).inputs == w.inputs
    ensures Advanced(w, status, k).excused == w.excused && Advanced(w, status, k).dispatchers == w.dispatchers
  {
    AnsweredSame(w, k, true);
    AnsweredSame(w, k, false);
  }

  /** Answering a callback touches its job's flags only. */
  lemma AnsweredSame(w: Work, k: nat, dropped: bool)
    requires k in w.deliveries
    ensures var w' := Answered(w, k, dropped);
            && w'.outputs == w.outputs && w'.inputs == w.inputs && w'.excused == w.excused
            && w'.dispatchers == w.dispatchers && w'.tallied == w.tallied
  {
  }

  lemma StepControlled(b: Batch, a: Action)
    requires Rows(b.work) && Controlled(b) && Enabled(b, a)
    ensures Controlled(Step(b, a))
  {
    if OfJob(a) { JobStepControlled(b, a); } else { StoresStay(b, a); }
  }

  lemma JobStepControlled(b: Batch, a: Action)
    requires Controlled(b) && Enabled(b, a) && OfJob(a)
    ensures Controlled(Step(b, a))
  {
    if a.Advance? { AdvancedStores(b.work, b.control.status, a.k); }
  }

  lemma StoresStay(b: Batch, a: Action)
    requires Enabled(b, a) && !OfJob(a)
    ensures Step(b, a).work.outputs == b.work.outputs && Step(b, a).work.inputs == b.work.inputs
    ensures Step(b, a).work.tallied == b.work.tallied && Step(b, a).control.early == b.control.early
  {
  }

  /** Nothing that covers an input goes away without another cover. */
  ghost predicate Keeps(w: Work, w': Work) {
    && w.outputs <= w'.outputs && w.excused <= w'.excused && w'.inputs == w.inputs
    && (forall j :: j in w.jobs && Serves(w.jobs[j], w.jobs[j].input) ==> Covered(w', w.jobs[j].input))
    && (forall d, x :: d in w.dispatchers && x in w.dispatchers[d].rest ==> Covered(w', x))
  }

  lemma KeepsCovered(w: Work, w': Work, x: Rid)
    requires Keeps(w, w') && Covered(w, x)
    ensures Covered(w', x)
  {
    if HasJob(w, x) {
      var j :| j in w.jobs && Serves(w.jobs[j], x);
    } else if IsAhead(w, x) {
      var d :| d in w.dispatchers && x in w.dispatchers[d].rest;
    }
  }

  lemma SetJobKeeps(w: Work, j: nat, job: Job)
    requires j in w.jobs && job.input == w.jobs[j].input
    requires Serves(w.jobs[j], job.input) ==> Serves(job, job.input) || job.input in w.outputs
    ensures Keeps(w, SetJob(w, j, job))
  {
    var w' := SetJob(w, j, job);
    forall i | i in w.jobs && Serves(w.jobs[i], w.jobs[i].input) ensures Covered(w', w.jobs[i].input) {
      if i != j || Serves(job, job.input) { assert i in w'.jobs && Serves(w'.jobs[i], w.jobs[i].input); }
    }
    SameRestKeeps(w, w');
  }

  lemma SameRestKeeps(w: Work, w': Work)
    requires forall d :: d in w.dispatchers ==> d in w'.dispatchers && w'.dispatchers[d].rest == w.dispatchers[d].rest
    ensures forall d, x :: d in w.dispatchers && x in w.dispatchers[d].rest ==> Covered(w', x)
  {
    forall d, x | d in w.dispatchers && x in w.dispatchers[d].rest ensures Covered(w', x) {
      assert d in w'.dispatchers && x in w'.dispatchers[d].rest;
    }
  }

  lemma SameJobsKeep(w: Work, w': Work)
    requires forall j :: j in w.jobs ==> j in w'.jobs && w'.jobs[j] == w.jobs[j]
    ensures forall j :: j in w.jobs && Serves(w.jobs[j], w.jobs[j].input) ==> Covered(w', w.jobs[j].input)
  {
    forall j | j in w.jobs && Serves(w.jobs[j], w.jobs[j].input) ensures Covered(w', w.jobs[j].input) {
      assert j in w'.jobs && Serves(w'.jobs[j], w.jobs[j].input);
    }
  }

  /** A callback of a batch that is not stopped is never turned away, so its job goes on serving. */
  lemma AdvancedKeeps(w: Work, status: Status, k: nat)
    requires Rows(w) && k in w.deliveries && !(w.deliveries[k].stage.Arrived? && Stopped(status))
    ensures Keeps(w, Advanced(w, status, k))
  {
    var w' := Advanced(w, status, k);
    AdvancedStores(w, status, k);
    SameRestKeeps(w, w');
    forall j | j in w.jobs && Serves(w.jobs[j], w.jobs[j].input) ensures Covered(w', w.jobs[j].input) {
      assert j in w'.jobs && Serves(w'.jobs[j], w.jobs[j].input);
    }
  }

  /** The first file ahead of a dispatcher moves on to a job, or is excused. */
  lemma PassedKeeps(w: Work, w': Work, d: nat)
    requires Rows(w) && d in w.dispatchers && w.dispatchers[d].rest != [] && w.outputs <= w'.outputs
             && w.excused <= w'.excused
    requires w'.inputs == w.inputs && w'.dispatchers == Passed(w, d).dispatchers
    requires forall j :: j in w.jobs ==> j in w'.jobs && w'.jobs[j] == w.jobs[j]
    requires Covered(w', w.dispatchers[d].rest[0])
    ensures Keeps(w, w')
  {
    SameJobsKeep(w, w');
    forall e, x | e in w.dispatchers && x in w.dispatchers[e].rest ensures Covered(w', x) {
      if x != w.dispatchers[d].rest[0] {
        assert e in w'.dispatchers && x in w'.dispatchers[e].rest;
      }
    }
  }

  predicate Loses(b: Batch, a: Action) {
    || a.PauseQueue? || a.StopJob? || a.CancelBatch?
    || (Stopped(b.control.status)
        && (a.Look? || (a.Advance? && a.k in b.work.deliveries && b.work.deliveries[a.k].stage.Arrived?)))
  }

  lemma JobStepKeeps(b: Batch, a: Action)
    requires Rows(b.work) && Enabled(b, a) && !Loses(b, a) && OfJob(a)
    ensures Keeps(b.work, Step(b, a).work)
  {
    var w := b.work;
    match a
    case Claim(j) => ClaimKeeps(w, j);
    case Deliver(j) =>
      SameJobsKeep(w, Step(b, a).work);
      SameRestKeeps(w, Step(b, a).work);
    case Advance(k) => AdvancedKeeps(w, b.control.status, k);
    case Complete(j) =>
      assert GoodJob(w, w.jobs[j]);
      SetJobKeeps(w, j, w.jobs[j].(phase := Over));
    case FailRetry(j) => SetJobKeeps(w, j, w.jobs[j].(phase := Waiting));
    case FailForGood(j) => ExcusedKeeps(w, j);
    case CancelOne(j) => ExcusedKeeps(w, j);
    case FlushQueue => SameRestKeeps(w, Flushed(w));
  }

  lemma ClaimKeeps(w: Work, j: nat)
    requires j in w.jobs
    ensures Keeps(w, SetJob(w, j, w.jobs[j].(phase := Claimed)).(handed := w.handed[j := w.jobs[j].input]))
  {
    var w' := SetJob(w, j, w.jobs[j].(phase := Claimed)).(handed := w.handed[j := w.jobs[j].input]);
    forall i | i in w.jobs && Serves(w.jobs[i], w.jobs[i].input) ensures Covered(w', w.jobs[i].input) {
      if i != j || Serves(w'.jobs[j], w.jobs[j].input) { assert i in w'.jobs && Serves(w'.jobs[i], w.jobs[i].input); }
    }
    SameRestKeeps(w, w');
  }

  lemma ExcusedKeeps(w: Work, j: nat)
    requires j in w.jobs
    ensures Keeps(w, Excuse(EndJob(w, j), w.jobs[j].input))
  {
    var w' := Excuse(EndJob(w, j), w.jobs[j].input);
    forall i | i in w.jobs && Serves(w.jobs[i], w.jobs[i].input) ensures Covered(w', w.jobs[i].input) {
      if i != j { assert i in w'.jobs && Serves(w'.jobs[i], w.jobs[i].input); }
    }
    SameRestKeeps(w, w');
  }

  lemma DispatchStepKeeps(b: Batch, a: Action)
    requires Rows(b.work) && Enabled(b, a) && !Loses(b, a) && OfDispatch(a)
    ensures Keeps(b.work, Step(b, a).work)
  {
    var w, w' := b.work, Step(b, a).work;
    match a
    case Skip(d) => PassedKeeps(w, w', d);
    case Put(d) =>
      assert w.nextJob in w'.jobs && Serves(w'.jobs[w.nextJob], w.dispatchers[d].rest[0]);
      PassedKeeps(w, w', d);
    case Look(d) =>
      SameJobsKeep(w, w');
      SameRestKeeps(w, w');
    case End(d) =>
      SameJobsKeep(w, w');
      forall e, x | e in w.dispatchers && x in w.dispatchers[e].rest ensures Covered(w', x) {
        assert e in w'.dispatchers && x in w'.dispatchers[e].rest;
      }
    case ResumeList =>
      SameJobsKeep(w, w');
      SameRestKeeps(w, w');
    case ResumeSpawn =>
      SameJobsKeep(w, w');
      SameRestKeeps(w, w');
  }

  lemma StepKeeps(b: Batch, a: Action)
    requires Rows(b.work) && Enabled(b, a) && !Loses(b, a)
    ensures Keeps(b.work, Step(b, a).work)
  {
    if OfJob(a) { JobStepKeeps(b, a); }
    else if OfDispatch(a) { DispatchStepKeeps(b, a); }
    else {
      SameJobsKeep(b.work, b.work);
      SameRestKeeps(b.work, b.work);
    }
  }

  lemma AllKept(b: Batch, a: Action)
    requires Rows(b.work) && Enabled(b, a) && !Loses(b, a)
    ensures AllCovered(b.work) ==> AllCovered(Step(b, a).work)
    ensures forall files :: CoveredOr(b.work, files) ==> CoveredOr(Step(b, a).work, files)
    ensures AllStored(b.work) ==> AllStored(Step(b, a).work)
  {
    StepKeeps(b, a);
    var w, w' := b.work, Step(b, a).work;
    forall x | x in w.inputs && Covered(w, x) ensures Covered(w', x) { KeepsCovered(w, w', x); }
  }

  /** While nothing has stopped the batch since its last resume, no step breaks resume's promise. */
  lemma QuietStepPromise(b: Batch, a: Action)
    requires Inv(b) && Enabled(b, a) && Free(b.control) && Free(Step(b, a).control) && !Loses(b, a) && !a.ResumeList?
    ensures Promised(Step(b, a))
  {
    AllKept(b, a);
    match a
    case Advance(k) =>
    case ResumeSpawn =>
      if Step(b, a).control.resume.Spawned? && !AllStored(b.work) { SpawnedCovers(b.work, b.control.resume.pending); }
    case _ =>
  }

  lemma SpawnedCovers(w: Work, files: seq<Rid>)
    requires Rows(w) && CoveredOr(w, files)
    ensures AllCovered(Spawn(w, files))
  {
    var w' := Spawn(w, files);
    forall x | x in w.inputs ensures Covered(w', x) {
      if x in files {
        assert w.nextDispatcher in w'.dispatchers && x in w'.dispatchers[w.nextDispatcher].rest;
      } else if HasJob(w, x) {
        var j :| j in w.jobs && Serves(w.jobs[j], x);
        assert j in w'.jobs && Serves(w'.jobs[j], x);
      } else if IsAhead(w, x) {
        var d :| d in w.dispatchers && x in w.dispatchers[d].rest;
        assert d in w'.dispatchers && x in w'.dispatchers[d].rest;
      }
    }
  }

  /** A dispatcher that stops, or a callback turned away, means a stopped status: then either the
      batch is not running, or every output is there already. */
  lemma LosingStepPromise(b: Batch, a: Action)
    requires Inv(b) && Enabled(b, a) && Free(b.control) && Free(Step(b, a).control) && Loses(b, a)
    ensures Promised(Step(b, a))
  {
    if a.Advance? { AdvancedStores(b.work, b.control.status, a.k); }
  }

  lemma StepKeepsInv(b: Batch, a: Action)
    requires Inv(b) && ListedInputs(b) && Enabled(b, a)
    ensures Inv(Step(b, a)) && ListedInputs(Step(b, a)) && Step(b, a).work.inputs == b.work.inputs
  {
    StepRows(b, a);
    StepControlled(b, a);
    if Free(Step(b, a).control) {
      if a.ResumeList? {
        PendingIsMissing(b.work.inputs, b.work.outputs);
      } else {
        FreeBefore(b, a);
        if Loses(b, a) { LosingStepPromise(b, a); } else { QuietStepPromise(b, a); }
      }
    }
  }

  lemma FreeBefore(b: Batch, a: Action)
    requires Enabled(b, a) && !a.ResumeList? && Free(Step(b, a).control)
    ensures Free(b.control)
  {
  }

  lemma StartInv(inputs: seq<Rid>)
    ensures Inv(Start(inputs)) && ListedInputs(Start(inputs))
  {
    var w := Start(inputs).work;
    forall x | x in inputs ensures Covered(w, x) { assert 0 in w.dispatchers && x in w.dispatchers[0].rest; }
  }

  lemma {:induction false} RunKeepsInv(b: Batch, run: seq<Action>)
    requires Inv(b) && ListedInputs(b) && IsRun(b, run)
    ensures Inv(Last(b, run)) && Last(b, run).work.inputs == b.work.inputs
    decreases |run|
  {
    if run != [] {
      StepKeepsInv(b, run[0]);
      RunKeepsInv(Step(b, run[0]), run[1..]);
    }
  }

  // ---- counting an input once ----

  ghost predicate Tallies(w: Work, early: bool) {
    && (forall i :: 0 <= i < |w.tallied| ==> w.tallied[i] in w.inputs && w.tallied[i] in w.outputs)
    && (early ==> !Distinct(w.tallied) && |w.tallied| >= |w.inputs|)
  }

  /** If as many inputs were counted as there are, and none twice, then all of them were. */
  lemma CountedOnceMeansAll(inputs: seq<Rid>, tallied: seq<Rid>)
    requires Distinct(tallied) && |tallied| >= |inputs| && (forall i :: 0 <= i < |tallied| ==> tallied[i] in inputs)
    ensures forall x :: x in inputs ==> x in tallied
  {
    DistinctLength(tallied);
    ElementsBound(inputs);
    var missing := Elements(inputs) - Elements(tallied);
    assert Elements(inputs) == Elements(tallied) + missing;
    assert missing == {};
    forall x | x in inputs ensures x in tallied { assert x in Elements(inputs); }
  }

  lemma {:induction false} ElementsBound<T>(s: seq<T>)
    ensures |Elements(s)| <= |s|
  {
    if s != [] {
      ElementsBound(s[1..]);
      assert Elements(s) == Elements(s[1..]) + {s[0]};
    }
  }

  /** A full count covers every input exactly when no input was counted twice. */
  lemma FullCountIffOnce(inputs: seq<Rid>, tallied: seq<Rid>)
    requires Distinct(inputs) && |tallied| == |inputs| && (forall i :: 0 <= i < |tallied| ==> tallied[i] in inputs)
    ensures Distinct(tallied) <==> forall x :: x in inputs ==> x in tallied
  {
    if Distinct(tallied) {
      CountedOnceMeansAll(inputs, tallied);
    } else {
      TwiceIsFewer(tallied);
      DistinctLength(inputs);
      var missing := Elements(inputs) - Elements(tallied);
      var rest := Elements(tallied) - Elements(inputs);
      assert Elements(inputs) + rest == Elements(tallied) + missing;
      var x :| x in missing;
      assert x in inputs && x !in tallied;
    }
  }

  lemma TwiceIsFewer<T>(s: seq<T>)
    requires !Distinct(s)
    ensures |Elements(s)| < |s|
  {
    var i, j :| 0 <= i < j < |s| && s[i] == s[j];
    var rest := s[..j] + s[j + 1..];
    ElementsBound(rest);
    forall x | x in s ensures x in rest {
      var k :| 0 <= k < |s| && s[k] == x;
      assert rest[if k == j then i else if k < j then k else k - 1] == x;
    }
    assert Elements(s) == Elements(rest);
  }

  lemma LongerRepeats(tallied: seq<Rid>, x: Rid)
    requires !Distinct(tallied)
    ensures !Distinct(tallied + [x])
  {
    var i, j :| 0 <= i < j < |tallied| && tallied[i] == tallied[j];
    assert (tallied + [x])[i] == (tallied + [x])[j];
  }

  lemma AdvanceTallies(w: Work, status: Status, k: nat, early: bool)
    requires Rows(w) && k in w.deliveries && Tallies(w, early)
    ensures Tallies(Advanced(w, status, k), early || (WritesDone(w, w.deliveries[k].stage) && !AllStored(w)))
  {
    var e := w.deliveries[k];
    AdvancedStores(w, status, k);
    assert GoodDelivery(w, e);
    if e.stage.Loaded? {
      if !Distinct(w.tallied) { LongerRepeats(w.tallied, e.input); }
    } else if WritesDone(w, e.stage) && Distinct(w.tallied) {
      CountedOnceMeansAll(w.inputs, w.tallied);
    }
  }

  lemma StepTallies(b: Batch, a: Action)
    requires Inv(b) && Enabled(b, a) && Tallies(b.work, b.control.early)
    ensures Tallies(Step(b, a).work, Step(b, a).control.early)
  {
    if a.Advance? {
      AdvanceTallies(b.work, b.control.status, a.k, b.control.early);
    } else if OfJob(a) {
      JobStepCounts(b, a);
    } else {
      StoresStay(b, a);
    }
  }

  lemma JobStepCounts(b: Batch, a: Action)
    requires Enabled(b, a) && OfJob(a) && !a.Advance?
    ensures Step(b, a).work.tallied == b.work.tallied && Step(b, a).control == b.control
    ensures Step(b, a).work.outputs == b.work.outputs && Step(b, a).work.inputs == b.work.inputs
  {
  }

  lemma {:induction false} RunTallies(b: Batch, run: seq<Action>)
    requires Inv(b) && ListedInputs(b) && IsRun(b, run) && Tallies(b.work, b.control.early)
    ensures Tallies(Last(b, run).work, Last(b, run).control.early)
    decreases |run|
  {
    if run != [] {
      StepKeepsInv(b, run[0]);
      StepTallies(b, run[0]);
      RunTallies(Step(b, run[0]), run[1..]);
    }
  }

  // ---- stops and resume ----

  /** Without a budget stop half done during the last resume: what disturbed the batch since the listing
      shows in its status, or is a stop half done right now. */
  ghost predicate Apart(c: Control) {
    !c.overlap ==>
      && (!c.resume.Idle? ==> c.stops == 0)
      && (c.drained || c.cut ==>
            (c.status != Running || c.stops > 0 || c.cancelled)
            && (c.cancelled || (!c.resume.Listed? && !c.resume.Spawned?)))
  }

  lemma StepKeepsApart(b: Batch, a: Action)
    requires Controlled(b) && Apart(b.control) && Enabled(b, a)
    ensures Apart(Step(b, a).control)
  {
    if OfJob(a) || OfDispatch(a) { WorkStepApart(b, a); }
  }

  lemma WorkStepApart(b: Batch, a: Action)
    requires Apart(b.control) && Enabled(b, a) && (OfJob(a) || OfDispatch(a))
    ensures Apart(Step(b, a).control)
  {
  }

  /** A budget stop under way shows in the queue's state row until the sweeper or an overlapping resume
      removes it. */
  predicate RowKnows(c: Control) { !c.overlap && c.stops > 0 ==> c.blocked }

  predicate NoSweep(run: seq<Action>) { forall i :: 0 <= i < |run| ==> !run[i].SweepRow? }

  lemma StepKeepsRow(b: Batch, a: Action)
    requires Apart(b.control) && RowKnows(b.control) && Enabled(b, a) && !a.SweepRow?
    ensures RowKnows(Step(b, a).control)
  {
  }

  lemma {:induction false} RunKeepsApart(b: Batch, run: seq<Action>)
    requires Inv(b) && ListedInputs(b) && Apart(b.control) && RowKnows(b.control) && IsRun(b, run)
    ensures Apart(Last(b, run).control) && (NoSweep(run) ==> RowKnows(Last(b, run).control))
    decreases |run|
  {
    if run != [] {
      StepKeepsInv(b, run[0]);
      StepKeepsApart(b, run[0]);
      if !run[0].SweepRow? {
        StepKeepsRow(b, run[0]);
        RunKeepsApart(Step(b, run[0]), run[1..]);
      } else {
        RunKeepsApartSwept(Step(b, run[0]), run[1..]);
      }
    }
  }

  lemma {:induction false} RunKeepsApartSwept(b: Batch, run: seq<Action>)
    requires Inv(b) && ListedInputs(b) && Apart(b.control) && IsRun(b, run)
    ensures Apart(Last(b, run).control)
    decreases |run|
  {
    if run != [] {
      StepKeepsInv(b, run[0]);
      StepKeepsApart(b, run[0]);
      RunKeepsApartSwept(Step(b, run[0]), run[1..]);
    }
  }

  // ---- main results ----

  /** What a caller can read at the end of a run: the batch is running and not cancelled; no budget stop is
      half done, which the absence of a row in batch_state shows unless the sweeper removed one; none was
      half done at any time of the last resume; and the count is below the total, or no input was counted
      twice. */
  ghost predicate Undisturbed(b: Batch, run: seq<Action>) {
    var w, c := b.work, b.control;
    && c.status == Running && !c.cancelled && !c.overlap
    && (c.stops == 0 || (NoSweep(run) && !c.blocked))
    && CountTrusted(w)
  }

  /** `processed_files < total_files`, or no input counted twice. */
  ghost predicate CountTrusted(w: Work) { |w.tallied| < |w.inputs| || Distinct(w.tallied) }

  /** Nothing is lost. In every interleaving of dispatchers, claims, callbacks (late ones too), completions,
      failures, flushes, pauses, budget stops, sweeps and resumes that ends undisturbed, every input has an
      output of this batch, or an active job, or is still ahead of a live dispatcher, or is excused (its job
      failed for good, was cancelled one by one or flushed, or its file is gone). */
  lemma NoInputLost(inputs: seq<Rid>, run: seq<Action>, x: Rid)
    requires IsRun(Start(inputs), run) && x in inputs
    requires Undisturbed(Last(Start(inputs), run), run)
    ensures var w := Last(Start(inputs), run).work; x in w.outputs || x in w.excused || HasJob(w, x) || IsAhead(w, x)
  {
    StartInv(inputs);
    RunKeepsApart(Start(inputs), run);
    var b := Last(Start(inputs), run);
    LossHasACause(inputs, run, x);
  }

  /** The same with nothing assumed about stops: an input of a running batch is lost only when, since resume
      last listed the inputs, queued rows were removed or a stop wrote its status after the dispatcher was
      spawned, or the batch was cancelled, or the count is full with an input counted twice. */
  lemma LossHasACause(inputs: seq<Rid>, run: seq<Action>, x: Rid)
    requires IsRun(Start(inputs), run) && x in inputs
    ensures var b := Last(Start(inputs), run);
            b.control.status == Running && !Covered(b.work, x) ==>
              b.control.drained || b.control.cut || b.control.cancelled || !CountTrusted(b.work)
  {
    StartInv(inputs);
    RunKeepsInv(Start(inputs), run);
    RunTallies(Start(inputs), run);
    var b := Last(Start(inputs), run);
    if b.control.status == Running && Free(b.control) { assert b.control.resume.Idle?; }
  }

  /** Done means done: as long as no input is counted twice, a batch is marked done only when every
      input has an output. */
  lemma DoneMeansAllStored(inputs: seq<Rid>, run: seq<Action>)
    requires IsRun(Start(inputs), run) && Distinct(Last(Start(inputs), run).work.tallied)
    requires Last(Start(inputs), run).control.status == Done
    ensures forall x :: x in inputs ==> x in Last(Start(inputs), run).work.outputs
  {
    StartInv(inputs);
    RunKeepsInv(Start(inputs), run);
    RunTallies(Start(inputs), run);
  }

  // ---- longer runs ----

  lemma {:induction false} Extend(b: Batch, run: seq<Action>, a: Action)
    requires IsRun(b, run) && Enabled(Last(b, run), a)
    ensures IsRun(b, run + [a]) && Last(b, run + [a]) == Step(Last(b, run), a)
    decreases |run|
  {
    if run == [] {
      assert run + [a] == [a] && [a][1..] == [];
    } else {
      assert (run + [a])[0] == run[0] && (run + [a])[1..] == run[1..] + [a];
      Extend(Step(b, run[0]), run[1..], a);
    }
  }

  lemma {:induction false} ExtendAll(b: Batch, run: seq<Action>, more: seq<Action>)
    requires IsRun(b, run) && IsRun(Last(b, run), more)
    ensures IsRun(b, run + more) && Last(b, run + more) == Last(Last(b, run), more)
    decreases |more|
  {
    if more == [] {
      assert run + more == run;
    } else {
      Extend(b, run, more[0]);
      ExtendAll(b, run + [more[0]], more[1..]);
      assert run + more == run + [more[0]] + more[1..];
    }
  }
}
