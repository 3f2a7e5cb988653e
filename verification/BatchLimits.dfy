/** What NoInputLost asks for, and a run that loses an input for each part of it that is dropped: an input
    counted twice, a budget stop inside a resume, one that ends inside a resume, one half done. And a run
    that loses no input but a count, so the batch is never done. */
module BatchLimits {
  import opened Collections
  import B = BatchCounting
  import opened BatchProtocol

  const AB := ["a", "b"]

  function ControlOf(status: B.Status, blocked: bool, resume: Resume, drained: bool, early: bool): Control {
    Control.Control(status, blocked, false, resume, 0, false, drained, false, false, early)
  }

  const QUIET := ControlOf(B.Running, false, Idle, false, false)
  const CLAIMED := Job("a", Claimed, false, false)

  /** The job of "a" is claimed; nothing is delivered yet. */
  const HANDED := Batch(
    Work(AB, map[0 := CLAIMED], 1, map[0 := "a"], {}, [], {}, map[0 := Dispatcher(["b"], false)], 1, map[], 0), QUIET)

  /** Both consumers have stored their output of "a" and are about to count it. */
  const TWICE := Batch(
    HANDED.work.(outputs := {"a"}, nextDelivery := 2,
                 deliveries := map[0 := Delivery(0, "a", B.Loaded), 1 := Delivery(0, "a", B.Loaded)]),
    QUIET)

  lemma Go(b: Batch, run: seq<Action>, a: Action) returns (run': seq<Action>)
    requires IsRun(b, run) && Enabled(Last(b, run), a)
    ensures IsRun(b, run') && Last(b, run') == Step(Last(b, run), a)
  {
    Extend(b, run, a);
    run' := run + [a];
  }

  lemma ToHanded() returns (run: seq<Action>)
    ensures IsRun(Start(AB), run) && Last(Start(AB), run) == HANDED
  {
    var s := Start(AB);
    run := Go(s, [], Look(0));
    run := Go(s, run, Put(0));
    run := Go(s, run, Claim(0));
    assert Last(s, run).work.jobs == HANDED.work.jobs;
    assert ["a", "b"][1..] == ["b"];
    assert Last(s, run).work.dispatchers == HANDED.work.dispatchers;
  }

  /** The work after a delivery of the job, number `k`, got to this stage. */
  function Delivered(w: Work, k: nat, stage: B.Callback): Work {
    w.(deliveries := w.deliveries[k := Delivery(0, "a", stage)], nextDelivery := k + 1)
  }

  lemma Arrives(w: Work, k: nat) returns (run: seq<Action>)
    requires 0 in w.handed && w.handed[0] == "a" && w.nextDelivery == k
    ensures IsRun(Batch(w, QUIET), run) && Last(Batch(w, QUIET), run) == Batch(Delivered(w, k, B.Accepted), QUIET)
  {
    var b := Batch(w, QUIET);
    run := Go(b, [], Deliver(0));
    assert Last(b, run) == Batch(Delivered(w, k, B.Arrived), QUIET);
    run := Go(b, run, Advance(k));
  }

  lemma Stores(w: Work, k: nat) returns (run: seq<Action>)
    requires k in w.deliveries && w.deliveries[k] == Delivery(0, "a", B.Accepted)
    ensures var b := Batch(w, QUIET);
            IsRun(b, run) && Last(b, run) == Batch(At(w, k, B.Entered).(outputs := w.outputs + {"a"}), QUIET)
  {
    var b := Batch(w, QUIET);
    run := Go(b, [], Advance(k));
    assert Last(b, run) == Batch(At(w, k, B.Stored).(outputs := w.outputs + {"a"}), QUIET);
    run := Go(b, run, Advance(k));
  }

  lemma DeliverOnce(w: Work, k: nat) returns (run: seq<Action>)
    requires 0 in w.handed && w.handed[0] == "a" && w.nextDelivery == k
    ensures var b := Batch(w, QUIET);
            IsRun(b, run) && Last(b, run) == Batch(Delivered(w, k, B.Loaded).(outputs := w.outputs + {"a"}), QUIET)
  {
    var b := Batch(w, QUIET);
    var first := Arrives(w, k);
    var second := Stores(Delivered(w, k, B.Accepted), k);
    ExtendAll(b, first, second);
    run := Go(b, first + second, Advance(k));
    assert Last(b, run).work.deliveries == w.deliveries[k := Delivery(0, "a", B.Loaded)];
  }

  lemma ToTwice() returns (run: seq<Action>)
    ensures IsRun(HANDED, run) && Last(HANDED, run) == TWICE
  {
    var first := DeliverOnce(HANDED.work, 0);
    var once := Last(HANDED, first);
    assert once.control == QUIET;
    var second := DeliverOnce(once.work, 1);
    ExtendAll(HANDED, first, second);
    run := first + second;
    assert Last(HANDED, run).work.deliveries == TWICE.work.deliveries;
    assert Last(HANDED, run).work.outputs == TWICE.work.outputs;
  }

  /** A pause comes and goes; resume has spawned a dispatcher for "b" and has yet to write `running`. */
  const RESUMED := Batch(
    TWICE.work.(dispatchers := map[0 := Dispatcher(["b"], false), 1 := Dispatcher(["b"], false)], nextDispatcher := 2),
    ControlOf(B.Resuming, false, Spawned, false, false))

  lemma PauseBoth() returns (run: seq<Action>)
    ensures IsRun(TWICE, run) && Last(TWICE, run) == Batch(TWICE.work, ControlOf(B.Paused, true, Idle, true, false))
  {
    run := Go(TWICE, [], PauseWrite);
    run := Go(TWICE, run, PauseQueue);
    assert Drained(TWICE.work).jobs == TWICE.work.jobs;
  }

  lemma PauseAndUnblock() returns (run: seq<Action>)
    ensures IsRun(TWICE, run)
            && Last(TWICE, run) == Batch(TWICE.work, ControlOf(B.Paused, false, Unblocked, true, false))
  {
    run := PauseBoth();
    run := Go(TWICE, run, ResumeCheck);
    run := Go(TWICE, run, ResumeQueue);
  }

  lemma ListAndSpawn() returns (run: seq<Action>)
    ensures var b := Batch(TWICE.work, ControlOf(B.Paused, false, Unblocked, true, false));
            IsRun(b, run) && Last(b, run) == RESUMED
  {
    var b := Batch(TWICE.work, ControlOf(B.Paused, false, Unblocked, true, false));
    run := Go(b, [], ResumeMark);
    run := Go(b, run, ResumeList);
    assert Pending(AB, {"a"}) == ["b"] by { assert AB[1..] == ["b"] && ["b"][1..] == []; }
    assert Last(b, run) == Batch(TWICE.work, ControlOf(B.Resuming, false, Listed(["b"]), false, false));
    run := Go(b, run, ResumeSpawn);
    assert Last(b, run).work.dispatchers == RESUMED.work.dispatchers;
  }

  lemma ToResumed() returns (run: seq<Action>)
    ensures IsRun(TWICE, run) && Last(TWICE, run) == RESUMED
  {
    var first := PauseAndUnblock();
    var second := ListAndSpawn();
    ExtendAll(TWICE, first, second);
    run := first + second;
  }

  /** Two counts make it `done`; both dispatchers of "b" read that and stop; resume writes `running`. */
  const LOST := Batch(
    RESUMED.work.(jobs := map[0 := CLAIMED.(settled := true)], tallied := ["a", "a"], dispatchers := map[],
                  deliveries := map[]),
    ControlOf(B.Running, false, Idle, false, true))

  const BOTH := Batch(
    RESUMED.work.(tallied := ["a", "a"],
                  deliveries := map[0 := Delivery(0, "a", B.Counted(1, B.Resuming)),
                                    1 := Delivery(0, "a", B.Counted(2, B.Resuming))]),
    RESUMED.control)

  const MARKED := Batch(RESUMED.work.(jobs := LOST.work.jobs, tallied := ["a", "a"], deliveries := map[]),
                        ControlOf(B.Done, false, Spawned, false, true))

  /** One of the two callbacks counts; `w'` is the work then. */
  lemma Counts(w: Work, k: nat, w': Work) returns (run: seq<Action>)
    requires k in w.deliveries && w.deliveries[k] == Delivery(0, "a", B.Loaded)
    requires w' == At(w, k, B.Counted(|w.tallied| + 1, B.Resuming)).(tallied := w.tallied + ["a"])
    ensures IsRun(Batch(w, RESUMED.control), run) && Last(Batch(w, RESUMED.control), run) == Batch(w', RESUMED.control)
  {
    run := Go(Batch(w, RESUMED.control), [], Advance(k));
  }

  lemma ToBoth() returns (run: seq<Action>)
    ensures IsRun(RESUMED, run) && Last(RESUMED, run) == BOTH
  {
    var once := OnceCounted();
    run := BothCount(RESUMED.work, once, BOTH.work);
  }

  lemma BothCount(w: Work, w1: Work, w2: Work) returns (run: seq<Action>)
    requires 0 in w.deliveries && w.deliveries[0] == Delivery(0, "a", B.Loaded)
    requires w1 == At(w, 0, B.Counted(|w.tallied| + 1, B.Resuming)).(tallied := w.tallied + ["a"])
    requires 1 in w1.deliveries && w1.deliveries[1] == Delivery(0, "a", B.Loaded)
    requires w2 == At(w1, 1, B.Counted(|w1.tallied| + 1, B.Resuming)).(tallied := w1.tallied + ["a"])
    ensures IsRun(Batch(w, RESUMED.control), run) && Last(Batch(w, RESUMED.control), run) == Batch(w2, RESUMED.control)
  {
    var first := Counts(w, 0, w1);
    var second := Counts(w1, 1, w2);
    ExtendAll(Batch(w, RESUMED.control), first, second);
    run := first + second;
  }

  lemma OnceCounted() returns (once: Work)
    ensures var w := RESUMED.work;
            once == At(w, 0, B.Counted(|w.tallied| + 1, B.Resuming)).(tallied := w.tallied + ["a"])
    ensures 1 in once.deliveries && once.deliveries[1] == Delivery(0, "a", B.Loaded)
    ensures BOTH.work == At(once, 1, B.Counted(|once.tallied| + 1, B.Resuming)).(tallied := once.tallied + ["a"])
  {
    var w := RESUMED.work;
    once := At(w, 0, B.Counted(|w.tallied| + 1, B.Resuming)).(tallied := w.tallied + ["a"]);
  }

  lemma ToMarked() returns (run: seq<Action>)
    ensures IsRun(BOTH, run) && Last(BOTH, run) == MARKED
  {
    run := Go(BOTH, [], Advance(1));
    assert Last(BOTH, run).work.deliveries == map[0 := Delivery(0, "a", B.Counted(1, B.Resuming))];
    assert AB[1] in AB && "b" !in BOTH.work.outputs;
    run := Go(BOTH, run, Advance(0));
    assert Last(BOTH, run).work.deliveries == map[];
    assert Last(BOTH, run).work.jobs == LOST.work.jobs;
  }

  lemma ToLost() returns (run: seq<Action>)
    ensures IsRun(MARKED, run) && Last(MARKED, run) == LOST
  {
    run := Go(MARKED, [], Look(0));
    assert Last(MARKED, run).work.dispatchers == map[1 := Dispatcher(["b"], false)];
    run := Go(MARKED, run, Look(1));
    assert Last(MARKED, run).work.dispatchers == map[];
    run := Go(MARKED, run, ResumeWrite);
  }

  /** Everything that NoInputLost asks for but the trusted count. */
  ghost predicate Quiet(c: Control) {
    c.status == B.Running && !c.cancelled && !c.overlap && c.stops == 0 && !c.blocked && !c.drained && !c.cut
  }

  lemma ToMarkedBatch() returns (run: seq<Action>)
    ensures IsRun(Start(AB), run) && Last(Start(AB), run) == MARKED
  {
    var r1 := ToHanded();
    var r2 := ToTwice();
    ExtendAll(Start(AB), r1, r2);
    run := r1 + r2;
    var r3 := ToResumed();
    ExtendAll(Start(AB), run, r3);
    run := run + r3;
    var r4 := ToBoth();
    ExtendAll(Start(AB), run, r4);
    run := run + r4;
    var r5 := ToMarked();
    ExtendAll(Start(AB), run, r5);
    run := run + r5;
  }

  /** Counted twice, an input can hide another one: there is a run with pause and resume serialised and no
      budget stop that ends with the batch running and not paused, the count full, while "b" has no
      output, no job, no dispatcher and no excuse. */
  lemma LostWhenCountedTwice()
    ensures exists run :: IsRun(Start(AB), run) && Quiet(Last(Start(AB), run).control)
                          && !Covered(Last(Start(AB), run).work, "b") && !CountTrusted(Last(Start(AB), run).work)
  {
    var first := ToMarkedBatch();
    var second := ToLost();
    ExtendAll(Start(AB), first, second);
    var run := first + second;
    LostIsLost();
  }

  lemma LostIsLost()
    ensures Quiet(LOST.control) && !Covered(LOST.work, "b") && !CountTrusted(LOST.work)
  {
    assert LOST.work.tallied[0] == LOST.work.tallied[1];
  }

  /** And it can mark the batch done before "b" has an output. */
  lemma DoneWhenCountedTwice()
    ensures exists run :: IsRun(Start(AB), run) && Last(Start(AB), run).control.status == B.Done
                          && "b" !in Last(Start(AB), run).work.outputs && !Distinct(Last(Start(AB), run).work.tallied)
  {
    var run := ToMarkedBatch();
    assert MARKED.work.tallied[0] == MARKED.work.tallied[1];
  }

  // ---- budget stops and resume ----

  const ONE := ["a"]

  /** A batch of one input whose only job is claimed. */
  const ONLY := Batch(
    Work(ONE, map[0 := CLAIMED], 1, map[0 := "a"], {}, [], {}, map[0 := Dispatcher([], false)], 1, map[], 0), QUIET)

  lemma ToOnly() returns (run: seq<Action>)
    ensures IsRun(Start(ONE), run) && Last(Start(ONE), run) == ONLY
  {
    var s := Start(ONE);
    run := Go(s, [], Look(0));
    run := Go(s, run, Put(0));
    run := Go(s, run, Claim(0));
    assert Last(s, run).work.jobs == ONLY.work.jobs;
    assert ["a"][1..] == [];
    assert Last(s, run).work.dispatchers == ONLY.work.dispatchers;
  }

  /** Work of the batch once its job is over. */
  const STOPPED := ONLY.work.(jobs := map[0 := CLAIMED.(phase := Over)])

  lemma StoppingOnly()
    ensures Stopping(ONLY.work, 0) == STOPPED && Drained(ONLY.work) == ONLY.work && Drained(STOPPED) == STOPPED
  {
    assert EndJob(ONLY.work, 0) == STOPPED;
    assert Drained(STOPPED).jobs == STOPPED.jobs && Drained(ONLY.work).jobs == ONLY.work.jobs;
  }

  /** Half of a budget stop: the queue is paused, the status not yet written. */
  const HALF := Batch(STOPPED, QUIET.(blocked := true, drained := true, stops := 1))

  lemma ToHalf() returns (run: seq<Action>)
    ensures IsRun(Start(ONE), run) && Last(Start(ONE), run) == HALF
  {
    var first := ToOnly();
    StoppingOnly();
    run := Go(Start(ONE), first, StopJob(0));
  }

  /** While a stop is half done the batch is running without its input. The queue's state row shows it. */
  lemma LostWhileStopping()
    ensures exists run :: IsRun(Start(ONE), run)
              && var b := Last(Start(ONE), run);
                 && b.control == QUIET.(blocked := true, drained := true, stops := 1)
                 && CountTrusted(b.work) && !Covered(b.work, "a")
  {
    var run := ToHalf();
    assert Last(Start(ONE), run) == HALF;
  }

  /** Resume from a paused batch up to its dispatcher, with `w` as the work and `c` as what was written. */
  lemma ResumeOnly(w: Work, c: Control) returns (run: seq<Action>)
    requires w.inputs == ONE && w.outputs == {} && w.nextDispatcher == 1
    requires c.status == B.Paused && c.resume.Idle? && !c.pausing
    ensures var b := Batch(w, c);
            IsRun(b, run) && Last(b, run) == Batch(Spawn(w, ONE),
              c.(status := B.Resuming, blocked := false, resume := Spawned, overlap := c.stops > 0, drained := false,
                 cut := false))
  {
    var b := Batch(w, c);
    run := ResumeMarked(w, c);
    run := Go(b, run, ResumeList);
    assert ONE[1..] == [] && Pending(ONE, {}) == ONE;
    run := Go(b, run, ResumeSpawn);
  }

  lemma ResumeMarked(w: Work, c: Control) returns (run: seq<Action>)
    requires c.status == B.Paused && c.resume.Idle? && !c.pausing
    ensures var b := Batch(w, c);
            IsRun(b, run)
            && Last(b, run)
               == Batch(w, c.(status := B.Resuming, blocked := false, resume := Marked, overlap := c.stops > 0))
  {
    var b := Batch(w, c);
    run := Go(b, [], ResumeCheck);
    run := Go(b, run, ResumeQueue);
    run := Go(b, run, ResumeMark);
  }

  lemma PauseOnly(w: Work, c: Control) returns (run: seq<Action>)
    requires c.status == B.Running && c.resume.Idle? && !c.pausing && Drained(w) == w
    ensures var b := Batch(w, c);
            IsRun(b, run) && Last(b, run) == Batch(w, c.(status := B.Paused, blocked := true, drained := true))
  {
    var b := Batch(w, c);
    run := Go(b, [], PauseWrite);
    run := Go(b, run, PauseQueue);
  }

  /** The resumed dispatcher of "a" reads that the batch is paused and stops; resume then writes `running`. */
  lemma LookAndWrite(b: Batch) returns (run: seq<Action>)
    requires b.work == Spawn(STOPPED, ONE) && b.control.status == B.Paused && b.control.resume.Spawned?
    ensures IsRun(b, run)
            && Last(b, run) == Batch(STOPPED.(nextDispatcher := 2), b.control.(status := B.Running, resume := Idle))
  {
    run := Go(b, [], Look(1));
    assert Last(b, run).work.dispatchers == STOPPED.dispatchers;
    run := Go(b, run, ResumeWrite);
  }

  lemma NothingLeft()
    ensures var w := STOPPED.(nextDispatcher := 2); !Covered(w, "a") && CountTrusted(w)
  {
  }

  /** A whole budget stop inside a resume: the claimed job is cancelled after the listing and the dispatcher
      stops on the status it writes. Resume ends by writing `running`. */
  const INSIDE := Batch(STOPPED.(nextDispatcher := 2),
                        QUIET.(blocked := true, drained := true, cut := true, overlap := true))

  lemma ToInside() returns (run: seq<Action>)
    ensures IsRun(Start(ONE), run) && Last(Start(ONE), run) == INSIDE
  {
    var s := Start(ONE);
    StoppingOnly();
    var first := ToOnly();
    var second := PauseOnly(ONLY.work, QUIET);
    ExtendAll(s, first, second);
    var third := ResumeOnly(ONLY.work, Last(s, first + second).control);
    ExtendAll(s, first + second, third);
    run := StopSpawned(s, first + second + third);
    var last := LookAndWrite(Last(s, run));
    ExtendAll(s, run, last);
    run := run + last;
  }

  lemma StopSpawned(s: Batch, run: seq<Action>) returns (longer: seq<Action>)
    requires IsRun(s, run)
             && Last(s, run) == Batch(Spawn(ONLY.work, ONE), ControlOf(B.Resuming, false, Spawned, false, false))
    ensures IsRun(s, longer)
    ensures Last(s, longer) == Batch(Spawn(STOPPED, ONE),
              ControlOf(B.Paused, true, Spawned, true, false).(cut := true, overlap := true))
  {
    longer := Go(s, run, StopJob(0));
    assert Last(s, longer).work.jobs == STOPPED.jobs;
    longer := Go(s, longer, StopWrite);
  }

  /** A budget stop inside a resume loses its input: the batch runs, only the state row is left of the stop,
      and when the sweeper removes that nothing is. */
  lemma LostWhenStoppedInsideResume()
    ensures exists run :: IsRun(Start(ONE), run)
              && var b := Last(Start(ONE), run);
                 && b.control == QUIET.(drained := true, cut := true, overlap := true)
                 && CountTrusted(b.work) && !Covered(b.work, "a")
  {
    var run := ToInside();
    run := Go(Start(ONE), run, SweepRow);
    NothingLeft();
  }

  /** A stop whose status is written only after resume has spawned its dispatcher. */
  lemma ToLate() returns (run: seq<Action>)
    ensures IsRun(Start(ONE), run)
            && Last(Start(ONE), run) == Batch(STOPPED.(nextDispatcher := 2), QUIET.(cut := true, overlap := true))
  {
    var s := Start(ONE);
    StoppingOnly();
    var first := ToHalf();
    var second := PauseOnly(STOPPED, HALF.control);
    ExtendAll(s, first, second);
    var third := ResumeOnly(STOPPED, Last(s, first + second).control);
    ExtendAll(s, first + second, third);
    run := Go(s, first + second + third, StopWrite);
    var last := LookAndWrite(Last(s, run));
    ExtendAll(s, run, last);
    run := run + last;
  }

  /** A budget stop that ends inside a resume loses its input, although the queue holds nothing: the batch
      runs without a state row. */
  lemma LostWhenStopEndsInsideResume()
    ensures exists run :: IsRun(Start(ONE), run)
              && var b := Last(Start(ONE), run);
                 && b.control == QUIET.(cut := true, overlap := true)
                 && CountTrusted(b.work) && !Covered(b.work, "a")
  {
    var run := ToLate();
    NothingLeft();
  }

  // ---- a count turned away ----

  /** The output of "a" is stored, and its callback turned away before it counts. */
  const UNCOUNTED := ONLY.work.(jobs := map[0 := CLAIMED.(settled := true)], outputs := {"a"}, nextDelivery := 1)

  lemma StoreThenPause() returns (run: seq<Action>)
    ensures IsRun(ONLY, run)
    ensures Last(ONLY, run) == Batch(
              ONLY.work.(outputs := {"a"}, deliveries := map[0 := Delivery(0, "a", B.Stored)], nextDelivery := 1),
              QUIET.(status := B.Paused, pausing := true))
  {
    run := Arrives(ONLY.work, 0);
    run := Go(ONLY, run, Advance(0));
    run := Go(ONLY, run, PauseWrite);
    assert Last(ONLY, run).work.deliveries == map[0 := Delivery(0, "a", B.Stored)];
  }

  lemma ToUncounted() returns (run: seq<Action>)
    ensures IsRun(ONLY, run) && Last(ONLY, run) == Batch(UNCOUNTED, QUIET.(status := B.Paused, pausing := true))
  {
    run := StoreThenPause();
    run := Go(ONLY, run, Advance(0));
    assert Last(ONLY, run).work.deliveries == map[] && Last(ONLY, run).work.jobs == UNCOUNTED.jobs;
  }

  /** All of it done, resumed with nothing pending, and one short of the total. */
  const SHORT := Batch(
    UNCOUNTED.(jobs := map[0 := CLAIMED.(settled := true, phase := Over)], nextDispatcher := 2,
               dispatchers := map[0 := Dispatcher([], false), 1 := Dispatcher([], false)]),
    QUIET)

  lemma ToShort() returns (run: seq<Action>)
    ensures IsRun(Start(ONE), run) && Last(Start(ONE), run) == SHORT
  {
    var s := Start(ONE);
    var first := ToOnly();
    var second := ToUncounted();
    ExtendAll(s, first, second);
    run := Go(s, first + second, Complete(0));
    run := Go(s, run, PauseQueue);
    assert Last(s, run).work.jobs == SHORT.work.jobs;
    var w := Last(s, run).work;
    var third := ResumeMarked(w, Last(s, run).control);
    ExtendAll(s, run, third);
    run := NothingPending(s, run + third, w);
  }

  lemma NothingPending(s: Batch, run: seq<Action>, w: Work) returns (longer: seq<Action>)
    requires IsRun(s, run) && w.inputs == ONE && w.outputs == {"a"}
    requires Last(s, run) == Batch(w, ControlOf(B.Resuming, false, Marked, true, false))
    ensures IsRun(s, longer) && Last(s, longer) == Batch(Spawn(w, []), QUIET)
  {
    assert ONE[1..] == [] && Pending(ONE, {"a"}) == [];
    longer := Go(s, run, ResumeList);
    longer := Go(s, longer, ResumeSpawn);
    longer := Go(s, longer, ResumeWrite);
  }

  /** No callback is under way, no job is active and no file is ahead of a dispatcher. */
  ghost predicate AtRest(w: Work) {
    && w.deliveries == map[] && (forall j :: j in w.jobs ==> !w.jobs[j].Active())
    && (forall d :: d in w.dispatchers ==> w.dispatchers[d].rest == [])
  }

  predicate NoDelivery(run: seq<Action>) { forall i :: 0 <= i < |run| ==> !run[i].Deliver? }

  /** Without another delivery nothing is counted, and a batch that is not done never gets done. */
  lemma {:induction false} NothingCounts(b: Batch, run: seq<Action>)
    requires b.work.deliveries == map[] && IsRun(b, run) && NoDelivery(run)
    ensures Last(b, run).work.tallied == b.work.tallied
    ensures Last(b, run).control.status == B.Done ==> b.control.status == B.Done
    decreases |run|
  {
    if run != [] {
      NothingCountsStep(b, run[0]);
      NothingCounts(Step(b, run[0]), run[1..]);
    }
  }

  lemma NothingCountsStep(b: Batch, a: Action)
    requires b.work.deliveries == map[] && Enabled(b, a) && !a.Deliver?
    ensures Step(b, a).work.deliveries == map[] && Step(b, a).work.tallied == b.work.tallied
    ensures Step(b, a).control.status == B.Done ==> b.control.status == B.Done
  {
  }

  /** A callback that stored its output and is turned away at its second stop check leaves the count behind:
      after the resume every output is there and nothing is under way, but the count is short of the total,
      and, short of another delivery of a finished job, the batch is never marked done. */
  lemma NeverDoneAfterTurnedAway()
    ensures exists run :: IsRun(Start(ONE), run) && Quiet(Last(Start(ONE), run).control)
              && var b := Last(Start(ONE), run);
                 && AllStored(b.work) && AtRest(b.work) && |b.work.tallied| < |b.work.inputs|
                 && forall more :: IsRun(b, more) && NoDelivery(more) ==> Last(b, more).control.status != B.Done
  {
    var run := ToShort();
    forall more | IsRun(SHORT, more) && NoDelivery(more) ensures Last(SHORT, more).control.status != B.Done {
      NothingCounts(SHORT, more);
    }
    assert AtRest(SHORT.work) && AllStored(SHORT.work);
    assert Last(Start(ONE), run) == SHORT;
  }
}
