/** Counting a batch's outputs while result callbacks interleave at every `await`: the stop checks,
    the increment made in the database, the patch written back from the incremented record, and the
    notification that follows. */
module BatchCounting {
  import opened Collections

  datatype Status = Running | Paused | Resuming | Cancelling | Cancelled | Done

  predicate Stopped(s: Status) { s == Paused || s == Cancelling || s == Cancelled || s == Done }

  /** The SetProcess node as the database holds it. */
  datatype Record = Record(status: Status, processed: nat, failed: nat, total: nat)

  /** Where one output callback stands. */
  datatype Callback =
    | Arrived
    | Accepted                          // handleOutput read a status that is not stopped
    | Stored                            // the output file and its edge exist
    | Entered                           // notifyOutput read a status that is not stopped
    | Loaded                            // incrementProcessed read the batch
    | Counted(processed: nat, seen: Status)   // the database incremented and returned the record
    | Patched(processed: nat, seen: Status)   // the patch is written; `seen` is the merged status
    | Finished(processed: nat, sent: bool)    // `sent`: it sent process_finished
    | Dropped                           // a stop check ended it
  {
    predicate Past() { Counted? || Patched? || Finished? }
  }

  datatype State = State(batch: Record, callbacks: seq<Callback>)

  datatype Turn =
    | Move(i: nat)             // callback i takes its next step
    | JobFailed                // handleError: incrementFailed
    | WriteStatus(status: Status)  // a pause, resume or cancel request writes the status

  /** The next step of a callback, with the batch as the database holds it at that moment. */
  function Next(c: Callback, b: Record): (Callback, Record) {
    match c
    case Arrived => (if Stopped(b.status) then Dropped else Accepted, b)
    case Accepted => (Stored, b)
    case Stored => (if Stopped(b.status) then Dropped else Entered, b)
    case Entered => (Loaded, b)
    case Loaded => var b' := b.(processed := b.processed + 1); (Counted(b'.processed, b'.status), b')
    case Counted(k, seen) =>
      if b.total > 0 && k >= b.total then (Patched(k, Done), b.(status := Done)) else (Patched(k, seen), b)
    case Patched(k, seen) => (Finished(k, seen == Done || (b.total > 0 && k >= b.total)), b)
    case Finished(_, _) => (c, b)
    case Dropped => (c, b)
  }

  predicate Enabled(s: State, a: Turn) { a.Move? ==> a.i < |s.callbacks| }

  function Step(s: State, a: Turn): State
    requires Enabled(s, a)
  {
    match a
    case Move(i) => var r := Next(s.callbacks[i], s.batch); State(r.1, s.callbacks[i := r.0])
    case JobFailed => s.(batch := s.batch.(failed := s.batch.failed + 1))
    case WriteStatus(status) => s.(batch := s.batch.(status := status))
  }

  predicate IsRun(s: State, run: seq<Turn>)
    decreases |run|
  {
    run == [] || (Enabled(s, run[0]) && IsRun(Step(s, run[0]), run[1..]))
  }

  function Last(s: State, run: seq<Turn>): State
    requires IsRun(s, run)
    decreases |run|
  {
    if run == [] then s else Last(Step(s, run[0]), run[1..])
  }

  /** A batch of `n` inputs with one callback each, none of which has begun. */
  function Start(n: nat): State {
    State(Record(Running, 0, 0, n), seq(n, _ => Arrived))
  }

  function PastOnes(s: State): set<nat> {
    set i | 0 <= i < |s.callbacks| && s.callbacks[i].Past()
  }

  /** 0, 1, ..., n - 1. */
  function All(n: nat): (r: set<nat>)
    ensures |r| == n && forall i :: i in r <==> 0 <= i < n
  {
    if n == 0 then {} else All(n - 1) + {n - 1}
  }

  lemma PastGrows(s: State, a: Turn)
    requires Enabled(s, a)
    ensures PastOnes(Step(s, a)) == if a.Move? && s.callbacks[a.i].Loaded? then PastOnes(s) + {a.i} else PastOnes(s)
  {
  }

  /** No increment is ever lost or made twice, whatever the order of the callbacks' reads, increments
      and patches and whatever status pause, resume and cancel write in between. */
  lemma {:induction false} EveryIncrementCounts(s: State, run: seq<Turn>)
    requires IsRun(s, run) && s.batch.processed == |PastOnes(s)|
    ensures Last(s, run).batch.processed == |PastOnes(Last(s, run))|
    decreases |run|
  {
    if run != [] {
      PastGrows(s, run[0]);
      EveryIncrementCounts(Step(s, run[0]), run[1..]);
    }
  }

  predicate Undisturbed(run: seq<Turn>) {
    forall k :: 0 <= k < |run| ==> !run[k].WriteStatus?
  }

  /** The count a callback got back from the database. */
  predicate Got(c: Callback, k: nat) { c.Past() && c.processed == k }

  ghost predicate Inv(s: State) { Counts(s) && Marked(s) }

  ghost predicate Counts(s: State) {
    var n := |s.callbacks|;
    && s.batch.total == n && s.batch.processed == |PastOnes(s)| <= n
    && (forall i :: 0 <= i < n ==> Consistent(s.callbacks[i], s.batch.processed, n))
    && (forall i, j :: 0 <= i < j < n && s.callbacks[i].Past() && s.callbacks[j].Past() ==>
          s.callbacks[i].processed != s.callbacks[j].processed)
  }

  /** `done` is written by the callback that got the last count, and such a callback exists once the
      count is full. */
  ghost predicate Marked(s: State) {
    var n := |s.callbacks|;
    && (s.batch.status == Running || s.batch.status == Done)
    && (s.batch.status == Done <==> exists i :: 0 <= i < n && Reached(s.callbacks[i], n))
    && (n > 0 && s.batch.processed == n ==> exists i :: 0 <= i < n && Got(s.callbacks[i], n))
  }

  /** The callback that counted the last input has written its patch. */
  predicate Reached(c: Callback, n: nat) { (c.Patched? || c.Finished?) && c.processed == n }

  predicate Consistent(c: Callback, processed: nat, n: nat) {
    && (c.Past() ==> 1 <= c.processed <= processed)
    && (c.Counted? ==> c.seen == Running)
    && (c.Patched? ==> c.seen == if c.processed == n then Done else Running)
    && (c.Finished? ==> c.sent == (c.processed == n))
    && !c.Dropped?
  }

  lemma AllPast(s: State)
    requires |PastOnes(s)| == |s.callbacks|
    ensures forall i :: 0 <= i < |s.callbacks| ==> s.callbacks[i].Past()
  {
    var missing := All(|s.callbacks|) - PastOnes(s);
    assert All(|s.callbacks|) == PastOnes(s) + missing;
    assert missing == {};
    forall i | 0 <= i < |s.callbacks| ensures s.callbacks[i].Past() { assert i in All(|s.callbacks|); }
  }

  /** While a callback has not counted, not all inputs are counted, so the batch is not done. */
  lemma StillRunning(s: State, i: nat)
    requires Inv(s) && i < |s.callbacks| && !s.callbacks[i].Past()
    ensures s.batch.processed < |s.callbacks| && s.batch.status == Running
  {
    if s.batch.status == Done { DoneMeansCounted(s); }
    if s.batch.processed == |s.callbacks| {
      AllPast(s);
      assert false;
    }
  }

  lemma DoneMeansCounted(s: State)
    requires Inv(s) && s.batch.status == Done
    ensures s.batch.processed == |s.callbacks|
  {
    var j :| 0 <= j < |s.callbacks| && Reached(s.callbacks[j], |s.callbacks|);
    assert Consistent(s.callbacks[j], s.batch.processed, |s.callbacks|);
  }

  lemma IncrementKeepsInv(s: State, i: nat)
    requires Inv(s) && i < |s.callbacks| && s.callbacks[i].Loaded?
    ensures Inv(Step(s, Move(i)))
  {
    StillRunning(s, i);
    PastGrows(s, Move(i));
    var s' := Step(s, Move(i));
    assert forall j :: 0 <= j < |s.callbacks| && j != i ==> s'.callbacks[j] == s.callbacks[j];
    assert forall j :: 0 <= j < |s.callbacks| ==> Consistent(s.callbacks[j], s.batch.processed, |s.callbacks|);
    if s'.batch.processed == |s.callbacks| { assert Got(s'.callbacks[i], |s.callbacks|); }
  }

  lemma LaterStepCounts(s: State, i: nat)
    requires Inv(s) && i < |s.callbacks| && s.callbacks[i].Past()
    ensures Counts(Step(s, Move(i)))
    ensures var c, c' := s.callbacks[i], Step(s, Move(i)).callbacks[i];
            && c'.Past() && c'.processed == c.processed && (Reached(c, |s.callbacks|) ==> Reached(c', |s.callbacks|))
            && (Step(s, Move(i)).batch.status
                == (if c.Counted? && c.processed == |s.callbacks| then Done else s.batch.status))
            && (Reached(c', |s.callbacks|) ==>
                  Reached(c, |s.callbacks|) || (c.Counted? && c.processed == |s.callbacks|))
  {
    PastGrows(s, Move(i));
    assert Consistent(s.callbacks[i], s.batch.processed, |s.callbacks|);
  }

  lemma LaterStepKeepsInv(s: State, i: nat)
    requires Inv(s) && i < |s.callbacks| && s.callbacks[i].Past()
    ensures Inv(Step(s, Move(i)))
  {
    var n, s' := |s.callbacks|, Step(s, Move(i));
    LaterStepCounts(s, i);
    assert forall j :: 0 <= j < n && j != i ==> s'.callbacks[j] == s.callbacks[j];
    if n > 0 && s.batch.processed == n {
      var j :| 0 <= j < n && Got(s.callbacks[j], n);
      assert Got(s'.callbacks[j], n);
    }
    if s.batch.status == Done {
      var j :| 0 <= j < n && Reached(s.callbacks[j], n);
      assert Reached(s'.callbacks[j], n);
    } else if s'.batch.status == Done {
      assert Reached(s'.callbacks[i], n);
    } else {
      assert forall j :: 0 <= j < n ==> !Reached(s.callbacks[j], n);
    }
  }

  lemma EarlyStepKeepsInv(s: State, i: nat)
    requires Inv(s) && i < |s.callbacks| && !s.callbacks[i].Past() && !s.callbacks[i].Loaded?
    ensures Inv(Step(s, Move(i)))
  {
    var n, s' := |s.callbacks|, Step(s, Move(i));
    StillRunning(s, i);
    PastGrows(s, Move(i));
    assert Consistent(s.callbacks[i], s.batch.processed, n);
    assert forall j :: 0 <= j < n && j != i ==> s'.callbacks[j] == s.callbacks[j];
    assert forall j :: 0 <= j < n ==> !Reached(s.callbacks[j], n);
  }

  lemma FailureKeepsInv(s: State)
    requires Inv(s)
    ensures Inv(Step(s, JobFailed))
  {
    assert PastOnes(Step(s, JobFailed)) == PastOnes(s);
    if s.batch.status == Done {
      var j :| 0 <= j < |s.callbacks| && Reached(s.callbacks[j], |s.callbacks|);
      assert Reached(Step(s, JobFailed).callbacks[j], |s.callbacks|);
    }
  }

  lemma StepKeepsInv(s: State, a: Turn)
    requires Inv(s) && Enabled(s, a) && !a.WriteStatus?
    ensures Inv(Step(s, a)) && |Step(s, a).callbacks| == |s.callbacks|
  {
    match a
    case Move(i) =>
      if s.callbacks[i].Loaded? { IncrementKeepsInv(s, i); }
      else if s.callbacks[i].Past() { LaterStepKeepsInv(s, i); }
      else { EarlyStepKeepsInv(s, i); }
    case JobFailed => FailureKeepsInv(s);
  }

  lemma StartInv(n: nat)
    ensures Inv(Start(n))
  {
    assert PastOnes(Start(n)) == {};
    assert forall i :: 0 <= i < n ==> Start(n).callbacks[i].Arrived?;
  }

  lemma {:induction false} RunKeepsInv(s: State, run: seq<Turn>)
    requires Inv(s) && IsRun(s, run) && Undisturbed(run)
    ensures Inv(Last(s, run)) && |Last(s, run).callbacks| == |s.callbacks|
    decreases |run|
  {
    if run != [] {
      StepKeepsInv(s, run[0]);
      RunKeepsInv(Step(s, run[0]), run[1..]);
    }
  }

  /** In every interleaving of `n` callbacks nobody is dropped, the batch is `done` only once all `n`
      inputs are counted, and at most one callback has announced the end. */
  lemma DoneOnlyAfterTheLast(n: nat, run: seq<Turn>)
    requires IsRun(Start(n), run) && Undisturbed(run)
    ensures var s := Last(Start(n), run);
            && s.batch.processed == |PastOnes(s)| <= n
            && (s.batch.status == Done ==> s.batch.processed == n)
            && (forall i :: 0 <= i < |s.callbacks| ==> !s.callbacks[i].Dropped?)
            && (forall i, j :: 0 <= i < j < |s.callbacks| ==> !(Announced(s, i) && Announced(s, j)))
  {
    StartInv(n);
    RunKeepsInv(Start(n), run);
    var s := Last(Start(n), run);
    if s.batch.status == Done { DoneMeansCounted(s); }
    assert forall i :: 0 <= i < n ==> Consistent(s.callbacks[i], s.batch.processed, n);
  }

  predicate Announced(s: State, i: nat)
    requires i < |s.callbacks|
  {
    s.callbacks[i].Finished? && s.callbacks[i].sent
  }

  /** When every callback has ended, the batch is `done`, all inputs are counted, and exactly one
      callback announced the end. */
  lemma DoneOnceAllFinish(n: nat, run: seq<Turn>)
    requires 0 < n && IsRun(Start(n), run) && Undisturbed(run)
    requires forall c :: c in Last(Start(n), run).callbacks ==> c.Finished? || c.Dropped?
    ensures var s := Last(Start(n), run);
            && s.batch.status == Done && s.batch.processed == n && |s.callbacks| == n
            && exists i :: 0 <= i < n && Announced(s, i) && forall j :: 0 <= j < n && j != i ==> !Announced(s, j)
  {
    StartInv(n);
    RunKeepsInv(Start(n), run);
    EndOfAll(Last(Start(n), run));
  }

  lemma EndOfAll(s: State)
    requires Inv(s) && 0 < |s.callbacks| && forall c :: c in s.callbacks ==> c.Finished? || c.Dropped?
    ensures s.batch.status == Done && s.batch.processed == |s.callbacks|
    ensures exists i :: 0 <= i < |s.callbacks| && Announced(s, i)
                        && forall j :: 0 <= j < |s.callbacks| && j != i ==> !Announced(s, j)
  {
    var n := |s.callbacks|;
    forall i | 0 <= i < n ensures s.callbacks[i].Finished? && s.callbacks[i].sent == (s.callbacks[i].processed == n) {
      assert s.callbacks[i] in s.callbacks && Consistent(s.callbacks[i], s.batch.processed, n);
    }
    assert PastOnes(s) == All(n);
    var i :| 0 <= i < n && Got(s.callbacks[i], n);
    assert Reached(s.callbacks[i], n) && Announced(s, i);
  }

  // ---- stops ----

  /** The status reads stopped from here to the end of the run. */
  ghost predicate StaysStopped(s: State, run: seq<Turn>)
    requires IsRun(s, run)
    decreases |run|
  {
    && s.batch.status in {Paused, Cancelling, Cancelled, Done}
    && (run != [] ==> StaysStopped(Step(s, run[0]), run[1..]))
  }

  /** How far a callback may have come while the batch was stopped all along. */
  predicate HeldUp(c: Callback, c': Callback) {
    match c
    case Arrived => c'.Arrived? || c'.Dropped?
    case Accepted => c'.Accepted? || c'.Stored? || c'.Dropped?
    case Stored => c'.Stored? || c'.Dropped?
    case Dropped => c'.Dropped?
    case Entered => c'.Entered? || c'.Loaded? || c'.Past()
    case Loaded => c'.Loaded? || c'.Past()
    case Counted(k, _) => c'.Past() && c'.processed == k
    case Patched(k, _) => c'.Past() && c'.processed == k
    case Finished(k, _) => c' == c
  }

  lemma HeldUpStep(s: State, a: Turn, c: Callback, i: nat)
    requires Enabled(s, a) && i < |s.callbacks| && s.batch.status in {Paused, Cancelling, Cancelled, Done}
    ensures HeldUp(Step(s, a).callbacks[i], c) ==> HeldUp(s.callbacks[i], c)
  {
  }

  /** While the batch stays stopped, no callback passes a stop check: one that arrives is dropped, and one that
      has stored its output is not counted, so the count grows only by callbacks past their second check. */
  lemma {:induction false} NothingCountsWhileStopped(s: State, run: seq<Turn>)
    requires IsRun(s, run) && StaysStopped(s, run)
    ensures |Last(s, run).callbacks| == |s.callbacks|
    ensures forall i :: 0 <= i < |s.callbacks| ==> HeldUp(s.callbacks[i], Last(s, run).callbacks[i])
    decreases |run|
  {
    if run != [] {
      NothingCountsWhileStopped(Step(s, run[0]), run[1..]);
      forall i | 0 <= i < |s.callbacks| ensures HeldUp(s.callbacks[i], Last(s, run).callbacks[i]) {
        HeldUpStep(s, run[0], Last(s, run).callbacks[i], i);
      }
    }
  }

  function Failures(run: seq<Turn>): nat {
    if run == [] then 0 else (if run[0].JobFailed? then 1 else 0) + Failures(run[1..])
  }

  /** Every failure is counted, in any interleaving, and the total stays. */
  lemma {:induction false} FailuresCount(s: State, run: seq<Turn>)
    requires IsRun(s, run)
    ensures Last(s, run).batch.failed == s.batch.failed + Failures(run) && Last(s, run).batch.total == s.batch.total
    decreases |run|
  {
    if run != [] { FailuresCount(Step(s, run[0]), run[1..]); }
  }

  /** While the status reads running or resuming, a callback passes both checks and is counted, and the one
      that gets the last count marks the batch done. */
  lemma GoesThrough(s: State, i: nat)
    requires i < |s.callbacks| && s.callbacks[i] == Arrived && s.batch.status in {Running, Resuming}
    ensures exists run :: IsRun(s, run)
              && |Last(s, run).callbacks| == |s.callbacks|
              && var b, b' := s.batch, Last(s, run).batch;
                 && b'.processed == b.processed + 1 && Last(s, run).callbacks[i] == Patched(b'.processed, b'.status)
                 && b'.status == (if b.total > 0 && b'.processed >= b.total then Done else b.status)
  {
    var run := OneMore(s, [], i);
    run := OneMore(s, run, i);
    run := OneMore(s, run, i);
    run := OneMore(s, run, i);
    run := OneMore(s, run, i);
    run := OneMore(s, run, i);
  }

  lemma OneMore(s: State, run: seq<Turn>, i: nat) returns (run': seq<Turn>)
    requires IsRun(s, run) && i < |Last(s, run).callbacks|
    ensures IsRun(s, run') && |Last(s, run').callbacks| == |Last(s, run).callbacks|
            && Last(s, run') == Step(Last(s, run), Move(i))
  {
    run' := run + [Move(i)];
    Extends(s, run, Move(i));
  }

  lemma {:induction false} Extends(s: State, run: seq<Turn>, a: Turn)
    requires IsRun(s, run) && Enabled(Last(s, run), a)
    ensures IsRun(s, run + [a]) && Last(s, run + [a]) == Step(Last(s, run), a)
    decreases |run|
  {
    if run == [] {
      assert run + [a] == [a] && [a][1..] == [];
    } else {
      assert (run + [a])[0] == run[0] && (run + [a])[1..] == run[1..] + [a];
      Extends(Step(s, run[0]), run[1..], a);
    }
  }
}
