/** Which job a claim hands out, and which it can miss. */
module QueueClaims {
  import opened Collections
  import opened QueueTable
  import opened QueueRuns
  import R = QueueRows

  /** A pause or cancel holds the job. */
  predicate IsHeld(t: Table, id: nat) { id in t.jobs && !R.IsFree(t.control, t.jobs[id]) }

  lemma HeldMeans(t: Table, id: nat)
    ensures IsHeld(t, id) <==> id in t.jobs && HoldOf(t, t.jobs[id].process, t.jobs[id].batch).Some?
  {
    if id in t.jobs { R.HoldsAgree(t, t.jobs[id]); }
  }

  /** The `k`-th candidate is the first one that is not held. */
  ghost predicate FirstFree(t: Table, w: seq<nat>, k: nat) {
    k < |w| && !IsHeld(t, w[k]) && forall i :: 0 <= i < k ==> IsHeld(t, w[i])
  }

  lemma {:induction false} ScanPicks(t: Table, o: Options, w: seq<nat>, adapter: string, now: int)
    requires Distinct(w) && forall id :: id in w ==> id in t.jobs
    ensures var taken := Scan(t, o, w, adapter, now).1;
            && (taken.None? ==> forall id :: id in w ==> IsHeld(t, id))
            && (taken.Some? ==> exists k :: 0 <= k < |w| && FirstFree(t, w, k) && w[k] == taken.value)
    decreases |w|
  {
    if w != [] {
      var j := t.jobs[w[0]];
      HeldMeans(t, w[0]);
      match HoldOf(t, j.process, j.batch)
      case Some(hold) =>
        var t' := if hold.Aborted? then t.(jobs := t.jobs[w[0] := Finalised(j, now)]) else t;
        ScanPicks(t', o, w[1..], adapter, now);
        assert forall id :: IsHeld(t', id) == IsHeld(t, id);
        Shift(t, t', w, Scan(t', o, w[1..], adapter, now).1);
      case None =>
        assert FirstFree(t, w, 0);
    }
  }

  lemma Shift(t: Table, t': Table, w: seq<nat>, taken: Option<nat>)
    requires w != [] && IsHeld(t, w[0]) && forall id :: IsHeld(t', id) == IsHeld(t, id)
    ensures taken.Some? && (exists k :: 0 <= k < |w[1..]| && FirstFree(t', w[1..], k) && w[1..][k] == taken.value) ==>
              exists k :: 0 <= k < |w| && FirstFree(t, w, k) && w[k] == taken.value
  {
    if taken.Some? && exists k :: 0 <= k < |w[1..]| && FirstFree(t', w[1..], k) && w[1..][k] == taken.value {
      var k :| 0 <= k < |w[1..]| && FirstFree(t', w[1..], k) && w[1..][k] == taken.value;
      assert forall i :: 0 < i <= k ==> w[i] == w[1..][i - 1];
      assert FirstFree(t, w, k + 1);
    }
  }

  predicate IsDueOn(t: Table, id: nat, queue: string, now: int) {
    id in t.jobs && t.jobs[id].queue == queue && R.IsDue(t.jobs[id], now)
  }

  /** Due on the queue, and no pause or cancel holds it. */
  predicate IsReady(t: Table, id: nat, queue: string, now: int) {
    IsDueOn(t, id, queue, now) && !IsHeld(t, id)
  }

  /** One queue: the oldest ready job, or none only when the 50 oldest candidates are all held. */
  lemma ScanIsOldest(t: Table, o: Options, queue: string, w: seq<nat>, adapter: string, now: int, x: nat)
    requires IsWindow(t, queue, now, w) && IsReady(t, x, queue, now)
    ensures var taken := Scan(t, o, w, adapter, now).1;
            && (taken.Some? ==>
                  IsReady(t, taken.value, queue, now) && t.jobs[taken.value].createdAt <= t.jobs[x].createdAt)
            && (taken.None? ==> HeldInFront(t, queue, w, now, x))
  {
    ScanPicks(t, o, w, adapter, now);
    var taken := Scan(t, o, w, adapter, now).1;
    if taken.Some? {
      var k :| 0 <= k < |w| && FirstFree(t, w, k) && w[k] == taken.value;
      if x in w {
        var i :| 0 <= i < |w| && w[i] == x;
        assert k <= i;
      }
    }
  }

  /** Fifty due jobs of the queue, none younger than `x`, are all held. */
  ghost predicate HeldInFront(t: Table, queue: string, w: seq<nat>, now: int, x: nat) {
    && x in t.jobs && |w| == 50 && Distinct(w)
    && forall id :: id in w ==>
          IsHeld(t, id) && IsDueOn(t, id, queue, now) && t.jobs[id].createdAt <= t.jobs[x].createdAt
  }

  lemma OtherQueue(topic: string)
    ensures topic + "_batch" != topic
  {
    assert |topic + "_batch"| == |topic| + 6;
  }

  /** A claim is fair up to its window. While a job of its topic is ready, it hands out a ready job of the
      topic at least as old, unless 50 held ones are in front of it. */
  lemma ClaimTakesOldest(t: Table, o: Options, topic: string, adapter: string, now: int, first: seq<nat>,
                         second: seq<nat>, x: nat)
    requires ClaimWindows(t, o, topic, adapter, now, first, second) && IsReady(t, x, topic, now)
    ensures var taken := Claim(t, o, adapter, now, first, second).1;
            || HeldInFront(t, topic, first, now, x)
            || (taken.Some? && IsReady(t, taken.value, topic, now)
                  && t.jobs[taken.value].createdAt <= t.jobs[x].createdAt)
  {
    ScanIsOldest(t, o, topic, first, adapter, now, x);
  }

  /** The batch twin is asked only when the topic has nothing free among its candidates, and then the same
      holds of it: the oldest ready job, unless 50 held ones are in front. */
  lemma ClaimTakesOldestOfBatch(t: Table, o: Options, topic: string, adapter: string, now: int, first: seq<nat>,
                                second: seq<nat>, x: nat)
    requires ClaimWindows(t, o, topic, adapter, now, first, second) && IsReady(t, x, topic + "_batch", now)
    requires forall id :: id in first ==> IsHeld(t, id)
    ensures var taken := Claim(t, o, adapter, now, first, second).1;
            || HeldInFront(t, topic + "_batch", second, now, x)
            || (taken.Some? && IsReady(t, taken.value, topic + "_batch", now)
                  && t.jobs[taken.value].createdAt <= t.jobs[x].createdAt)
  {
    OtherQueue(topic);
    ScanPicks(t, o, first, adapter, now);
    ScanRows(t, o, first, adapter, now);
    var m := Scan(t, o, first, adapter, now).0;
    TwinRows(t, o, topic, adapter, now, first);
    assert IsReady(m, x, topic + "_batch", now);
    ScanIsOldest(m, o, topic + "_batch", second, adapter, now, x);
  }

  /** The first queue's pass leaves the rows of the batch twin as they were. */
  lemma TwinRows(t: Table, o: Options, topic: string, adapter: string, now: int, first: seq<nat>)
    requires IsWindow(t, topic, now, first)
    ensures var m := Scan(t, o, first, adapter, now).0;
            && m.jobs.Keys == t.jobs.Keys
            && (forall id :: id in t.jobs && topic + "_batch" in {t.jobs[id].queue, m.jobs[id].queue} ==>
                  m.jobs[id] == t.jobs[id])
            && (forall id :: IsHeld(m, id) == IsHeld(t, id))
  {
    OtherQueue(topic);
    ScanRows(t, o, first, adapter, now);
  }

  /** Nobody is handed a job while an older free one of the first queue is a candidate: the batch twin
      serves only when every candidate of the topic is held. */
  lemma TopicBeforeBatch(t: Table, o: Options, topic: string, adapter: string, now: int, first: seq<nat>,
                         second: seq<nat>)
    requires ClaimWindows(t, o, topic, adapter, now, first, second)
    ensures var taken := Claim(t, o, adapter, now, first, second).1;
            taken.Some? && taken.value in t.jobs && t.jobs[taken.value].queue != topic ==> forall id :: id in first ==>
              IsHeld(t, id)
  {
    ScanPicks(t, o, first, adapter, now);
  }
}
