/** Creating machine tags while callbacks interleave: the `creating` map lets all callers of one desk,
    owner, type and label share one lookup and one creation. */
module MachineTags {
  import opened Collections

  type Rid = string

  /** Owner, type and label. */
  datatype Name = Name(owner: Rid, kind: string, text: string)

  /** The key of the `creating` map. */
  datatype Key = Key(name: Name, desk: Option<Rid>)

  /** A human tag and the desks whose vocabulary has it. */
  datatype Human = Human(name: Name, desks: set<Rid>)

  /** Where one shared piece of work stands: before the lookup of the desk's human tag, before that of the
      machine tag, after both found nothing, or over. `result` is what its callers get; None is a failure. */
  datatype Phase = Looking | Asking | Creating | Settled(result: Option<Rid>)

  datatype Work = Work(key: Key, phase: Phase, cleaned: bool)

  /** The machine tags and the human ones; every piece of work so far, in order; the map from keys to running
      work; and each caller's piece of work. */
  datatype State = State(
    machines: map<Rid, Name>, humans: map<Rid, Human>,
    works: seq<Work>, creating: map<Key, nat>, callers: map<nat, nat>)

  /** One step between two waits of a request, or a change made by another request: pruning a machine tag
      that has lost its last link, or anything at all to the human tags and the desks that have them. */
  datatype Action =
    | Call(caller: nat, key: Key)
    | LookForHuman(work: nat, found: Option<Rid>)
    | LookForMachine(work: nat, found: Option<Rid>)
    | LookupFails(work: nat)
    | Create(work: nat, rid: Rid)
    | CreateFails(work: nat)
    | CleanUp(work: nat)
    | Prune(rid: Rid)
    | ChangeHumans(humans: map<Rid, Human>)

  const EMPTY := State(map[], map[], [], map[], map[])

  predicate IsMachine(s: State, e: Rid, name: Name) { e in s.machines && s.machines[e] == name }

  /** What `findHumanInDesk` looks for; without a desk there is nothing. */
  predicate IsHumanHere(s: State, e: Rid, key: Key) {
    e in s.humans && s.humans[e].name == key.name && key.desk.Some? && key.desk.value in s.humans[e].desks
  }

  predicate InPhase(s: State, work: nat, phase: Phase) { work < |s.works| && s.works[work].phase == phase }

  ghost predicate Enabled(s: State, a: Action) {
    match a
    case Call(caller, key) => caller !in s.callers
    case LookForHuman(work, found) =>
      && InPhase(s, work, Looking)
      && (found.Some? ==> IsHumanHere(s, found.value, s.works[work].key))
      && (found.None? ==> forall e :: !IsHumanHere(s, e, s.works[work].key))
    case LookForMachine(work, found) =>
      && InPhase(s, work, Asking)
      && (found.Some? ==> IsMachine(s, found.value, s.works[work].key.name))
      && (found.None? ==> forall e :: !IsMachine(s, e, s.works[work].key.name))
    case LookupFails(work) => InPhase(s, work, Looking) || InPhase(s, work, Asking)
    case Create(work, rid) => InPhase(s, work, Creating) && rid !in s.machines && rid !in s.humans
    case CreateFails(work) => InPhase(s, work, Creating)
    case CleanUp(work) => work < |s.works| && s.works[work].phase.Settled? && !s.works[work].cleaned
    case Prune(rid) => rid in s.machines
    case ChangeHumans(humans) => humans.Keys !! s.machines.Keys
  }

  function WithPhase(s: State, work: nat, phase: Phase): State
    requires work < |s.works|
  {
    s.(works := s.works[work := s.works[work].(phase := phase)])
  }

  function Step(s: State, a: Action): State
    requires Enabled(s, a)
  {
    match a
    case Call(caller, key) =>
      if key in s.creating then s.(callers := s.callers[caller := s.creating[key]])
      else s.(works := s.works + [Work(key, Looking, false)], creating := s.creating[key := |s.works|],
              callers := s.callers[caller := |s.works|])
    case LookForHuman(work, found) => WithPhase(s, work, if found.Some? then Settled(found) else Asking)
    case LookForMachine(work, found) => WithPhase(s, work, if found.Some? then Settled(found) else Creating)
    case LookupFails(work) => WithPhase(s, work, Settled(None))
    case Create(work, rid) =>
      WithPhase(s, work, Settled(Some(rid))).(machines := s.machines[rid := s.works[work].key.name])
    case CreateFails(work) => WithPhase(s, work, Settled(None))
    case CleanUp(work) => s.(works := s.works[work := s.works[work].(cleaned := true)],
                             creating := s.creating - {s.works[work].key})
    case Prune(rid) => s.(machines := s.machines - {rid})
    case ChangeHumans(humans) => s.(humans := humans)
  }

  ghost predicate IsRun(s: State, run: seq<Action>)
    decreases |run|
  {
    run == [] || (Enabled(s, run[0]) && IsRun(Step(s, run[0]), run[1..]))
  }

  ghost function After(s: State, run: seq<Action>): State
    requires IsRun(s, run)
    decreases |run|
  {
    if run == [] then s else After(Step(s, run[0]), run[1..])
  }

  // ---- at most one ----

  /** The map holds exactly the work that is not cleaned up, one piece a key. */
  ghost predicate MapInv(s: State) {
    && (forall key :: key in s.creating ==> s.creating[key] < |s.works| && s.works[s.creating[key]].key == key)
    && (forall i :: 0 <= i < |s.works| ==>
          (!s.works[i].cleaned <==> s.works[i].key in s.creating && s.creating[s.works[i].key] == i))
    && (forall i :: 0 <= i < |s.works| && s.works[i].cleaned ==> s.works[i].phase.Settled?)
    && (forall c :: c in s.callers ==> s.callers[c] < |s.works|)
  }

  /** Work that is about to create saw no machine tag of the name, and there is still none. */
  ghost predicate NoneYet(s: State, i: nat)
    requires i < |s.works|
  {
    s.works[i].phase.Creating? ==> forall e :: !IsMachine(s, e, s.works[i].key.name)
  }

  ghost predicate AtMostOne(s: State, name: Name) {
    forall e, o :: IsMachine(s, e, name) && IsMachine(s, o, name) ==> e == o
  }

  /** The work for the key's name is all for the key's desk, and there is at most one machine tag of it. */
  ghost predicate DeskInv(s: State, key: Key) {
    && MapInv(s)
    && (forall i :: 0 <= i < |s.works| && s.works[i].key.name == key.name ==> s.works[i].key == key && NoneYet(s, i))
    && AtMostOne(s, key.name)
  }

  /** Calls for the name are for the key's desk; those for other names are for any. */
  predicate OnDesk(a: Action, key: Key) { a.Call? && a.key.name == key.name ==> a.key == key }

  lemma CallKeeps(s: State, a: Action, key: Key)
    requires a.Call? && DeskInv(s, key) && Enabled(s, a) && OnDesk(a, key)
    ensures DeskInv(Step(s, a), key)
  {
    var t := Step(s, a);
    CallKeepsMap(s, a);
    assert forall e, n :: IsMachine(t, e, n) == IsMachine(s, e, n);
    forall i | 0 <= i < |t.works| && t.works[i].key.name == key.name ensures NoneYet(t, i) && t.works[i].key == key {
      if i < |s.works| { assert NoneYet(s, i) && t.works[i] == s.works[i]; }
    }
  }

  lemma CallKeepsMap(s: State, a: Action)
    requires a.Call? && MapInv(s) && Enabled(s, a)
    ensures MapInv(Step(s, a))
  {
  }

  /** Two pieces of work for the name are not creating at the same time. */
  lemma OneCreating(s: State, key: Key, i: nat, j: nat)
    requires DeskInv(s, key) && i < |s.works| && j < |s.works|
    requires s.works[i].phase.Creating? && s.works[j].phase.Creating?
    requires s.works[i].key.name == s.works[j].key.name == key.name
    ensures i == j
  {
    assert s.works[i].key == s.works[j].key && !s.works[i].cleaned && !s.works[j].cleaned;
  }

  predicate OfWork(a: Action) {
    a.LookForHuman? || a.LookForMachine? || a.LookupFails? || a.Create? || a.CreateFails? || a.CleanUp?
  }

  lemma WorkKeeps(s: State, a: Action, key: Key)
    requires OfWork(a) && !a.Create? && DeskInv(s, key) && Enabled(s, a)
    ensures DeskInv(Step(s, a), key)
  {
    var t := Step(s, a);
    assert t.machines == s.machines && |t.works| == |s.works|;
    assert forall e, n :: IsMachine(t, e, n) == IsMachine(s, e, n);
    forall i | 0 <= i < |t.works| && t.works[i].key.name == key.name ensures NoneYet(t, i) && t.works[i].key == key {
      assert NoneYet(s, i);
    }
    WorkKeepsMap(s, a);
  }

  lemma WorkKeepsMap(s: State, a: Action)
    requires OfWork(a) && MapInv(s) && Enabled(s, a)
    ensures MapInv(Step(s, a))
  {
    var t := Step(s, a);
    forall i | 0 <= i < |t.works|
      ensures t.works[i].key == s.works[i].key
      ensures !t.works[i].cleaned <==> t.works[i].key in t.creating && t.creating[t.works[i].key] == i
    {
      assert !s.works[i].cleaned <==> s.works[i].key in s.creating && s.creating[s.works[i].key] == i;
    }
  }

  lemma CreateKeeps(s: State, a: Action, key: Key)
    requires a.Create? && DeskInv(s, key) && Enabled(s, a)
    ensures DeskInv(Step(s, a), key)
  {
    var t := Step(s, a);
    var name := s.works[a.work].key.name;
    assert forall e, n :: n != name ==> IsMachine(t, e, n) == IsMachine(s, e, n);
    assert forall e :: IsMachine(t, e, name) <==> IsMachine(s, e, name) || e == a.rid;
    WorkKeepsMap(s, a);
    if name == key.name {
      assert NoneYet(s, a.work);
      forall j | 0 <= j < |s.works| && s.works[j].phase.Creating? && s.works[j].key.name == name ensures j == a.work {
        OneCreating(s, key, a.work, j);
      }
    }
    forall i | 0 <= i < |t.works| && t.works[i].key.name == key.name ensures NoneYet(t, i) && t.works[i].key == key {
      assert NoneYet(s, i);
    }
  }

  lemma OthersKeep(s: State, a: Action, key: Key)
    requires (a.Prune? || a.ChangeHumans?) && DeskInv(s, key) && Enabled(s, a)
    ensures DeskInv(Step(s, a), key)
  {
    var t := Step(s, a);
    assert forall e, n :: IsMachine(t, e, n) ==> IsMachine(s, e, n);
    forall i | 0 <= i < |t.works| && t.works[i].key.name == key.name ensures NoneYet(t, i) { assert NoneYet(s, i); }
  }

  /** Every step keeps at most one machine tag of the name. */
  lemma StepKeepsOne(s: State, a: Action, key: Key)
    requires DeskInv(s, key) && Enabled(s, a) && OnDesk(a, key)
    ensures DeskInv(Step(s, a), key)
  {
    if a.Call? {
      CallKeeps(s, a, key);
    } else if a.Create? {
      CreateKeeps(s, a, key);
    } else if OfWork(a) {
      WorkKeeps(s, a, key);
    } else {
      OthersKeep(s, a, key);
    }
  }

  lemma {:induction false} RunKeepsOne(s: State, run: seq<Action>, key: Key)
    requires DeskInv(s, key) && IsRun(s, run) && forall a :: a in run ==> OnDesk(a, key)
    ensures DeskInv(After(s, run), key)
    decreases |run|
  {
    if run != [] {
      StepKeepsOne(s, run[0], key);
      RunKeepsOne(Step(s, run[0]), run[1..], key);
    }
  }

  /** The service just started, over whatever tags there are. */
  predicate IsFresh(s: State) { s.works == [] && s.creating == map[] && s.callers == map[] }

  /** When the calls for a name are all for one desk, every interleaving of lookups, creations, failures,
      clean-ups, prunes and changes of human tags, with calls for other names on any desk, leaves at most one
      machine tag of the owner, type and label, if there was no more than one at the start. */
  lemma AtMostOneMachineTag(s: State, run: seq<Action>, key: Key)
    requires IsFresh(s) && AtMostOne(s, key.name)
    requires IsRun(s, run) && forall a :: a in run ==> OnDesk(a, key)
    ensures AtMostOne(After(s, run), key.name)
  {
    RunKeepsOne(s, run, key);
  }

  // ---- what a step gives ----

  /** Work is over once it has found a tag of its name or made one, or when a lookup or the creation failed;
      then it has that tag, or none, for good. */
  ghost predicate WorkMoves(s: State, a: Action, t: State, i: nat)
    requires i < |s.works| && i < |t.works|
  {
    var w, w' := s.works[i], t.works[i];
    && w'.key == w.key && (w'.cleaned <==> w.cleaned || a == CleanUp(i))
    && (w.phase.Settled? ==> w'.phase == w.phase)
    && (!w.phase.Settled? && w'.phase.Settled? && w'.phase.result.Some? ==>
          || (a == LookForHuman(i, w'.phase.result) && IsHumanHere(s, w'.phase.result.value, w.key))
          || (a == LookForMachine(i, w'.phase.result) && IsMachine(s, w'.phase.result.value, w.key.name))
          || (a == Create(i, w'.phase.result.value) && IsMachine(t, w'.phase.result.value, w.key.name)))
    && (!w.phase.Settled? && w'.phase == Settled(None) ==> a == LookupFails(i) || a == CreateFails(i))
    && (a == LookForHuman(i, None) ==> w'.phase == Asking) && (a == LookForMachine(i, None) ==> w'.phase == Creating)
    && (Ends(a, i) ==> w'.phase.Settled?)
  }

  /** What ends a piece of work: anything but a lookup that finds nothing. */
  predicate Ends(a: Action, i: nat) {
    || ((a.LookForHuman? || a.LookForMachine?) && a.work == i && a.found.Some?)
    || ((a.LookupFails? || a.Create? || a.CreateFails?) && a.work == i)
  }

  /** A machine tag comes by the creation of work for its name, and goes by a prune. */
  ghost predicate MachinesMove(s: State, a: Action, t: State) {
    forall e :: (e in t.machines <==> (e in s.machines && a != Prune(e)) || (a.Create? && a.rid == e))
                && (e in s.machines && e in t.machines ==> t.machines[e] == s.machines[e])
  }

  /** A caller joins the work that runs for its key, and starts new work when there is none. */
  ghost predicate CallerJoins(s: State, a: Action, t: State) {
    && (forall c :: c in s.callers ==> c in t.callers && t.callers[c] == s.callers[c])
    && (forall c :: c in t.callers && c !in s.callers ==> a.Call? && a.caller == c)
    && |t.works| == |s.works| + (if a.Call? && a.key !in s.creating then 1 else 0)
    && (a.Call? ==>
          && a.caller in t.callers && a.key in t.creating && t.callers[a.caller] == t.creating[a.key]
          && t.callers[a.caller] < |t.works| && t.works[t.callers[a.caller]].key == a.key
          && !t.works[t.callers[a.caller]].cleaned
          && (a.key !in s.creating ==> t.works[t.callers[a.caller]] == Work(a.key, Looking, false)))
  }

  lemma WorkSteps(s: State, a: Action, i: nat)
    requires Enabled(s, a) && i < |s.works|
    ensures i < |Step(s, a).works| && WorkMoves(s, a, Step(s, a), i)
  {
  }

  lemma MachineSteps(s: State, a: Action)
    requires Enabled(s, a)
    ensures MachinesMove(s, a, Step(s, a)) && (a.ChangeHumans? || Step(s, a).humans == s.humans)
  {
  }

  lemma CallerSteps(s: State, a: Action)
    requires MapInv(s) && Enabled(s, a)
    ensures CallerJoins(s, a, Step(s, a))
  {
    if a.Call? && a.key in s.creating { assert s.creating[a.key] < |s.works|; }
  }

  /** What every step does to the work, the machine tags and the callers, whatever is running. */
  lemma StepMeans(s: State, a: Action)
    requires MapInv(s) && Enabled(s, a)
    ensures var t := Step(s, a);
            && (forall i :: 0 <= i < |s.works| ==> i < |t.works| && WorkMoves(s, a, t, i))
            && MachinesMove(s, a, t) && CallerJoins(s, a, t) && (a.ChangeHumans? || t.humans == s.humans)
  {
    forall i | 0 <= i < |s.works| ensures i < |Step(s, a).works| && WorkMoves(s, a, Step(s, a), i) {
      WorkSteps(s, a, i);
    }
    MachineSteps(s, a);
    CallerSteps(s, a);
  }

  // ---- the callers ----

  predicate HasCalled(s: State, caller: nat) { caller in s.callers && s.callers[caller] < |s.works| }

  /** The key a caller asked for. */
  function KeyOf(s: State, caller: nat): Key
    requires HasCalled(s, caller)
  {
    s.works[s.callers[caller]].key
  }

  /** What a caller got so far. */
  function Got(s: State, caller: nat): Option<Rid>
    requires HasCalled(s, caller)
  {
    var phase := s.works[s.callers[caller]].phase;
    if phase.Settled? then phase.result else None
  }

  predicate IsSettled(s: State, work: nat) { work < |s.works| && s.works[work].phase.Settled? }

  /** What the work handed out is a machine tag of the name. */
  ghost predicate GaveMachine(s: State, name: Name, work: nat)
    requires work < |s.works|
  {
    var w := s.works[work];
    w.key.name == name && w.phase.Settled? && w.phase.result.Some? ==> IsMachine(s, w.phase.result.value, name)
  }

  /** So did all work for the name but that which was over at the start. */
  ghost predicate AllGaveMachine(s: State, name: Name, past: set<nat>) {
    forall i :: 0 <= i < |s.works| && i !in past ==> GaveMachine(s, name, i)
  }

  /** The step finds no human tag for the name and prunes no machine tag of it. */
  predicate Spares(s: State, a: Action, name: Name) {
    && (a.LookForHuman? && a.work < |s.works| && s.works[a.work].key.name == name ==> a.found.None?)
    && (a.Prune? ==> !IsMachine(s, a.rid, name))
  }

  ghost predicate SparesAll(s: State, run: seq<Action>, name: Name)
    requires IsRun(s, run)
    decreases |run|
  {
    run == [] || (Spares(s, run[0], name) && SparesAll(Step(s, run[0]), run[1..], name))
  }

  lemma StepKeepsGiven(s: State, a: Action, name: Name, past: set<nat>)
    requires AllGaveMachine(s, name, past) && Enabled(s, a) && Spares(s, a, name)
    ensures AllGaveMachine(Step(s, a), name, past)
  {
    var t := Step(s, a);
    forall i | 0 <= i < |t.works| && i !in past ensures GaveMachine(t, name, i) {
      if i < |s.works| { assert GaveMachine(s, name, i); }
    }
  }

  lemma {:induction false} RunKeepsGiven(s: State, run: seq<Action>, name: Name, past: set<nat>)
    requires AllGaveMachine(s, name, past) && IsRun(s, run) && SparesAll(s, run, name)
    ensures AllGaveMachine(After(s, run), name, past)
    decreases |run|
  {
    if run != [] {
      StepKeepsGiven(s, run[0], name, past);
      RunKeepsGiven(Step(s, run[0]), run[1..], name, past);
    }
  }

  /** A caller of the name that has a tag now and whose work was not over at the start. */
  ghost predicate Served(s: State, t: State, name: Name, caller: nat) {
    HasCalled(t, caller) && KeyOf(t, caller).name == name && Got(t, caller).Some? && !IsSettled(s, t.callers[caller])
  }

  /** From any state that `AtMostOneMachineTag` passes through: as long as no lookup for the name finds a human
      tag and no machine tag of that name is pruned, all callers of the name that get a tag get the same one,
      the only machine tag of the name. Prunes and human tags of other names do not matter, nor do human tags
      of this name on other desks. */
  lemma CallersShareUnlessSeen(s: State, run: seq<Action>, key: Key, c: nat, d: nat)
    requires DeskInv(s, key) && IsRun(s, run) && forall a :: a in run ==> OnDesk(a, key)
    requires SparesAll(s, run, key.name)
    requires Served(s, After(s, run), key.name, c) && Served(s, After(s, run), key.name, d)
    ensures Got(After(s, run), c) == Got(After(s, run), d)
    ensures forall e :: IsMachine(After(s, run), e, key.name) <==> Got(After(s, run), c) == Some(e)
  {
    var past := set i | 0 <= i < |s.works| && s.works[i].phase.Settled?;
    RunKeepsOne(s, run, key);
    RunKeepsGiven(s, run, key.name, past);
    var t := After(s, run);
    assert GaveMachine(t, key.name, t.callers[c]) && GaveMachine(t, key.name, t.callers[d]);
  }

  // ---- human tags on the caller's desk ----

  ghost predicate NoHumanHere(s: State, key: Key) { forall e :: !IsHumanHere(s, e, key) }

  /** Before each step the key's desk has no human tag of the name, and no machine tag of it is pruned. */
  ghost predicate Undisturbed(s: State, run: seq<Action>, key: Key)
    requires IsRun(s, run)
    decreases |run|
  {
    run == [] || (NoHumanHere(s, key) && (run[0].Prune? ==> !IsMachine(s, run[0].rid, key.name))
                  && Undisturbed(Step(s, run[0]), run[1..], key))
  }

  lemma {:induction false} UndisturbedSpares(s: State, run: seq<Action>, key: Key)
    requires DeskInv(s, key) && IsRun(s, run) && forall a :: a in run ==> OnDesk(a, key)
    requires Undisturbed(s, run, key)
    ensures SparesAll(s, run, key.name)
    decreases |run|
  {
    if run != [] {
      StepKeepsOne(s, run[0], key);
      var a := run[0];
      if a.LookForHuman? && s.works[a.work].key.name == key.name { assert s.works[a.work].key == key; }
      UndisturbedSpares(Step(s, a), run[1..], key);
    }
  }

  /** Single creation, over any stretch `run` of the service's life after `first`: while the callers' desk has
      no human tag of the name and no machine tag of the name is pruned, all callers that get a tag from work
      that was not over before get the same one, the only machine tag of the name. */
  lemma CallersShare(s: State, first: seq<Action>, run: seq<Action>, key: Key, c: nat, d: nat)
    requires IsFresh(s) && AtMostOne(s, key.name) && IsRun(s, first) && IsRun(After(s, first), run)
    requires forall a :: a in first + run ==> OnDesk(a, key)
    requires Undisturbed(After(s, first), run, key)
    requires var m := After(s, first); Served(m, After(m, run), key.name, c) && Served(m, After(m, run), key.name, d)
    ensures var t := After(After(s, first), run);
            && Got(t, c) == Got(t, d)
            && forall e :: IsMachine(t, e, key.name) <==> Got(t, c) == Some(e)
  {
    assert forall a :: a in first || a in run ==> a in first + run;
    RunKeepsOne(s, first, key);
    UndisturbedSpares(After(s, first), run, key);
    CallersShareUnlessSeen(After(s, first), run, key, c, d);
  }

  // ---- runs that show what is needed ----

  const CAT := Name("u", "Tag", "cat")
  const ON_D := Key(CAT, Some("d"))
  const ON_E := Key(CAT, Some("e"))

  /** A run with one step put in front. */
  lemma Before(s: State, a: Action, run: seq<Action>) returns (longer: seq<Action>)
    requires Enabled(s, a) && IsRun(Step(s, a), run)
    ensures IsRun(s, longer) && After(s, longer) == After(Step(s, a), run) && longer == [a] + run
  {
    longer := [a] + run;
    assert longer[1..] == run;
  }

  lemma Joined(s: State, a: seq<Action>, b: seq<Action>)
    requires IsRun(s, a) && IsRun(After(s, a), b)
    ensures IsRun(s, a + b) && After(s, a + b) == After(After(s, a), b)
    decreases |a|
  {
    if a == [] {
      assert a + b == b;
    } else {
      assert (a + b)[0] == a[0] && (a + b)[1..] == a[1..] + b;
      Joined(Step(s, a[0]), a[1..], b);
    }
  }

  /** The key has the desk in it, so two desks can each create the same machine tag. */
  lemma TwoDesksTwoTags()
    ensures exists run :: IsRun(EMPTY, run) && !AtMostOne(After(EMPTY, run), CAT)
  {
    var s1 := Step(EMPTY, Call(0, ON_D));
    var s2 := Step(s1, Call(1, ON_E));
    assert s2.works == [Work(ON_D, Looking, false), Work(ON_E, Looking, false)];
    var run := BothLook(s2);
    run := Before(s1, Call(1, ON_E), run);
    run := Before(EMPTY, Call(0, ON_D), run);
  }

  lemma BothLook(s: State) returns (run: seq<Action>)
    requires s.machines == map[] && s.humans == map[]
    requires s.works == [Work(ON_D, Looking, false), Work(ON_E, Looking, false)]
    ensures IsRun(s, run) && !AtMostOne(After(s, run), CAT)
  {
    var s1 := Step(s, LookForHuman(0, None));
    assert s1.works == [Work(ON_D, Asking, false), Work(ON_E, Looking, false)];
    var s2 := Step(s1, LookForHuman(1, None));
    assert s2.works == [Work(ON_D, Asking, false), Work(ON_E, Asking, false)];
    run := BothAsk(s2);
    run := Before(s1, LookForHuman(1, None), run);
    run := Before(s, LookForHuman(0, None), run);
  }

  lemma BothAsk(s: State) returns (run: seq<Action>)
    requires s.machines == map[] && s.humans == map[]
    requires s.works == [Work(ON_D, Asking, false), Work(ON_E, Asking, false)]
    ensures IsRun(s, run) && !AtMostOne(After(s, run), CAT)
  {
    var s1 := Step(s, LookForMachine(0, None));
    assert s1.works == [Work(ON_D, Creating, false), Work(ON_E, Asking, false)];
    var s2 := Step(s1, LookForMachine(1, None));
    assert s2.works == [Work(ON_D, Creating, false), Work(ON_E, Creating, false)];
    run := BothCreate(s2);
    run := Before(s1, LookForMachine(1, None), run);
    run := Before(s, LookForMachine(0, None), run);
  }

  lemma BothCreate(s: State) returns (run: seq<Action>)
    requires s.machines == map[] && s.humans == map[]
    requires s.works == [Work(ON_D, Creating, false), Work(ON_E, Creating, false)]
    ensures IsRun(s, run) && !AtMostOne(After(s, run), CAT)
  {
    var s1 := Step(s, Create(0, "1"));
    var s2 := Step(s1, Create(1, "2"));
    assert IsMachine(s2, "1", CAT) && IsMachine(s2, "2", CAT);
    run := Before(s1, Create(1, "2"), []);
    run := Before(s, Create(0, "1"), run);
  }

  /** One call that creates tag "1" and is cleaned up. */
  const ONCE := State(map["1" := CAT], map[], [Work(ON_D, Settled(Some("1")), true)], map[], map[0 := 0])

  lemma ToOnce() returns (run: seq<Action>)
    ensures IsRun(EMPTY, run) && After(EMPTY, run) == ONCE && AllOnD(run) && NoPrune(run) && NoHumans(run)
  {
    var s := Step(EMPTY, Call(0, ON_D));
    assert s.works == [Work(ON_D, Looking, false)];
    run := CreateAlone(s);
    run := Before(EMPTY, Call(0, ON_D), run);
  }

  lemma CreateAlone(s: State) returns (run: seq<Action>)
    requires s == State(map[], map[], [Work(ON_D, Looking, false)], map[ON_D := 0], map[0 := 0])
    ensures IsRun(s, run) && After(s, run) == ONCE && AllOnD(run) && NoPrune(run) && NoHumans(run)
  {
    var s1 := Step(s, LookForHuman(0, None));
    var s2 := Step(s1, LookForMachine(0, None));
    var s3 := Step(s2, Create(0, "1"));
    assert s3.machines == map["1" := CAT] && s3.works == [Work(ON_D, Settled(Some("1")), false)];
    assert Step(s3, CleanUp(0)) == ONCE;
    run := Before(s3, CleanUp(0), []);
    run := Before(s2, Create(0, "1"), run);
    run := Before(s1, LookForMachine(0, None), run);
    run := Before(s, LookForHuman(0, None), run);
  }

  /** All calls for the name are for desk "d". */
  predicate AllOnD(run: seq<Action>) { forall a :: a in run ==> OnDesk(a, ON_D) }

  predicate NoPrune(run: seq<Action>) { forall a :: a in run ==> !a.Prune? }

  predicate NoHumans(run: seq<Action>) { forall a :: a in run ==> !a.ChangeHumans? }

  /** Two callers of desk "d" have different tags of the name. */
  ghost predicate Differ(s: State) {
    && HasCalled(s, 0) && HasCalled(s, 1) && KeyOf(s, 0) == KeyOf(s, 1) == ON_D
    && Got(s, 0).Some? && Got(s, 1).Some? && Got(s, 0) != Got(s, 1)
  }

  /** A human tag put on the desk between two calls: the second gets that one. Nothing was pruned. */
  lemma HumanBetweenCalls()
    ensures exists run :: IsRun(EMPTY, run) && AllOnD(run) && Differ(After(EMPTY, run)) && NoPrune(run)
  {
    var first := ToOnce();
    var humans := map["2" := Human(CAT, {"d"})];
    var s1 := Step(ONCE, ChangeHumans(humans));
    var s2 := Step(s1, Call(1, ON_D));
    var s3 := Step(s2, LookForHuman(1, Some("2")));
    assert Differ(s3);
    var more := Before(s2, LookForHuman(1, Some("2")), []);
    more := Before(s1, Call(1, ON_D), more);
    more := Before(ONCE, ChangeHumans(humans), more);
    Joined(EMPTY, first, more);
  }

  /** The tag pruned between two calls: the second makes another. There never was a human tag. */
  lemma PrunedBetweenCalls()
    ensures exists run :: IsRun(EMPTY, run) && AllOnD(run) && Differ(After(EMPTY, run)) && NoHumans(run)
  {
    var first := ToOnce();
    var s1 := Step(ONCE, Prune("1"));
    var s2 := Step(s1, Call(1, ON_D));
    var more := CreateAgain(s2);
    more := Before(s1, Call(1, ON_D), more);
    more := Before(ONCE, Prune("1"), more);
    Joined(EMPTY, first, more);
  }

  lemma CreateAgain(s: State) returns (run: seq<Action>)
    requires s == State(map[], map[], [Work(ON_D, Settled(Some("1")), true), Work(ON_D, Looking, false)],
                        map[ON_D := 1], map[0 := 0, 1 := 1])
    ensures IsRun(s, run) && AllOnD(run) && Differ(After(s, run)) && NoHumans(run)
  {
    var s1 := Step(s, LookForHuman(1, None));
    var s2 := Step(s1, LookForMachine(1, None));
    assert Differ(Step(s2, Create(1, "2")));
    run := Before(s2, Create(1, "2"), []);
    run := Before(s1, LookForMachine(1, None), run);
    run := Before(s, LookForHuman(1, None), run);
  }
}
