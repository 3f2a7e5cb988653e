/** What the operations on the tag tables mean row by row: which tags, places, links and marks are there
    afterwards, written out without the functions that compute them. */
module TagRows {
  import opened Collections
  import opened TagTable

  /** The desk lists the tag. */
  predicate IsOn(s: Tags, e: Rid, desk: Rid) { exists d :: d in s.deskTags && d.entity == e && d.desk == desk }

  /** A human tag of the desk with this owner, type and label. */
  predicate IsTag(s: Tags, e: Rid, kind: string, name: string, user: Rid, desk: Rid) {
    e in s.entities && s.entities[e] == Entity(user, kind, name, false) && IsOn(s, e, desk)
  }

  ghost predicate SomeTag(s: Tags, kind: string, name: string, user: Rid, desk: Rid) {
    exists e :: IsTag(s, e, kind, name, user, desk)
  }

  /** A live desk of the tag has another human tag of its owner and type with this label. */
  ghost predicate IsTaken(s: Tags, e: Rid, name: string)
    requires e in s.entities
  {
    exists desk, o :: desk !in s.deleting && IsOn(s, e, desk) && o != e
                      && IsTag(s, o, s.entities[e].kind, name, s.entities[e].owner, desk)
  }

  /** The tag has places, and all of them are on these desks. */
  ghost predicate OnlyThere(s: Tags, desks: set<Rid>, e: Rid) {
    (exists d :: d in s.deskTags && d.entity == e) && forall d :: d in s.deskTags && d.entity == e ==> d.desk in desks
  }

  predicate Matches(wanted: Option<string>, stored: Option<string>) { wanted.Some? ==> stored == wanted }

  /** The links an operation removes. */
  ghost predicate LinkGoes(s: Tags, op: Op, l: Link) {
    match op
    case Unlink(rid, target) => l.key.entity == rid && l.key.target == target && l.key.region == None
    case DropRun(source, service, task, model) =>
      && l.key.target == source && l.key.maker.ByMachine? && Matches(service, l.key.maker.service)
      && Matches(task, l.key.maker.task) && Matches(model, l.key.maker.model)
    case DropNodes(targets) => l.key.target in targets
    case DropDesks(desks) => OnlyThere(s, desks, l.key.entity)
    case Leave(desk, rid) => l.key.entity == rid && (l.desk == desk || OnlyThere(s, {desk}, rid))
    case Erase(rid) => l.key.entity == rid
    case Create(_, _, _) => false
    case Attach(_, _) => false
    case PutLink(_) => false
    case Rename(_, _) => false
    case Hide(_) => false
    case Revive(_) => false
  }

  /** The machine tag loses its last link. */
  ghost predicate LosesLinks(s: Tags, op: Op, e: Rid) {
    && (exists l :: l in s.links && l.key.entity == e && LinkGoes(s, op, l))
    && forall l :: l in s.links && l.key.entity == e ==> LinkGoes(s, op, l)
  }

  /** The tags an operation removes: machine tags left without links, human tags left without a desk, or the
      one that is deleted. */
  ghost predicate TagGoes(s: Tags, op: Op, e: Rid)
    requires e in s.entities
  {
    match op
    case Unlink(rid, target) => e == rid && s.entities[e].machine
                                && forall l :: l in s.links && l.key.entity == e ==> LinkGoes(s, op, l)
    case DropRun(_, _, _, _) => s.entities[e].machine && LosesLinks(s, op, e)
    case DropNodes(_) => s.entities[e].machine && LosesLinks(s, op, e)
    case DropDesks(desks) => !s.entities[e].machine && OnlyThere(s, desks, e)
    case Leave(desk, rid) => e == rid && OnlyThere(s, {desk}, rid)
    case Erase(rid) => e == rid
    case Create(_, _, _) => false
    case Attach(_, _) => false
    case PutLink(_) => false
    case Rename(_, _) => false
    case Hide(_) => false
    case Revive(_) => false
  }

  predicate PlaceGoes(op: Op, d: DeskTag) {
    || (op.DropDesks? && d.desk in op.desks)
    || (op.Leave? && d.entity == op.rid && d.desk == op.desk)
    || (op.Erase? && d.entity == op.rid)
  }

  predicate PlaceComes(s: Tags, op: Op, d: DeskTag) {
    || (op.Create? && !op.entity.machine && op.home.Some? && d == DeskTag(op.home.value, op.rid, op.entity.owner))
    || (op.Attach? && op.rid in s.entities && d == DeskTag(op.desk, op.rid, s.entities[op.rid].owner))
  }

  ghost predicate EntitiesChange(s: Tags, op: Op, t: Tags) {
    && (forall e :: e in t.entities <==> (e in s.entities && !TagGoes(s, op, e)) || (op.Create? && e == op.rid))
    && (forall e :: e in t.entities ==>
          if op.Create? && e == op.rid then t.entities[e] == op.entity
          else e in s.entities
               && t.entities[e] == if op.Rename? && e == op.rid then s.entities[e].(name := op.name) else s.entities[e])
  }

  ghost predicate PlacesChange(s: Tags, op: Op, t: Tags) {
    forall d :: d in t.deskTags <==> (d in s.deskTags && !PlaceGoes(op, d)) || PlaceComes(s, op, d)
  }

  ghost predicate LinksChange(s: Tags, op: Op, t: Tags) {
    forall l :: l in t.links <==> (l in s.links && !LinkGoes(s, op, l)) || (op.PutLink? && l == op.link)
  }

  ghost predicate MarksChange(s: Tags, op: Op, t: Tags) {
    forall d :: d in t.deleting <==>
      (op.Hide? && d == op.desk) || (d in s.deleting && !(op.Revive? && d == op.desk))
  }

  ghost predicate Changes(s: Tags, op: Op, t: Tags) {
    EntitiesChange(s, op, t) && PlacesChange(s, op, t) && LinksChange(s, op, t) && MarksChange(s, op, t)
  }

  lemma PrunedMeans(s: Tags, which: set<Link>, among: set<Rid>)
    ensures var t := Pruned(DropLinks(s, which), among);
            && t.deskTags == s.deskTags && t.links == s.links - which && t.deleting == s.deleting
            && (forall e :: e in t.entities <==>
                  e in s.entities && !(e in among && s.entities[e].machine
                                       && forall l :: l in s.links && l.key.entity == e ==> l in which))
            && (forall e :: e in t.entities ==> t.entities[e] == s.entities[e])
  {
    var m := DropLinks(s, which);
    forall e ensures HasLink(m, e) <==> exists l :: l in s.links && l.key.entity == e && l !in which {}
  }

  lemma OnlyOnMeans(s: Tags, desks: set<Rid>, e: Rid)
    ensures OnlyOn(s, desks, e) <==> OnlyThere(s, desks, e)
  {
  }

  lemma DropsMean(s: Tags, op: Op, which: set<Link>)
    requires Enabled(s, op) && (op.DropRun? || op.DropNodes?)
    requires forall l :: l in which <==> l in s.links && LinkGoes(s, op, l)
    requires Apply(s, op) == DropAndPrune(s, which)
    ensures Changes(s, op, Apply(s, op))
  {
    PrunedMeans(s, which, EntitiesOf(which));
    forall e | e in s.entities
      ensures LosesLinks(s, op, e)
              <==> e in EntitiesOf(which) && forall l :: l in s.links && l.key.entity == e ==> l in which
    {
    }
  }

  /** Every operation changes exactly these rows. */
  lemma StepChanges(s: Tags, op: Op)
    requires Enabled(s, op)
    ensures Changes(s, op, Apply(s, op))
  {
    match op
    case Create(rid, entity, home) =>
    case Attach(desk, rid) =>
    case PutLink(link) =>
    case Unlink(rid, target) => PrunedMeans(s, FileLinks(s, rid, target), {rid});
    case DropRun(source, service, task, model) => DropsMean(s, op, RunLinks(s, source, service, task, model));
    case DropNodes(targets) => DropsMean(s, op, LinksTo(s, targets));
    case DropDesks(desks) => forall e ensures OnlyOn(s, desks, e)
      <==> OnlyThere(s, desks, e) { OnlyOnMeans(s, desks, e); }
    case Rename(rid, name) =>
    case Leave(desk, rid) => LeaveMeans(s, desk, rid);
    case Erase(rid) =>
    case Hide(desk) =>
    case Revive(desk) =>
  }

  lemma LeaveMeans(s: Tags, desk: Rid, rid: Rid)
    requires Enabled(s, Leave(desk, rid))
    ensures Changes(s, Leave(desk, rid), LeftDesk(s, rid, desk))
  {
    var t := OffDesk(s, rid, desk);
    if OnlyThere(s, {desk}, rid) {
      forall d | d in t.deskTags ensures d.entity != rid { assert d in s.deskTags; }
      assert DeskTagsOf(t, rid) == {};
    } else {
      var d :| d in s.deskTags && d.entity == rid && d.desk != desk;
      assert d in DeskTagsOf(t, rid);
    }
  }

  /** The code's clash check is this. */
  lemma TakenMeans(s: Tags, e: Rid, name: string)
    requires e in s.entities
    ensures Clashes(s, e, name) <==> IsTaken(s, e, name)
  {
    ClashesOnLive(s, e, name);
    if IsTaken(s, e, name) {
      var desk, o :| desk !in s.deleting && IsOn(s, e, desk) && o != e
                     && IsTag(s, o, s.entities[e].kind, name, s.entities[e].owner, desk);
      assert ClashesOn(s, e, name, desk);
    }
    if desk :| desk !in s.deleting && ClashesOn(s, e, name, desk) {
      var o :| o in s.entities && o != e && HumanInDesk(s, o, s.entities[e].kind, name, s.entities[e].owner, desk);
      assert IsOn(s, e, desk) && IsTag(s, o, s.entities[e].kind, name, s.entities[e].owner, desk);
    }
  }
}
