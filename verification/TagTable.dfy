/** Tags, desk vocabularies and links as tables, each statement group of the tag service as one change,
    and what every run of such changes keeps. */
module TagTable {
  import opened Collections

  type Rid = string

  datatype Entity = Entity(owner: Rid, kind: string, name: string, machine: bool)

  /** A human tag's place in a desk's vocabulary. */
  datatype DeskTag = DeskTag(desk: Rid, entity: Rid, owner: Rid)

  datatype Maker = ByUser(tagger: Rid) | ByMachine(service: Option<string>, task: Option<string>, model: Option<string>)

  /** Which link this is: one per tag, target, region and maker. */
  datatype LinkKey = LinkKey(entity: Rid, target: Rid, region: Option<string>, maker: Maker)

  datatype Link = Link(key: LinkKey, owner: Rid, desk: Rid)

  /** `deleting` are the desks marked `_deleting`, which every check of access hides. */
  datatype Tags = Tags(entities: map<Rid, Entity>, deskTags: set<DeskTag>, links: set<Link>, deleting: set<Rid>)

  // ---- reading ----

  predicate InDesk(s: Tags, e: Rid, desk: Rid) { exists d :: d in s.deskTags && d.entity == e && d.desk == desk }

  predicate IsHuman(s: Tags, e: Rid) { e in s.entities && !s.entities[e].machine }

  /** A human tag of the desk with this owner, type and label. */
  predicate HumanInDesk(s: Tags, e: Rid, kind: string, name: string, user: Rid, desk: Rid) {
    e in s.entities && s.entities[e] == Entity(user, kind, name, false) && InDesk(s, e, desk)
  }

  predicate HasHuman(s: Tags, kind: string, name: string, user: Rid, desk: Rid) {
    exists e :: e in s.entities && HumanInDesk(s, e, kind, name, user, desk)
  }

  predicate HasLink(s: Tags, e: Rid) { exists l :: l in s.links && l.key.entity == e }

  /** A machine tag without links. */
  predicate IsOrphan(s: Tags, e: Rid) { e in s.entities && s.entities[e].machine && !HasLink(s, e) }

  function FileLinks(s: Tags, e: Rid, target: Rid): set<Link> {
    set l | l in s.links && l.key.entity == e && l.key.target == target && l.key.region.None?
  }

  function LinksTo(s: Tags, targets: set<Rid>): set<Link> { set l | l in s.links && l.key.target in targets }

  predicate Fits(wanted: Option<string>, stored: Option<string>) { wanted.None? || wanted == stored }

  /** The machine links of a run; a part that is not given fits any. */
  function RunLinks(s: Tags, target: Rid, service: Option<string>, task: Option<string>,
                    model: Option<string>): set<Link> {
    set l | l in s.links && l.key.target == target && l.key.maker.ByMachine? && Fits(service, l.key.maker.service)
            && Fits(task, l.key.maker.task) && Fits(model, l.key.maker.model)
  }

  function EntitiesOf(links: set<Link>): set<Rid> { set l | l in links :: l.key.entity }

  // ---- changes ----

  /** Deletes the machine tags among these that have no links. */
  function Pruned(s: Tags, among: set<Rid>): Tags {
    s.(entities := map e | e in s.entities && !(e in among && IsOrphan(s, e)) :: s.entities[e])
  }

  function DropLinks(s: Tags, which: set<Link>): Tags { s.(links := s.links - which) }

  function DropAndPrune(s: Tags, which: set<Link>): Tags { Pruned(DropLinks(s, which), EntitiesOf(which)) }

  function DeskTagsOf(s: Tags, e: Rid): set<DeskTag> { set d | d in s.deskTags && d.entity == e }

  function LinksOf(s: Tags, e: Rid): set<Link> { set l | l in s.links && l.key.entity == e }

  /** The entity, its links and its places are gone. */
  function Erased(s: Tags, e: Rid): Tags {
    s.(entities := s.entities - {e}, deskTags := s.deskTags - DeskTagsOf(s, e), links := s.links - LinksOf(s, e))
  }

  function LeftDesk(s: Tags, e: Rid, desk: Rid): Tags {
    var t := OffDesk(s, e, desk);
    if DeskTagsOf(t, e) == {} then Erased(t, e) else t
  }

  /** A tag of these desks that no other desk has. */
  predicate OnlyOn(s: Tags, desks: set<Rid>, e: Rid) {
    && (exists d :: d in s.deskTags && d.entity == e && d.desk in desks)
    && forall d :: d in s.deskTags && d.entity == e ==> d.desk in desks
  }

  function WithoutDesks(s: Tags, desks: set<Rid>): Tags {
    Tags((map e | e in s.entities && !(OnlyOn(s, desks, e) && !s.entities[e].machine) :: s.entities[e]),
         (set d | d in s.deskTags && d.desk !in desks),
         (set l | l in s.links && !OnlyOn(s, desks, l.key.entity)), s.deleting)
  }

  /** One operation of the service, with what it decided. */
  datatype Op =
    | Create(rid: Rid, entity: Entity, home: Option<Rid>)
    | Attach(desk: Rid, rid: Rid)
    | PutLink(link: Link)
    | Unlink(rid: Rid, target: Rid)
    | DropRun(source: Rid, service: Option<string>, task: Option<string>, model: Option<string>)
    | DropNodes(targets: set<Rid>)
    | DropDesks(desks: set<Rid>)
    | Rename(rid: Rid, name: string)
    | Leave(desk: Rid, rid: Rid)
    | Erase(rid: Rid)
    | Hide(desk: Rid)    // a delete of the desk starts: it is marked
    | Revive(desk: Rid)  // the delete failed: the mark is taken off

  function Created(s: Tags, rid: Rid, entity: Entity, desk: Option<Rid>): Tags {
    s.(entities := s.entities[rid := entity],
       deskTags := s.deskTags + if !entity.machine && desk.Some? then {DeskTag(desk.value, rid, entity.owner)} else {})
  }

  function Attached(s: Tags, desk: Rid, e: Rid): Tags
    requires e in s.entities
  {
    s.(deskTags := s.deskTags + {DeskTag(desk, e, s.entities[e].owner)})
  }

  function Renamed(s: Tags, e: Rid, name: string): Tags
    requires e in s.entities
  {
    s.(entities := s.entities[e := s.entities[e].(name := name)])
  }

  /** Another human tag of the same owner and type has the label on a live desk of `e`. */
  predicate Clashes(s: Tags, e: Rid, name: string)
    requires e in s.entities
  {
    exists o, d :: o in s.entities && o != e && d in s.deskTags && d.entity == e && d.desk !in s.deleting
                   && HumanInDesk(s, o, s.entities[e].kind, name, s.entities[e].owner, d.desk)
  }

  /** When the code makes the change; everything else is an answer without a change. */
  ghost predicate Enabled(s: Tags, op: Op) {
    match op
    case Create(rid, entity, desk) =>
      && rid !in s.entities && !Mentioned(s, rid)
      && (!entity.machine ==>
            desk.Some? && desk.value !in s.deleting && !HasHuman(s, entity.kind, entity.name, entity.owner, desk.value))
    case Attach(desk, rid) =>
      IsHuman(s, rid) && desk !in s.deleting
        && !HasHuman(s, s.entities[rid].kind, s.entities[rid].name, s.entities[rid].owner, desk)
    case PutLink(link) =>
      && link.key.entity in s.entities && s.entities[link.key.entity].owner == link.owner
      && (s.entities[link.key.entity].machine || InDesk(s, link.key.entity, link.desk))
    case Unlink(rid, target) => rid in s.entities
    case DropRun(source, service, task, model) => true
    case DropNodes(targets) => true
    case DropDesks(desks) => true
    case Rename(rid, name) => IsHuman(s, rid) && (name == s.entities[rid].name || !Clashes(s, rid, name))
    case Leave(desk, rid) => IsHuman(s, rid) && InDesk(s, rid, desk)
    case Erase(rid) => IsHuman(s, rid)
    case Hide(desk) => true
    case Revive(desk) => true
  }

  /** Rids are not used again. */
  ghost predicate Mentioned(s: Tags, e: Rid) { HasLink(s, e) || exists d :: d in s.deskTags && d.entity == e }

  function Apply(s: Tags, op: Op): Tags
    requires Enabled(s, op)
  {
    match op
    case Create(rid, entity, desk) => Created(s, rid, entity, desk)
    case Attach(desk, rid) => Attached(s, desk, rid)
    case PutLink(link) => s.(links := s.links + {link})
    case Unlink(rid, target) => Pruned(DropLinks(s, FileLinks(s, rid, target)), {rid})
    case DropRun(source, service, task, model) => DropAndPrune(s, RunLinks(s, source, service, task, model))
    case DropNodes(targets) => DropAndPrune(s, LinksTo(s, targets))
    case DropDesks(desks) => WithoutDesks(s, desks)
    case Rename(rid, name) => Renamed(s, rid, name)
    case Leave(desk, rid) => LeftDesk(s, rid, desk)
    case Erase(rid) => Erased(s, rid)
    case Hide(desk) => s.(deleting := s.deleting + {desk})
    case Revive(desk) => s.(deleting := s.deleting - {desk})
  }

  // ---- one human tag per owner, type and label ----

  /** No two human tags of the desk have the same owner, type and label. */
  ghost predicate OneEach(s: Tags, desk: Rid) {
    forall e, o :: IsHuman(s, e) && IsHuman(s, o) && InDesk(s, e, desk) && InDesk(s, o, desk) ==>
      (s.entities[e] == s.entities[o] ==> e == o)
  }

  /** The vocabulary of every desk, those being deleted included. */
  ghost predicate Vocabulary(s: Tags) { forall desk :: OneEach(s, desk) }

  /** The vocabulary of every live desk. */
  ghost predicate LiveVocabulary(s: Tags) { forall desk :: desk !in s.deleting ==> OneEach(s, desk) }

  /** The desk, deleting or not, has the tag and another human tag of its owner and type with this label. */
  predicate ClashesOn(s: Tags, e: Rid, name: string, desk: Rid)
    requires e in s.entities
  {
    && InDesk(s, e, desk)
    && exists o :: o in s.entities && o != e && HumanInDesk(s, o, s.entities[e].kind, name, s.entities[e].owner, desk)
  }

  /** The code's clash check is this on the live desks. */
  lemma ClashesOnLive(s: Tags, e: Rid, name: string)
    requires e in s.entities
    ensures Clashes(s, e, name) <==> exists desk :: desk !in s.deleting && ClashesOn(s, e, name, desk)
  {
    if Clashes(s, e, name) {
      var o, d :| o in s.entities && o != e && d in s.deskTags && d.entity == e && d.desk !in s.deleting
                  && HumanInDesk(s, o, s.entities[e].kind, name, s.entities[e].owner, d.desk);
      assert ClashesOn(s, e, name, d.desk);
    }
    if desk :| desk !in s.deleting && ClashesOn(s, e, name, desk) {
      var d :| d in s.deskTags && d.entity == e && d.desk == desk;
      var o :| o in s.entities && o != e && HumanInDesk(s, o, s.entities[e].kind, name, s.entities[e].owner, desk);
      assert HumanInDesk(s, o, s.entities[e].kind, name, s.entities[e].owner, d.desk);
    }
  }

  /** The rename gives no desk of the tag, deleting or not, a second tag of that label. */
  ghost predicate FreeName(s: Tags, e: Rid, name: string)
    requires e in s.entities
  {
    name == s.entities[e].name || forall desk :: !ClashesOn(s, e, name, desk)
  }

  /** With fewer places and no tag changed, no desk gets a second tag. */
  lemma FewerPlaces(s: Tags, t: Tags, desk: Rid)
    requires OneEach(s, desk) && t.deskTags <= s.deskTags
    requires forall e :: e in t.entities ==> e in s.entities && t.entities[e] == s.entities[e]
    ensures OneEach(t, desk)
  {
    forall e | InDesk(t, e, desk) ensures InDesk(s, e, desk) {
      var d :| d in t.deskTags && d.entity == e && d.desk == desk;
      assert d in s.deskTags;
    }
  }

  lemma CreatedPlaces(s: Tags, rid: Rid, entity: Entity, home: Option<Rid>)
    ensures forall e, d ::
              InDesk(Created(s, rid, entity, home), e, d) <==>
                InDesk(s, e, d) || (e == rid && !entity.machine && home == Some(d))
  {
    var t := Created(s, rid, entity, home);
    forall e, d ensures InDesk(t, e, d) <==> InDesk(s, e, d) || (e == rid && !entity.machine && home == Some(d)) {
      if InDesk(s, e, d) {
        var x :| x in s.deskTags && x.entity == e && x.desk == d;
        assert x in t.deskTags;
      }
      if e == rid && !entity.machine && home == Some(d) { assert DeskTag(d, rid, entity.owner) in t.deskTags; }
    }
  }

  lemma CreateOne(s: Tags, rid: Rid, entity: Entity, home: Option<Rid>, desk: Rid)
    requires OneEach(s, desk) && Enabled(s, Create(rid, entity, home))
    ensures OneEach(Created(s, rid, entity, home), desk)
  {
    CreatedPlaces(s, rid, entity, home);
    assert !InDesk(s, rid, desk);
    if !entity.machine {
      assert forall o :: o in s.entities && HumanInDesk(s, o, entity.kind, entity.name, entity.owner, desk) ==>
          home != Some(desk);
    }
  }

  lemma AttachedPlaces(s: Tags, desk: Rid, rid: Rid)
    requires rid in s.entities
    ensures forall e, d :: InDesk(Attached(s, desk, rid), e, d) <==> InDesk(s, e, d) || (e == rid && d == desk)
  {
    var t := Attached(s, desk, rid);
    forall e, d ensures InDesk(t, e, d) <==> InDesk(s, e, d) || (e == rid && d == desk) {
      if InDesk(s, e, d) {
        var x :| x in s.deskTags && x.entity == e && x.desk == d;
        assert x in t.deskTags;
      }
      if e == rid && d == desk { assert DeskTag(desk, rid, s.entities[rid].owner) in t.deskTags; }
    }
  }

  lemma AttachOne(s: Tags, home: Rid, rid: Rid, desk: Rid)
    requires OneEach(s, desk) && Enabled(s, Attach(home, rid))
    ensures OneEach(Attached(s, home, rid), desk)
  {
    AttachedPlaces(s, home, rid);
    var r := s.entities[rid];
    assert forall o :: o in s.entities && HumanInDesk(s, o, r.kind, r.name, r.owner, desk) ==> desk != home;
  }

  /** After a rename a desk has one tag of each label exactly when it did not get a second one. */
  lemma RenameOne(s: Tags, rid: Rid, name: string, desk: Rid)
    requires OneEach(s, desk) && IsHuman(s, rid)
    ensures OneEach(Renamed(s, rid, name), desk) <==> name == s.entities[rid].name || !ClashesOn(s, rid, name, desk)
  {
    var t := Renamed(s, rid, name);
    assert forall e :: InDesk(t, e, desk) == InDesk(s, e, desk);
    if name == s.entities[rid].name {
      assert t.entities == s.entities;
    } else if ClashesOn(s, rid, name, desk) {
      var o :| o in s.entities && o != rid
        && HumanInDesk(s, o, s.entities[rid].kind, name, s.entities[rid].owner, desk);
      assert t.entities[o] == t.entities[rid];
    } else {
      forall e, o | IsHuman(t, e) && IsHuman(t, o) && InDesk(t, e, desk) && InDesk(t, o, desk)
        && t.entities[e] == t.entities[o]
        ensures e == o
      {
        assert o != rid && InDesk(s, rid, desk) ==>
          !HumanInDesk(s, o, s.entities[rid].kind, name, s.entities[rid].owner, desk);
        assert e != rid && InDesk(s, rid, desk) ==>
          !HumanInDesk(s, e, s.entities[rid].kind, name, s.entities[rid].owner, desk);
      }
    }
  }

  /** Desk by desk, every operation but a clashing rename keeps one tag of each label. Taking the mark off a
      desk is no exception. */
  lemma StepKeepsDesk(s: Tags, op: Op, desk: Rid)
    requires Enabled(s, op) && OneEach(s, desk)
    ensures OneEach(Apply(s, op), desk)
            <==> op.Rename? && op.name != s.entities[op.rid].name ==> !ClashesOn(s, op.rid, op.name, desk)
  {
    match op
    case Create(rid, entity, home) => CreateOne(s, rid, entity, home, desk);
    case Attach(home, rid) => AttachOne(s, home, rid, desk);
    case Rename(rid, name) => RenameOne(s, rid, name, desk);
    case PutLink(link) => FewerPlaces(s, Apply(s, op), desk);
    case Unlink(rid, target) => FewerPlaces(s, Apply(s, op), desk);
    case DropRun(source, service, task, model) => FewerPlaces(s, Apply(s, op), desk);
    case DropNodes(targets) => FewerPlaces(s, Apply(s, op), desk);
    case DropDesks(desks) => FewerPlaces(s, Apply(s, op), desk);
    case Leave(home, rid) => FewerPlaces(s, Apply(s, op), desk);
    case Erase(rid) => FewerPlaces(s, Apply(s, op), desk);
    case Hide(home) => FewerPlaces(s, Apply(s, op), desk);
    case Revive(home) => FewerPlaces(s, Apply(s, op), desk);
  }

  // ---- the tables fit together ----

  ghost predicate LinkOk(s: Tags, l: Link) {
    && l.key.entity in s.entities && s.entities[l.key.entity].owner == l.owner
    && (!s.entities[l.key.entity].machine ==> InDesk(s, l.key.entity, l.desk))
  }

  ghost predicate HasHome(s: Tags, e: Rid) { exists d :: d in s.deskTags && d.entity == e }

  /** Links are of existing tags, human tags only on desks that have them; desks list human tags only;
      and every human tag has a desk. */
  ghost predicate Integrity(s: Tags) {
    && (forall l :: l in s.links ==> LinkOk(s, l))
    && (forall d :: d in s.deskTags ==> IsHuman(s, d.entity) && s.entities[d.entity].owner == d.owner)
    && (forall e :: IsHuman(s, e) ==> HasHome(s, e))
  }

  lemma CreateWhole(s: Tags, rid: Rid, entity: Entity, home: Option<Rid>)
    requires Integrity(s) && Enabled(s, Create(rid, entity, home))
    ensures Integrity(Created(s, rid, entity, home))
  {
    var t := Created(s, rid, entity, home);
    CreatedPlaces(s, rid, entity, home);
    forall l | l in t.links ensures LinkOk(t, l) { assert LinkOk(s, l); }
    forall e | IsHuman(t, e) ensures HasHome(t, e) {
      if e == rid { assert DeskTag(home.value, rid, entity.owner) in t.deskTags; } else { HomeStays(s, t, e); }
    }
  }

  lemma HomeStays(s: Tags, t: Tags, e: Rid)
    requires HasHome(s, e) && forall d :: d in s.deskTags && d.entity == e ==> d in t.deskTags
    ensures HasHome(t, e)
  {
    var d :| d in s.deskTags && d.entity == e;
    assert d in t.deskTags;
  }

  lemma AttachWhole(s: Tags, desk: Rid, rid: Rid)
    requires Integrity(s) && IsHuman(s, rid)
    ensures Integrity(Attached(s, desk, rid))
  {
    var t := Attached(s, desk, rid);
    AttachedPlaces(s, desk, rid);
    forall l | l in t.links ensures LinkOk(t, l) { assert LinkOk(s, l); }
    forall e | IsHuman(t, e) ensures HasHome(t, e) { HomeStays(s, t, e); }
  }

  /** The same places, links that are fine, and no human tag changed but in its label. */
  lemma SamePlacesWhole(s: Tags, t: Tags)
    requires Integrity(s) && t.deskTags == s.deskTags && forall l :: l in t.links ==> LinkOk(t, l)
    requires forall e :: e in s.entities && !s.entities[e].machine ==>
             e in t.entities && t.entities[e].owner == s.entities[e].owner
    requires forall e :: e in t.entities ==> e in s.entities && t.entities[e].machine == s.entities[e].machine
    ensures Integrity(t)
  {
    forall e | IsHuman(t, e) ensures HasHome(t, e) {
      assert IsHuman(s, e);
      HomeStays(s, t, e);
    }
  }

  lemma LinkWhole(s: Tags, link: Link)
    requires Integrity(s) && Enabled(s, PutLink(link))
    ensures Integrity(s.(links := s.links + {link}))
  {
    var t := s.(links := s.links + {link});
    assert forall e, d :: InDesk(t, e, d) == InDesk(s, e, d);
    SamePlacesWhole(s, t);
  }

  /** Fewer links, and fewer unlinked machine tags. */
  lemma FewerWhole(s: Tags, which: set<Link>, among: set<Rid>)
    requires Integrity(s)
    ensures Integrity(Pruned(DropLinks(s, which), among))
  {
    var m := DropLinks(s, which);
    var t := Pruned(m, among);
    assert forall e, d :: InDesk(t, e, d) == InDesk(s, e, d);
    forall l | l in t.links ensures LinkOk(t, l) { assert LinkOk(s, l) && HasLink(m, l.key.entity); }
    SamePlacesWhole(s, t);
  }

  lemma RenameWhole(s: Tags, rid: Rid, name: string)
    requires Integrity(s) && IsHuman(s, rid)
    ensures Integrity(Renamed(s, rid, name))
  {
    var t := Renamed(s, rid, name);
    assert forall e, d :: InDesk(t, e, d) == InDesk(s, e, d);
    forall l | l in t.links ensures LinkOk(t, l) { assert LinkOk(s, l); }
    SamePlacesWhole(s, t);
  }

  lemma MarksWhole(s: Tags, deleting: set<Rid>)
    requires Integrity(s)
    ensures Integrity(s.(deleting := deleting))
  {
    var t := s.(deleting := deleting);
    assert forall e, d :: InDesk(t, e, d) == InDesk(s, e, d);
    forall l | l in t.links ensures LinkOk(t, l) { assert LinkOk(s, l); }
    SamePlacesWhole(s, t);
  }

  /** A tag goes with its places and links; only it may be without a desk before. */
  lemma EraseWhole(s: Tags, rid: Rid)
    requires forall l :: l in s.links && l.key.entity != rid ==> LinkOk(s, l)
    requires forall d :: d in s.deskTags ==> IsHuman(s, d.entity) && s.entities[d.entity].owner == d.owner
    requires forall e :: IsHuman(s, e) && e != rid ==> HasHome(s, e)
    ensures Integrity(Erased(s, rid))
  {
    var t := Erased(s, rid);
    forall e, d ensures InDesk(t, e, d) <==> InDesk(s, e, d) && e != rid {
      if InDesk(s, e, d) && e != rid {
        var x :| x in s.deskTags && x.entity == e && x.desk == d;
        assert x in t.deskTags;
      }
    }
    forall l | l in t.links ensures LinkOk(t, l) { assert LinkOk(s, l); }
    forall e | IsHuman(t, e) ensures HasHome(t, e) { HomeStays(s, t, e); }
  }

  /** The tables after a tag's links and place on one desk went. */
  function OffDesk(s: Tags, e: Rid, desk: Rid): Tags {
    s.(links := (set l | l in s.links && !(l.key.entity == e && l.desk == desk)),
       deskTags := (set d | d in s.deskTags && !(d.entity == e && d.desk == desk)))
  }

  lemma OffDeskPlaces(s: Tags, rid: Rid, desk: Rid)
    ensures forall e, d :: InDesk(OffDesk(s, rid, desk), e, d) <==> InDesk(s, e, d) && !(e == rid && d == desk)
  {
    var t := OffDesk(s, rid, desk);
    forall e, d ensures InDesk(t, e, d) <==> InDesk(s, e, d) && !(e == rid && d == desk) {
      if InDesk(s, e, d) && !(e == rid && d == desk) {
        var x :| x in s.deskTags && x.entity == e && x.desk == d;
        assert x in t.deskTags;
      }
    }
  }

  lemma LeaveWhole(s: Tags, desk: Rid, rid: Rid)
    requires Integrity(s) && IsHuman(s, rid)
    ensures Integrity(LeftDesk(s, rid, desk))
  {
    var t := OffDesk(s, rid, desk);
    OffDeskPlaces(s, rid, desk);
    forall l | l in t.links ensures LinkOk(t, l) { assert LinkOk(s, l); }
    forall e | IsHuman(t, e) && e != rid ensures HasHome(t, e) { HomeStays(s, t, e); }
    if DeskTagsOf(t, rid) == {} {
      EraseWhole(t, rid);
    } else {
      var d :| d in DeskTagsOf(t, rid);
      assert HasHome(t, rid);
    }
  }

  /** Every link on these desks is of a machine tag, or of a human tag that goes with them. */
  ghost predicate NoStrayLinks(s: Tags, desks: set<Rid>) {
    forall l :: l in s.links && l.desk in desks && IsHuman(s, l.key.entity) ==> OnlyOn(s, desks, l.key.entity)
  }

  lemma WithoutDesksPlaces(s: Tags, desks: set<Rid>)
    ensures forall e, d :: InDesk(WithoutDesks(s, desks), e, d) <==> InDesk(s, e, d) && d !in desks
  {
    var t := WithoutDesks(s, desks);
    forall e, d ensures InDesk(t, e, d) <==> InDesk(s, e, d) && d !in desks {
      if InDesk(s, e, d) && d !in desks {
        var x :| x in s.deskTags && x.entity == e && x.desk == d;
        assert x in t.deskTags;
      }
    }
  }

  /** A human tag that stays has a desk that stays. */
  lemma StayingHome(s: Tags, desks: set<Rid>, e: Rid)
    requires Integrity(s) && IsHuman(WithoutDesks(s, desks), e)
    ensures HasHome(WithoutDesks(s, desks), e)
  {
    var t := WithoutDesks(s, desks);
    assert HasHome(s, e);
    var d :| d in s.deskTags && d.entity == e;
    if d.desk in desks {
      var o :| o in s.deskTags && o.entity == e && o.desk !in desks;
      assert o in t.deskTags;
    } else {
      assert d in t.deskTags;
    }
  }

  /** Dropping desks leaves the tables whole exactly when no link on them is left behind. */
  lemma DropDesksWhole(s: Tags, desks: set<Rid>)
    requires Integrity(s)
    ensures Integrity(WithoutDesks(s, desks)) <==> NoStrayLinks(s, desks)
  {
    var t := WithoutDesks(s, desks);
    WithoutDesksPlaces(s, desks);
    forall l | l in t.links ensures LinkOk(t, l) <==> (IsHuman(s, l.key.entity) ==> l.desk !in desks) {
      assert LinkOk(s, l);
    }
    forall e | IsHuman(t, e) ensures HasHome(t, e) { StayingHome(s, desks, e); }
    forall d | d in t.deskTags ensures IsHuman(t, d.entity) && t.entities[d.entity].owner == d.owner {
      assert d in s.deskTags;
    }
    if l :| l in s.links && l.desk in desks && IsHuman(s, l.key.entity) && !OnlyOn(s, desks, l.key.entity) {
      assert l in t.links && !LinkOk(t, l);
    }
  }

  // ---- both ----

  ghost predicate Good(s: Tags) { Vocabulary(s) && Integrity(s) }

  /** What a caller can check before the operation. */
  ghost predicate Safe(s: Tags, op: Op)
    requires Enabled(s, op)
  {
    && (op.Rename? ==> FreeName(s, op.rid, op.name))
    && (op.DropDesks? ==> NoStrayLinks(s, op.desks))
  }

  lemma StepKeepsIntegrity(s: Tags, op: Op)
    requires Integrity(s) && Enabled(s, op)
    ensures Integrity(Apply(s, op)) <==> (op.DropDesks? ==> NoStrayLinks(s, op.desks))
  {
    match op
    case Create(rid, entity, home) => CreateWhole(s, rid, entity, home);
    case Attach(desk, rid) => AttachWhole(s, desk, rid);
    case PutLink(link) => LinkWhole(s, link);
    case Unlink(rid, target) => FewerWhole(s, FileLinks(s, rid, target), {rid});
    case DropRun(source, service, task, model) =>
      var which := RunLinks(s, source, service, task, model);
      FewerWhole(s, which, EntitiesOf(which));
    case DropNodes(targets) => FewerWhole(s, LinksTo(s, targets), EntitiesOf(LinksTo(s, targets)));
    case DropDesks(desks) => DropDesksWhole(s, desks);
    case Rename(rid, name) => RenameWhole(s, rid, name);
    case Leave(desk, rid) => LeaveWhole(s, desk, rid);
    case Erase(rid) => EraseWhole(s, rid);
    case Hide(desk) => MarksWhole(s, s.deleting + {desk});
    case Revive(desk) => MarksWhole(s, s.deleting - {desk});
  }

  lemma StepKeepsVocabulary(s: Tags, op: Op)
    requires Vocabulary(s) && Enabled(s, op)
    ensures Vocabulary(Apply(s, op)) <==> (op.Rename? ==> FreeName(s, op.rid, op.name))
  {
    forall desk ensures OneEach(Apply(s, op), desk)
                        <==> (op.Rename? && op.name != s.entities[op.rid].name ==>
                              !ClashesOn(s, op.rid, op.name, desk)) {
      StepKeepsDesk(s, op, desk);
    }
  }

  /** An operation keeps the vocabularies of all desks and the integrity of the tables exactly when it is
      safe: a rename that gives no desk a second tag of the label, a drop of desks that leaves no link on
      them behind. All other operations are. */
  lemma StepKeepsGood(s: Tags, op: Op)
    requires Good(s) && Enabled(s, op)
    ensures Good(Apply(s, op)) <==> Safe(s, op)
  {
    StepKeepsIntegrity(s, op);
    StepKeepsVocabulary(s, op);
  }

  // ---- machine tags without links ----

  /** The machine tags a run has made and not linked yet. */
  function Waiting(before: set<Rid>, op: Op): set<Rid> {
    match op
    case Create(rid, entity, desk) => if entity.machine then before + {rid} else before
    case PutLink(link) => before - {link.key.entity}
    case Attach(desk, rid) => before
    case Unlink(rid, target) => before
    case DropRun(source, service, task, model) => before
    case DropNodes(targets) => before
    case DropDesks(desks) => before
    case Rename(rid, name) => before
    case Leave(desk, rid) => before
    case Erase(rid) => before
    case Hide(desk) => before
    case Revive(desk) => before
  }

  ghost predicate OrphansWithin(s: Tags, waiting: set<Rid>) { forall e :: IsOrphan(s, e) ==> e in waiting }

  /** Pruning exactly the tags that lost a link leaves no new tag without links. */
  lemma PruneOrphans(s: Tags, which: set<Link>, among: set<Rid>, waiting: set<Rid>)
    requires OrphansWithin(s, waiting) && forall l :: l in which && l in s.links ==> l.key.entity in among
    ensures OrphansWithin(Pruned(DropLinks(s, which), among), waiting)
  {
    var m := DropLinks(s, which);
    var t := Pruned(m, among);
    forall e | IsOrphan(t, e) ensures e in waiting {
      assert HasLink(t, e) == HasLink(m, e);
      assert e !in among;
      assert forall l :: l in s.links && l.key.entity == e ==> l in m.links;
      assert IsOrphan(s, e);
    }
  }

  /** Deleting only human tags' links makes no machine tag lose one. */
  lemma HumanOrphans(s: Tags, t: Tags, waiting: set<Rid>)
    requires OrphansWithin(s, waiting)
    requires forall e :: e in t.entities && t.entities[e].machine ==> e in s.entities && s.entities[e].machine
    requires forall l :: l in s.links && l.key.entity in s.entities && s.entities[l.key.entity].machine ==> l in t.links
    ensures OrphansWithin(t, waiting)
  {
    forall e | IsOrphan(t, e) ensures e in waiting {
      assert IsOrphan(s, e);
    }
  }

  lemma LinkOrphans(s: Tags, t: Tags, link: Link, waiting: set<Rid>)
    requires OrphansWithin(s, waiting) && t.entities == s.entities && t.links == s.links + {link}
    ensures OrphansWithin(t, waiting - {link.key.entity})
  {
    forall e | IsOrphan(t, e) ensures e in waiting - {link.key.entity} {
      assert link in t.links && forall l :: l in s.links ==> l in t.links;
      assert IsOrphan(s, e);
    }
  }

  lemma StepOrphans(s: Tags, op: Op, waiting: set<Rid>)
    requires Integrity(s) && Enabled(s, op) && OrphansWithin(s, waiting)
    ensures OrphansWithin(Apply(s, op), Waiting(waiting, op))
  {
    match op
    case Create(rid, entity, desk) =>
      forall e | IsOrphan(Apply(s, op), e) ensures e in Waiting(waiting, op) {
        if e != rid { assert HasLink(s, e) == HasLink(Apply(s, op), e); }
      }
    case PutLink(link) => LinkOrphans(s, Apply(s, op), link, waiting);
    case Unlink(rid, target) => PruneOrphans(s, FileLinks(s, rid, target), {rid}, waiting);
    case DropRun(source, service, task, model) =>
      var which := RunLinks(s, source, service, task, model);
      PruneOrphans(s, which, EntitiesOf(which), waiting);
    case DropNodes(targets) => PruneOrphans(s, LinksTo(s, targets), EntitiesOf(LinksTo(s, targets)), waiting);
    case DropDesks(desks) => HumanOrphans(s, Apply(s, op), waiting);
    case Rename(rid, name) => HumanOrphans(s, Apply(s, op), waiting);
    case Leave(desk, rid) => HumanOrphans(s, Apply(s, op), waiting);
    case Erase(rid) => HumanOrphans(s, Apply(s, op), waiting);
    case Attach(desk, rid) => HumanOrphans(s, Apply(s, op), waiting);
    case Hide(desk) => HumanOrphans(s, Apply(s, op), waiting);
    case Revive(desk) => HumanOrphans(s, Apply(s, op), waiting);
  }

  // ---- runs ----

  ghost predicate IsRun(s: Tags, ops: seq<Op>)
    decreases |ops|
  {
    ops == [] || (Enabled(s, ops[0]) && IsRun(Apply(s, ops[0]), ops[1..]))
  }

  ghost function After(s: Tags, ops: seq<Op>): Tags
    requires IsRun(s, ops)
    decreases |ops|
  {
    if ops == [] then s else After(Apply(s, ops[0]), ops[1..])
  }

  ghost function WaitingAfter(waiting: set<Rid>, ops: seq<Op>): set<Rid>
    decreases |ops|
  {
    if ops == [] then waiting else WaitingAfter(Waiting(waiting, ops[0]), ops[1..])
  }

  /** Every operation of the run is safe when its turn comes. */
  ghost predicate IsSafeRun(s: Tags, ops: seq<Op>)
    requires IsRun(s, ops)
    decreases |ops|
  {
    ops == [] || (Safe(s, ops[0]) && IsSafeRun(Apply(s, ops[0]), ops[1..]))
  }

  /** Over every run whose renames and drops of desks are safe, with desks marked and unmarked at any time:
      each desk has one human tag per owner, type and label, the tables stay whole, and the only machine
      tags without links are those made and not linked yet. */
  lemma {:induction false} RunKeepsGood(s: Tags, ops: seq<Op>, waiting: set<Rid>)
    requires Good(s) && OrphansWithin(s, waiting) && IsRun(s, ops) && IsSafeRun(s, ops)
    ensures Good(After(s, ops)) && OrphansWithin(After(s, ops), WaitingAfter(waiting, ops))
    decreases |ops|
  {
    if ops != [] {
      StepKeepsGood(s, ops[0]);
      StepOrphans(s, ops[0], waiting);
      RunKeepsGood(Apply(s, ops[0]), ops[1..], Waiting(waiting, ops[0]));
    }
  }

  lemma StepKeepsLive(s: Tags, op: Op)
    requires LiveVocabulary(s) && Enabled(s, op) && !op.Revive?
    ensures LiveVocabulary(Apply(s, op))
  {
    if op.Rename? { ClashesOnLive(s, op.rid, op.name); }
    forall desk | desk !in Apply(s, op).deleting ensures OneEach(Apply(s, op), desk) { StepKeepsDesk(s, op, desk); }
  }

  /** The check the code makes is enough for the live desks as long as no mark is taken off: then every run
      keeps their vocabularies, whatever is renamed. */
  lemma {:induction false} RunKeepsLive(s: Tags, ops: seq<Op>)
    requires LiveVocabulary(s) && IsRun(s, ops) && forall op :: op in ops ==> !op.Revive?
    ensures LiveVocabulary(After(s, ops))
    decreases |ops|
  {
    if ops != [] {
      StepKeepsLive(s, ops[0]);
      RunKeepsLive(Apply(s, ops[0]), ops[1..]);
    }
  }

  lemma TwoSteps(s: Tags, a: Op, b: Op)
    requires Enabled(s, a) && Enabled(Apply(s, a), b)
    ensures IsRun(s, [a, b]) && After(s, [a, b]) == Apply(Apply(s, a), b)
  {
    var m := Apply(s, a);
    assert [a, b][1..] == [b] && [b][1..] == [];
    assert IsRun(Apply(m, b), []) && After(Apply(m, b), []) == Apply(m, b);
    assert IsRun(m, [b]) && After(m, [b]) == Apply(m, b);
  }

  /** A desk is deleted: the links of all its nodes go first, then its vocabulary. The tables stay good
      exactly when every link on the desk is of a node on it, or of a machine tag, or of a human tag only
      the deleted desks have; and in any case the vocabulary goes, just the human tags that were only there
      go with it, and no machine tag is left without links. */
  lemma DeskDeletion(s: Tags, targets: set<Rid>, desks: set<Rid>)
    requires Good(s)
    ensures IsRun(s, [DropNodes(targets), DropDesks(desks)])
    ensures var t := After(s, [DropNodes(targets), DropDesks(desks)]);
            && (Good(t) <==> NothingElsewhere(s, targets, desks))
            && (forall d :: d in t.deskTags ==> d.desk !in desks)
            && (forall e :: IsHuman(t, e) <==> IsHuman(s, e) && !OnlyOn(s, desks, e))
            && (OrphansWithin(s, {}) ==> OrphansWithin(t, {}))
  {
    var first, second := DropNodes(targets), DropDesks(desks);
    var m := Apply(s, first);
    TwoSteps(s, first, second);
    StepKeepsGood(s, first);
    StepKeepsGood(m, second);
    LinksLeft(s, targets, desks);
    if OrphansWithin(s, {}) {
      StepOrphans(s, first, {});
      StepOrphans(m, second, {});
    }
  }

  /** No human tag that stays is linked on these desks to anything but these nodes. */
  ghost predicate NothingElsewhere(s: Tags, targets: set<Rid>, desks: set<Rid>) {
    forall l :: l in s.links && l.desk in desks && l.key.target !in targets && IsHuman(s, l.key.entity)
                ==> OnlyOn(s, desks, l.key.entity)
  }

  lemma LinksLeft(s: Tags, targets: set<Rid>, desks: set<Rid>)
    ensures var m := Apply(s, DropNodes(targets));
            && (forall e :: OnlyOn(m, desks, e) == OnlyOn(s, desks, e) && IsHuman(m, e) == IsHuman(s, e))
            && (NoStrayLinks(m, desks) <==> NothingElsewhere(s, targets, desks))
  {
    var m := Apply(s, DropNodes(targets));
    forall e ensures OnlyOn(m, desks, e) == OnlyOn(s, desks, e) && IsHuman(m, e) == IsHuman(s, e) {}
    forall l ensures l in m.links <==> l in s.links && l.key.target !in targets {}
  }

  // ---- a desk whose delete failed ----

  /** A rename looks for clashes on live desks only. Tag "a" is on desks "d" and "e" and tag "b" on desk "d";
      while "d" is being deleted, "a" can be renamed to "b", and when that delete fails "d" has two. */
  lemma RenamedWhileDeleting()
    ensures exists s, ops :: Good(s) && IsRun(s, ops) && !LiveVocabulary(After(s, ops))
  {
    var a, b := Entity("u", "Tag", "a", false), Entity("u", "Tag", "b", false);
    var s := Tags(map["1" := a, "2" := b], {DeskTag("d", "1", "u"), DeskTag("e", "1", "u"), DeskTag("d", "2", "u")},
                  {}, {});
    RenameExample(s, a, b);
    var m := Apply(s, Hide("d"));
    var t := Apply(m, Rename("1", "b"));
    var run := [Hide("d")] + [Rename("1", "b"), Revive("d")];
    TwoSteps(m, Rename("1", "b"), Revive("d"));
    assert run[1..] == [Rename("1", "b"), Revive("d")];
    RevivedExample(Apply(t, Revive("d")), b);
    assert IsRun(s, run) && After(s, run) == Apply(t, Revive("d"));
  }

  lemma RevivedExample(u: Tags, b: Entity)
    requires u.entities == map["1" := b, "2" := b] && !b.machine && "d" !in u.deleting
    requires DeskTag("d", "1", "u") in u.deskTags && DeskTag("d", "2", "u") in u.deskTags
    ensures !LiveVocabulary(u)
  {
    assert InDesk(u, "1", "d") && InDesk(u, "2", "d") && IsHuman(u, "1") && IsHuman(u, "2");
    assert !OneEach(u, "d");
  }

  lemma RenameExample(s: Tags, a: Entity, b: Entity)
    requires a == Entity("u", "Tag", "a", false) && b == Entity("u", "Tag", "b", false)
    requires s == Tags(map["1" := a, "2" := b],
                       {DeskTag("d", "1", "u"), DeskTag("e", "1", "u"), DeskTag("d", "2", "u")}, {}, {})
    ensures Good(s) && Enabled(s, Hide("d")) && Enabled(Apply(s, Hide("d")), Rename("1", "b"))
  {
    assert DeskTag("d", "1", "u") in s.deskTags && DeskTag("d", "2", "u") in s.deskTags;
    var m := Apply(s, Hide("d"));
    assert forall d :: d in m.deskTags && d.entity == "1" && d.desk !in m.deleting ==> d.desk == "e";
    assert !InDesk(m, "2", "e");
  }
}
