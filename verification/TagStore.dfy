/** The tag service: its operations over the tag tables, each proved to be a step, or a run of steps, of
    the table model. What the service learns from access checks comes in as a parameter. */
module TagStore {
  import opened Collections
  import opened Ids
  import opened TagTable
  import Rows = TagRows

  datatype Answer<T> = Ok(value: T) | NotFound | BadRequest | Conflict

  datatype Item = Item(kind: string, name: string, machine: bool)

  datatype Made = Refused | Existing(rid: Rid) | New(rid: Rid)

  datatype Import = Import(imported: nat, skipped: nat, conflicts: seq<Rid>)

  /** `createEntity` and the types route refuse these. */
  predicate IsNamed(item: Item) {
    item.kind != "" && item.kind != "undefined" && item.name != "" && item.name != "undefined"
  }

  /** What a desk calls a tag: its own human tag, else a machine tag of the user. */
  ghost predicate IsForDesk(s: Tags, e: Rid, kind: string, name: string, user: Rid, desk: Option<Rid>) {
    if desk.Some? && Rows.SomeTag(s, kind, name, user, desk.value) then Rows.IsTag(s, e, kind, name, user, desk.value)
    else e in s.entities && s.entities[e] == Entity(user, kind, name, true)
  }

  /** The target has the tag of this type and label, by the user. */
  ghost predicate IsTagged(s: Tags, kind: string, name: string, user: Rid, target: Rid) {
    exists e, l :: e in s.entities && l in s.links && TagOf(s, e, l, kind, name, user, target)
  }

  predicate TagOf(s: Tags, e: Rid, l: Link, kind: string, name: string, user: Rid, target: Rid)
    requires e in s.entities
  {
    && s.entities[e].owner == user && s.entities[e].kind == kind && s.entities[e].name == name
    && l.key == LinkKey(e, target, None, ByUser(user))
  }

  /** A rid the database has not given yet. */
  ghost predicate IsFresh(s: Tags, rid: Rid) { rid !in s.entities && !Mentioned(s, rid) }

  function Trim(s: string): (r: string)
    ensures IsTrimmed(s, r)
  {
    TrimMeans(s, TrimRight(TrimLeft(s)));
    TrimRight(TrimLeft(s))
  }

  /** The operations lead from one state of the tables to the other. */
  ghost predicate Ran(s: Tags, ops: seq<Op>, t: Tags) { IsRun(s, ops) && t == After(s, ops) && Kept(s, t) }

  lemma RanThen(s: Tags, a: seq<Op>, t: Tags, b: seq<Op>, u: Tags)
    requires Ran(s, a, t) && Ran(t, b, u)
    ensures Ran(s, a + b, u)
  {
    RunsJoin(s, a, b);
  }

  /** Nothing that held of the tables before is lost. */
  ghost predicate Kept(s: Tags, t: Tags) {
    && (Integrity(s) ==> Integrity(t)) && (LiveVocabulary(s) ==> LiveVocabulary(t)) && (Good(s) ==> Good(t))
  }

  lemma StepKept(s: Tags, op: Op)
    requires Enabled(s, op) && Safe(s, op) && !op.Revive?
    ensures Kept(s, Apply(s, op))
  {
    if Integrity(s) { StepKeepsIntegrity(s, op); }
    if LiveVocabulary(s) { StepKeepsLive(s, op); }
    if Good(s) { StepKeepsGood(s, op); }
  }

  function NewName(e: Entity, name: Option<string>): string { Trim(if name.Some? then name.value else e.name) }

  ghost predicate PutsLink(s: Tags, t: Tags, link: Link) { Enabled(s, PutLink(link)) && t == Apply(s, PutLink(link)) }

  ghost predicate OnlyAttaches(ops: seq<Op>, rows: seq<Rid>, desk: Rid) {
    forall i :: 0 <= i < |ops| ==> ops[i].Attach? && ops[i].desk == desk && ops[i].rid in rows
  }

  /** The desk has a human tag of the user with the type and label of `e`. */
  ghost predicate HasTwin(s: Tags, e: Rid, user: Rid, desk: Rid) {
    e in s.entities && HasHuman(s, s.entities[e].kind, s.entities[e].name, user, desk)
  }

  ghost predicate Imported(s: Tags, e: Rid, user: Rid, desk: Rid) { InDesk(s, e, desk) || HasTwin(s, e, user, desk) }

  /** Desks may have got tags, nothing else changed. */
  ghost predicate MorePlaces(s: Tags, t: Tags) {
    t.entities == s.entities && t.links == s.links && t.deleting == s.deleting && s.deskTags <= t.deskTags
  }

  function Tallied(result: Import, outcome: Option<bool>, e: Rid): Import {
    match outcome
    case Some(true) => result.(imported := result.imported + 1)
    case Some(false) => result.(skipped := result.skipped + 1)
    case None => result.(conflicts := result.conflicts + [e])
  }

  lemma ImportedOneMore(s: Tags, t: Tags, rows: seq<Rid>, i: nat, user: Rid, desk: Rid)
    requires i < |rows| && MorePlaces(s, t) && AllImported(s, rows[..i], user, desk) && Imported(t, rows[i], user, desk)
    ensures AllImported(t, rows[..i + 1], user, desk)
  {
    ImportedStays(s, t, rows[..i], user, desk);
    assert rows[..i + 1] == rows[..i] + [rows[i]];
  }

  ghost predicate AllImported(s: Tags, rows: seq<Rid>, user: Rid, desk: Rid) {
    forall e :: e in rows ==> Imported(s, e, user, desk)
  }

  lemma ImportedStays(s: Tags, t: Tags, rows: seq<Rid>, user: Rid, desk: Rid)
    requires t.entities == s.entities && s.deskTags <= t.deskTags && AllImported(s, rows, user, desk)
    ensures AllImported(t, rows, user, desk)
  {
    forall e | InDesk(s, e, desk) ensures InDesk(t, e, desk) {
      var d :| d in s.deskTags && d.entity == e && d.desk == desk;
      assert d in t.deskTags;
    }
    forall e | HasTwin(s, e, user, desk) ensures HasTwin(t, e, user, desk) { TwinStays(s, t, e, user, desk); }
  }

  ghost predicate AllTwins(s: Tags, conflicts: seq<Rid>, rows: seq<Rid>, user: Rid, desk: Rid) {
    forall e :: e in conflicts ==> e in rows && HasTwin(s, e, user, desk)
  }

  lemma TwinsStay(s: Tags, t: Tags, conflicts: seq<Rid>, rows: seq<Rid>, user: Rid, desk: Rid)
    requires t.entities == s.entities && s.deskTags <= t.deskTags && AllTwins(s, conflicts, rows, user, desk)
    ensures AllTwins(t, conflicts, rows, user, desk)
  {
    forall e | e in conflicts ensures HasTwin(t, e, user, desk) { TwinStays(s, t, e, user, desk); }
  }

  lemma TwinStays(s: Tags, t: Tags, e: Rid, user: Rid, desk: Rid)
    requires t.entities == s.entities && s.deskTags <= t.deskTags && HasTwin(s, e, user, desk)
    ensures HasTwin(t, e, user, desk)
  {
    forall e | InDesk(s, e, desk) ensures InDesk(t, e, desk) {
      var d :| d in s.deskTags && d.entity == e && d.desk == desk;
      assert d in t.deskTags;
    }
    var o :| o in s.entities && HumanInDesk(s, o, s.entities[e].kind, s.entities[e].name, user, desk);
    assert HumanInDesk(t, o, s.entities[e].kind, s.entities[e].name, user, desk);
  }

  /** A run goes on. */
  lemma {:induction false} OneMore(s: Tags, ops: seq<Op>, op: Op)
    requires IsRun(s, ops) && Enabled(After(s, ops), op)
    ensures IsRun(s, ops + [op]) && After(s, ops + [op]) == Apply(After(s, ops), op)
    decreases |ops|
  {
    if ops == [] {
      assert ops + [op] == [op] && [op][1..] == [];
      assert IsRun(Apply(s, op), []) && After(Apply(s, op), []) == Apply(s, op);
    } else {
      assert (ops + [op])[0] == ops[0] && (ops + [op])[1..] == ops[1..] + [op];
      OneMore(Apply(s, ops[0]), ops[1..], op);
    }
  }

  lemma PrunedNothing(s: Tags, among: set<Rid>)
    requires forall e :: e in among ==> !IsOrphan(s, e)
    ensures Pruned(s, among) == s
  {
    assert Pruned(s, among).entities == s.entities;
  }

  lemma PruneOneMore(s: Tags, among: set<Rid>, e: Rid)
    ensures Pruned(Pruned(s, among), {e}) == Pruned(s, among + {e})
  {
    var m := Pruned(s, among);
    assert forall x :: HasLink(m, x) == HasLink(s, x);
    assert Pruned(m, {e}).entities == Pruned(s, among + {e}).entities;
  }

  lemma MoreTargets(s: Tags, done: set<Rid>, chunk: set<Rid>)
    ensures var m := DropLinks(s, LinksTo(s, done));
            && EntitiesOf(LinksTo(s, done)) + EntitiesOf(LinksTo(m, chunk)) == EntitiesOf(LinksTo(s, done + chunk))
            && DropLinks(m, LinksTo(m, chunk)) == DropLinks(s, LinksTo(s, done + chunk))
  {
    var m := DropLinks(s, LinksTo(s, done));
    var both := LinksTo(s, done) + LinksTo(m, chunk);
    assert LinksTo(s, done + chunk) == both;
    assert EntitiesOf(both) == EntitiesOf(LinksTo(s, done)) + EntitiesOf(LinksTo(m, chunk));
    assert m.links - LinksTo(m, chunk) == s.links - both;
  }

  // ---- import ----

  /** A human tag of the user that the request asks to share. */
  ghost predicate Chosen(s: Tags, e: Rid, from: Option<Rid>, rids: seq<Rid>, user: Rid) {
    && IsHuman(s, e) && s.entities[e].owner == user
    && (from.Some? ==> exists d :: d in s.deskTags && d.desk == from.value && d.owner == user && d.entity == e)
    && (from.None? ==> e in rids)
  }

  /** A row of the desk's vocabulary that the user made. */
  predicate Lists(d: DeskTag, desk: Rid, user: Rid) { d.desk == desk && d.owner == user }

  function HumanRows(s: Tags, rids: seq<Rid>, user: Rid): seq<Rid> {
    if rids == [] then []
    else (if IsHuman(s, rids[0]) && s.entities[rids[0]].owner == user then [rids[0]] else [])
         + HumanRows(s, rids[1..], user)
  }

  lemma {:induction false} HumanRowsHas(s: Tags, rids: seq<Rid>, user: Rid)
    ensures forall e :: e in HumanRows(s, rids, user) <==> e in rids && IsHuman(s, e) && s.entities[e].owner == user
  {
    if rids != [] { HumanRowsHas(s, rids[1..], user); }
  }

  lemma ChosenIsListed(s: Tags, e: Rid, from: Option<Rid>, rids: seq<Rid>, user: Rid, listed: seq<Rid>)
    requires IsHuman(s, e) && s.entities[e].owner == user
    requires from.None? ==> listed == rids
    requires from.Some? ==> Elements(listed) == set d | d in s.deskTags && Lists(d, from.value, user) :: d.entity
    ensures e in listed <==> Chosen(s, e, from, rids, user)
  {
    if from.Some? {
      assert e in listed <==> e in Elements(listed);
    }
  }

  // ---- the last desk ----

  lemma LastDesk(s: Tags, desk: Rid, e: Rid)
    requires InDesk(s, e, desk)
    ensures DeskTagsOf(OffDesk(s, e, desk), e) == {} <==> OnlyOn(s, {desk}, e)
  {
    var t := OffDesk(s, e, desk);
    if DeskTagsOf(t, e) == {} {
      forall d | d in s.deskTags && d.entity == e ensures d.desk in {desk} { assert d !in DeskTagsOf(t, e); }
    } else {
      var d :| d in DeskTagsOf(t, e);
      assert d in s.deskTags && d.entity == e && d.desk != desk;
    }
  }

  // ---- desks that went ----

  /** The desks' vocabularies are gone, and of the tags `done` those no desk has. */
  function Swept(s: Tags, desks: set<Rid>, done: set<Rid>): Tags {
    Tags((map e | e in s.entities && !(e in done && OnlyOn(s, desks, e) && !s.entities[e].machine) :: s.entities[e]),
         (set d | d in s.deskTags && d.desk !in desks),
         (set l | l in s.links && !(l.key.entity in done && OnlyOn(s, desks, l.key.entity))), s.deleting)
  }

  ghost predicate OnSome(s: Tags, desks: set<Rid>, e: Rid) {
    exists d :: d in s.deskTags && d.desk in desks && d.entity == e
  }

  function SweptTag(s: Tags, e: Rid): Tags {
    if DeskTagsOf(s, e) != {} then s
    else s.(links := s.links - LinksOf(s, e),
            entities := if e in s.entities && !s.entities[e].machine then s.entities - {e} else s.entities)
  }

  lemma SweptNothing(s: Tags, desks: set<Rid>)
    ensures Swept(s, desks, {}) == s.(deskTags := (set d | d in s.deskTags && d.desk !in desks))
  {
    assert Swept(s, desks, {}).entities == s.entities;
  }

  lemma SweptAll(s: Tags, desks: set<Rid>, rows: set<Rid>)
    requires rows == set d | d in s.deskTags && d.desk in desks :: d.entity
    ensures Swept(s, desks, rows) == WithoutDesks(s, desks)
  {
    assert forall e :: OnlyOn(s, desks, e) ==> e in rows;
    assert Swept(s, desks, rows).entities == WithoutDesks(s, desks).entities;
  }

  lemma SweepOneMore(s: Tags, desks: set<Rid>, done: set<Rid>, e: Rid)
    requires OnSome(s, desks, e)
    ensures SweptTag(Swept(s, desks, done), e) == Swept(s, desks, done + {e})
  {
    var m := Swept(s, desks, done);
    var t := Swept(s, desks, done + {e});
    assert DeskTagsOf(m, e) == {} <==> OnlyOn(s, desks, e) by {
      if DeskTagsOf(m, e) == {} {
        forall d | d in s.deskTags && d.entity == e ensures d.desk in desks { assert d !in DeskTagsOf(m, e); }
      }
    }
    if OnlyOn(s, desks, e) {
      assert t.links == m.links - LinksOf(m, e);
      assert t.entities == if e in m.entities && !m.entities[e].machine then m.entities - {e} else m.entities;
    } else {
      assert t.entities == m.entities && t.links == m.links;
    }
  }

  // ---- creating and linking ----

  /** Nothing goes away, and at most `rid` is new. */
  ghost predicate OnlyAdds(s: Tags, t: Tags, rid: Rid) {
    && (forall e :: e in s.entities ==> e in t.entities && t.entities[e] == s.entities[e])
    && s.links <= t.links && t.deleting == s.deleting
    && (forall e :: IsFresh(s, e) && e != rid ==> IsFresh(t, e))
  }

  /** The tag of the item, which may be linked on the desk. */
  ghost predicate CanLink(s: Tags, e: Rid, item: Item, user: Rid, desk: Rid) {
    && e in s.entities && s.entities[e].owner == user && s.entities[e].kind == item.kind
    && s.entities[e].name == item.name
    && (s.entities[e].machine || InDesk(s, e, desk))
  }

  lemma CreatedOnlyAdds(s: Tags, rid: Rid, entity: Entity, desk: Rid)
    requires IsFresh(s, rid)
    ensures OnlyAdds(s, Created(s, rid, entity, Some(desk)), rid)
    ensures !entity.machine ==> InDesk(Created(s, rid, entity, Some(desk)), rid, desk)
  {
    var t := Created(s, rid, entity, Some(desk));
    assert !entity.machine ==> DeskTag(desk, rid, entity.owner) in t.deskTags;
    forall e | IsFresh(s, e) && e != rid ensures IsFresh(t, e) { assert HasLink(t, e) == HasLink(s, e); }
  }

  /** At most one link of the tag is new, and nothing else. */
  ghost predicate AddsLink(t: Tags, u: Tags, e: Rid) {
    u == t || exists l: Link :: l.key.entity == e && u == t.(links := t.links + {l})
  }

  lemma LinkOnlyAdds(s: Tags, t: Tags, u: Tags, rid: Rid, e: Rid)
    requires OnlyAdds(s, t, rid) && e in t.entities
    requires AddsLink(t, u, e)
    ensures OnlyAdds(s, u, rid)
  {
    forall x | IsFresh(t, x) ensures IsFresh(u, x) {}
  }

  ghost predicate AllTagged(s: Tags, list: seq<Item>, user: Rid, target: Rid, types: set<string>) {
    forall item :: item in list && item.kind in types && IsNamed(item) ==>
      IsTagged(s, item.kind, item.name, user, target)
  }

  lemma TagsStay(s: Tags, t: Tags, rid: Rid, list: seq<Item>, user: Rid, target: Rid, types: set<string>)
    requires OnlyAdds(s, t, rid) && AllTagged(s, list, user, target, types)
    ensures AllTagged(t, list, user, target, types)
  {
    forall item | item in list && item.kind in types && IsNamed(item)
      ensures IsTagged(t, item.kind, item.name, user, target)
    {
      var e, l :| e in s.entities && l in s.links && TagOf(s, e, l, item.kind, item.name, user, target);
      assert TagOf(t, e, l, item.kind, item.name, user, target);
    }
  }

  lemma {:induction false} RunsJoin(s: Tags, a: seq<Op>, b: seq<Op>)
    requires IsRun(s, a) && IsRun(After(s, a), b)
    ensures IsRun(s, a + b) && After(s, a + b) == After(After(s, a), b)
    decreases |a|
  {
    if a == [] {
      assert a + b == b;
    } else {
      assert (a + b)[0] == a[0] && (a + b)[1..] == a[1..] + b;
      RunsJoin(Apply(s, a[0]), a[1..], b);
    }
  }

  /** The operations of a creating and linking: tags of the listed items on the desk, and links by hand of the
      user's tags to the target. */
  ghost predicate OnlyFor(ops: seq<Op>, list: seq<Item>, target: Rid, user: Rid, desk: Rid, types: set<string>) {
    forall op :: op in ops ==> IsFor(op, list, target, user, desk, types)
  }

  ghost predicate IsFor(op: Op, list: seq<Item>, target: Rid, user: Rid, desk: Rid, types: set<string>) {
    match op
    case Create(_, entity, home) =>
      entity.kind in types && entity.owner == user && home == Some(desk)
        && Item(entity.kind, entity.name, entity.machine) in list
    case PutLink(l) => l.key.target == target && l.key.region == None && l.key.maker == ByUser(user) && l.owner == user
                       && l.desk == desk
    case Attach(_, _) => false
    case Unlink(_, _) => false
    case DropRun(_, _, _, _) => false
    case DropNodes(_) => false
    case DropDesks(_) => false
    case Rename(_, _) => false
    case Leave(_, _) => false
    case Erase(_) => false
    case Hide(_) => false
    case Revive(_) => false
  }

  function Creates(ops: seq<Op>): nat {
    if ops == [] then 0 else (if ops[0].Create? then 1 else 0) + Creates(ops[1..])
  }

  lemma {:induction false} CreatesJoin(a: seq<Op>, b: seq<Op>)
    ensures Creates(a + b) == Creates(a) + Creates(b)
  {
    if a == [] {
      assert a + b == b;
    } else {
      assert (a + b)[0] == a[0] && (a + b)[1..] == a[1..] + b;
      CreatesJoin(a[1..], b);
    }
  }

  class TagStore {
    var entities: map<Rid, Entity>
    var deskTags: set<DeskTag>
    var links: set<Link>
    var deleting: set<Rid>

    function State(): Tags
      reads this
    {
      Tags(entities, deskTags, links, deleting)
    }

    constructor ()
      ensures State() == Tags(map[], {}, {}, {}) && Good(State()) && OrphansWithin(State(), {})
    {
      entities, deskTags, links, deleting := map[], {}, {}, {};
    }

    method FindHumanInDesk(kind: string, name: string, user: Rid, desk: Rid) returns (found: Option<Rid>)
      ensures found.None? <==> !HasHuman(State(), kind, name, user, desk)
      ensures found.Some? ==> HumanInDesk(State(), found.value, kind, name, user, desk)
      ensures found.None? <==> !Rows.SomeTag(State(), kind, name, user, desk)
      ensures found.Some? ==> Rows.IsTag(State(), found.value, kind, name, user, desk)
    {
      var rows := set e | e in entities && entities[e] == Entity(user, kind, name, false);
      var rest := rows;
      while rest != {}
        invariant rest <= rows && forall e :: e in rows - rest ==> !InDesk(State(), e, desk)
        decreases |rest|
      {
        var e :| e in rest;
        if InDesk(State(), e, desk) {
          assert Rows.IsTag(State(), e, kind, name, user, desk);
          return Some(e);
        }
        rest := rest - {e};
      }
      found := None;
    }

    method FindEntityForDesk(kind: string, name: string, user: Rid, desk: Option<Rid>) returns (found: Option<Rid>)
      ensures found.Some? ==> IsForDesk(State(), found.value, kind, name, user, desk)
      ensures found.None? ==> forall e :: !IsForDesk(State(), e, kind, name, user, desk)
    {
      if desk.Some? {
        found := FindHumanInDesk(kind, name, user, desk.value);
        if found.Some? { return; }
      }
      var rows := set e | e in entities && entities[e] == Entity(user, kind, name, true);
      if rows == {} {
        assert forall e :: e in entities && entities[e] == Entity(user, kind, name, true) ==> e in rows;
        return None;
      }
      var e :| e in rows;
      found := Some(e);
    }

    method AttachToDesk(e: Rid, desk: Rid) returns (added: bool)
      requires e in entities
      modifies this
      ensures added <==> !Rows.IsOn(old(State()), e, desk)
      ensures State() == if added then Attached(old(State()), desk, e) else old(State())
      ensures deskTags == if added then old(deskTags) + {DeskTag(desk, e, entities[e].owner)} else old(deskTags)
    {
      if InDesk(State(), e, desk) { return false; }
      deskTags := deskTags + {DeskTag(desk, e, entities[e].owner)};
      added := true;
    }

    /** Creates a tag; a human one joins the desk's vocabulary, which may have it already. */
    method CreateEntity(item: Item, user: Rid, desk: Option<Rid>, rid: Rid) returns (made: Made)
      requires IsFresh(State(), rid) && (desk.Some? ==> desk.value !in deleting) && (!item.machine ==> desk.Some?)
      modifies this
      ensures made.Refused? <==> item.kind in {"", "undefined"} || item.name in {"", "undefined"}
      ensures made.Existing? ==> !item.machine && Rows.IsTag(State(), made.rid, item.kind, item.name, user, desk.value)
      ensures made.New? ==> made.rid == rid
      ensures made.New? && !item.machine ==> !Rows.SomeTag(old(State()), item.kind, item.name, user, desk.value)
      ensures made.New? ==>
              Rows.Changes(old(State()), Create(rid, Entity(user, item.kind, item.name, item.machine), desk), State())
      ensures var op := Create(rid, Entity(user, item.kind, item.name, item.machine), desk);
              if made.New? then Enabled(old(State()), op) && State() == Apply(old(State()), op)
              else State() == old(State())
      ensures Kept(old(State()), State())
    {
      if !IsNamed(item) { return Refused; }
      if !item.machine {
        var existing := FindHumanInDesk(item.kind, item.name, user, desk.value);
        if existing.Some? { return Existing(existing.value); }
      }
      ghost var s := State();
      ghost var op := Create(rid, Entity(user, item.kind, item.name, item.machine), desk);
      assert !InDesk(s, rid, if desk.Some? then desk.value else "") && Enabled(s, op);
      entities := entities[rid := Entity(user, item.kind, item.name, item.machine)];
      if !item.machine {
        var added := AttachToDesk(rid, desk.value);
        assert added == !InDesk(s, rid, desk.value);
      }
      assert State() == Apply(s, op);
      StepKept(s, op);
      Rows.StepChanges(s, op);
      made := New(rid);
    }

    /** One link per tag, target, region and maker. */
    method CreateTagLink(link: Link) returns (added: bool)
      modifies this
      ensures added <==> forall l :: l in old(links) ==> l.key != link.key
      ensures State() == if added then old(State()).(links := old(links) + {link}) else old(State())
    {
      if exists l :: l in links && l.key == link.key { return false; }
      links := links + {link};
      added := true;
    }

    /** Links a tag to a node; `owned` is the node's desk when the node is the user's. */
    method Link(e: Rid, target: Rid, user: Rid, owned: Option<Rid>, region: Option<string>, maker: Maker)
      returns (linked: bool)
      modifies this
      ensures linked <==> (owned.Some? && e in old(entities) && old(entities)[e].owner == user
                           && (old(entities)[e].machine || Rows.IsOn(old(State()), e, owned.value)))
      ensures linked ==> exists l :: l in links && l.key == LinkKey(e, target, region, maker)
      ensures State() == old(State())
              || (linked && PutsLink(old(State()), State(),
                                     TagTable.Link(LinkKey(e, target, region, maker), user, owned.value)))
      ensures entities == old(entities) && deskTags == old(deskTags) && deleting == old(deleting)
      ensures if linked && forall l :: l in old(links) ==> l.key != LinkKey(e, target, region, maker)
              then links == old(links) + {TagTable.Link(LinkKey(e, target, region, maker), user, owned.value)}
              else links == old(links)
      ensures Kept(old(State()), State())
    {
      if e !in entities || entities[e].owner != user { return false; }
      if owned.None? { return false; }
      if !entities[e].machine && !InDesk(State(), e, owned.value) { return false; }
      var link := TagTable.Link(LinkKey(e, target, region, maker), user, owned.value);
      var added := CreateTagLink(link);
      if added {
        StepKept(old(State()), PutLink(link));
        assert link in links;
      }
      linked := true;
    }

    method PruneOrphanMachineTag(e: Rid)
      modifies this
      ensures State() == Pruned(old(State()), {e})
      ensures deskTags == old(deskTags) && links == old(links) && deleting == old(deleting)
      ensures entities == if e in old(entities) && old(entities)[e].machine && forall l :: l in links ==>
              l.key.entity != e
                          then old(entities) - {e} else old(entities)
    {
      if e !in entities || !entities[e].machine || HasLink(State(), e) {
        PrunedNothing(State(), {e});
        return;
      }
      assert IsOrphan(State(), e);
      entities := entities - {e};
    }

    /** The tags one by one. */
    method PruneEach(among: set<Rid>)
      modifies this
      ensures State() == Pruned(old(State()), among)
    {
      PrunedNothing(State(), {});
      var done: set<Rid> := {};
      while done != among
        invariant done <= among && State() == Pruned(old(State()), done)
        decreases |among - done|
      {
        var e :| e in among - done;
        PruneOneMore(old(State()), done, e);
        PruneOrphanMachineTag(e);
        assert among - (done + {e}) == (among - done) - {e};
        done := done + {e};
      }
    }

    method Unlink(e: Rid, target: Rid, user: Rid) returns (done: bool)
      modifies this
      ensures done <==> e in old(entities) && old(entities)[e].owner == user
      ensures State() == if done then Apply(old(State()), TagTable.Unlink(e, target)) else old(State())
      ensures done ==> forall l :: l in links <==>
                l in old(links) && !(l.key.entity == e && l.key.target == target && l.key.region == None)
      ensures deskTags == old(deskTags) && deleting == old(deleting)
      ensures forall x :: x != e ==> (x in entities <==> x in old(entities))
      ensures forall x :: x in entities ==> x in old(entities) && entities[x] == old(entities)[x]
      ensures done ==> (e !in entities <==> old(entities)[e].machine && forall l :: l in links ==> l.key.entity != e)
      ensures Kept(old(State()), State())
    {
      if e !in entities || entities[e].owner != user { return false; }
      StepKept(State(), TagTable.Unlink(e, target));
      Rows.StepChanges(State(), TagTable.Unlink(e, target));
      links := links - FileLinks(State(), e, target);
      PruneOrphanMachineTag(e);
      done := true;
    }

    /** The links of deleted nodes, a thousand nodes a statement, then their machine tags one by one: the
        same as deleting and pruning at once. */
    method RemoveLinksOf(targets: seq<Rid>)
      modifies this
      ensures State() == Apply(old(State()), DropNodes(Elements(targets))) && Kept(old(State()), State())
      ensures Rows.Changes(old(State()), DropNodes(Elements(targets)), State())
    {
      ghost var s := State();
      StepKept(s, DropNodes(Elements(targets)));
      Rows.StepChanges(s, DropNodes(Elements(targets)));
      var affected: set<Rid> := {};
      var i := 0;
      while i < |targets|
        invariant 0 <= i <= |targets|
        invariant affected == EntitiesOf(LinksTo(s, Elements(targets[..i])))
        invariant State() == DropLinks(s, LinksTo(s, Elements(targets[..i])))
      {
        var n := if i + 1000 <= |targets| then i + 1000 else |targets|;
        var chunk := Elements(targets[i..n]);
        assert targets[..n] == targets[..i] + targets[i..n];
        MoreTargets(s, Elements(targets[..i]), chunk);
        assert Elements(targets[..n]) == Elements(targets[..i]) + chunk;
        affected := affected + EntitiesOf(LinksTo(State(), chunk));
        links := links - LinksTo(State(), chunk);
        i := n;
      }
      assert targets[..i] == targets;
      PruneEach(affected);
    }

    method RemoveMachineLinksOfRun(source: Rid, service: Option<string>, task: Option<string>, model: Option<string>)
      modifies this
      ensures State() == Apply(old(State()), DropRun(source, service, task, model)) && Kept(old(State()), State())
      ensures Rows.Changes(old(State()), DropRun(source, service, task, model), State())
    {
      StepKept(State(), DropRun(source, service, task, model));
      Rows.StepChanges(State(), DropRun(source, service, task, model));
      var which := RunLinks(State(), source, service, task, model);
      links := links - which;
      PruneEach(EntitiesOf(which));
    }

    /** `humanEntity`: the checks before any change of a human tag. */
    method HumanEntity(e: Rid, user: Rid) returns (answer: Answer<Entity>)
      ensures answer.NotFound? <==> e !in entities || entities[e].owner != user
      ensures answer.BadRequest? <==> e in entities && entities[e].owner == user && entities[e].machine
      ensures answer.Ok? ==> answer.value == entities[e]
      ensures !answer.Conflict?
    {
      if e !in entities || entities[e].owner != user { return NotFound; }
      if entities[e].machine { return BadRequest; }
      answer := Ok(entities[e]);
    }

    /** Renames a human tag unless a desk of it that is not being deleted has another one of that name. */
    method Rename(e: Rid, name: Option<string>, user: Rid) returns (answer: Answer<string>)
      modifies this
      ensures var s := old(State());
              match answer
              case NotFound => (e !in s.entities || s.entities[e].owner != user) && State() == s
              case BadRequest => && e in s.entities && s.entities[e].owner == user && State() == s
                                 && (s.entities[e].machine || NewName(s.entities[e], name) == "")
              case Conflict => IsHuman(s, e) && s.entities[e].owner == user && State() == s
                               && NewName(s.entities[e], name) != s.entities[e].name
                               && Rows.IsTaken(s, e, NewName(s.entities[e], name))
              case Ok(given) => && IsHuman(s, e) && s.entities[e].owner == user
                                && given == NewName(s.entities[e], name) && given != ""
                                && (given == s.entities[e].name || !Rows.IsTaken(s, e, given))
                                && Enabled(s, TagTable.Rename(e, given))
                                && State() == Apply(s, TagTable.Rename(e, given))
      ensures answer.Ok? ==> Rows.Changes(old(State()), TagTable.Rename(e, answer.value), State())
      ensures LiveVocabulary(old(State())) ==> LiveVocabulary(State())
      ensures Good(old(State())) ==> (Good(State()) <==> (answer.Ok? ==> FreeName(old(State()), e, answer.value)))
    {
      var entity := HumanEntity(e, user);
      if entity.NotFound? { return NotFound; }
      if entity.BadRequest? { return BadRequest; }
      var given := NewName(entities[e], name);
      if given == "" { return BadRequest; }
      Rows.TakenMeans(State(), e, given);
      if given != entities[e].name && Clashes(State(), e, given) { return Conflict; }
      Rows.StepChanges(State(), TagTable.Rename(e, given));
      if Good(State()) { StepKeepsGood(State(), TagTable.Rename(e, given)); }
      if LiveVocabulary(State()) { StepKeepsLive(State(), TagTable.Rename(e, given)); }
      entities := entities[e := entities[e].(name := given)];
      answer := Ok(given);
    }

    /** Creates a human tag in a desk; `owns` is whether the user owns the desk, which then is live. */
    method CreateInDesk(desk: Rid, kind: string, name: string, user: Rid, owns: bool, types: set<string>, rid: Rid)
      returns (answer: Answer<Made>)
      requires IsFresh(State(), rid) && (owns ==> desk !in deleting)
      modifies this
      ensures answer.NotFound? <==> !owns
      ensures answer.BadRequest? <==> owns && (Trim(name) == "" || kind !in types)
      ensures answer.Ok? && answer.value.Refused? ==> State() == old(State())
      ensures answer.Ok? && answer.value.New? ==>
                var op := Create(rid, Entity(user, kind, Trim(name), false), Some(desk));
                                                  Enabled(old(State()), op) && State() == Apply(old(State()), op)
      ensures answer.Ok? && !answer.value.Refused? ==> Rows.SomeTag(State(), kind, Trim(name), user, desk)
      ensures answer.Ok? && Rows.SomeTag(old(State()), kind, Trim(name), user, desk) ==> State() == old(State())
      ensures !answer.Ok? ==> State() == old(State())
      ensures Kept(old(State()), State())
    {
      if !owns { return NotFound; }
      var given := Trim(name);
      if given == "" || kind !in types { return BadRequest; }
      ghost var s := State();
      var made := CreateEntity(Item(kind, given, false), user, Some(desk), rid);
      if made.New? {
        assert DeskTag(desk, rid, user) in deskTags;
        assert Rows.IsOn(State(), rid, desk) && Rows.IsTag(State(), rid, kind, given, user, desk);
      }
      answer := Ok(made);
    }

    /** One row of an import. */
    method ImportRow(e: Rid, desk: Rid, user: Rid) returns (outcome: Option<bool>, ghost ops: seq<Op>)
      requires IsHuman(State(), e) && entities[e].owner == user && desk !in deleting
      modifies this
      ensures Ran(old(State()), ops, State())
      ensures ops == if outcome == Some(true) then [Attach(desk, e)] else []
      ensures outcome.Some? ==> InDesk(State(), e, desk) && (outcome.value <==> !InDesk(old(State()), e, desk))
      ensures outcome.None? ==> !InDesk(old(State()), e, desk) && HasTwin(State(), e, user, desk)
      ensures MorePlaces(old(State()), State())
    {
      if InDesk(State(), e, desk) { return Some(false), []; }
      var twin := FindHumanInDesk(entities[e].kind, entities[e].name, user, desk);
      if twin.Some? { return None, []; }
      StepKept(State(), Attach(desk, e));
      OneMore(State(), [], Attach(desk, e));
      var added := AttachToDesk(e, desk);
      assert DeskTag(desk, e, user) in deskTags;
      assert [] + [Attach(desk, e)] == [Attach(desk, e)];
      outcome, ops := Some(true), [Attach(desk, e)];
    }

    /** Shares tags with a desk, one after the other, each check seeing the tags imported before it. In
        the end every chosen human tag of the user is on the desk, or the desk has another one of that
        name. */
    method ImportTags(rows: seq<Rid>, desk: Rid, user: Rid) returns (result: Import, ghost ops: seq<Op>)
      requires desk !in deleting && forall e :: e in rows ==> IsHuman(State(), e) && entities[e].owner == user
      modifies this
      ensures Ran(old(State()), ops, State())
      ensures OnlyAttaches(ops, rows, desk) && |ops| == result.imported
      ensures result.imported + result.skipped + |result.conflicts| == |rows|
      ensures MorePlaces(old(State()), State())
      ensures AllImported(State(), rows, user, desk)
      ensures AllTwins(State(), result.conflicts, rows, user, desk)
    {
      result, ops := Import(0, 0, []), [];
      ghost var s := State();
      for i := 0 to |rows|
        invariant MorePlaces(s, State()) && Ran(s, ops, State())
        invariant OnlyAttaches(ops, rows, desk) && |ops| == result.imported
        invariant result.imported + result.skipped + |result.conflicts| == i
        invariant AllImported(State(), rows[..i], user, desk) && AllTwins(State(), result.conflicts, rows, user, desk)
      {
        ghost var t := State();
        var outcome;
        ghost var more;
        assert rows[i] in rows && IsHuman(s, rows[i]) && IsHuman(t, rows[i]);
        outcome, more := ImportRow(rows[i], desk, user);
        RanThen(s, ops, t, more, State());
        ImportedOneMore(t, State(), rows, i, user, desk);
        TwinsStay(t, State(), result.conflicts, rows, user, desk);
        ops := ops + more;
        result := Tallied(result, outcome, rows[i]);
      }
      assert rows[..|rows|] == rows;
    }

    /** The human tags of the user that an import is about. */
    method ImportList(from: Option<Rid>, rids: seq<Rid>, user: Rid) returns (rows: seq<Rid>)
      ensures forall e :: e in rows <==> Chosen(State(), e, from, rids, user)
    {
      var listed := rids;
      if from.Some? { listed := Listing(set d | d in deskTags && Lists(d, from.value, user) :: d.entity); }
      rows := HumanRows(State(), listed, user);
      HumanRowsHas(State(), listed, user);
      forall e ensures IsHuman(State(), e) && entities[e].owner == user ==>
        (e in listed <==> Chosen(State(), e, from, rids, user)) {
        if IsHuman(State(), e) && entities[e].owner == user { ChosenIsListed(State(), e, from, rids, user, listed); }
      }
    }

    /** `importIntoDesk`: the tags of another desk, or chosen ones, of which the human ones of the user count.
        `rids` is the chosen list, each rid once. */
    method ImportIntoDesk(desk: Rid, from: Option<Rid>, rids: seq<Rid>, user: Rid, owns: bool, ownsFrom: bool)
      returns (answer: Answer<Import>, ghost ops: seq<Op>)
      requires owns ==> desk !in deleting
      modifies this
      ensures answer.Ok? <==> owns && (from.Some? ==> ownsFrom && from != Some(desk))
      ensures Ran(old(State()), ops, State())
      ensures !answer.Ok? ==> ops == []
      ensures answer.Ok? ==> entities == old(entities)
      ensures answer.Ok? ==> forall e :: Chosen(old(State()), e, from, rids, user) ==> Imported(State(), e, user, desk)
      ensures forall i :: 0 <= i < |ops| ==>
              ops[i].Attach? && ops[i].desk == desk && Chosen(old(State()), ops[i].rid, from, rids, user)
    {
      ops := [];
      if !owns { return NotFound, []; }
      if from.Some? && !ownsFrom { return NotFound, []; }
      if from == Some(desk) { return BadRequest, []; }
      var rows := ImportList(from, rids, user);
      var result;
      result, ops := ImportTags(rows, desk, user);
      answer := Ok(result);
    }

    /** Takes a human tag out of a desk; with its last desk the tag itself goes. */
    method RemoveFromDesk(desk: Rid, e: Rid, user: Rid, owns: bool) returns (answer: Answer<bool>)
      modifies this
      ensures answer.Ok?
              <==> owns && e in old(entities) && !old(entities)[e].machine && old(entities)[e].owner == user
                   && Rows.IsOn(old(State()), e, desk)
      ensures answer.Ok? ==> Enabled(old(State()), Leave(desk, e)) && State() == Apply(old(State()), Leave(desk, e))
      ensures answer.Ok? ==> Rows.Changes(old(State()), Leave(desk, e), State())
      ensures !answer.Ok? ==> State() == old(State())
      ensures answer.Ok? ==>
              (answer.value <==> Rows.OnlyThere(old(State()), {desk}, e)) && (answer.value <==> e !in entities)
      ensures Kept(old(State()), State())
    {
      if !owns { return NotFound; }
      var entity := HumanEntity(e, user);
      if entity.NotFound? { return NotFound; }
      if entity.BadRequest? { return BadRequest; }
      if !InDesk(State(), e, desk) { return NotFound; }
      ghost var s := State();
      StepKept(s, Leave(desk, e));
      Rows.StepChanges(s, Leave(desk, e));
      LastDesk(s, desk, e);
      links := set l | l in links && !(l.key.entity == e && l.desk == desk);
      deskTags := set d | d in deskTags && !(d.entity == e && d.desk == desk);
      var deleted := DeskTagsOf(State(), e) == {};
      if deleted {
        assert deskTags - DeskTagsOf(State(), e) == deskTags;
        links := links - LinksOf(State(), e);
        entities := entities - {e};
      }
      answer := Ok(deleted);
    }

    /** Deletes a human tag, its links and its places. */
    method DeleteEverywhere(e: Rid, user: Rid) returns (answer: Answer<bool>)
      modifies this
      ensures answer.Ok? <==> e in old(entities) && !old(entities)[e].machine && old(entities)[e].owner == user
      ensures if answer.Ok? then State() == Apply(old(State()), Erase(e)) else State() == old(State())
      ensures answer.Ok? ==> Rows.Changes(old(State()), Erase(e), State())
      ensures answer.Ok? ==> e !in entities && !HasLink(State(), e) && forall d :: !InDesk(State(), e, d)
      ensures Kept(old(State()), State())
    {
      var entity := HumanEntity(e, user);
      if entity.NotFound? { return NotFound; }
      if entity.BadRequest? { return BadRequest; }
      StepKept(State(), Erase(e));
      Rows.StepChanges(State(), Erase(e));
      links := links - LinksOf(State(), e);
      deskTags := deskTags - DeskTagsOf(State(), e);
      entities := entities - {e};
      answer := Ok(true);
    }

    /** A tag some deleted desk had: gone with its links when no desk is left. */
    method SweepTag(e: Rid)
      modifies this
      ensures State() == SweptTag(old(State()), e)
    {
      if DeskTagsOf(State(), e) == {} {
        links := links - LinksOf(State(), e);
        if e in entities && !entities[e].machine { entities := entities - {e}; }
      }
    }

    /** Desks were deleted: the vocabularies go, and tag by tag the human tags
        no desk has any more. */
    method RemoveDeskTags(desks: set<Rid>)
      modifies this
      ensures State() == Apply(old(State()), DropDesks(desks))
      ensures Rows.Changes(old(State()), DropDesks(desks), State())
      ensures LiveVocabulary(old(State())) ==> LiveVocabulary(State())
      ensures Good(old(State())) ==> (Good(State()) <==> NoStrayLinks(old(State()), desks))
    {
      ghost var s := State();
      Rows.StepChanges(s, DropDesks(desks));
      if Good(s) { StepKeepsGood(s, DropDesks(desks)); }
      if LiveVocabulary(s) { StepKeepsLive(s, DropDesks(desks)); }
      var rows := set d | d in deskTags && d.desk in desks :: d.entity;
      deskTags := set d | d in deskTags && d.desk !in desks;
      SweptNothing(s, desks);
      SweepEach(rows, desks, s);
      SweptAll(s, desks, rows);
    }

    method SweepEach(rows: set<Rid>, ghost desks: set<Rid>, ghost s: Tags)
      requires State() == Swept(s, desks, {}) && forall e :: e in rows ==> OnSome(s, desks, e)
      modifies this
      ensures State() == Swept(s, desks, rows)
    {
      var done: set<Rid> := {};
      while done != rows
        invariant done <= rows && State() == Swept(s, desks, done)
        decreases |rows - done|
      {
        var e :| e in rows - done;
        SweepOneMore(s, desks, done, e);
        SweepTag(e);
        assert rows - (done + {e}) == (rows - done) - {e};
        done := done + {e};
      }
    }

    /** The tag for one item: the desk's or the user's, else a new one. */
    method TagForItem(item: Item, user: Rid, desk: Rid, rid: Rid) returns (made: Made, ghost ops: seq<Op>)
      requires IsFresh(State(), rid) && desk !in deleting
      modifies this
      ensures Ran(old(State()), ops, State())
      ensures OnlyAdds(old(State()), State(), rid)
      ensures !IsNamed(item) && made.Refused? ==> State() == old(State())
      ensures IsNamed(item) ==> !made.Refused?
      ensures !made.Refused? ==> CanLink(State(), made.rid, item, user, desk)
      ensures ops == if made.New? then [Create(rid, Entity(user, item.kind, item.name, item.machine), Some(desk))]
              else []
    {
      ghost var s := State();
      ops := [];
      if item.kind != "" && item.name != "" {
        var existing := FindEntityForDesk(item.kind, item.name, user, Some(desk));
        if existing.Some? { return Existing(existing.value), []; }
      }
      made := CreateEntity(item, user, Some(desk), rid);
      if made.New? {
        var op := Create(rid, Entity(user, item.kind, item.name, item.machine), Some(desk));
        OneMore(s, [], op);
        assert [] + [op] == [op];
        ops := [op];
        CreatedOnlyAdds(s, rid, op.entity, desk);
      }
    }

    /** Links the tag of an item, by hand. */
    method LinkByHand(e: Rid, item: Item, target: Rid, user: Rid, desk: Rid) returns (ghost ops: seq<Op>)
      requires CanLink(State(), e, item, user, desk)
      modifies this
      ensures Ran(old(State()), ops, State())
      ensures AddsLink(old(State()), State(), e) && IsTagged(State(), item.kind, item.name, user, target)
      ensures ops == [] || ops == [PutLink(TagTable.Link(LinkKey(e, target, None, ByUser(user)), user, desk))]
    {
      ghost var s := State();
      ghost var link := TagTable.Link(LinkKey(e, target, None, ByUser(user)), user, desk);
      var linked := Link(e, target, user, Some(desk), None, ByUser(user));
      ghost var l :| l in links && l.key == link.key;
      assert e in entities && TagOf(State(), e, l, item.kind, item.name, user, target);
      ops := [];
      if State() != s {
        OneMore(s, [], PutLink(link));
        assert [] + [PutLink(link)] == [PutLink(link)];
        ops := [PutLink(link)];
      }
    }

    /** One item of `createEntitiesAndLink`. */
    method CreateAndLink(item: Item, target: Rid, user: Rid, desk: Rid, rid: Rid)
      returns (made: Made, ghost ops: seq<Op>)
      requires IsFresh(State(), rid) && desk !in deleting
      modifies this
      ensures Ran(old(State()), ops, State())
      ensures OnlyAdds(old(State()), State(), rid)
      ensures IsNamed(item) ==> IsTagged(State(), item.kind, item.name, user, target)
      ensures OnlyFor(ops, [item], target, user, desk, {item.kind})
      ensures Creates(ops) == (if made.New? then 1 else 0) && (made.Refused? ==> !IsNamed(item))
    {
      ghost var s := State();
      made, ops := TagForItem(item, user, desk, rid);
      if made.Refused? { return; }
      ghost var t := State();
      ghost var more := LinkByHand(made.rid, item, target, user, desk);
      RanThen(s, ops, t, more, State());
      CreatesJoin(ops, more);
      ops := ops + more;
      LinkOnlyAdds(s, t, State(), rid, made.rid);
    }

    /** `createEntitiesAndLink`: afterwards the target has every tag of the list whose type the user has.
        `rids` are the records the database will give. */
    method CreateEntitiesAndLink(list: seq<Item>, target: Rid, user: Rid, owned: Option<Rid>, types: set<string>,
                                 rids: seq<Rid>)
      returns (created: nat, ghost ops: seq<Op>)
      requires (owned.Some? ==> owned.value !in deleting)
      requires |rids| == |list| && Distinct(rids) && forall i :: 0 <= i < |rids| ==> IsFresh(State(), rids[i])
      modifies this
      ensures Ran(old(State()), ops, State())
      ensures owned.None? ==> State() == old(State())
      ensures owned.Some? ==> AllTagged(State(), list, user, target, types)
      ensures owned.Some? ==> OnlyFor(ops, list, target, user, owned.value, types)
      ensures Creates(ops) <= created && ((forall item :: item in list ==> IsNamed(item)) ==> created == Creates(ops))
    {
      created, ops := 0, [];
      if owned.None? { return; }
      ghost var s := State();
      for i := 0 to |list|
        invariant Ran(s, ops, State())
        invariant forall k :: i <= k < |rids| ==> IsFresh(State(), rids[k])
        invariant owned.value !in deleting && AllTagged(State(), list[..i], user, target, types)
        invariant OnlyFor(ops, list, target, user, owned.value, types)
        invariant Creates(ops) <= created
                  && ((forall item :: item in list ==> IsNamed(item)) ==> created == Creates(ops))
      {
        ghost var t := State();
        assert list[..i + 1] == list[..i] + [list[i]];
        if list[i].kind in types {
          var made;
          ghost var more;
          made, more := CreateAndLink(list[i], target, user, owned.value, rids[i]);
          RanThen(s, ops, t, more, State());
          CreatesJoin(ops, more);
          assert list[i] in list;
          ops := ops + more;
          if !made.Existing? { created := created + 1; }
          TagsStay(t, State(), rids[i], list[..i], user, target, types);
        }
      }
      assert list[..|list|] == list;
    }
  }
}
