/** Finding the files that have tags: `filesWithAll` starts from the rarest tag and narrows its targets
    tag by tag, 500 at a time. */
module TagQueries {
  import opened Collections

  type Rid = string

  /** A TagLink row as the queries read it. */
  datatype Row = Row(entity: Rid, target: Option<Rid>, owner: Rid, desk: Rid)

  /** Whose links count, and on which desks (None: on all). */
  datatype Scope = Scope(owner: Rid, desks: Option<set<Rid>>)

  predicate InScope(r: Row, scope: Scope) {
    r.owner == scope.owner && (scope.desks.Some? ==> r.desk in scope.desks.value)
  }

  predicate Tags(r: Row, e: Rid, scope: Scope) { InScope(r, scope) && r.entity == e }

  /** The simple query: the target has a link to the tag, of the owner and on one of the desks. */
  ghost predicate Has(rows: seq<Row>, e: Rid, scope: Scope, t: Rid) {
    exists r :: r in rows && r.entity == e && r.target == Some(t) && r.owner == scope.owner
                && (scope.desks == None || r.desk in scope.desks.value)
  }

  ghost predicate HasAll(rows: seq<Row>, entities: seq<Rid>, scope: Scope, t: Rid) {
    forall e :: e in entities ==> Has(rows, e, scope, t)
  }

  ghost predicate HasAny(rows: seq<Row>, entities: seq<Rid>, scope: Scope, t: Rid) {
    exists e :: e in entities && Has(rows, e, scope, t)
  }

  /** `count(*)` of a tag's links. */
  function CountOf(rows: seq<Row>, e: Rid, scope: Scope): nat {
    if rows == [] then 0
    else CountOf(rows[..|rows| - 1], e, scope) + (if Tags(rows[|rows| - 1], e, scope) then 1 else 0)
  }

  /** The rows a count counts. */
  function Counted(rows: seq<Row>, e: Rid, scope: Scope): set<nat> {
    set i: nat | 0 <= i < |rows| && rows[i].entity == e && rows[i].owner == scope.owner
                 && (scope.desks == None || rows[i].desk in scope.desks.value)
  }

  lemma {:induction false} CountMeans(rows: seq<Row>, e: Rid, scope: Scope)
    ensures CountOf(rows, e, scope) == |Counted(rows, e, scope)|
  {
    if rows != [] {
      var shorter, n := rows[..|rows| - 1], |rows| - 1;
      CountMeans(shorter, e, scope);
      forall i: nat | i < n ensures i in Counted(rows, e, scope) <==> i in Counted(shorter, e, scope) {}
      assert Counted(rows, e, scope) == Counted(shorter, e, scope) + (if Tags(rows[n], e, scope) then {n} else {});
    }
  }

  lemma {:induction false} NoRows(rows: seq<Row>, e: Rid, scope: Scope)
    ensures CountOf(rows, e, scope) == 0 <==> forall r :: r in rows ==> !Tags(r, e, scope)
  {
    if rows != [] {
      assert rows == rows[..|rows| - 1] + [rows[|rows| - 1]];
      NoRows(rows[..|rows| - 1], e, scope);
    }
  }

  predicate Rarer(rows: seq<Row>, scope: Scope, a: Rid, b: Rid) { CountOf(rows, a, scope) <= CountOf(rows, b, scope) }

  /** Without repeats and without empty ones, in order. */
  function Targets(rows: seq<Row>, e: Rid, scope: Scope): (r: seq<Rid>)
    ensures Distinct(r)
  {
    if rows == [] then []
    else
      var before := Targets(rows[..|rows| - 1], e, scope);
      var last := rows[|rows| - 1];
      if Tags(last, e, scope) && last.target.Some? && last.target.value !in before
      then before + [last.target.value] else before
  }

  lemma {:induction false} TargetsHave(rows: seq<Row>, e: Rid, scope: Scope, t: Rid)
    ensures t in Targets(rows, e, scope) <==> Has(rows, e, scope, t)
  {
    if rows != [] {
      var shorter := rows[..|rows| - 1];
      var last := rows[|rows| - 1];
      assert rows == shorter + [last];
      TargetsHave(shorter, e, scope, t);
      if Has(shorter, e, scope, t) {
        var r :| r in shorter && Tags(r, e, scope) && r.target == Some(t);
        assert r in rows;
      }
    }
  }

  function Keeping(targets: seq<Rid>, keep: set<Rid>): seq<Rid> {
    if targets == [] then [] else (if targets[0] in keep then [targets[0]] else []) + Keeping(targets[1..], keep)
  }

  lemma {:induction false} KeepingHas(targets: seq<Rid>, keep: set<Rid>)
    requires Distinct(targets)
    ensures Distinct(Keeping(targets, keep))
    ensures forall t :: t in Keeping(targets, keep) <==> t in targets && t in keep
  {
    if targets != [] { KeepingHas(targets[1..], keep); }
  }

  /** The targets among these that have the tag, asked 500 at a time. */
  method Narrow(rows: seq<Row>, e: Rid, scope: Scope, targets: seq<Rid>) returns (narrowed: seq<Rid>)
    requires Distinct(targets)
    ensures Distinct(narrowed) && forall t :: t in narrowed <==> t in targets && Has(rows, e, scope, t)
  {
    var keep: set<Rid> := {};
    var found := Targets(rows, e, scope);
    var i := 0;
    while i < |targets|
      invariant 0 <= i <= |targets|
      invariant forall t :: t in keep <==> t in targets[..i] && t in found
    {
      var n := if i + 500 <= |targets| then i + 500 else |targets|;
      var answer := set t | t in targets[i..n] && t in found;
      assert targets[..n] == targets[..i] + targets[i..n];
      keep := keep + answer;
      i := n;
    }
    assert targets[..i] == targets;
    KeepingHas(targets, keep);
    narrowed := Keeping(targets, keep);
    forall t ensures t in found <==> Has(rows, e, scope, t) { TargetsHave(rows, e, scope, t); }
  }

  /** `filesWithAll`: exactly the targets with a link to every tag, each once; read from the tag with the
      fewest links. */
  method FilesWithAll(rows: seq<Row>, entities: seq<Rid>, scope: Scope) returns (targets: seq<Rid>, ghost rarest: Rid)
    requires entities != []
    ensures Distinct(targets) && forall t :: t in targets <==> HasAll(rows, entities, scope, t)
    ensures rarest in entities
            && forall e :: e in entities ==> |Counted(rows, rarest, scope)| <= |Counted(rows, e, scope)|
    ensures forall t :: t in targets ==> Has(rows, rarest, scope, t)
  {
    var order := SortBy(entities, (a, b) => Rarer(rows, scope, a, b));
    Rarest(rows, entities, scope);
    rarest := order[0];
    forall e | e in entities ensures |Counted(rows, rarest, scope)| <= |Counted(rows, e, scope)| {
      CountMeans(rows, rarest, scope);
      CountMeans(rows, e, scope);
      assert Rarer(rows, scope, rarest, e);
    }
    if exists e :: e in entities && CountOf(rows, e, scope) == 0 {
      var e :| e in entities && CountOf(rows, e, scope) == 0;
      NoRows(rows, e, scope);
      assert forall t :: !Has(rows, e, scope, t);
      return [], order[0];
    }
    targets := Targets(rows, order[0], scope);
    forall t ensures t in targets <==> HasAll(rows, order[..1], scope, t) { TargetsHave(rows, order[0], scope, t); }
    for i := 1 to |order|
      invariant Distinct(targets) && forall t :: t in targets <==> HasAll(rows, order[..i], scope, t)
    {
      assert order[..i + 1] == order[..i] + [order[i]];
      targets := Narrow(rows, order[i], scope, targets);
      if targets == [] {
        assert forall t :: HasAll(rows, entities, scope, t) ==> HasAll(rows, order[..i + 1], scope, t);
        return;
      }
    }
    assert order[..|order|] == order;
  }

  lemma Rarest(rows: seq<Row>, entities: seq<Rid>, scope: Scope)
    requires entities != []
    ensures var order := SortBy(entities, (a, b) => Rarer(rows, scope, a, b));
            && |order| == |entities| && (forall e :: e in order <==> e in entities)
            && forall e :: e in entities ==> Rarer(rows, scope, order[0], e)
  {
    var leq := (a, b) => Rarer(rows, scope, a, b);
    var order := SortBy(entities, leq);
    SortPermutes(entities, leq);
    SortSorts(entities, leq);
    forall e ensures e in order <==> e in entities { SameElements(order, entities, e); }
    forall e | e in entities ensures Rarer(rows, scope, order[0], e) {
      var k :| 0 <= k < |order| && order[k] == e;
      assert k > 0 ==> leq(order[0], order[k]);
    }
  }

  /** The union of the targets, for `match: 'or'`. */
  function AnyTargets(rows: seq<Row>, entities: seq<Rid>, scope: Scope): (r: seq<Rid>)
    ensures Distinct(r)
  {
    if rows == [] then []
    else
      var before := AnyTargets(rows[..|rows| - 1], entities, scope);
      var last := rows[|rows| - 1];
      if InScope(last, scope) && last.entity in entities && last.target.Some? && last.target.value !in before
      then before + [last.target.value] else before
  }

  lemma {:induction false} AnyTargetsHave(rows: seq<Row>, entities: seq<Rid>, scope: Scope, t: Rid)
    ensures t in AnyTargets(rows, entities, scope) <==> HasAny(rows, entities, scope, t)
  {
    if rows != [] {
      var shorter := rows[..|rows| - 1];
      var last := rows[|rows| - 1];
      assert rows == shorter + [last];
      AnyTargetsHave(shorter, entities, scope, t);
      if HasAny(shorter, entities, scope, t) {
        var e :| e in entities && Has(shorter, e, scope, t);
        var r :| r in shorter && Tags(r, e, scope) && r.target == Some(t);
        assert r in rows && Has(rows, e, scope, t);
      }
      if last.entity in entities && Tags(last, last.entity, scope) && last.target == Some(t) {
        assert last in rows && Has(rows, last.entity, scope, t);
      }
    }
  }

  /** `fileRidsWithEntities` over a list of distinct tags: with "and" the files that have all of them, with
      "or" those that have any, each once and in the order of `leq`. */
  method FileRidsWithEntities(rows: seq<Row>, entities: seq<Rid>, scope: Scope, matchAnd: bool, leq: (Rid, Rid) -> bool)
    returns (files: seq<Rid>)
    requires TotalPreorder(leq)
    ensures Distinct(files) && Sorted(files, leq)
    ensures entities == [] ==> files == []
    ensures entities != [] ==> forall t ::
              t in files <==> if matchAnd then HasAll(rows, entities, scope, t) else HasAny(rows, entities, scope, t)
  {
    if entities == [] { return []; }
    var targets;
    if matchAnd && |entities| > 1 {
      ghost var rarest;
      targets, rarest := FilesWithAll(rows, entities, scope);
    } else {
      targets := AnyTargets(rows, entities, scope);
      forall t ensures t in targets <==> HasAny(rows, entities, scope, t) { AnyTargetsHave(rows, entities, scope, t); }
      if |entities| == 1 {
        assert entities == [entities[0]];
        forall t ensures HasAny(rows, entities, scope, t) <==> HasAll(rows, entities, scope, t) {
          assert entities[0] in entities;
        }
      }
    }
    files := SortBy(targets, leq);
    SortPermutes(targets, leq);
    SortSorts(targets, leq);
    forall t ensures t in files <==> t in targets { SameElements(files, targets, t); }
    DistinctSort(targets, files);
  }

  lemma DistinctSort(a: seq<Rid>, b: seq<Rid>)
    requires Distinct(a) && multiset(a) == multiset(b)
    ensures Distinct(b)
  {
    var same := (x: Rid) => x;
    DistinctByPermutes(a, b, same);
    forall i, j | 0 <= i < j < |b| ensures b[i] != b[j] { assert same(b[i]) != same(b[j]); }
  }
}
