/** The lineage graph and the cascade a delete follows. */
module Graph {
  import opened Collections

  type Rid = string

  datatype Kind = File | Set | Process | SetProcess | Project | Source | OtherKind

  /** A vertex with the properties the cascade reads. */
  datatype Node = Node(kind: Kind, ref: Option<Rid>, set_: Option<Rid>, setProcess: Option<Rid>, project: Option<Rid>)

  /** A DERIVED_FROM edge: `target` was made from `source` by `process`. */
  datatype Edge = Edge(target: Rid, source: Rid, process: Option<Rid>)

  /** A BELONGS_TO edge. */
  datatype Belongs = Belongs(member: Rid, owner: Rid)

  datatype Lineage = Lineage(nodes: map<Rid, Node>, derived: seq<Edge>, belongs: seq<Belongs>)

  predicate OnDesk(n: Node, p: Rid) {
    n.project == Some(p)
      && (n.kind == File || n.kind == Set || n.kind == Process || n.kind == SetProcess || n.kind == Source)
  }

  predicate Touches(e: Edge, n: Rid) { e.source == n || e.target == n }

  ghost predicate MakesOutput(g: Lineage, n: Rid, m: Rid) {
    exists e :: e in g.derived && e.source == n && e.target == m
  }

  ghost predicate MadeBy(g: Lineage, n: Rid, m: Rid) {
    exists e :: e in g.derived && Touches(e, n) && e.process == Some(m)
  }

  ghost predicate RanOutput(g: Lineage, n: Rid, m: Rid) {
    exists e :: e in g.derived && e.process == Some(n) && e.target == m
  }

  predicate HasMember(g: Lineage, n: Rid, m: Rid) {
    && n in g.nodes && g.nodes[n].kind == Set
    && m in g.nodes && g.nodes[m].kind == File && g.nodes[m].set_ == Some(n)
  }

  predicate HasChild(g: Lineage, n: Rid, m: Rid) {
    && n in g.nodes && g.nodes[n].kind == SetProcess
    && m in g.nodes && g.nodes[m].kind == Process && g.nodes[m].setProcess == Some(n)
  }

  predicate HoldsOnDesk(g: Lineage, n: Rid, m: Rid) {
    && n in g.nodes && g.nodes[n].kind == Project
    && (Belongs(m, n) in g.belongs || (m in g.nodes && OnDesk(g.nodes[m], n)))
  }

  /** Deleting the existing node `n` takes `m` with it directly: an output of it, the process of an
      edge at it, an output of it as a process, a member of it as a set, a process of it as a set
      process, or anything on it as a desk. */
  ghost predicate Takes(g: Lineage, n: Rid, m: Rid) {
    n in g.nodes && (MakesOutput(g, n, m) || MadeBy(g, n, m) || RanOutput(g, n, m) || HasMember(g, n, m)
                     || HasChild(g, n, m) || HoldsOnDesk(g, n, m))
  }

  ghost predicate Closed(g: Lineage, s: set<Rid>) {
    forall n, m :: n in s && Takes(g, n, m) ==> m in s
  }

  /** The least set that holds the root and is closed, through existing nodes, under what a delete
      takes along. */
  ghost predicate Cascade(g: Lineage, root: Rid, s: set<Rid>) {
    && root in s && Closed(g, s)
    && forall other: set<Rid> :: root in other && Closed(g, other) ==> s <= other
  }

  // ---- nothing upstream ----

  /** Who may stand at which end: lineage joins files, sets and sources; processes are named on the
      edges and by their set processes. */
  ghost predicate WellKinded(g: Lineage) {
    && (forall e :: e in g.derived ==>
          IsResult(g, e.target) && IsResult(g, e.source) && (e.process.Some? ==> IsRun(g, e.process.value)))
  }

  predicate IsResult(g: Lineage, n: Rid) {
    n in g.nodes && g.nodes[n].kind != Process && g.nodes[n].kind != SetProcess && g.nodes[n].kind != Project
  }

  predicate IsRun(g: Lineage, n: Rid) { n in g.nodes && (g.nodes[n].kind == Process || g.nodes[n].kind == SetProcess) }

  /** A stage for every node: a process sits above its sources and exactly one below its outputs,
      an output above what it was made from, and members and child processes not below their owner. */
  ghost predicate Staged(g: Lineage, stage: map<Rid, int>) {
    && stage.Keys == g.nodes.Keys
    && (forall e :: e in g.derived && e.target in stage && e.source in stage ==>
          stage[e.source] < stage[e.target]
          && (e.process.Some? && e.process.value in stage ==>
                stage[e.source] < stage[e.process.value] && stage[e.process.value] + 1 == stage[e.target]))
    && (forall n :: n in g.nodes && g.nodes[n].set_.Some? && g.nodes[n].set_.value in stage ==>
          stage[g.nodes[n].set_.value] <= stage[n])
    && (forall n :: n in g.nodes && g.nodes[n].setProcess.Some? && g.nodes[n].setProcess.value in stage ==>
          stage[g.nodes[n].setProcess.value] <= stage[n])
  }

  /** At or above the root, or a process just below it; never a desk. */
  predicate Above(g: Lineage, stage: map<Rid, int>, root: Rid, n: Rid)
    requires stage.Keys == g.nodes.Keys && root in g.nodes
  {
    n in g.nodes && g.nodes[n].kind != Project && stage[n] >= (if IsRun(g, n) then stage[root] - 1 else stage[root])
  }

  lemma TakesAbove(g: Lineage, stage: map<Rid, int>, root: Rid, n: Rid, m: Rid)
    requires WellKinded(g) && Staged(g, stage) && root in g.nodes && Above(g, stage, root, n) && Takes(g, n, m)
    ensures Above(g, stage, root, m)
  {
  }

  /** The set of everything at or above the root is closed, so the cascade stays within it. */
  lemma CascadeStaysAbove(g: Lineage, stage: map<Rid, int>, root: Rid, s: set<Rid>)
    requires WellKinded(g) && Staged(g, stage) && Cascade(g, root, s) && root in g.nodes
             && g.nodes[root].kind != Project
    ensures forall n :: n in s ==> Above(g, stage, root, n)
  {
    var above := set n | n in g.nodes && Above(g, stage, root, n);
    forall n, m | n in above && Takes(g, n, m) ensures m in above { TakesAbove(g, stage, root, n, m); }
    assert root in above && Closed(g, above);
  }

  /** `path` leads from a node to what it was made from, step by step. */
  ghost predicate UpstreamPath(g: Lineage, path: seq<Rid>) {
    |path| > 0 && forall i :: 0 < i < |path| ==> MakesOutput(g, path[i], path[i - 1])
  }

  lemma {:induction false} PathGoesDown(g: Lineage, stage: map<Rid, int>, path: seq<Rid>, k: nat)
    requires WellKinded(g) && Staged(g, stage) && UpstreamPath(g, path) && 0 < k < |path|
    ensures IsResult(g, path[0]) && IsResult(g, path[k]) && stage[path[k]] < stage[path[0]]
    decreases k
  {
    assert MakesOutput(g, path[k], path[k - 1]);
    if k > 1 { PathGoesDown(g, stage, path, k - 1); }
  }

  /** The process made something from `n`. */
  ghost predicate ReadBy(g: Lineage, p: Rid, n: Rid) {
    exists e :: e in g.derived && e.process == Some(p) && e.source == n
  }

  /** A delete keeps everything upstream, unless it deletes a desk: nothing the deleted node was made from,
      however far up, and nothing a deleted process or set process read or that was made from, is in the
      cascade. */
  lemma UpstreamIsKept(g: Lineage, stage: map<Rid, int>, root: Rid, s: set<Rid>, path: seq<Rid>, k: nat)
    requires WellKinded(g) && Staged(g, stage) && Cascade(g, root, s) && root in g.nodes
             && g.nodes[root].kind != Project
    requires UpstreamPath(g, path) && k < |path|
    requires (path[0] == root && 0 < k) || ReadBy(g, root, path[0])
    ensures path[k] !in s
  {
    CascadeStaysAbove(g, stage, root, s);
    if ReadBy(g, root, path[0]) { ReadIsBelow(g, stage, root, path[0]); }
    if 0 < k { PathGoesDown(g, stage, path, k); }
  }

  lemma ReadIsBelow(g: Lineage, stage: map<Rid, int>, p: Rid, n: Rid)
    requires WellKinded(g) && Staged(g, stage) && ReadBy(g, p, n)
    ensures IsRun(g, p) && IsResult(g, n) && stage[n] < stage[p]
  {
    var e :| e in g.derived && e.process == Some(p) && e.source == n;
    assert e.target in stage && e.source in stage;
  }

  // ---- references ----

  /** A reference file that stays while the file it stands for is deleted. */
  predicate Dangles(g: Lineage, s: set<Rid>, n: Rid) { IsReference(g, n) && n !in s && g.nodes[n].ref.value in s }

  /** A file that stands for an existing one. */
  predicate IsReference(g: Lineage, n: Rid) { n in g.nodes && g.nodes[n].ref.Some? && g.nodes[n].ref.value in g.nodes }

  /** What goes with a node is within the cascade of whatever takes the node along. */
  lemma CascadeWithin(g: Lineage, root: Rid, s: set<Rid>, n: Rid) returns (mine: set<Rid>)
    requires Cascade(g, root, s) && n in s
    ensures Cascade(g, n, mine) && mine <= s
  {
    mine := set m | m in s && InEvery(g, n, m);
    forall a, m | a in mine && Takes(g, a, m) ensures m in mine {
      forall other: set<Rid> | n in other && Closed(g, other) ensures m in other { assert a in other; }
    }
    forall other: set<Rid> | n in other && Closed(g, other) ensures mine <= other {}
  }

  /** Every closed set around `n` has `m`. */
  ghost predicate InEvery(g: Lineage, n: Rid, m: Rid) {
    forall other: set<Rid> :: n in other && Closed(g, other) ==> m in other
  }

  /** The reference goes when its file is deleted. */
  ghost predicate GoesWithFile(g: Lineage, n: Rid)
    requires IsReference(g, n)
  {
    forall s :: Cascade(g, g.nodes[n].ref.value, s) ==> n in s
  }

  /** No delete of any node leaves a reference to a deleted file exactly when every reference goes with its
      own file. */
  lemma NoDanglingReference(g: Lineage)
    ensures (forall root, s, n :: Cascade(g, root, s) ==> !Dangles(g, s, n))
            <==> (forall n :: IsReference(g, n) ==> GoesWithFile(g, n))
  {
    if forall n :: IsReference(g, n) ==> GoesWithFile(g, n) {
      forall root, s, n | Cascade(g, root, s) ensures !Dangles(g, s, n) {
        if IsReference(g, n) && g.nodes[n].ref.value in s {
          var mine := CascadeWithin(g, root, s, g.nodes[n].ref.value);
          assert GoesWithFile(g, n) && n in mine;
        }
      }
    }
    if forall root, s, n :: Cascade(g, root, s) ==> !Dangles(g, s, n) {
      forall n | IsReference(g, n) ensures GoesWithFile(g, n) {
        forall s | Cascade(g, g.nodes[n].ref.value, s) ensures n in s { assert !Dangles(g, s, n); }
      }
    }
  }

  /** A reference with a DERIVED_FROM edge to its file goes with it: all but those of search outputs. */
  lemma DerivedReferenceGoes(g: Lineage, n: Rid)
    requires IsReference(g, n) && MakesOutput(g, g.nodes[n].ref.value, n)
    ensures GoesWithFile(g, n)
  {
    assert Takes(g, g.nodes[n].ref.value, n);
  }

  /** A reference that a search made of a file is derived from the searched set: deleting the file alone
      leaves it. */
  lemma SearchReferenceDangles()
    ensures exists g, s :: Cascade(g, "file", s) && Dangles(g, s, "result")
  {
    var file := Node(File, None, Some("set"), None, None);
    var result := Node(File, Some("file"), Some("results"), None, None);
    var list := Node(Set, None, None, None, None);
    var g := Lineage(
      map["file" := file, "result" := result, "set" := list, "results" := list,
          "search" := Node(Process, None, None, None, None)],
      [Edge("result", "set", Some("search"))], []);
    FileAlone(g);
    assert Dangles(g, {"file"}, "result");
  }

  lemma FileAlone(g: Lineage)
    requires g.derived == [Edge("result", "set", Some("search"))] && "file" in g.nodes && g.nodes["file"].kind == File
    ensures Cascade(g, "file", {"file"})
  {
    forall m ensures !Takes(g, "file", m) {}
  }

  // ---- deleting vertices ----

  function RemoveEdges(edges: seq<Edge>, gone: set<Rid>): seq<Edge> {
    if edges == [] then []
    else (if edges[0].target in gone || edges[0].source in gone then [] else [edges[0]]) + RemoveEdges(edges[1..], gone)
  }

  function RemoveBelongs(rows: seq<Belongs>, gone: set<Rid>): seq<Belongs> {
    if rows == [] then []
    else (if rows[0].member in gone || rows[0].owner in gone then [] else [rows[0]]) + RemoveBelongs(rows[1..], gone)
  }

  /** The graph after deleting vertices: their edges go with them. */
  function Without(g: Lineage, gone: set<Rid>): Lineage {
    Lineage(g.nodes - gone, RemoveEdges(g.derived, gone), RemoveBelongs(g.belongs, gone))
  }

  /** Edges join existing vertices: the database keeps no others. */
  ghost predicate Sound(g: Lineage) {
    && (forall e :: e in g.derived ==> e.target in g.nodes && e.source in g.nodes)
    && (forall b :: b in g.belongs ==> b.member in g.nodes && b.owner in g.nodes)
  }

  lemma {:induction false} RemoveEdgesHas(edges: seq<Edge>, gone: set<Rid>)
    ensures forall e :: e in RemoveEdges(edges, gone) <==> e in edges && e.target !in gone && e.source !in gone
  {
    if edges != [] {
      RemoveEdgesHas(edges[1..], gone);
      assert edges == [edges[0]] + edges[1..];
    }
  }

  lemma {:induction false} RemoveBelongsHas(rows: seq<Belongs>, gone: set<Rid>)
    ensures forall b :: b in RemoveBelongs(rows, gone) <==> b in rows && b.member !in gone && b.owner !in gone
  {
    if rows != [] {
      RemoveBelongsHas(rows[1..], gone);
      assert rows == [rows[0]] + rows[1..];
    }
  }

  /** `h` is `g` after the nodes of `gone` were deleted: they are not in it, every other node is as it was, and an
      edge or membership row stays, as often as it was there, exactly when both its ends do. */
  ghost predicate Removed(g: Lineage, h: Lineage, gone: set<Rid>) {
    && (forall n :: n in h.nodes <==> n in g.nodes && n !in gone)
    && (forall n :: n in h.nodes ==> h.nodes[n] == g.nodes[n])
    && (forall e :: multiset(h.derived)[e]
                    == if e.target in h.nodes && e.source in h.nodes then multiset(g.derived)[e] else 0)
    && (forall b :: multiset(h.belongs)[b]
                    == if b.member in h.nodes && b.owner in h.nodes then multiset(g.belongs)[b] else 0)
  }

  lemma {:induction false} RemoveEdgesCounts(edges: seq<Edge>, gone: set<Rid>, e: Edge)
    ensures multiset(RemoveEdges(edges, gone))[e]
            == if e.target in gone || e.source in gone then 0 else multiset(edges)[e]
  {
    if edges != [] {
      RemoveEdgesCounts(edges[1..], gone, e);
      assert edges == [edges[0]] + edges[1..];
    }
  }

  lemma {:induction false} RemoveBelongsCounts(rows: seq<Belongs>, gone: set<Rid>, b: Belongs)
    ensures multiset(RemoveBelongs(rows, gone))[b]
            == if b.member in gone || b.owner in gone then 0 else multiset(rows)[b]
  {
    if rows != [] {
      RemoveBelongsCounts(rows[1..], gone, b);
      assert rows == [rows[0]] + rows[1..];
    }
  }

  lemma WithoutRemoves(g: Lineage, gone: set<Rid>)
    requires Sound(g)
    ensures Removed(g, Without(g, gone), gone)
  {
    var h := Without(g, gone);
    forall e ensures multiset(h.derived)[e]
                     == if e.target in h.nodes && e.source in h.nodes then multiset(g.derived)[e] else 0
    {
      RemoveEdgesCounts(g.derived, gone, e);
      assert e in g.derived <==> e in multiset(g.derived);
    }
    forall b ensures multiset(h.belongs)[b]
                     == if b.member in h.nodes && b.owner in h.nodes then multiset(g.belongs)[b] else 0
    {
      RemoveBelongsCounts(g.belongs, gone, b);
      assert b in g.belongs <==> b in multiset(g.belongs);
    }
  }

  lemma WithoutSound(g: Lineage, gone: set<Rid>)
    requires Sound(g)
    ensures Sound(Without(g, gone))
  {
    RemoveEdgesHas(g.derived, gone);
    RemoveBelongsHas(g.belongs, gone);
  }

  lemma {:induction false} RemoveEdgesTwice(edges: seq<Edge>, a: set<Rid>, b: set<Rid>)
    ensures RemoveEdges(RemoveEdges(edges, a), b) == RemoveEdges(edges, a + b)
  {
    if edges != [] {
      RemoveEdgesTwice(edges[1..], a, b);
      var rest := RemoveEdges(edges[1..], a);
      if !(edges[0].target in a || edges[0].source in a) {
        assert RemoveEdges(edges, a) == [edges[0]] + rest;
        assert ([edges[0]] + rest)[1..] == rest;
      } else {
        assert RemoveEdges(edges, a) == rest;
      }
    }
  }

  lemma {:induction false} RemoveBelongsTwice(rows: seq<Belongs>, a: set<Rid>, b: set<Rid>)
    ensures RemoveBelongs(RemoveBelongs(rows, a), b) == RemoveBelongs(rows, a + b)
  {
    if rows != [] {
      RemoveBelongsTwice(rows[1..], a, b);
      var rest := RemoveBelongs(rows[1..], a);
      if !(rows[0].member in a || rows[0].owner in a) {
        assert RemoveBelongs(rows, a) == [rows[0]] + rest;
        assert ([rows[0]] + rest)[1..] == rest;
      } else {
        assert RemoveBelongs(rows, a) == rest;
      }
    }
  }

  /** Deleting in two statements is deleting at once: chunks do not matter. */
  lemma WithoutTwice(g: Lineage, a: set<Rid>, b: set<Rid>)
    ensures Without(Without(g, a), b) == Without(g, a + b)
  {
    RemoveEdgesTwice(g.derived, a, b);
    RemoveBelongsTwice(g.belongs, a, b);
  }

  lemma {:induction false} RemoveEdgesNone(edges: seq<Edge>, gone: set<Rid>)
    requires forall e :: e in edges ==> e.target !in gone && e.source !in gone
    ensures RemoveEdges(edges, gone) == edges
  {
    if edges != [] { RemoveEdgesNone(edges[1..], gone); }
  }

  lemma {:induction false} RemoveBelongsNone(rows: seq<Belongs>, gone: set<Rid>)
    requires forall b :: b in rows ==> b.member !in gone && b.owner !in gone
    ensures RemoveBelongs(rows, gone) == rows
  {
    if rows != [] { RemoveBelongsNone(rows[1..], gone); }
  }

  /** Deleting what is not there changes nothing. */
  lemma WithoutMissing(g: Lineage, gone: set<Rid>)
    requires Sound(g)
    ensures gone !! g.nodes.Keys ==> Without(g, gone) == g
  {
    if gone !! g.nodes.Keys {
      RemoveEdgesNone(g.derived, gone);
      RemoveBelongsNone(g.belongs, gone);
      assert g.nodes - gone == g.nodes;
    }
  }

  lemma WithoutNothing(g: Lineage)
    ensures Without(g, {}) == g
  {
    RemoveEdgesNone(g.derived, {});
    RemoveBelongsNone(g.belongs, {});
    assert g.nodes - {} == g.nodes;
  }

  lemma ListedSoFar(targets: seq<Rid>, i: nat, n: nat)
    requires i <= n <= |targets|
    ensures Elements(targets[..n]) == Elements(targets[..i]) + Elements(targets[i..n])
  {
    assert targets[..n] == targets[..i] + targets[i..n];
  }

  /** Another request's delete, and then a chunk of one's own. */
  lemma TwoMore(g: Lineage, away: set<Rid>, gone: set<Rid>, done: set<Rid>, chunk: set<Rid>)
    ensures Without(Without(g, away + done), gone) == Without(g, (away + gone) + done)
    ensures Without(Without(g, (away + gone) + done), chunk) == Without(g, (away + gone) + (done + chunk))
  {
    WithoutTwice(g, away + done, gone);
    WithoutTwice(g, (away + gone) + done, chunk);
    assert away + done + gone == (away + gone) + done;
    assert (away + gone) + done + chunk == (away + gone) + (done + chunk);
  }

  // ---- the walk ----

  /** Every rid the graph mentions: the walk can visit no other. */
  function Mentioned(g: Lineage): set<Rid> {
    g.nodes.Keys + (set e | e in g.derived :: e.target)
    + (set e | e in g.derived && e.process.Some? :: e.process.value) + (set b | b in g.belongs :: b.member)
  }

  lemma TakesMentioned(g: Lineage, n: Rid, m: Rid)
    requires Takes(g, n, m)
    ensures m in Mentioned(g)
  {
  }

  /** What this edge row adds to the queue at a level. */
  predicate EdgeEnqueues(e: Edge, found: set<Rid>, m: Rid) {
    (e.source in found && e.target == m) || ((e.source in found || e.target in found) && e.process == Some(m))
  }

  ghost predicate TakenBy(g: Lineage, found: set<Rid>, m: Rid) { exists n :: n in found && Takes(g, n, m) }

  /** Everything the level's nodes take that was not visited. */
  ghost predicate IsNextLevel(g: Lineage, found: set<Rid>, visited: set<Rid>, next: set<Rid>) {
    forall m :: m in next <==> m !in visited && TakenBy(g, found, m)
  }

  lemma TakenCases(g: Lineage, found: set<Rid>, m: Rid)
    requires found <= g.nodes.Keys
    ensures TakenBy(g, found, m) <==>
              || (exists e :: e in g.derived && EdgeEnqueues(e, found, m))
              || (exists n :: n in found && RanOutput(g, n, m))
              || (exists n :: n in found && (HasMember(g, n, m) || HasChild(g, n, m)))
              || (exists n :: n in found && HoldsOnDesk(g, n, m))
  {
    if e :| e in g.derived && EdgeEnqueues(e, found, m) {
      if e.source in found && e.target == m {
        assert MakesOutput(g, e.source, m) && Takes(g, e.source, m);
      } else {
        assert MadeBy(g, if e.source in found then e.source else e.target, m);
        assert Takes(g, if e.source in found then e.source else e.target, m);
      }
    }
  }

  /** Half-way through the walk of the graph `g` while other requests delete `away`: everything reached
      belongs to every closed set around the root, and what the visited nodes take is visited or queued, or
      in every closed set around what went away. */
  ghost predicate Walking(g: Lineage, away: set<Rid>, root: Rid, visited: set<Rid>, queue: set<Rid>) {
    Reached(g, root, visited + queue) && Expanded(g, away, visited, visited + queue)
  }

  ghost predicate Reached(g: Lineage, root: Rid, s: set<Rid>) {
    && root in s && s <= Mentioned(g) + {root}
    && (forall other: set<Rid> :: root in other && Closed(g, other) ==> s <= other)
  }

  ghost predicate Expanded(g: Lineage, away: set<Rid>, visited: set<Rid>, s: set<Rid>) {
    forall c: set<Rid>, n, m :: away <= c && Closed(g, c) && n in visited && Takes(g, n, m) ==> m in s + c
  }

  function Existing(g: Lineage, s: set<Rid>): set<Rid> { s * g.nodes.Keys }

  /** The visited nodes that were still there when the walk came to them. */
  ghost predicate Collected(g: Lineage, away: set<Rid>, visited: set<Rid>, toDelete: set<Rid>) {
    toDelete <= Existing(g, visited) <= toDelete + away
  }

  /** What a walk collects: nothing outside the cascade, and of the cascade all but what some deleted node
      takes along. */
  ghost predicate CollectsCascade(g: Lineage, away: set<Rid>, cascade: set<Rid>, toDelete: set<Rid>) {
    && toDelete <= Existing(g, cascade)
    && forall c: set<Rid> :: away <= c && Closed(g, c) ==> Existing(g, cascade) <= toDelete + c
  }

  /** Rids the walk may still meet for the first time. */
  ghost function Unvisited(g: Lineage, root: Rid, visited: set<Rid>): nat { |Mentioned(g) + {root} - visited| }

  lemma WalkStarts(g: Lineage, root: Rid)
    ensures Walking(g, {}, root, {}, {root}) && Collected(g, {}, {}, {})
  {
    assert {} + {root} == {root};
  }

  lemma MoreAway(g: Lineage, a: set<Rid>, b: set<Rid>, root: Rid, visited: set<Rid>, queue: set<Rid>,
                 toDelete: set<Rid>)
    requires Walking(g, a, root, visited, queue) && Collected(g, a, visited, toDelete) && a <= b
    ensures Walking(g, b, root, visited, queue) && Collected(g, b, visited, toDelete)
  {
  }

  /** The level is the queue less what was visited meanwhile. */
  lemma WalkFilter(g: Lineage, away: set<Rid>, root: Rid, visited: set<Rid>, queue: set<Rid>)
    requires Walking(g, away, root, visited, queue)
    ensures Walking(g, away, root, visited, queue - visited)
    ensures queue <= visited ==> Walking(g, away, root, visited, {})
  {
    assert visited + (queue - visited) == visited + queue;
    assert queue <= visited ==> visited + {} == visited + queue;
  }

  lemma SmallerRest(universe: set<Rid>, visited: set<Rid>, level: set<Rid>)
    requires level <= universe && level !! visited && level != {}
    ensures |universe - (visited + level)| < |universe - visited|
  {
    assert universe - visited == (universe - (visited + level)) + level;
  }
  /** What is left of the graph takes nothing that the whole did not. */
  lemma TakenBefore(g: Lineage, away: set<Rid>, n: Rid, m: Rid)
    requires Takes(Without(g, away), n, m)
    ensures Takes(g, n, m)
  {
    RemoveEdgesHas(g.derived, away);
    RemoveBelongsHas(g.belongs, away);
  }

  /** What a surviving node took it still takes, unless what went away takes that along. */
  lemma TakenStill(g: Lineage, away: set<Rid>, c: set<Rid>, n: Rid, m: Rid)
    requires Sound(g) && away <= c && Closed(g, c) && n !in away && Takes(g, n, m)
    ensures m in c || Takes(Without(g, away), n, m)
  {
    var h := Without(g, away);
    RemoveEdgesHas(g.derived, away);
    RemoveBelongsHas(g.belongs, away);
    if m !in c {
      if MakesOutput(g, n, m) {
        assert MakesOutput(h, n, m);
      } else if MadeBy(g, n, m) {
        var e :| e in g.derived && Touches(e, n) && e.process == Some(m);
        EdgeStays(g, away, c, e);
        assert MadeBy(h, n, m);
      } else if RanOutput(g, n, m) {
        var e :| e in g.derived && e.process == Some(n) && e.target == m;
        OutputStays(g, away, c, e);
        assert RanOutput(h, n, m);
      }
    }
  }

  /** An edge whose process stays, in whatever was deleted with all it takes, stays itself. */
  lemma EdgeStays(g: Lineage, away: set<Rid>, c: set<Rid>, e: Edge)
    requires Sound(g) && away <= c && Closed(g, c) && e in g.derived && e.process.Some? && e.process.value !in c
    ensures e.source !in away && e.target !in away
  {
    var p := e.process.value;
    assert MadeBy(g, e.source, p) && Takes(g, e.source, p);
    assert MadeBy(g, e.target, p) && Takes(g, e.target, p);
  }

  lemma OutputStays(g: Lineage, away: set<Rid>, c: set<Rid>, e: Edge)
    requires Sound(g) && away <= c && Closed(g, c) && e in g.derived && e.target !in c
    ensures e.source !in away && e.target !in away
  {
    assert MakesOutput(g, e.source, e.target) && Takes(g, e.source, e.target);
  }

  /** What one level takes was in the graph, and in no closed set's way. */
  lemma LevelReached(g: Lineage, away: set<Rid>, root: Rid, visited: set<Rid>, level: set<Rid>, next: set<Rid>)
    requires Reached(g, root, visited + level)
    requires IsNextLevel(Without(g, away), Existing(Without(g, away), level), visited + level, next)
    ensures Reached(g, root, visited + level + next)
  {
    var h := Without(g, away);
    forall m | m in next ensures exists n :: n in level && Takes(g, n, m) {
      var n :| n in Existing(h, level) && Takes(h, n, m);
      TakenBefore(g, away, n, m);
    }
    forall m | m in next ensures m in Mentioned(g) {
      var n :| n in level && Takes(g, n, m);
      TakesMentioned(g, n, m);
    }
    forall other: set<Rid> | root in other && Closed(g, other) ensures next <= other {
      assert visited + level <= other;
    }
  }

  lemma LevelExpanded(g: Lineage, away: set<Rid>, visited: set<Rid>, level: set<Rid>, next: set<Rid>)
    requires Sound(g) && Expanded(g, away, visited, visited + level)
    requires IsNextLevel(Without(g, away), Existing(Without(g, away), level), visited + level, next)
    ensures Expanded(g, away, visited + level, visited + level + next)
  {
    var h := Without(g, away);
    forall c: set<Rid>, n, m | away <= c && Closed(g, c) && n in visited + level && Takes(g, n, m)
      ensures m in visited + level + next + c
    {
      if n in level && n !in away {
        TakenStill(g, away, c, n, m);
        if m !in c { assert n in Existing(h, level) && TakenBy(h, Existing(h, level), m); }
      }
    }
  }

  lemma LevelCollected(g: Lineage, away: set<Rid>, visited: set<Rid>, level: set<Rid>, toDelete: set<Rid>)
    requires Collected(g, away, visited, toDelete)
    ensures Collected(g, away, visited + level, toDelete + Existing(Without(g, away), level))
  {
    forall x | x in Existing(g, visited + level) ensures x in toDelete + Existing(Without(g, away), level) + away {
      if x in visited { assert x in Existing(g, visited); }
    }
  }

  lemma WalkStep(g: Lineage, away: set<Rid>, root: Rid, visited: set<Rid>, level: set<Rid>, next: set<Rid>,
                 toDelete: set<Rid>)
    requires Sound(g) && Walking(g, away, root, visited, level) && level !! visited && level != {}
    requires Collected(g, away, visited, toDelete)
    requires IsNextLevel(Without(g, away), Existing(Without(g, away), level), visited + level, next)
    ensures Walking(g, away, root, visited + level, next)
    ensures Collected(g, away, visited + level, toDelete + Existing(Without(g, away), level))
    ensures Unvisited(g, root, visited + level) < Unvisited(g, root, visited)
  {
    SmallerRest(Mentioned(g) + {root}, visited, level);
    LevelReached(g, away, root, visited, level, next);
    LevelExpanded(g, away, visited, level, next);
    LevelCollected(g, away, visited, level, toDelete);
  }

  lemma WalkEnds(g: Lineage, away: set<Rid>, root: Rid, visited: set<Rid>, toDelete: set<Rid>, cascade: set<Rid>)
    requires Walking(g, away, root, visited, {}) && Collected(g, away, visited, toDelete) && Cascade(g, root, cascade)
    ensures CollectsCascade(g, away, cascade, toDelete)
  {
    assert visited + {} == visited;
    assert visited <= cascade;
    forall c: set<Rid> | away <= c && Closed(g, c) ensures Existing(g, cascade) <= toDelete + c {
      WalkCovers(g, away, root, visited, toDelete, cascade, c);
    }
  }

  lemma WalkCovers(g: Lineage, away: set<Rid>, root: Rid, visited: set<Rid>, toDelete: set<Rid>, cascade: set<Rid>,
                   c: set<Rid>)
    requires root in visited && Expanded(g, away, visited, visited) && Collected(g, away, visited, toDelete)
    requires Cascade(g, root, cascade) && away <= c && Closed(g, c)
    ensures Existing(g, cascade) <= toDelete + c
  {
    VisitedIsClosed(g, away, root, visited, c);
    assert cascade <= visited + c;
    forall x | x in Existing(g, cascade) ensures x in toDelete + c {
      if x in visited { assert x in Existing(g, visited); }
    }
  }

  lemma VisitedIsClosed(g: Lineage, away: set<Rid>, root: Rid, visited: set<Rid>, c: set<Rid>)
    requires Expanded(g, away, visited, visited) && away <= c && Closed(g, c)
    ensures Closed(g, visited + c)
  {
  }

  /** Every root has a cascade. */
  lemma CascadeExists(g: Lineage, root: Rid) returns (cascade: set<Rid>)
    ensures Cascade(g, root, cascade)
  {
    var all := Mentioned(g) + {root};
    forall n, m | n in all && Takes(g, n, m) ensures m in all { TakesMentioned(g, n, m); }
    cascade := set m | m in all && InEvery(g, root, m);
    forall a, m | a in cascade && Takes(g, a, m) ensures m in cascade {
      forall other: set<Rid> | root in other && Closed(g, other) ensures m in other { assert a in other; }
    }
    forall other: set<Rid> | root in other && Closed(g, other) ensures cascade <= other {}
  }

  /** When whatever went away took all along with it, the walk's nodes and those are the cascade and those. */
  lemma AllGone(g: Lineage, away: set<Rid>, cascade: set<Rid>, toDelete: set<Rid>)
    requires CollectsCascade(g, away, cascade, toDelete) && Closed(g, away)
    ensures away + toDelete == away + Existing(g, cascade)
    ensures away == {} ==> toDelete == Existing(g, cascade)
  {
    assert Existing(g, cascade) <= toDelete + away;
  }

  lemma StillCollects(g: Lineage, a: set<Rid>, b: set<Rid>, cascade: set<Rid>, toDelete: set<Rid>)
    requires CollectsCascade(g, a, cascade, toDelete) && a <= b
    ensures CollectsCascade(g, b, cascade, toDelete)
  {
  }

  /** What other requests deleted by their `t`-th turn. */
  function GoneBy(gone: nat -> set<Rid>, t: nat): set<Rid> { if t == 0 then {} else GoneBy(gone, t - 1) + gone(t - 1) }

  class GraphStore {
    var nodes: map<Rid, Node>
    var derived: seq<Edge>
    var belongs: seq<Belongs>

    ghost function State(): Lineage
      reads this
    {
      Lineage(nodes, derived, belongs)
    }

    constructor (nodes: map<Rid, Node>, derived: seq<Edge>, belongs: seq<Belongs>)
      ensures State() == Lineage(nodes, derived, belongs)
    {
      this.nodes, this.derived, this.belongs := nodes, derived, belongs;
    }

    /** SELECT ... WHERE: the rows of DERIVED_FROM that end or start at one of `found`, or name one as
        their process. */
    method EdgesAt(found: set<Rid>) returns (rows: seq<Edge>)
      ensures forall e :: e in rows <==> e in derived && (e.source in found || e.target in found)
    {
      rows := [];
      for i := 0 to |derived|
        invariant forall e :: e in rows <==> e in derived[..i] && (e.source in found || e.target in found)
      {
        assert derived[..i + 1] == derived[..i] + [derived[i]];
        if derived[i].source in found || derived[i].target in found { rows := rows + [derived[i]]; }
      }
      assert derived[..|derived|] == derived;
    }

    method EdgesOfProcesses(found: set<Rid>) returns (rows: seq<Edge>)
      ensures forall e :: e in rows <==> e in derived && e.process.Some? && e.process.value in found
    {
      rows := [];
      for i := 0 to |derived|
        invariant forall e :: e in rows <==> e in derived[..i] && e.process.Some? && e.process.value in found
      {
        assert derived[..i + 1] == derived[..i] + [derived[i]];
        if derived[i].process.Some? && derived[i].process.value in found { rows := rows + [derived[i]]; }
      }
      assert derived[..|derived|] == derived;
    }

    /** What the edges at the level's nodes enqueue: outputs, and processes of incident edges. */
    method FollowEdges(found: set<Rid>) returns (next: set<Rid>)
      ensures forall m :: m in next <==> exists e :: e in derived && EdgeEnqueues(e, found, m)
    {
      next := {};
      var rows := EdgesAt(found);
      for i := 0 to |rows|
        invariant forall m :: m in next <==> exists k :: 0 <= k < i && EdgeEnqueues(rows[k], found, m)
      {
        assert rows[i] in rows;
        if rows[i].source in found { next := next + {rows[i].target}; }
        if rows[i].process.Some? { next := next + {rows[i].process.value}; }
      }
      assert forall e, m :: e in derived && EdgeEnqueues(e, found, m) ==> e in rows;
    }

    /** What the level's nodes made as processes. */
    method FollowRuns(found: set<Rid>) returns (next: set<Rid>)
      ensures forall m :: m in next <==> exists n :: n in found && RanOutput(State(), n, m)
    {
      next := {};
      var rows := EdgesOfProcesses(found);
      for i := 0 to |rows|
        invariant forall m :: m in next <==> exists k :: 0 <= k < i && rows[k].target == m
      {
        next := next + {rows[i].target};
      }
      forall m | m in next ensures exists n :: n in found && RanOutput(State(), n, m) {
        var k :| 0 <= k < |rows| && rows[k].target == m;
        assert rows[k] in rows && RanOutput(State(), rows[k].process.value, m);
      }
    }

    /** Members of the level's sets and processes of its set processes. */
    method FollowMembers(found: set<Rid>) returns (next: set<Rid>)
      requires found <= nodes.Keys
      ensures forall m :: m in next <==> exists n :: n in found && (HasMember(State(), n, m) || HasChild(State(), n, m))
    {
      var sets := set n | n in found && nodes[n].kind == Set;
      var setProcesses := set n | n in found && nodes[n].kind == SetProcess;
      next := (set m | m in nodes && nodes[m].kind == File && nodes[m].set_.Some? && nodes[m].set_.value in sets)
        + (set m | m in nodes && nodes[m].kind == Process && nodes[m].setProcess.Some?
           && nodes[m].setProcess.value in setProcesses);
      forall m | m in next ensures exists n :: n in found && (HasMember(State(), n, m) || HasChild(State(), n, m)) {
        assert HasMember(State(), if nodes[m].set_.Some? then nodes[m].set_.value else m, m)
          || HasChild(State(), if nodes[m].setProcess.Some? then nodes[m].setProcess.value else m, m);
      }
    }

    /** What belongs to the desk and what is stored on it. */
    method OnOneDesk(p: Rid) returns (here: set<Rid>)
      requires p in nodes && nodes[p].kind == Project
      ensures forall m :: m in here <==> HoldsOnDesk(State(), p, m)
    {
      here := (set b | b in belongs && b.owner == p :: b.member)
        + (set m | m in nodes && nodes[m].project == Some(p)
             && nodes[m].kind in {File, Set, Process, SetProcess, Source});
      forall m ensures m in here <==> HoldsOnDesk(State(), p, m) {
        if Belongs(m, p) in belongs { assert Belongs(m, p).owner == p; }
      }
    }

    /** Everything on the level's desks, one desk at a time. */
    method FollowDesks(found: set<Rid>) returns (next: set<Rid>)
      requires found <= nodes.Keys
      ensures forall m :: m in next <==> exists n :: n in found && HoldsOnDesk(State(), n, m)
    {
      next := {};
      var desks := set n | n in found && nodes[n].kind == Project;
      var rest := desks;
      while rest != {}
        invariant rest <= desks
        invariant forall m :: m in next <==> exists n :: n in desks - rest && HoldsOnDesk(State(), n, m)
        decreases |rest|
      {
        var p :| p in rest;
        var here := OnOneDesk(p);
        assert desks - (rest - {p}) == (desks - rest) + {p};
        next := next + here;
        rest := rest - {p};
      }
      assert desks - rest == desks;
    }

    /** One level of the walk: everything its nodes take, less what was visited. */
    method NextLevel(found: set<Rid>, visited: set<Rid>) returns (next: set<Rid>)
      requires found <= nodes.Keys
      ensures IsNextLevel(State(), found, visited, next)
    {
      var edges := FollowEdges(found);
      var runs := FollowRuns(found);
      var members := FollowMembers(found);
      var desks := FollowDesks(found);
      next := edges + runs + members + desks - visited;
      forall m ensures TakenBy(State(), found, m) <==> m in edges + runs + members + desks {
        TakenCases(State(), found, m);
      }
    }

    /** Another request's delete. */
    method GoAway(gone: set<Rid>)
      requires Sound(State())
      modifies this
      ensures State() == Without(old(State()), gone) && Sound(State())
      ensures Removed(old(State()), State(), gone)
    {
      WithoutSound(State(), gone);
      WithoutRemoves(State(), gone);
      nodes := nodes - gone;
      derived := RemoveEdges(derived, gone);
      belongs := RemoveBelongs(belongs, gone);
    }

    /** The level-by-level walk. It ends on every graph, cycles included. Other requests delete nodes before
        each level, `gone(t)` in their `t`-th turn; `away` is all that went until the walk's end. */
    method Walk(root: Rid, gone: nat -> set<Rid>)
      returns (toDelete: set<Rid>, turn: nat, ghost cascade: set<Rid>)
      requires Sound(State())
      modifies this
      ensures State() == Without(old(State()), GoneBy(gone, turn)) && Sound(State())
      ensures Cascade(old(State()), root, cascade)
      ensures CollectsCascade(old(State()), GoneBy(gone, turn), cascade, toDelete)
    {
      ghost var g := State();
      toDelete, turn := {}, 0;
      var visited: set<Rid>, queue := {}, {root};
      WalkStarts(g, root);
      WithoutNothing(g);
      while queue != {}
        invariant State() == Without(g, GoneBy(gone, turn)) && Sound(State())
        invariant Walking(g, GoneBy(gone, turn), root, visited, queue)
        invariant Collected(g, GoneBy(gone, turn), visited, toDelete)
        decreases Unvisited(g, root, visited), |queue|
      {
        WalkFilter(g, GoneBy(gone, turn), root, visited, queue);
        var level := queue - visited;
        queue := {};
        if level != {} {
          MoreAway(g, GoneBy(gone, turn), GoneBy(gone, turn + 1), root, visited, level, toDelete);
          WithoutTwice(g, GoneBy(gone, turn), gone(turn));
          GoAway(gone(turn));
          turn := turn + 1;
          var found := level * nodes.Keys;
          queue := NextLevel(found, visited + level);
          WalkStep(g, GoneBy(gone, turn), root, visited, level, queue, toDelete);
          visited := visited + level;
          toDelete := toDelete + found;
        }
      }
      cascade := CascadeExists(g, root);
      WalkEnds(g, GoneBy(gone, turn), root, visited, toDelete, cascade);
    }

    /** DELETE FROM [chunk]: all of the chunk, with its edges, or nothing when a record is missing. */
    method DeleteMany(chunk: seq<Rid>) returns (ok: bool)
      modifies this
      ensures ok == forall i :: 0 <= i < |chunk| ==> chunk[i] in old(nodes)
      ensures State() == if ok then Without(old(State()), Elements(chunk)) else old(State())
    {
      ok := forall i :: 0 <= i < |chunk| ==> chunk[i] in nodes;
      if ok {
        nodes := nodes - Elements(chunk);
        derived := RemoveEdges(derived, Elements(chunk));
        belongs := RemoveBelongs(belongs, Elements(chunk));
      }
    }

    /** One chunk of the final delete: the whole statement, else record by record. */
    method DeleteChunk(chunk: seq<Rid>)
      requires Sound(State())
      modifies this
      ensures State() == Without(old(State()), Elements(chunk)) && Sound(State())
      ensures Removed(old(State()), State(), Elements(chunk))
    {
      ghost var g := State();
      WithoutSound(g, Elements(chunk));
      WithoutRemoves(g, Elements(chunk));
      var ok := DeleteMany(chunk);
      if !ok {
        WithoutMissing(g, Elements(chunk[..0]));
        for i := 0 to |chunk|
          invariant State() == Without(g, Elements(chunk[..i]))
        {
          assert chunk[..i + 1] == chunk[..i] + [chunk[i]];
          assert Elements(chunk[..i + 1]) == Elements(chunk[..i]) + {chunk[i]} && Elements([chunk[i]]) == {chunk[i]};
          WithoutTwice(g, Elements(chunk[..i]), {chunk[i]});
          WithoutSound(g, Elements(chunk[..i]));
          WithoutMissing(State(), {chunk[i]});
          var single := DeleteMany([chunk[i]]);
        }
        assert chunk[..|chunk|] == chunk;
      }
    }

    /** One statement of the final delete, after what another request deleted before it. */
    method DeleteTurn(chunk: seq<Rid>, gone: set<Rid>, ghost g: Lineage, ghost away: set<Rid>, ghost done: set<Rid>)
      requires Sound(State()) && State() == Without(g, away + done)
      modifies this
      ensures State() == Without(g, (away + gone) + (done + Elements(chunk))) && Sound(State())
    {
      TwoMore(g, away, gone, done, Elements(chunk));
      GoAway(gone);
      DeleteChunk(chunk);
    }

    /** The final delete, 500 nodes a statement, other requests deleting before each. */
    method DeleteAll(toDelete: set<Rid>, gone: nat -> set<Rid>, turn: nat, ghost g: Lineage) returns (after: nat)
      requires Sound(State()) && State() == Without(g, GoneBy(gone, turn))
      modifies this
      ensures turn <= after && State() == Without(g, GoneBy(gone, after) + toDelete) && Sound(State())
      ensures GoneBy(gone, turn) <= GoneBy(gone, after)
    {
      after := turn;
      var targets := Listing(toDelete);
      assert Elements(targets[..0]) == {} && GoneBy(gone, turn) + {} == GoneBy(gone, turn);
      var i := 0;
      while i < |targets|
        invariant 0 <= i <= |targets| && turn <= after && GoneBy(gone, turn) <= GoneBy(gone, after)
        invariant State() == Without(g, GoneBy(gone, after) + Elements(targets[..i])) && Sound(State())
      {
        var n := if i + 500 <= |targets| then i + 500 else |targets|;
        ListedSoFar(targets, i, n);
        DeleteTurn(targets[i..n], gone(after), g, GoneBy(gone, after), Elements(targets[..i]));
        after := after + 1;
        i := n;
      }
      assert targets[..i] == targets;
    }

    /** Deletes a node and its cascade while other requests delete nodes before each level of the walk and
        before each delete statement; `away` is all they deleted. Nothing happens when the user may not see
        the node. Only nodes of the cascade as it was at the start are deleted, all of them but what some
        node that went away takes along. When what went away took everything along, the graph ends as if the
        whole cascade had been deleted, and the number is the cascade's when nothing went away. */
    method DeleteNode(root: Rid, readable: bool, gone: nat -> set<Rid>)
      returns (deleted: Option<nat>, ghost cascade: set<Rid>, ghost taken: set<Rid>, ghost away: set<Rid>)
      requires Sound(State())
      modifies this
      ensures deleted.None? <==> !readable
      ensures !readable ==> State() == old(State())
      ensures readable ==> Cascade(old(State()), root, cascade) && CollectsCascade(old(State()), away, cascade, taken)
      ensures readable ==> deleted == Some(|taken|) && taken <= cascade && taken <= old(nodes).Keys
      ensures readable ==> Removed(old(State()), State(), away + taken)
      ensures readable && Closed(old(State()), away) ==> Removed(old(State()), State(), away + cascade)
      ensures readable && away == {} ==> taken == cascade * old(nodes).Keys
      ensures readable ==> exists t :: away == GoneBy(gone, t)
      ensures Sound(State())
    {
      if !readable { return None, {}, {}, {}; }
      ghost var g := State();
      var toDelete, turn;
      toDelete, turn, cascade := Walk(root, gone);
      var after := DeleteAll(toDelete, gone, turn, g);
      taken, away := toDelete, GoneBy(gone, after);
      StillCollects(g, GoneBy(gone, turn), away, cascade, taken);
      if Closed(g, away) { AllGone(g, away, cascade, taken); }
      if away == {} { assert Closed(g, {}); }
      WithoutRemoves(g, away + taken);
      deleted := Some(|toDelete|);
    }
  }
}
