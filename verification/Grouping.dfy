/** Root-source grouping: a batched breadth-first search finds every file's ancestors, then a walk
    along first parents picks each file's root. */
module Grouping {
  import opened Collections

  type Rid = string

  /** The types grouping tells apart; NoType is a missing or empty one. */
  datatype FileType = Pdf | Zip | OtherType | NoType

  /** A listed file; `rid` is its normalised id, None where the row has none. Texts are ranks in the
      language's text order, None an empty one. `sortName` is the name files are sorted by. */
  datatype File = File(rid: Option<Rid>, kind: FileType, page: Option<real>, sortName: int, title: Option<nat>,
                       filename: Option<nat>)

  datatype Meta = Meta(kind: FileType, title: Option<nat>, filename: Option<nat>)

  /** The lineage database: the sources of each record's DERIVED_FROM edges in the order the database
      returns them, and the rows that are files. */
  datatype Lineage = Lineage(sources: map<Rid, seq<Rid>>, files: map<Rid, Meta>)

  datatype Group = Group(source: Option<Rid>, kind: FileType, title: Option<nat>, files: seq<File>)

  const DEPTH := 40

  // ---- the distinct input files ----

  /** A JavaScript Map keeps its keys in the order they were first set. */
  function Keys(files: seq<File>): seq<Rid> {
    if files == [] then []
    else
      var before := Keys(files[..|files| - 1]);
      var rid := files[|files| - 1].rid;
      if rid.Some? && rid.value !in before then before + [rid.value] else before
  }

  /** The input files by rid; of several files with one rid the last counts. */
  function ByRid(files: seq<File>): map<Rid, File> {
    if files == [] then map[]
    else
      var last := files[|files| - 1];
      var before := ByRid(files[..|files| - 1]);
      if last.rid.Some? then before[last.rid.value := last] else before
  }

  lemma {:induction false} KeysMean(files: seq<File>)
    ensures Distinct(Keys(files)) && Elements(Keys(files)) == ByRid(files).Keys
    ensures forall r :: r in ByRid(files) ==> ByRid(files)[r] in files && ByRid(files)[r].rid == Some(r)
    ensures forall f :: f in files && f.rid.Some? ==> f.rid.value in ByRid(files)
  {
    if files != [] {
      var shorter := files[..|files| - 1];
      assert files == shorter + [files[|files| - 1]];
      KeysMean(shorter);
      var rid := files[|files| - 1].rid;
      if rid.Some? { assert Elements(Keys(shorter) + [rid.value]) == Elements(Keys(shorter)) + {rid.value}; }
    }
  }

  /** The files that grouping sees, one per rid. */
  function Entries(files: seq<File>): (r: seq<File>)
    ensures |r| == |Keys(files)|
    ensures forall i :: 0 <= i < |r| ==> r[i].rid == Some(Keys(files)[i]) && r[i] in files
  {
    KeysMean(files);
    assert forall i :: 0 <= i < |Keys(files)| ==> Keys(files)[i] in Elements(Keys(files));
    seq(|Keys(files)|, i requires 0 <= i < |Keys(files)| => ByRid(files)[Keys(files)[i]])
  }

  // ---- what grouping means: one walk per file ----

  function Parent(db: Lineage, n: Rid): Option<Rid> {
    if n in db.sources && db.sources[n] != [] then Some(db.sources[n][0]) else None
  }

  /** The `k`-th node up the first-parent chain of `n`. */
  function Ancestor(db: Lineage, n: Rid, k: nat): Option<Rid> {
    if k == 0 then Some(n)
    else match Ancestor(db, n, k - 1) case None => None case Some(m) => Parent(db, m)
  }

  /** The type the listing gives for an input file, the database's for any other file. */
  function KindOf(db: Lineage, inputs: map<Rid, File>, n: Rid): FileType {
    if n in inputs then inputs[n].kind else if n in db.files then db.files[n].kind else NoType
  }

  predicate IsPdf(k: FileType) { k == Pdf }

  predicate NotZip(k: FileType) { k != Zip }

  /** `n` is the last of the first 40 nodes up from `file` whose type qualifies. */
  ghost predicate Topmost(db: Lineage, inputs: map<Rid, File>, file: Rid, has: FileType -> bool, n: Rid) {
    exists k :: 0 <= k < 40 && TopmostAt(db, inputs, file, has, n, k, 40)
  }

  /** Of the first `limit` nodes, the `k`-th is `n` and the last that qualifies. */
  ghost predicate TopmostAt(db: Lineage, inputs: map<Rid, File>, file: Rid, has: FileType -> bool, n: Rid, k: nat,
                            limit: nat) {
    && Ancestor(db, file, k) == Some(n) && has(KindOf(db, inputs, n)) && k < limit
    && forall i :: k < i < limit ==> !Qualifies(db, inputs, file, has, i)
  }

  predicate Qualifies(db: Lineage, inputs: map<Rid, File>, file: Rid, has: FileType -> bool, i: nat) {
    Ancestor(db, file, i).Some? && has(KindOf(db, inputs, Ancestor(db, file, i).value))
  }

  /** The root of a file: the topmost PDF among the first 40 nodes of its chain, else the topmost
      node that is not a ZIP, else the file itself. */
  ghost predicate IsRoot(db: Lineage, inputs: map<Rid, File>, file: Rid, root: Rid) {
    || Topmost(db, inputs, file, IsPdf, root)
    || ((forall n :: !Topmost(db, inputs, file, IsPdf, n)) && Topmost(db, inputs, file, NotZip, root))
    || ((forall n :: !Topmost(db, inputs, file, NotZip, n)) && root == file)
  }

  /** The last of the first `limit` nodes that qualifies. */
  function LastWith(db: Lineage, inputs: map<Rid, File>, file: Rid, has: FileType -> bool, limit: nat): Option<Rid> {
    if limit == 0 then None
    else if Qualifies(db, inputs, file, has, limit - 1) then Ancestor(db, file, limit - 1)
    else LastWith(db, inputs, file, has, limit - 1)
  }

  function Root(db: Lineage, inputs: map<Rid, File>, file: Rid): Rid {
    var pdf := LastWith(db, inputs, file, IsPdf, DEPTH);
    var top := LastWith(db, inputs, file, NotZip, DEPTH);
    if pdf.Some? then pdf.value else if top.Some? then top.value else file
  }

  lemma {:induction false} LastWithMeans(db: Lineage, inputs: map<Rid, File>, file: Rid, has: FileType -> bool,
                                         limit: nat)
    ensures LastWith(db, inputs, file, has, limit).None? ==>
              forall i :: 0 <= i < limit ==> !Qualifies(db, inputs, file, has, i)
    ensures LastWith(db, inputs, file, has, limit).Some? ==>
              exists k :: 0 <= k < limit
                && TopmostAt(db, inputs, file, has, LastWith(db, inputs, file, has, limit).value, k, limit)
  {
    if limit > 0 {
      if Qualifies(db, inputs, file, has, limit - 1) {
        var n := Ancestor(db, file, limit - 1).value;
        assert LastWith(db, inputs, file, has, limit) == Some(n);
        assert TopmostAt(db, inputs, file, has, n, limit - 1, limit);
      } else {
        LastWithMeans(db, inputs, file, has, limit - 1);
        var last := LastWith(db, inputs, file, has, limit);
        if last.Some? {
          var k :| 0 <= k < limit - 1 && TopmostAt(db, inputs, file, has, last.value, k, limit - 1);
          assert TopmostAt(db, inputs, file, has, last.value, k, limit);
        }
      }
    }
  }

  lemma TopmostIsLast(db: Lineage, inputs: map<Rid, File>, file: Rid, has: FileType -> bool, n: Rid)
    ensures Topmost(db, inputs, file, has, n) <==> LastWith(db, inputs, file, has, DEPTH) == Some(n)
  {
    LastWithMeans(db, inputs, file, has, DEPTH);
    if Topmost(db, inputs, file, has, n) {
      var k :| 0 <= k < DEPTH && TopmostAt(db, inputs, file, has, n, k, DEPTH);
      assert Qualifies(db, inputs, file, has, k);
      var m := LastWith(db, inputs, file, has, DEPTH).value;
      var j :| 0 <= j < DEPTH && TopmostAt(db, inputs, file, has, m, j, DEPTH);
      assert Qualifies(db, inputs, file, has, j);
    }
  }

  lemma {:induction false} PdfsAreNotZips(db: Lineage, inputs: map<Rid, File>, file: Rid, limit: nat)
    ensures LastWith(db, inputs, file, IsPdf, limit).Some? ==> LastWith(db, inputs, file, NotZip, limit).Some?
  {
    if limit > 0 { PdfsAreNotZips(db, inputs, file, limit - 1); }
  }

  /** Every file has exactly one root. */
  lemma RootIsTheRoot(db: Lineage, inputs: map<Rid, File>, file: Rid, root: Rid)
    ensures IsRoot(db, inputs, file, root) <==> root == Root(db, inputs, file)
  {
    PdfsAreNotZips(db, inputs, file, DEPTH);
    forall n ensures Topmost(db, inputs, file, IsPdf, n) <==> LastWith(db, inputs, file, IsPdf, DEPTH) == Some(n) {
      TopmostIsLast(db, inputs, file, IsPdf, n);
    }
    forall n ensures Topmost(db, inputs, file, NotZip, n) <==> LastWith(db, inputs, file, NotZip, DEPTH) == Some(n) {
      TopmostIsLast(db, inputs, file, NotZip, n);
    }
  }

  // ---- the groups ----

  function RootOf(db: Lineage, inputs: map<Rid, File>, f: File): Rid
    requires f.rid.Some?
  {
    Root(db, inputs, f.rid.value)
  }

  ghost predicate AllNamed(files: seq<File>) { forall i :: 0 <= i < |files| ==> files[i].rid.Some? }

  /** The roots of the files, in the order they are first met. */
  function RootsOf(db: Lineage, inputs: map<Rid, File>, files: seq<File>): seq<Rid>
    requires AllNamed(files)
  {
    if files == [] then []
    else
      var before := RootsOf(db, inputs, files[..|files| - 1]);
      var root := RootOf(db, inputs, files[|files| - 1]);
      if root in before then before else before + [root]
  }

  /** The files with one root, in their order. */
  function Having(db: Lineage, inputs: map<Rid, File>, files: seq<File>, root: Rid): seq<File>
    requires AllNamed(files)
  {
    if files == [] then []
    else
      var before := Having(db, inputs, files[..|files| - 1], root);
      if RootOf(db, inputs, files[|files| - 1]) == root then before + [files[|files| - 1]] else before
  }

  function Or<T>(a: Option<T>, b: Option<T>): Option<T> { if a.Some? then a else b }

  function MetaOf(db: Lineage, inputs: map<Rid, File>, n: Rid): Meta {
    if n in inputs then Meta(inputs[n].kind, inputs[n].title, inputs[n].filename)
    else if n in db.files then db.files[n] else Meta(NoType, None, None)
  }

  /** A new group: what is known of the root, else of the first file under it. */
  function NewGroup(m: Meta, root: Rid, first: File): Group {
    Group(Some(root), if m.kind != NoType then m.kind else first.kind, Or(Or(m.title, m.filename), first.title), [])
  }

  /** The group of one root before sorting. */
  function GroupFor(db: Lineage, inputs: map<Rid, File>, files: seq<File>, root: Rid): Group
    requires AllNamed(files) && Having(db, inputs, files, root) != []
  {
    var mine := Having(db, inputs, files, root);
    NewGroup(MetaOf(db, inputs, root), root, mine[0]).(files := mine)
  }

  function TextRank(t: Option<nat>): int { if t.Some? then t.value else -1 }

  predicate FileLeq(a: File, b: File) { TextRank(a.title) <= TextRank(b.title) }

  predicate GroupLeq(a: Group, b: Group) { TextRank(a.title) <= TextRank(b.title) }

  function WithSortedFiles(g: Group): Group { g.(files := SortBy(g.files, FileLeq)) }

  /** A root is listed exactly when some file has it. */
  lemma {:induction false} RootsMean(db: Lineage, inputs: map<Rid, File>, files: seq<File>)
    requires AllNamed(files)
    ensures Distinct(RootsOf(db, inputs, files))
    ensures forall r :: r in RootsOf(db, inputs, files) <==> Having(db, inputs, files, r) != []
  {
    if files != [] { RootsMean(db, inputs, files[..|files| - 1]); }
  }

  /** One group for each of these roots. */
  function GroupsFor(db: Lineage, inputs: map<Rid, File>, files: seq<File>, roots: seq<Rid>): (r: seq<Group>)
    requires AllNamed(files) && forall i :: 0 <= i < |roots| ==> Having(db, inputs, files, roots[i]) != []
    ensures |r| == |roots| && forall i :: 0 <= i < |r| ==> r[i].source == Some(roots[i])
  {
    seq(|roots|, i requires 0 <= i < |roots| => GroupFor(db, inputs, files, roots[i]))
  }

  /** What `groupByRootSource` returns before sorting. */
  function RawGroups(db: Lineage, inputs: map<Rid, File>, files: seq<File>): seq<Group>
    requires AllNamed(files)
  {
    RootsMean(db, inputs, files);
    var roots := RootsOf(db, inputs, files);
    assert forall i :: 0 <= i < |roots| ==> roots[i] in roots;
    GroupsFor(db, inputs, files, roots)
  }

  function SortedFiles(groups: seq<Group>): seq<Group> {
    seq(|groups|, i requires 0 <= i < |groups| => WithSortedFiles(groups[i]))
  }

  function Groups(db: Lineage, files: seq<File>): seq<Group> {
    SortedFiles(SortBy(RawGroups(db, ByRid(files), Entries(files)), GroupLeq))
  }

  lemma HavingStep(db: Lineage, inputs: map<Rid, File>, files: seq<File>, i: nat, r: Rid)
    requires AllNamed(files) && i < |files|
    ensures Having(db, inputs, files[..i + 1], r)
            == Having(db, inputs, files[..i], r) + (if RootOf(db, inputs, files[i]) == r then [files[i]] else [])
  {
    var all := files[..i + 1];
    assert all[..|all| - 1] == files[..i] && all[i] == files[i];
  }

  lemma RootsStep(db: Lineage, inputs: map<Rid, File>, files: seq<File>, i: nat)
    requires AllNamed(files) && i < |files|
    ensures var roots := RootsOf(db, inputs, files[..i]); var root := RootOf(db, inputs, files[i]);
            RootsOf(db, inputs, files[..i + 1]) == if root in roots then roots else roots + [root]
  {
    var all := files[..i + 1];
    assert all[..|all| - 1] == files[..i] && all[i] == files[i];
  }

  // ---- the groups partition the files ----

  /** The files in the groups of these roots. */
  function Load(groups: seq<Group>, roots: set<Rid>): multiset<File> {
    if groups == [] then multiset{}
    else (if groups[0].source.Some? && groups[0].source.value in roots then multiset(groups[0].files) else multiset{})
         + Load(groups[1..], roots)
  }

  /** The files whose root is one of these. */
  function Under(db: Lineage, inputs: map<Rid, File>, files: seq<File>, roots: set<Rid>): seq<File>
    requires AllNamed(files)
  {
    if files == [] then []
    else
      var before := Under(db, inputs, files[..|files| - 1], roots);
      if RootOf(db, inputs, files[|files| - 1]) in roots then before + [files[|files| - 1]] else before
  }

  lemma {:induction false} InsertLoad(g: Group, groups: seq<Group>, roots: set<Rid>)
    ensures Load(Insert(g, groups, GroupLeq), roots) == Load([g], roots) + Load(groups, roots)
  {
    if groups != [] && !GroupLeq(g, groups[0]) { InsertLoad(g, groups[1..], roots); }
  }

  lemma {:induction false} SortLoad(groups: seq<Group>, roots: set<Rid>)
    ensures Load(SortBy(groups, GroupLeq), roots) == Load(groups, roots)
  {
    if groups != [] {
      SortLoad(groups[1..], roots);
      InsertLoad(groups[0], SortBy(groups[1..], GroupLeq), roots);
    }
  }

  lemma {:induction false} SortedFilesLoad(groups: seq<Group>, roots: set<Rid>)
    ensures Load(SortedFiles(groups), roots) == Load(groups, roots)
  {
    if groups != [] {
      assert SortedFiles(groups)[1..] == SortedFiles(groups[1..]);
      SortPermutes(groups[0].files, FileLeq);
      SortedFilesLoad(groups[1..], roots);
    }
  }

  lemma {:induction false} UnderOneMore(db: Lineage, inputs: map<Rid, File>, files: seq<File>, roots: set<Rid>, r: Rid)
    requires AllNamed(files) && r !in roots
    ensures multiset(Under(db, inputs, files, roots + {r})) == multiset(Under(db, inputs, files, roots))
            + multiset(Having(db, inputs, files, r))
  {
    if files != [] {
      var root := RootOf(db, inputs, files[|files| - 1]);
      UnderOneMore(db, inputs, files[..|files| - 1], roots, r);
      assert root in roots + {r} <==> root in roots || root == r;
    }
  }

  lemma {:induction false} UnderNothing(db: Lineage, inputs: map<Rid, File>, files: seq<File>)
    requires AllNamed(files)
    ensures Under(db, inputs, files, {}) == []
  {
    if files != [] { UnderNothing(db, inputs, files[..|files| - 1]); }
  }

  lemma {:induction false} GroupsForLoad(db: Lineage, inputs: map<Rid, File>, files: seq<File>, rs: seq<Rid>,
                                         roots: set<Rid>)
    requires AllNamed(files) && Distinct(rs) && forall i :: 0 <= i < |rs| ==> Having(db, inputs, files, rs[i]) != []
    ensures Load(GroupsFor(db, inputs, files, rs), roots) == multiset(Under(db, inputs, files, roots * Elements(rs)))
  {
    if rs == [] {
      UnderNothing(db, inputs, files);
      assert roots * Elements(rs) == {};
    } else {
      GroupsForLoad(db, inputs, files, rs[1..], roots);
      assert GroupsFor(db, inputs, files, rs)[1..] == GroupsFor(db, inputs, files, rs[1..]);
      RestOfRoots(rs, roots);
      assert GroupsFor(db, inputs, files, rs)[0] == GroupFor(db, inputs, files, rs[0]);
      if rs[0] in roots { UnderOneMore(db, inputs, files, roots * Elements(rs[1..]), rs[0]); }
    }
  }

  lemma RestOfRoots(rs: seq<Rid>, roots: set<Rid>)
    requires rs != [] && Distinct(rs)
    ensures roots * Elements(rs)
            == if rs[0] in roots then roots * Elements(rs[1..]) + {rs[0]} else roots * Elements(rs[1..])
    ensures rs[0] !in Elements(rs[1..])
  {
  }

  lemma {:induction false} UnderKnownRoots(db: Lineage, inputs: map<Rid, File>, files: seq<File>, roots: set<Rid>,
                                           known: set<Rid>)
    requires AllNamed(files) && forall i :: 0 <= i < |files| ==> RootOf(db, inputs, files[i]) in known
    ensures Under(db, inputs, files, roots * known) == Under(db, inputs, files, roots)
  {
    if files != [] { UnderKnownRoots(db, inputs, files[..|files| - 1], roots, known); }
  }

  lemma {:induction false} EveryRootListed(db: Lineage, inputs: map<Rid, File>, files: seq<File>)
    requires AllNamed(files)
    ensures forall i :: 0 <= i < |files| ==> RootOf(db, inputs, files[i]) in RootsOf(db, inputs, files)
  {
    if files != [] { EveryRootListed(db, inputs, files[..|files| - 1]); }
  }

  /** The groups of any set of roots hold exactly the files with those roots. */
  lemma GroupsLoad(db: Lineage, files: seq<File>, roots: set<Rid>)
    ensures Load(Groups(db, files), roots) == multiset(Under(db, ByRid(files), Entries(files), roots))
  {
    var inputs, entries := ByRid(files), Entries(files);
    var raw := RawGroups(db, inputs, entries);
    var all := RootsOf(db, inputs, entries);
    RootsMean(db, inputs, entries);
    GroupsForLoad(db, inputs, entries, all, roots);
    SortLoad(raw, roots);
    SortedFilesLoad(SortBy(raw, GroupLeq), roots);
    EveryRootListed(db, inputs, entries);
    UnderKnownRoots(db, inputs, entries, roots, Elements(all));
  }

  function SourceKey(g: Group): Option<Rid> { g.source }

  ghost predicate IsGroup(db: Lineage, inputs: map<Rid, File>, g: Group) {
    && g.source.Some? && g.files != []
    && forall f :: f in g.files ==> f.rid.Some? && IsRoot(db, inputs, f.rid.value, g.source.value)
  }

  lemma {:induction false} HavingHas(db: Lineage, inputs: map<Rid, File>, files: seq<File>, r: Rid)
    requires AllNamed(files)
    ensures forall f :: f in Having(db, inputs, files, r) <==> f in files && f.rid.Some? && RootOf(db, inputs, f) == r
  {
    if files != [] {
      assert files == files[..|files| - 1] + [files[|files| - 1]];
      HavingHas(db, inputs, files[..|files| - 1], r);
    }
  }

  lemma RawIsGroup(db: Lineage, inputs: map<Rid, File>, files: seq<File>, i: nat)
    requires AllNamed(files) && i < |RootsOf(db, inputs, files)|
    ensures IsGroup(db, inputs, WithSortedFiles(RawGroups(db, inputs, files)[i]))
  {
    RootsMean(db, inputs, files);
    var g := RawGroups(db, inputs, files)[i];
    var r := RootsOf(db, inputs, files)[i];
    HavingHas(db, inputs, files, r);
    SortPermutes(g.files, FileLeq);
    forall f | f in WithSortedFiles(g).files ensures f.rid.Some? && IsRoot(db, inputs, f.rid.value, r) {
      SameElements(WithSortedFiles(g).files, g.files, f);
      RootIsTheRoot(db, inputs, f.rid.value, r);
    }
  }

  lemma GroupAt(db: Lineage, files: seq<File>, i: nat)
    requires i < |Groups(db, files)|
    ensures IsGroup(db, ByRid(files), Groups(db, files)[i])
  {
    var raw := RawGroups(db, ByRid(files), Entries(files));
    var sorted := SortBy(raw, GroupLeq);
    SortPermutes(raw, GroupLeq);
    SameElements(raw, sorted, sorted[i]);
    var k :| 0 <= k < |raw| && raw[k] == sorted[i];
    RawIsGroup(db, ByRid(files), Entries(files), k);
  }

  lemma SourcesApart(db: Lineage, files: seq<File>)
    ensures DistinctBy(Groups(db, files), SourceKey)
  {
    var raw := RawGroups(db, ByRid(files), Entries(files));
    SortPermutes(raw, GroupLeq);
    RootsMean(db, ByRid(files), Entries(files));
    DistinctByPermutes(raw, SortBy(raw, GroupLeq), SourceKey);
  }

  /** The groups partition the distinct input files: one group a root, no group empty, every file in
      the group of its own root and all files in some group. */
  lemma GroupsPartition(db: Lineage, files: seq<File>)
    ensures DistinctBy(Groups(db, files), SourceKey)
    ensures forall i :: 0 <= i < |Groups(db, files)| ==> IsGroup(db, ByRid(files), Groups(db, files)[i])
    ensures Load(Groups(db, files), SourcesIn(Groups(db, files))) == multiset(Entries(files))
  {
    SourcesApart(db, files);
    forall i | 0 <= i < |Groups(db, files)| ensures IsGroup(db, ByRid(files), Groups(db, files)[i]) {
      GroupAt(db, files, i);
    }
    GroupsLoad(db, files, SourcesIn(Groups(db, files)));
    AllUnder(db, files);
  }

  function SourcesIn(groups: seq<Group>): set<Rid> {
    set g | g in groups && g.source.Some? :: g.source.value
  }

  lemma RootIsSource(db: Lineage, files: seq<File>, r: Rid)
    requires r in RootsOf(db, ByRid(files), Entries(files))
    ensures r in SourcesIn(Groups(db, files))
  {
    var roots := RootsOf(db, ByRid(files), Entries(files));
    var raw := RawGroups(db, ByRid(files), Entries(files));
    var sorted := SortBy(raw, GroupLeq);
    SortPermutes(raw, GroupLeq);
    var i :| 0 <= i < |roots| && roots[i] == r;
    SameElements(raw, sorted, raw[i]);
    var k :| 0 <= k < |sorted| && sorted[k] == raw[i];
    assert Groups(db, files)[k].source == Some(r);
  }

  lemma SourceIsRoot(db: Lineage, files: seq<File>, r: Rid)
    requires r in SourcesIn(Groups(db, files))
    ensures r in RootsOf(db, ByRid(files), Entries(files))
  {
    var raw := RawGroups(db, ByRid(files), Entries(files));
    var sorted := SortBy(raw, GroupLeq);
    SortPermutes(raw, GroupLeq);
    var k :| 0 <= k < |sorted| && Groups(db, files)[k].source == Some(r);
    SameElements(raw, sorted, sorted[k]);
  }

  lemma {:induction false} UnderAll(db: Lineage, inputs: map<Rid, File>, files: seq<File>, roots: set<Rid>)
    requires AllNamed(files) && forall i :: 0 <= i < |files| ==> RootOf(db, inputs, files[i]) in roots
    ensures Under(db, inputs, files, roots) == files
  {
    if files != [] { UnderAll(db, inputs, files[..|files| - 1], roots); }
  }

  lemma AllUnder(db: Lineage, files: seq<File>)
    ensures Under(db, ByRid(files), Entries(files), SourcesIn(Groups(db, files))) == Entries(files)
  {
    forall r ensures r in SourcesIn(Groups(db, files)) <==> r in RootsOf(db, ByRid(files), Entries(files)) {
      if r in SourcesIn(Groups(db, files)) { SourceIsRoot(db, files, r); }
      if r in RootsOf(db, ByRid(files), Entries(files)) { RootIsSource(db, files, r); }
    }
    EveryRootListed(db, ByRid(files), Entries(files));
    UnderAll(db, ByRid(files), Entries(files), SourcesIn(Groups(db, files)));
  }

  // ---- what a group says ----

  /** `f` is the first of the files with this root. */
  ghost predicate IsFirst(db: Lineage, inputs: map<Rid, File>, files: seq<File>, root: Rid, f: File) {
    exists i :: 0 <= i < |files| && files[i] == f && f.rid.Some? && IsRoot(db, inputs, f.rid.value, root)
                && forall j :: 0 <= j < i && files[j].rid.Some? ==> !IsRoot(db, inputs, files[j].rid.value, root)
  }

  lemma {:induction false} HavingFirst(db: Lineage, inputs: map<Rid, File>, files: seq<File>, r: Rid)
    requires AllNamed(files) && Having(db, inputs, files, r) != []
    ensures exists i ::
              && 0 <= i < |files| && files[i] == Having(db, inputs, files, r)[0] && RootOf(db, inputs, files[i]) == r
              && forall j :: 0 <= j < i ==> RootOf(db, inputs, files[j]) != r
  {
    var before := files[..|files| - 1];
    if Having(db, inputs, before, r) != [] {
      HavingFirst(db, inputs, before, r);
      var i :| 0 <= i < |before| && before[i] == Having(db, inputs, before, r)[0] && RootOf(db, inputs, before[i]) == r
               && forall j :: 0 <= j < i ==> RootOf(db, inputs, before[j]) != r;
      assert files[i] == before[i];
    } else {
      HavingHas(db, inputs, before, r);
      forall j | 0 <= j < |before| ensures RootOf(db, inputs, files[j]) != r {
        assert files[j] == before[j] && before[j] in before;
      }
      assert files[|before|] == Having(db, inputs, files, r)[0];
    }
  }

  /** What is known of a file: from the listing when it is an input, else from the database. */
  predicate KnownKind(db: Lineage, inputs: map<Rid, File>, n: Rid, kind: FileType) {
    kind != NoType && if n in inputs then inputs[n].kind == kind else n in db.files && db.files[n].kind == kind
  }

  predicate KnownTitle(db: Lineage, inputs: map<Rid, File>, n: Rid, title: nat) {
    if n in inputs then inputs[n].title == Some(title) || (inputs[n].title == None && inputs[n].filename == Some(title))
    else n in db.files
         && (db.files[n].title == Some(title) || (db.files[n].title == None && db.files[n].filename == Some(title)))
  }

  /** The group of its source: exactly the entries with that root; of the root's type and title when they are
      known, else of those of the first such entry. */
  ghost predicate Describes(db: Lineage, inputs: map<Rid, File>, entries: seq<File>, g: Group) {
    && g.source.Some?
    && (forall f :: f in g.files <==> f in entries && f.rid.Some? && IsRoot(db, inputs, f.rid.value, g.source.value))
    && (forall kind :: KnownKind(db, inputs, g.source.value, kind) ==> g.kind == kind)
    && (forall title: nat :: KnownTitle(db, inputs, g.source.value, title) ==> g.title == Some(title))
    && exists f :: IsFirst(db, inputs, entries, g.source.value, f)
                   && ((forall kind :: !KnownKind(db, inputs, g.source.value, kind)) ==> g.kind == f.kind)
                   && ((forall title: nat :: !KnownTitle(db, inputs, g.source.value, title)) ==> g.title == f.title)
  }

  lemma FirstIsFirst(db: Lineage, inputs: map<Rid, File>, files: seq<File>, r: Rid)
    requires AllNamed(files) && Having(db, inputs, files, r) != []
    ensures IsFirst(db, inputs, files, r, Having(db, inputs, files, r)[0])
  {
    HavingFirst(db, inputs, files, r);
    var i :| 0 <= i < |files| && files[i] == Having(db, inputs, files, r)[0] && RootOf(db, inputs, files[i]) == r
             && forall j :: 0 <= j < i ==> RootOf(db, inputs, files[j]) != r;
    forall j | 0 <= j <= i ensures IsRoot(db, inputs, files[j].rid.value, r) <==> RootOf(db, inputs, files[j]) == r {
      RootIsTheRoot(db, inputs, files[j].rid.value, r);
    }
  }

  lemma MetaMeans(db: Lineage, inputs: map<Rid, File>, n: Rid)
    ensures var m := MetaOf(db, inputs, n);
            && (m.kind != NoType ==> KnownKind(db, inputs, n, m.kind))
            && (forall kind :: KnownKind(db, inputs, n, kind) ==> kind == m.kind)
            && (Or(m.title, m.filename).Some? ==> KnownTitle(db, inputs, n, Or(m.title, m.filename).value))
            && (forall title: nat :: KnownTitle(db, inputs, n, title) ==> Or(m.title, m.filename) == Some(title))
  {
  }

  lemma GroupForDescribes(db: Lineage, inputs: map<Rid, File>, files: seq<File>, r: Rid)
    requires AllNamed(files) && Having(db, inputs, files, r) != []
    ensures Describes(db, inputs, files, WithSortedFiles(GroupFor(db, inputs, files, r)))
  {
    var g := WithSortedFiles(GroupFor(db, inputs, files, r));
    var mine := Having(db, inputs, files, r);
    SortPermutes(mine, FileLeq);
    HavingHas(db, inputs, files, r);
    forall f ensures f in g.files <==> f in files && f.rid.Some? && IsRoot(db, inputs, f.rid.value, r) {
      SameElements(g.files, mine, f);
      if f.rid.Some? { RootIsTheRoot(db, inputs, f.rid.value, r); }
    }
    MetaMeans(db, inputs, r);
    FirstIsFirst(db, inputs, files, r);
  }

  /** A missing title comes before any other. */
  predicate TitleLeq(a: Option<nat>, b: Option<nat>) { a.None? || (b.Some? && a.value <= b.value) }

  /** Every group is what its source says, and groups and the files in each are in the order of their titles. */
  lemma GroupsMean(db: Lineage, files: seq<File>)
    ensures var groups := Groups(db, files);
            && (forall i :: 0 <= i < |groups| ==> Describes(db, ByRid(files), Entries(files), groups[i]))
            && (forall i, j :: 0 <= i < j < |groups| ==> TitleLeq(groups[i].title, groups[j].title))
            && (forall g, i, j :: g in groups && 0 <= i < j < |g.files| ==>
                  TitleLeq(g.files[i].title, g.files[j].title))
  {
    var raw := RawGroups(db, ByRid(files), Entries(files));
    var sorted := SortBy(raw, GroupLeq);
    assert TotalPreorder(GroupLeq) && TotalPreorder(FileLeq);
    SortSorts(raw, GroupLeq);
    forall i | 0 <= i < |sorted|
      ensures Describes(db, ByRid(files), Entries(files), Groups(db, files)[i])
      ensures Sorted(Groups(db, files)[i].files, FileLeq)
    {
      RawOf(db, files, i);
      SortSorts(sorted[i].files, FileLeq);
    }
    forall i, j | 0 <= i < j < |sorted| ensures TitleLeq(Groups(db, files)[i].title, Groups(db, files)[j].title) {
      assert GroupLeq(sorted[i], sorted[j]);
    }
    forall g, i, j | g in Groups(db, files)
      && 0 <= i < j < |g.files| ensures TitleLeq(g.files[i].title, g.files[j].title) {
      assert FileLeq(g.files[i], g.files[j]);
    }
  }

  lemma RawOf(db: Lineage, files: seq<File>, i: nat)
    requires i < |Groups(db, files)|
    ensures Describes(db, ByRid(files), Entries(files), Groups(db, files)[i])
  {
    var raw := RawGroups(db, ByRid(files), Entries(files));
    var sorted := SortBy(raw, GroupLeq);
    SortPermutes(raw, GroupLeq);
    SameElements(raw, sorted, sorted[i]);
    var k :| 0 <= k < |raw| && raw[k] == sorted[i];
    RootsMean(db, ByRid(files), Entries(files));
    var r := RootsOf(db, ByRid(files), Entries(files))[k];
    assert r in RootsOf(db, ByRid(files), Entries(files));
    GroupForDescribes(db, ByRid(files), Entries(files), r);
  }

  /** The entries are the last file of each rid, */
  lemma {:induction false} LastFileCounts(files: seq<File>, r: Rid)
    requires r in ByRid(files)
    ensures exists i: nat :: LastOf(files, r, i) && ByRid(files)[r] == files[i]
  {
    var before, last := files[..|files| - 1], files[|files| - 1];
    if last.rid == Some(r) {
      assert LastOf(files, r, |files| - 1);
    } else {
      LastFileCounts(before, r);
      var i: nat :| LastOf(before, r, i) && ByRid(before)[r] == before[i];
      assert LastOf(files, r, i);
    }
  }

  /** in the order in which the rids first occur. */
  lemma {:induction false} FirstOccursFirst(files: seq<File>, a: nat, b: nat)
    requires a < b < |Keys(files)|
    ensures exists i: nat :: ComesBefore(files, Keys(files)[a], Keys(files)[b], i)
  {
    var before := files[..|files| - 1];
    var x, y := Keys(files)[a], Keys(files)[b];
    KeysMean(before);
    if b < |Keys(before)| {
      FirstOccursFirst(before, a, b);
      var i: nat :| ComesBefore(before, x, y, i);
      assert ComesBefore(files, x, y, i);
    } else {
      assert x in Elements(Keys(before)) && y !in Elements(Keys(before));
      LastFileCounts(before, x);
      var i: nat :| LastOf(before, x, i) && ByRid(before)[x] == before[i];
      forall j | 0 <= j <= i ensures files[j].rid != Some(y) { assert files[j] == before[j] && before[j] in before; }
      assert ComesBefore(files, x, y, i);
    }
  }

  ghost predicate LastOf(files: seq<File>, r: Rid, i: nat) {
    i < |files| && files[i].rid == Some(r) && forall j :: i < j < |files| ==> files[j].rid != Some(r)
  }

  /** `x` occurs at `i`, before any `y`. */
  ghost predicate ComesBefore(files: seq<File>, x: Rid, y: Rid, i: nat) {
    i < |files| && files[i].rid == Some(x) && forall j :: 0 <= j <= i ==> files[j].rid != Some(y)
  }

  // ---- the search ----

  function Dedup(s: seq<Rid>): (r: seq<Rid>)
    ensures Distinct(r) && forall x :: x in r <==> x in s
  {
    if s == [] then []
    else
      var before := Dedup(s[..|s| - 1]);
      assert s == s[..|s| - 1] + [s[|s| - 1]];
      if s[|s| - 1] in before then before else before + [s[|s| - 1]]
  }

  function EdgesFrom(db: Lineage, n: Rid): seq<(Rid, Rid)> {
    if n in db.sources then seq(|db.sources[n]|, i requires 0 <= i < |db.sources[n]| => (n, db.sources[n][i])) else []
  }

  /** `edgesOf('out', 'DERIVED_FROM', batch)`: (target, source) pairs, record by record. */
  function EdgesOf(db: Lineage, batch: seq<Rid>): seq<(Rid, Rid)> {
    if batch == [] then [] else EdgesFrom(db, batch[0]) + EdgesOf(db, batch[1..])
  }

  /** Every source of a record read so far is read or about to be. */
  ghost predicate Open(db: Lineage, visited: set<Rid>, met: set<Rid>) {
    forall n, s :: n in visited && n in db.sources && s in db.sources[n] ==> s in met
  }

  /** The first parents of the records read so far, and of nothing else. */
  ghost predicate Parents(db: Lineage, visited: set<Rid>, parent: map<Rid, Rid>) {
    && (forall n :: n in parent ==> Parent(db, n) == Some(parent[n]))
    && (forall n :: n in visited && Parent(db, n).Some? ==> n in parent)
    && parent.Keys <= visited
  }

  /** Nothing but true types, and those of everything met. */
  ghost predicate Known(db: Lineage, inputs: map<Rid, File>, meta: map<Rid, Meta>, met: set<Rid>) {
    && (forall n :: n in meta ==> meta[n] == MetaOf(db, inputs, n) && (n in inputs || n in db.files))
    && (forall n :: n in met && (n in inputs || n in db.files) ==> n in meta)
    && inputs.Keys <= meta.Keys
  }

  /** The first `depth` nodes up from every input have been read. */
  ghost predicate Climbed(db: Lineage, inputs: map<Rid, File>, visited: set<Rid>, depth: nat) {
    forall f, k :: f in inputs && 0 <= k < depth && Ancestor(db, f, k).Some? ==> Ancestor(db, f, k).value in visited
  }

  lemma ClimbOne(db: Lineage, inputs: map<Rid, File>, visited: set<Rid>, met: set<Rid>, depth: nat)
    requires Climbed(db, inputs, visited, depth) && Open(db, visited, met) && inputs.Keys <= met && visited <= met
    ensures Climbed(db, inputs, met, depth + 1)
  {
    forall f, k | f in inputs && 0 <= k < depth + 1 && Ancestor(db, f, k).Some?
      ensures Ancestor(db, f, k).value in met
    {
      if k > 0 { assert Ancestor(db, f, k - 1).Some?; }
    }
  }

  /** With nothing left to read, every ancestor has been read. */
  lemma {:induction false} ClimbAll(db: Lineage, inputs: map<Rid, File>, visited: set<Rid>, depth: nat)
    requires Open(db, visited, visited) && inputs.Keys <= visited
    ensures Climbed(db, inputs, visited, depth)
  {
    if depth > 0 {
      ClimbAll(db, inputs, visited, depth - 1);
      ClimbOne(db, inputs, visited, visited, depth - 1);
    }
  }

  lemma {:induction false} EdgesMean(db: Lineage, batch: seq<Rid>)
    ensures forall e :: e in EdgesOf(db, batch) <==> e.0 in batch && e.0 in db.sources && e.1 in db.sources[e.0]
  {
    if batch != [] { EdgesMean(db, batch[1..]); }
  }

  /** The first edge of a target is the one to its first parent. */
  lemma {:induction false} FirstEdge(db: Lineage, batch: seq<Rid>, i: nat)
    requires i < |EdgesOf(db, batch)|
    requires forall k :: 0 <= k < i ==> EdgesOf(db, batch)[k].0 != EdgesOf(db, batch)[i].0
    ensures Parent(db, EdgesOf(db, batch)[i].0) == Some(EdgesOf(db, batch)[i].1)
  {
    var here := EdgesFrom(db, batch[0]);
    var all := EdgesOf(db, batch);
    assert all == here + EdgesOf(db, batch[1..]);
    if i < |here| {
      assert all[0] == here[0];
    } else {
      forall k | 0 <= k < i - |here| ensures EdgesOf(db, batch[1..])[k].0 != EdgesOf(db, batch[1..])[i - |here|].0 {
        assert all[k + |here|] == EdgesOf(db, batch[1..])[k];
      }
      FirstEdge(db, batch[1..], i - |here|);
    }
  }

  /** The parent Map after these edges: the first one of a target counts. */
  function FirstParents(parents: map<Rid, Rid>, edges: seq<(Rid, Rid)>): map<Rid, Rid> {
    if edges == [] then parents
    else
      var before := FirstParents(parents, edges[..|edges| - 1]);
      var (target, source) := edges[|edges| - 1];
      if target in before then before else before[target := source]
  }

  function SourcesOf(edges: seq<(Rid, Rid)>): seq<Rid> {
    if edges == [] then [] else SourcesOf(edges[..|edges| - 1]) + [edges[|edges| - 1].1]
  }

  lemma {:induction false} SourcesOfHas(edges: seq<(Rid, Rid)>, s: Rid)
    ensures s in SourcesOf(edges) <==> exists e :: e in edges && e.1 == s
  {
    if edges != [] {
      assert edges == edges[..|edges| - 1] + [edges[|edges| - 1]];
      SourcesOfHas(edges[..|edges| - 1], s);
    }
  }

  lemma LevelSources(db: Lineage, batch: seq<Rid>, s: Rid)
    ensures s in SourcesOf(EdgesOf(db, Dedup(batch)))
            <==> exists n :: n in batch && n in db.sources && s in db.sources[n]
  {
    var edges := EdgesOf(db, Dedup(batch));
    SourcesOfHas(edges, s);
    EdgesMean(db, Dedup(batch));
    if n :| n in batch && n in db.sources && s in db.sources[n] { assert (n, s) in edges; }
  }

  lemma {:induction false} FirstParentsMean(db: Lineage, parents: map<Rid, Rid>, batch: seq<Rid>, i: nat, n: Rid)
    requires i <= |EdgesOf(db, batch)|
    ensures var parent := FirstParents(parents, EdgesOf(db, batch)[..i]);
            && (n in parent <==> n in parents || exists k :: 0 <= k < i && EdgesOf(db, batch)[k].0 == n)
            && (n in parents ==> parent[n] == parents[n])
            && (n in parent && n !in parents ==> Parent(db, n) == Some(parent[n]))
  {
    var edges := EdgesOf(db, batch);
    if i > 0 {
      assert edges[..i][..i - 1] == edges[..i - 1];
      FirstParentsMean(db, parents, batch, i - 1, n);
      if edges[i - 1].0 == n && n !in FirstParents(parents, edges[..i - 1]) { FirstEdge(db, batch, i - 1); }
    }
  }

  lemma FirstParentsAreParents(db: Lineage, before: set<Rid>, visited: set<Rid>, batch: seq<Rid>,
                               parents: map<Rid, Rid>)
    requires visited == before + Elements(batch) && Parents(db, before, parents)
    ensures Parents(db, visited, FirstParents(parents, EdgesOf(db, batch)))
  {
    var edges := EdgesOf(db, batch);
    assert edges[..|edges|] == edges;
    var parent := FirstParents(parents, edges);
    EdgesMean(db, batch);
    forall n
      ensures n in parent ==> Parent(db, n) == Some(parent[n]) && n in visited
      ensures n in visited && Parent(db, n).Some? ==> n in parent
    {
      FirstParentsMean(db, parents, batch, |edges|, n);
      if n in parent && n !in parents {
        var k :| 0 <= k < |edges| && edges[k].0 == n;
        assert edges[k] in edges;
      }
      if n in batch && Parent(db, n).Some? { assert (n, db.sources[n][0]) in edges; }
    }
  }

  lemma LevelStep(edges: seq<(Rid, Rid)>, i: nat, visited: set<Rid>, parents: map<Rid, Rid>)
    requires i < |edges|
    ensures var (target, source) := edges[i];
            var parent := FirstParents(parents, edges[..i]); var sources := SourcesOf(edges[..i]);
            && FirstParents(parents, edges[..i + 1]) == (if target in parent then parent else parent[target := source])
            && SourcesOf(edges[..i + 1]) == sources + [source]
            && Unread(sources + [source], visited)
               == Unread(sources, visited) + (if source in visited then [] else [source])
  {
    assert edges[..i + 1][..i] == edges[..i];
    var sources := SourcesOf(edges[..i]);
    var source := edges[i].1;
    assert (sources + [source])[..|sources|] == sources;
  }

  lemma LevelIs(db: Lineage, before: set<Rid>, visited: set<Rid>, batch: seq<Rid>, parents: map<Rid, Rid>)
    requires visited == before + Elements(batch) && Parents(db, before, parents)
    ensures Parents(db, visited, FirstParents(parents, EdgesOf(db, Dedup(batch))))
    ensures forall s ::
              s in SourcesOf(EdgesOf(db, Dedup(batch))) <==>
                exists n :: n in batch && n in db.sources && s in db.sources[n]
  {
    assert Elements(Dedup(batch)) == Elements(batch);
    FirstParentsAreParents(db, before, visited, Dedup(batch), parents);
    forall s ensures s in SourcesOf(EdgesOf(db, Dedup(batch)))
      <==> exists n :: n in batch && n in db.sources && s in db.sources[n] {
      LevelSources(db, batch, s);
    }
  }

  /** One level: reads the edges of the new records, keeps each one's first parent, and queues the
      sources not read yet. */
  method SearchLevel(db: Lineage, ghost before: set<Rid>, visited: set<Rid>, batch: seq<Rid>, parents: map<Rid, Rid>)
    returns (parent: map<Rid, Rid>, frontier: seq<Rid>, sources: seq<Rid>)
    requires visited == before + Elements(batch) && Parents(db, before, parents)
    ensures Parents(db, visited, parent)
    ensures forall s :: s in sources <==> exists n :: n in batch && n in db.sources && s in db.sources[n]
    ensures frontier == Unread(sources, visited)
  {
    parent, frontier, sources := parents, [], [];
    var edges := EdgesOf(db, Dedup(batch));
    for i := 0 to |edges|
      invariant parent == FirstParents(parents, edges[..i]) && sources == SourcesOf(edges[..i])
      invariant frontier == Unread(sources, visited)
    {
      var (target, source) := edges[i];
      LevelStep(edges, i, visited, parents);
      if target !in parent { parent := parent[target := source]; }
      sources := sources + [source];
      if source !in visited { frontier := frontier + [source]; }
    }
    assert edges[..|edges|] == edges;
    LevelIs(db, before, visited, batch, parents);
  }

  /** `rowsByRids(..., "@type = 'File'")` over the sources met for the first time. */
  method LoadMissing(db: Lineage, ghost inputs: map<Rid, File>, ghost met: set<Rid>, sources: seq<Rid>,
                     known: map<Rid, Meta>)
    returns (meta: map<Rid, Meta>)
    requires Known(db, inputs, known, met)
    ensures Known(db, inputs, meta, met + Elements(sources))
  {
    var missing := set r | r in sources && r !in known;
    meta := known + map r | r in missing && r in db.files :: db.files[r];
  }

  /** The whole search: for every input, the first parents and the types of the first 40 nodes of
      its chain. */
  method Search(db: Lineage, inputs: map<Rid, File>, keys: seq<Rid>)
    returns (visited: set<Rid>, parent: map<Rid, Rid>, meta: map<Rid, Meta>)
    requires Elements(keys) == inputs.Keys
    ensures Climbed(db, inputs, visited, DEPTH) && Parents(db, visited, parent) && Known(db, inputs, meta, visited)
  {
    parent := map[];
    meta := map r | r in inputs :: Meta(inputs[r].kind, inputs[r].title, inputs[r].filename);
    var frontier := keys;
    var seen: set<Rid> := {};
    var depth := 0;
    while frontier != [] && depth < DEPTH
      invariant depth <= DEPTH && Open(db, seen, seen + Elements(frontier)) && Parents(db, seen, parent)
      invariant inputs.Keys <= seen + Elements(frontier) && Climbed(db, inputs, seen, depth)
      invariant Known(db, inputs, meta, seen + Elements(frontier))
      decreases DEPTH - depth
    {
      var batch := Unread(frontier, seen);
      ghost var before := seen;
      seen := seen + Elements(batch);
      assert seen == before + Elements(frontier);
      if batch == [] { frontier := []; break; }
      ClimbOne(db, inputs, before, seen, depth);
      ghost var met := seen;
      var sources;
      parent, frontier, sources := SearchLevel(db, before, seen, batch, parent);
      meta := LoadMissing(db, inputs, met, sources, meta);
      assert seen + Elements(frontier) == met + Elements(sources);
      depth := depth + 1;
    }
    visited := seen;
    if depth < DEPTH {
      assert seen + Elements(frontier) == seen;
      ClimbAll(db, inputs, seen, DEPTH);
    }
    assert Known(db, inputs, meta, visited);
  }

  function Unread(frontier: seq<Rid>, seen: set<Rid>): (r: seq<Rid>)
    ensures forall x :: x in r <==> x in frontier && x !in seen
  {
    if frontier == [] then [] else
      assert frontier == frontier[..|frontier| - 1] + [frontier[|frontier| - 1]];
      Unread(frontier[..|frontier| - 1], seen)
        + (if frontier[|frontier| - 1] in seen then [] else [frontier[|frontier| - 1]])
  }

  /** The walk up from one file. */
  method FindRoot(db: Lineage, inputs: map<Rid, File>, file: Rid, ghost visited: set<Rid>, parent: map<Rid, Rid>,
                  meta: map<Rid, Meta>)
    returns (root: Rid)
    requires file in inputs && Climbed(db, inputs, visited, DEPTH) && Parents(db, visited, parent)
             && Known(db, inputs, meta, visited)
    ensures root == Root(db, inputs, file) && root in visited
  {
    assert Ancestor(db, file, 0) == Some(file);
    var cursor := Some(file);
    var boundary: Option<Rid> := None;
    var highest := file;
    var guard := 0;
    while cursor.Some? && guard < DEPTH
      invariant guard <= DEPTH && cursor == Ancestor(db, file, guard)
      invariant boundary == LastWith(db, inputs, file, IsPdf, guard)
      invariant Some(highest) == Or(LastWith(db, inputs, file, NotZip, guard), Some(file))
      invariant highest in visited && (boundary.Some? ==> boundary.value in visited)
      decreases DEPTH - guard
    {
      var n := cursor.value;
      assert n in visited;
      var kind := if n in meta then meta[n].kind else NoType;
      assert kind == KindOf(db, inputs, n);
      if kind != Zip {
        highest := n;
        if kind == Pdf { boundary := Some(n); }
      }
      cursor := if n in parent then Some(parent[n]) else None;
      guard := guard + 1;
    }
    ChainEnded(db, inputs, file, guard, IsPdf);
    ChainEnded(db, inputs, file, guard, NotZip);
    root := if boundary.Some? then boundary.value else highest;
  }

  lemma {:induction false} ChainStays(db: Lineage, file: Rid, k: nat, i: nat)
    requires k <= i && Ancestor(db, file, k).None?
    ensures Ancestor(db, file, i).None?
  {
    if k < i { ChainStays(db, file, k, i - 1); }
  }

  lemma {:induction false} ChainEndsAt(db: Lineage, inputs: map<Rid, File>, file: Rid, k: nat, i: nat,
                                       has: FileType -> bool)
    requires k <= i && Ancestor(db, file, k).None?
    ensures LastWith(db, inputs, file, has, i) == LastWith(db, inputs, file, has, k)
  {
    if k < i {
      ChainStays(db, file, k, i - 1);
      ChainEndsAt(db, inputs, file, k, i - 1, has);
    }
  }

  lemma ChainEnded(db: Lineage, inputs: map<Rid, File>, file: Rid, guard: nat, has: FileType -> bool)
    requires guard == DEPTH || (guard < DEPTH && Ancestor(db, file, guard).None?)
    ensures LastWith(db, inputs, file, has, DEPTH) == LastWith(db, inputs, file, has, guard)
  {
    if guard < DEPTH { ChainEndsAt(db, inputs, file, guard, DEPTH, has); }
  }

  /** The input files as a Map by rid. */
  method Collect(files: seq<File>) returns (keys: seq<Rid>, byRid: map<Rid, File>)
    ensures keys == Keys(files) && byRid == ByRid(files)
  {
    keys, byRid := [], map[];
    for i := 0 to |files|
      invariant keys == Keys(files[..i]) && byRid == ByRid(files[..i])
    {
      assert files[..i + 1][..i] == files[..i];
      KeysMean(files[..i]);
      assert forall r :: r in keys <==> r in Elements(keys);
      var rid := files[i].rid;
      if rid.Some? {
        if rid.value !in byRid { keys := keys + [rid.value]; }
        byRid := byRid[rid.value := files[i]];
      }
    }
    assert files[..|files|] == files;
  }

  /** The Map of groups holds the unsorted group of every root met so far. */
  ghost predicate Grouped(db: Lineage, inputs: map<Rid, File>, files: seq<File>, groups: map<Rid, Group>)
    requires AllNamed(files)
  {
    && (forall r :: r in groups <==> Having(db, inputs, files, r) != [])
    && (forall r :: r in groups ==> Having(db, inputs, files, r) != [] && groups[r] == GroupFor(db, inputs, files, r))
  }

  lemma GroupedStep(db: Lineage, inputs: map<Rid, File>, files: seq<File>, i: nat, groups: map<Rid, Group>)
    requires AllNamed(files) && i < |files| && Grouped(db, inputs, files[..i], groups)
    ensures var root := RootOf(db, inputs, files[i]);
            var g := if root in groups then groups[root] else NewGroup(MetaOf(db, inputs, root), root, files[i]);
            Grouped(db, inputs, files[..i + 1], groups[root := g.(files := g.files + [files[i]])])
  {
    forall r ensures Having(db, inputs, files[..i + 1], r)
                     == Having(db, inputs, files[..i], r)
                       + (if RootOf(db, inputs, files[i]) == r then [files[i]] else []) {
      HavingStep(db, inputs, files, i, r);
    }
  }

  /** What is known of a root that was met. */
  lemma MetaIsKnown(db: Lineage, inputs: map<Rid, File>, meta: map<Rid, Meta>, met: set<Rid>, root: Rid)
    requires Known(db, inputs, meta, met) && root in met
    ensures MetaOf(db, inputs, root) == if root in meta then meta[root] else Meta(NoType, None, None)
  {
  }

  /** The Map of groups and its keys after these files. */
  ghost predicate Filled(db: Lineage, inputs: map<Rid, File>, files: seq<File>, order: seq<Rid>,
                         groups: map<Rid, Group>)
    requires AllNamed(files)
  {
    order == RootsOf(db, inputs, files) && Grouped(db, inputs, files, groups)
  }

  lemma FilledStep(db: Lineage, inputs: map<Rid, File>, files: seq<File>, i: nat, order: seq<Rid>,
                   groups: map<Rid, Group>)
    requires AllNamed(files) && i < |files| && Filled(db, inputs, files[..i], order, groups)
    ensures var root := RootOf(db, inputs, files[i]);
            var g := if root in groups then groups[root] else NewGroup(MetaOf(db, inputs, root), root, files[i]);
            Filled(db, inputs, files[..i + 1], if root in groups then order else order + [root],
                   groups[root := g.(files := g.files + [files[i]])])
  {
    RootsMean(db, inputs, files[..i]);
    RootsStep(db, inputs, files, i);
    GroupedStep(db, inputs, files, i, groups);
  }

  /** Puts every file into the group of its root. */
  method FillGroups(db: Lineage, entries: seq<File>, inputs: map<Rid, File>, ghost visited: set<Rid>,
                    parent: map<Rid, Rid>, meta: map<Rid, Meta>)
    returns (order: seq<Rid>, groups: map<Rid, Group>)
    requires AllNamed(entries) && forall i :: 0 <= i < |entries| ==> entries[i].rid.value in inputs
    requires Climbed(db, inputs, visited, DEPTH) && Parents(db, visited, parent) && Known(db, inputs, meta, visited)
    ensures Filled(db, inputs, entries, order, groups)
  {
    order, groups := [], map[];
    for i := 0 to |entries|
      invariant Filled(db, inputs, entries[..i], order, groups)
    {
      var file := entries[i];
      var root := FindRoot(db, inputs, file.rid.value, visited, parent, meta);
      MetaIsKnown(db, inputs, meta, visited, root);
      FilledStep(db, inputs, entries, i, order, groups);
      if root !in groups {
        groups := groups[root := NewGroup(if root in meta then meta[root] else Meta(NoType, None, None), root, file)];
        order := order + [root];
      }
      groups := groups[root := groups[root].(files := groups[root].files + [file])];
    }
    assert entries[..|entries|] == entries;
  }

  /** `groupByRootSource`: the groups of the reference definition, for every lineage, cyclic or not. */
  method GroupByRootSource(db: Lineage, files: seq<File>) returns (list: seq<Group>)
    ensures list == Groups(db, files)
  {
    var keys, inputs := Collect(files);
    KeysMean(files);
    var visited, parent, meta := Search(db, inputs, keys);
    assert forall i :: 0 <= i < |keys| ==> keys[i] in Elements(keys);
    var entries := seq(|keys|, i requires 0 <= i < |keys| => inputs[keys[i]]);
    assert entries == Entries(files);
    var order, groups := FillGroups(db, entries, inputs, visited, parent, meta);
    list := Values(db, inputs, entries, order, groups);
    list := SortedFiles(SortBy(list, GroupLeq));
  }

  /** The values of the Map of groups, in insertion order. */
  method Values(db: Lineage, ghost inputs: map<Rid, File>, ghost entries: seq<File>, order: seq<Rid>,
                groups: map<Rid, Group>)
    returns (list: seq<Group>)
    requires AllNamed(entries) && Filled(db, inputs, entries, order, groups)
    ensures list == RawGroups(db, inputs, entries)
  {
    RootsMean(db, inputs, entries);
    assert forall i :: 0 <= i < |order| ==> order[i] in order;
    list := seq(|order|, i requires 0 <= i < |order| => groups[order[i]]);
  }
}
