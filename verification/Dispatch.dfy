/** Many-to-one runs: the groups a run is split into, and the messages sent for them. */
module Dispatch {
  import opened Collections
  import opened Grouping
  import BatchProtocol

  // ---- sortFiles ----

  /** Page number first, pages before files without one, then the name. */
  predicate PageLeq(a: File, b: File) {
    if a.page.Some? && b.page.Some? && a.page.value != b.page.value then a.page.value < b.page.value
    else if a.page.Some? && b.page.None? then true
    else if a.page.None? && b.page.Some? then false
    else a.sortName <= b.sortName
  }

  function SortFiles(files: seq<File>): seq<File> { SortBy(files, PageLeq) }

  /** The comparison is a total preorder, so the order is well defined: sorted, and the same files. */
  lemma SortedByPage(files: seq<File>)
    ensures Sorted(SortFiles(files), PageLeq) && multiset(SortFiles(files)) == multiset(files)
  {
    assert TotalPreorder(PageLeq);
    SortSorts(files, PageLeq);
    SortPermutes(files, PageLeq);
  }

  /** `a` may come before `b`: pages before files without one, by page number, then by name. */
  predicate ComesFirst(a: File, b: File) {
    && (a.page.None? ==> b.page.None?)
    && (a.page.Some? && b.page.Some? ==> a.page.value <= b.page.value)
    && (a.page == b.page ==> a.sortName <= b.sortName)
  }

  ghost predicate InPageOrder(files: seq<File>) {
    forall i, j :: 0 <= i < j < |files| ==> ComesFirst(files[i], files[j])
  }

  lemma SortFilesOrders(files: seq<File>)
    ensures InPageOrder(SortFiles(files)) && multiset(SortFiles(files)) == multiset(files)
    ensures forall x :: Ties(SortFiles(files), PageLeq, x) == Ties(files, PageLeq, x)
  {
    SortedByPage(files);
    var r := SortFiles(files);
    forall i, j | 0 <= i < j < |r| ensures ComesFirst(r[i], r[j]) { assert PageLeq(r[i], r[j]); }
    forall x ensures Ties(r, PageLeq, x) == Ties(files, PageLeq, x) {
      assert TotalPreorder(PageLeq);
      SortStable(files, PageLeq, x);
    }
  }

  // ---- groupingDecision and manyToOneGroups ----

  /** What a task or its service configuration says about grouping. */
  datatype Setting = Setting(byRoot: Option<bool>, modeSet: bool)

  datatype Decision = Decision(enabled: bool, explicit: bool)

  function GroupingDecision(task: Setting, config: Setting, searchOutput: bool): Decision {
    if task.byRoot == Some(false) || config.byRoot == Some(false) then Decision(false, true)
    else if task.modeSet || config.modeSet then Decision(true, true)
    else if task.byRoot == Some(true) || config.byRoot == Some(true) then Decision(true, true)
    else if searchOutput then Decision(false, false)
    else Decision(true, false)
  }

  /** A run is grouped unless a setting says no; without any setting, unless it is a search. Whether it was
      asked for decides if a PDF is needed. */
  lemma DecisionMeans(task: Setting, config: Setting, searchOutput: bool)
    ensures var d := GroupingDecision(task, config, searchOutput);
            var off := task.byRoot == Some(false) || config.byRoot == Some(false);
            var on := task.modeSet || config.modeSet || task.byRoot == Some(true) || config.byRoot == Some(true);
            && (d.enabled <==> !off && (on || !searchOutput))
            && (d.explicit <==> off || on)
  {
  }

  function Ungrouped(files: seq<File>): Group { Group(None, NoType, None, files) }

  predicate SourceIn(g: Group, rids: set<Rid>) { g.source.Some? && g.source.value in rids }

  /** The groups whose source is itself one of the inputs. */
  function InSet(groups: seq<Group>, rids: set<Rid>): seq<Group> {
    if groups == [] then [] else (if SourceIn(groups[0], rids) then [groups[0]] else []) + InSet(groups[1..], rids)
  }

  function RidsIn(files: seq<File>): set<Rid> {
    set f | f in files && f.rid.Some? :: f.rid.value
  }

  function GroupedRids(groups: seq<Group>): set<Rid> {
    if groups == [] then {} else GroupedRids(groups[..|groups| - 1]) + RidsIn(groups[|groups| - 1].files)
  }

  predicate IsGrouped(f: File, grouped: set<Rid>) { f.rid.Some? && f.rid.value in grouped }

  function RidKey(f: File): Option<Rid> { f.rid }

  /** The files that are in a group, or those that are not. */
  function Split(files: seq<File>, grouped: set<Rid>, wanted: bool): seq<File> {
    if files == [] then []
    else (if IsGrouped(files[0], grouped) == wanted then [files[0]] else []) + Split(files[1..], grouped, wanted)
  }

  function SortEach(groups: seq<Group>): (r: seq<Group>)
    ensures |r| == |groups|
  {
    seq(|groups|, i requires 0 <= i < |groups| => groups[i].(files := SortFiles(groups[i].files)))
  }

  predicate HasPdf(groups: seq<Group>) { exists g :: g in groups && g.kind == Pdf }

  /** Whether the run is split at all. */
  predicate IsSplit(db: Lineage, d: Decision, ordered: seq<File>) {
    var inSet := InSet(Groups(db, ordered), ByRid(ordered).Keys);
    d.enabled && inSet != [] && (d.explicit || HasPdf(inSet))
  }

  function ManyToOne(db: Lineage, d: Decision, files: seq<File>): seq<Group> {
    var ordered := SortFiles(files);
    if !IsSplit(db, d, ordered) then [Ungrouped(ordered)]
    else
      var inSet := InSet(Groups(db, ordered), ByRid(ordered).Keys);
      var rest := Split(ordered, GroupedRids(inSet), false);
      SortEach(inSet) + (if rest == [] then [] else [Ungrouped(rest)])
  }

  /** The rids that are in some group. */
  method CollectGrouped(groups: seq<Group>) returns (grouped: set<Rid>)
    ensures grouped == GroupedRids(groups)
  {
    grouped := {};
    for i := 0 to |groups|
      invariant grouped == GroupedRids(groups[..i])
    {
      assert groups[..i + 1][..i] == groups[..i];
      grouped := grouped + RidsIn(groups[i].files);
    }
    assert groups[..|groups|] == groups;
  }

  /** `manyToOneGroups`. */
  method ManyToOneGroups(db: Lineage, task: Setting, config: Setting, searchOutput: bool, files: seq<File>)
    returns (groups: seq<Group>)
    ensures groups == ManyToOne(db, GroupingDecision(task, config, searchOutput), files)
    ensures forall g, i, j :: g in groups && 0 <= i < j < |g.files| ==> ComesFirst(g.files[i], g.files[j])
  {
    GroupsInPageOrder(db, GroupingDecision(task, config, searchOutput), files);
    var ordered := SortFiles(files);
    var d := GroupingDecision(task, config, searchOutput);
    if !d.enabled { return [Ungrouped(ordered)]; }
    var keys, inputs := Collect(ordered);
    var resolved := GroupByRootSource(db, ordered);
    var inSet := InSet(resolved, inputs.Keys);
    if inSet == [] { return [Ungrouped(ordered)]; }
    if !d.explicit && !HasPdf(inSet) { return [Ungrouped(ordered)]; }
    var grouped := CollectGrouped(inSet);
    var rest := Split(ordered, grouped, false);
    groups := SortEach(inSet);
    if rest != [] { groups := groups + [Ungrouped(rest)]; }
  }

  // ---- what the groups are ----

  /** A group of the reference grouping whose source is one of the inputs. */
  ghost predicate IsInSet(db: Lineage, ordered: seq<File>, g: Group) {
    g in Groups(db, ordered) && g.source.Some? && g.source.value in ByRid(ordered)
  }

  lemma {:induction false} InSetMeans(groups: seq<Group>, rids: set<Rid>)
    ensures forall g :: g in InSet(groups, rids) <==> g in groups && g.source.Some? && g.source.value in rids
  {
    if groups != [] {
      InSetMeans(groups[1..], rids);
      assert groups == [groups[0]] + groups[1..];
    }
  }

  /** A run is split exactly when that is enabled, some group's source is an input, and it was asked for or one
      of these groups is that of a PDF. */
  lemma SplitExactly(db: Lineage, d: Decision, ordered: seq<File>)
    ensures IsSplit(db, d, ordered) <==>
              d.enabled && (exists g :: IsInSet(db, ordered, g))
              && (d.explicit || exists g :: IsInSet(db, ordered, g) && g.kind == Pdf)
  {
    var inSet := InSet(Groups(db, ordered), ByRid(ordered).Keys);
    InSetMeans(Groups(db, ordered), ByRid(ordered).Keys);
    if inSet != [] { assert IsInSet(db, ordered, inSet[0]); }
  }

  lemma {:induction false} SplitKeepsOrder(files: seq<File>, grouped: set<Rid>, wanted: bool)
    requires InPageOrder(files)
    ensures InPageOrder(Split(files, grouped, wanted))
    ensures forall f :: f in Split(files, grouped, wanted) <==> f in files && IsGrouped(f, grouped) == wanted
  {
    if files != [] {
      SplitKeepsOrder(files[1..], grouped, wanted);
      assert files == [files[0]] + files[1..];
      forall f | f in files[1..] ensures ComesFirst(files[0], f) {
        var j :| 0 <= j < |files[1..]| && files[1..][j] == f;
        assert ComesFirst(files[0], files[j + 1]);
      }
    }
  }

  /** Every group is sent in page order. */
  lemma GroupsInPageOrder(db: Lineage, d: Decision, files: seq<File>)
    ensures forall g, i, j :: g in ManyToOne(db, d, files) && 0 <= i < j < |g.files| ==>
            ComesFirst(g.files[i], g.files[j])
  {
    var ordered := SortFiles(files);
    SortFilesOrders(files);
    var inSet := InSet(Groups(db, ordered), ByRid(ordered).Keys);
    SplitKeepsOrder(ordered, GroupedRids(inSet), false);
    forall g | g in ManyToOne(db, d, files) ensures InPageOrder(g.files) {
      if IsSplit(db, d, ordered) && g in SortEach(inSet) {
        var k :| 0 <= k < |inSet| && SortEach(inSet)[k] == g;
        SortFilesOrders(inSet[k].files);
      }
    }
  }

  /** `g` is the group `h` with its files in another order. */
  ghost predicate SameGroup(g: Group, h: Group) {
    g.source == h.source && g.kind == h.kind && g.title == h.title && multiset(g.files) == multiset(h.files)
  }

  /** These are the groups of the reference grouping whose source is an input, in the order of their titles. */
  ghost predicate AreInSet(db: Lineage, ordered: seq<File>, r: seq<Group>) {
    && ApartInOrder(r)
    && (forall g :: g in r ==> exists h :: IsInSet(db, ordered, h) && SameGroup(g, h))
    && (forall h :: IsInSet(db, ordered, h) ==> exists g :: g in r && SameGroup(g, h))
  }

  ghost predicate ApartInOrder(r: seq<Group>) {
    forall i, j :: 0 <= i < j < |r| ==> r[i].source != r[j].source && TitleLeq(r[i].title, r[j].title)
  }

  /** One more group, without a source, of the files whose root is no input; none when there are no such files. */
  ghost predicate AreRest(db: Lineage, ordered: seq<File>, r: seq<Group>) {
    if r == [] then forall f :: f in ordered ==> RootInside(db, ordered, f)
    else |r| == 1 && r[0].source == None && r[0].files != []
         && forall f :: f in r[0].files <==> f in ordered && !RootInside(db, ordered, f)
  }

  ghost predicate SplitInto(db: Lineage, ordered: seq<File>, r: seq<Group>) {
    exists a, b :: r == a + b && AreInSet(db, ordered, a) && AreRest(db, ordered, b)
  }

  lemma {:induction false} InSetKeepsOrder(groups: seq<Group>, rids: set<Rid>)
    requires ApartInOrder(groups)
    ensures ApartInOrder(InSet(groups, rids))
  {
    if groups != [] {
      InSetKeepsOrder(groups[1..], rids);
      InSetMeans(groups[1..], rids);
      var rest := InSet(groups[1..], rids);
      forall j | 0 <= j < |rest| ensures TitleLeq(groups[0].title, rest[j].title)
        && groups[0].source != rest[j].source {
        assert rest[j] in groups[1..];
        var k :| 0 <= k < |groups[1..]| && groups[1..][k] == rest[j];
        assert groups[k + 1] == rest[j];
      }
    }
  }

  lemma SortEachSame(groups: seq<Group>)
    ensures forall i :: 0 <= i < |groups| ==> SameGroup(SortEach(groups)[i], groups[i])
  {
    forall i | 0 <= i < |groups| ensures SameGroup(SortEach(groups)[i], groups[i]) {
      SortPermutes(groups[i].files, PageLeq);
    }
  }

  /** Groups that differ from others by the order of files only are as far apart and as ordered as these. */
  lemma SameGroupsKeep(r: seq<Group>, groups: seq<Group>)
    requires |r| == |groups| && forall i :: 0 <= i < |r| ==> SameGroup(r[i], groups[i])
    requires ApartInOrder(groups)
    ensures ApartInOrder(r)
  {
  }

  lemma SameGroupsListed(r: seq<Group>, groups: seq<Group>)
    requires |r| == |groups| && forall i :: 0 <= i < |r| ==> SameGroup(r[i], groups[i])
    ensures forall g :: g in r ==> exists h :: h in groups && SameGroup(g, h)
    ensures forall h :: h in groups ==> exists g :: g in r && SameGroup(g, h)
  {
    forall g | g in r ensures exists h :: h in groups && SameGroup(g, h) {
      var i :| 0 <= i < |r| && r[i] == g;
      assert groups[i] in groups;
    }
    forall h | h in groups ensures exists g :: g in r && SameGroup(g, h) {
      var i :| 0 <= i < |groups| && groups[i] == h;
      assert r[i] in r;
    }
  }

  lemma GroupsApart(db: Lineage, ordered: seq<File>)
    ensures ApartInOrder(Groups(db, ordered))
  {
    SourcesApart(db, ordered);
    GroupsMean(db, ordered);
    var groups := Groups(db, ordered);
    forall i, j | 0 <= i < j < |groups| ensures groups[i].source != groups[j].source {
      assert SourceKey(groups[i]) != SourceKey(groups[j]);
    }
  }

  lemma SortedEachInSet(db: Lineage, ordered: seq<File>)
    ensures AreInSet(db, ordered, SortEach(InSet(Groups(db, ordered), ByRid(ordered).Keys)))
  {
    var inSet := InSet(Groups(db, ordered), ByRid(ordered).Keys);
    GroupsApart(db, ordered);
    InSetKeepsOrder(Groups(db, ordered), ByRid(ordered).Keys);
    InSetMeans(Groups(db, ordered), ByRid(ordered).Keys);
    assert forall h :: h in inSet <==> IsInSet(db, ordered, h);
    SortEachSame(inSet);
    SameGroupsKeep(SortEach(inSet), inSet);
    SameGroupsListed(SortEach(inSet), inSet);
  }

  lemma RestIsRest(db: Lineage, ordered: seq<File>)
    ensures var rest := Split(ordered, GroupedRids(InSet(Groups(db, ordered), ByRid(ordered).Keys)), false);
            AreRest(db, ordered, if rest == [] then [] else [Ungrouped(rest)])
  {
    var grouped := GroupedRids(InSet(Groups(db, ordered), ByRid(ordered).Keys));
    SplitHas(ordered, grouped);
    KeysMean(ordered);
    forall f | f in ordered ensures IsGrouped(f, grouped) <==> RootInside(db, ordered, f) {
      if f.rid.Some? { GroupedMeans(db, ordered, f.rid.value); }
    }
  }

  lemma {:induction false} SplitHas(files: seq<File>, grouped: set<Rid>)
    ensures forall f :: f in Split(files, grouped, false) <==> f in files && !IsGrouped(f, grouped)
  {
    if files != [] {
      SplitHas(files[1..], grouped);
      assert files == [files[0]] + files[1..];
    }
  }

  /** What a run is made of: when it is split, its groups and the rest; else one group of all its files,
      without a source. */
  lemma GroupsAre(db: Lineage, d: Decision, files: seq<File>)
    ensures var ordered := SortFiles(files);
            if IsSplit(db, d, ordered) then SplitInto(db, ordered, ManyToOne(db, d, files))
            else |ManyToOne(db, d, files)| == 1 && ManyToOne(db, d, files)[0].source == None
                 && multiset(ManyToOne(db, d, files)[0].files) == multiset(files)
  {
    var ordered := SortFiles(files);
    SortFilesOrders(files);
    if IsSplit(db, d, ordered) { SplitIs(db, d, files); }
  }

  lemma SplitIs(db: Lineage, d: Decision, files: seq<File>)
    requires IsSplit(db, d, SortFiles(files))
    ensures SplitInto(db, SortFiles(files), ManyToOne(db, d, files))
  {
    var ordered := SortFiles(files);
    var inSet := InSet(Groups(db, ordered), ByRid(ordered).Keys);
    var rest := Split(ordered, GroupedRids(inSet), false);
    SortedEachInSet(db, ordered);
    RestIsRest(db, ordered);
    assert ManyToOne(db, d, files) == SortEach(inSet) + (if rest == [] then [] else [Ungrouped(rest)]);
  }

  // ---- nothing is lost ----

  function FilesOf(groups: seq<Group>): seq<File> {
    if groups == [] then [] else groups[0].files + FilesOf(groups[1..])
  }

  /** The file's root is one of the inputs. */
  predicate RootInside(db: Lineage, ordered: seq<File>, f: File) {
    f.rid.Some? && Root(db, ByRid(ordered), f.rid.value) in ByRid(ordered)
  }

  /** No file whose root is one of the inputs is listed twice. */
  ghost predicate GroupedOnce(db: Lineage, ordered: seq<File>) {
    forall i, j :: 0 <= i < j < |ordered| && ordered[i].rid == ordered[j].rid ==> !RootInside(db, ordered, ordered[i])
  }

  lemma {:induction false} InSetLoad(groups: seq<Group>, rids: set<Rid>)
    ensures multiset(FilesOf(InSet(groups, rids))) == Load(groups, rids)
  {
    if groups != [] {
      InSetLoad(groups[1..], rids);
      var rest := InSet(groups[1..], rids);
      if SourceIn(groups[0], rids) {
        assert ([groups[0]] + rest)[1..] == rest;
        assert FilesOf(InSet(groups, rids)) == groups[0].files + FilesOf(rest);
      } else {
        assert InSet(groups, rids) == rest;
      }
    }
  }

  lemma {:induction false} SortEachKeeps(groups: seq<Group>)
    ensures multiset(FilesOf(SortEach(groups))) == multiset(FilesOf(groups))
  {
    if groups != [] {
      assert SortEach(groups)[1..] == SortEach(groups[1..]);
      SortPermutes(groups[0].files, PageLeq);
      SortEachKeeps(groups[1..]);
    }
  }

  lemma {:induction false} FilesOfAppend(groups: seq<Group>, g: Group)
    ensures FilesOf(groups + [g]) == FilesOf(groups) + g.files
  {
    if groups == [] {
      assert groups + [g] == [g];
    } else {
      assert (groups + [g])[1..] == groups[1..] + [g];
      FilesOfAppend(groups[1..], g);
    }
  }

  lemma {:induction false} GroupedRidsAre(groups: seq<Group>, r: Rid)
    ensures r in GroupedRids(groups) <==> r in RidsIn(FilesOf(groups))
  {
    if groups != [] {
      var before := groups[..|groups| - 1];
      GroupedRidsAre(before, r);
      assert groups == before + [groups[|groups| - 1]];
      FilesOfAppend(before, groups[|groups| - 1]);
    } else {
      assert RidsIn(FilesOf(groups)) == {};
    }
  }

  lemma {:induction false} SplitsInTwo(files: seq<File>, grouped: set<Rid>)
    ensures multiset(Split(files, grouped, true)) + multiset(Split(files, grouped, false)) == multiset(files)
    ensures forall f :: f in Split(files, grouped, true) <==> f in files && IsGrouped(f, grouped)
  {
    if files != [] {
      assert files == [files[0]] + files[1..];
      SplitsInTwo(files[1..], grouped);
    }
  }

  /** The files of the group part have different rids exactly when no grouped file is listed twice. */
  lemma {:induction false} SplitDistinct(files: seq<File>, grouped: set<Rid>)
    ensures DistinctBy(Split(files, grouped, true), RidKey) <==> Pairs(files, grouped)
  {
    if files != [] {
      SplitDistinct(files[1..], grouped);
      TailPairs(files, grouped);
      if IsGrouped(files[0], grouped) {
        ConsDistinct(files[0], Split(files[1..], grouped, true));
        SplitLater(files, grouped);
      } else {
        assert Split(files, grouped, true) == Split(files[1..], grouped, true);
      }
    }
  }

  lemma SplitLater(files: seq<File>, grouped: set<Rid>)
    requires files != [] && IsGrouped(files[0], grouped)
    ensures (forall x :: x in Split(files[1..], grouped, true) ==> x.rid != files[0].rid)
            <==> (forall j :: 0 < j < |files| ==> files[j].rid != files[0].rid)
  {
    SplitsInTwo(files[1..], grouped);
    if j :| 0 < j < |files| && files[j].rid == files[0].rid {
      assert files[j] == files[1..][j - 1] && files[j] in files[1..];
    }
    if x :| x in Split(files[1..], grouped, true) && x.rid == files[0].rid {
      var k :| 0 <= k < |files[1..]| && files[1..][k] == x;
      assert files[k + 1].rid == files[0].rid;
    }
  }

  lemma ConsDistinct(f: File, s: seq<File>)
    ensures DistinctBy([f] + s, RidKey) <==> DistinctBy(s, RidKey) && forall x :: x in s ==> x.rid != f.rid
  {
    if DistinctBy([f] + s, RidKey) {
      forall i, j | 0 <= i < j < |s| ensures RidKey(s[i]) != RidKey(s[j]) {
        assert RidKey(([f] + s)[i + 1]) != RidKey(([f] + s)[j + 1]);
      }
      forall j | 0 <= j < |s| ensures s[j].rid != f.rid { assert RidKey(([f] + s)[0]) != RidKey(([f] + s)[j + 1]); }
    }
  }

  ghost predicate Pairs(files: seq<File>, grouped: set<Rid>) {
    forall i, j :: 0 <= i < j < |files| && files[i].rid == files[j].rid ==> !IsGrouped(files[i], grouped)
  }

  lemma TailPairs(files: seq<File>, grouped: set<Rid>)
    requires files != []
    ensures Pairs(files, grouped)
            <==> Pairs(files[1..], grouped)
                 && (IsGrouped(files[0], grouped) ==> forall j :: 0 < j < |files| ==> files[j].rid != files[0].rid)
  {
  }

  lemma {:induction false} UnderMeans(db: Lineage, inputs: map<Rid, File>, files: seq<File>, roots: set<Rid>)
    requires AllNamed(files)
    ensures forall f ::
              f in Under(db, inputs, files, roots) <==> f in files && f.rid.Some? && RootOf(db, inputs, f) in roots
    ensures DistinctBy(files, RidKey) ==> DistinctBy(Under(db, inputs, files, roots), RidKey)
  {
    if files != [] {
      var before := files[..|files| - 1];
      assert files == before + [files[|files| - 1]];
      UnderMeans(db, inputs, before, roots);
      if DistinctBy(files, RidKey) { PrefixDistinct(files, RidKey); }
    }
  }

  lemma PrefixDistinct<T, K>(s: seq<T>, key: T -> K)
    requires s != [] && DistinctBy(s, key)
    ensures DistinctBy(s[..|s| - 1], key) && forall x :: x in s[..|s| - 1] ==> key(x) != key(s[|s| - 1])
  {
  }

  /** Of the distinct inputs, the grouped ones. */
  function Chosen(db: Lineage, ordered: seq<File>): seq<File> {
    Under(db, ByRid(ordered), Entries(ordered), ByRid(ordered).Keys)
  }

  lemma EntriesDistinct(files: seq<File>)
    ensures DistinctBy(Entries(files), RidKey)
    ensures forall r :: r in ByRid(files) ==> ByRid(files)[r] in Entries(files)
  {
    KeysMean(files);
    forall r | r in ByRid(files) ensures ByRid(files)[r] in Entries(files) {
      assert r in Elements(Keys(files));
      var k :| 0 <= k < |Keys(files)| && Keys(files)[k] == r;
      assert Entries(files)[k] == ByRid(files)[r];
    }
  }

  /** The rids in groups are the inputs whose root is an input. */
  lemma GroupedMeans(db: Lineage, ordered: seq<File>, r: Rid)
    ensures r in GroupedRids(InSet(Groups(db, ordered), ByRid(ordered).Keys))
            <==> r in ByRid(ordered) && Root(db, ByRid(ordered), r) in ByRid(ordered)
  {
    var inSet := InSet(Groups(db, ordered), ByRid(ordered).Keys);
    GroupedRidsAre(inSet, r);
    InSetLoad(Groups(db, ordered), ByRid(ordered).Keys);
    GroupsLoad(db, ordered, ByRid(ordered).Keys);
    forall f ensures f in FilesOf(inSet) <==> f in Chosen(db, ordered) {
      SameElements(FilesOf(inSet), Chosen(db, ordered), f);
    }
    UnderMeans(db, ByRid(ordered), Entries(ordered), ByRid(ordered).Keys);
    EntriesDistinct(ordered);
    KeysMean(ordered);
    if r in ByRid(ordered) && Root(db, ByRid(ordered), r) in ByRid(ordered) {
      assert ByRid(ordered)[r] in FilesOf(inSet);
    }
  }

  /** The grouped files of the listing, repeats included. */
  function Claimed(db: Lineage, ordered: seq<File>): seq<File> {
    Split(ordered, GroupedRids(InSet(Groups(db, ordered), ByRid(ordered).Keys)), true)
  }

  lemma ClaimedMeans(db: Lineage, ordered: seq<File>)
    ensures forall f :: f in Claimed(db, ordered) <==> f in ordered && RootInside(db, ordered, f)
    ensures DistinctBy(Claimed(db, ordered), RidKey) <==> GroupedOnce(db, ordered)
  {
    var grouped := GroupedRids(InSet(Groups(db, ordered), ByRid(ordered).Keys));
    KeysMean(ordered);
    SplitsInTwo(ordered, grouped);
    SplitDistinct(ordered, grouped);
    forall f | f in ordered ensures IsGrouped(f, grouped) <==> RootInside(db, ordered, f) {
      if f.rid.Some? { GroupedMeans(db, ordered, f.rid.value); }
    }
  }

  /** Grouping keeps one of each rid: it keeps everything exactly when no grouped file is repeated. */
  lemma ChosenIsClaimed(db: Lineage, ordered: seq<File>)
    ensures multiset(Chosen(db, ordered)) == multiset(Claimed(db, ordered)) <==> GroupedOnce(db, ordered)
  {
    ClaimedMeans(db, ordered);
    KeysMean(ordered);
    EntriesDistinct(ordered);
    UnderMeans(db, ByRid(ordered), Entries(ordered), ByRid(ordered).Keys);
    if multiset(Chosen(db, ordered)) == multiset(Claimed(db, ordered)) {
      DistinctByPermutes(Chosen(db, ordered), Claimed(db, ordered), RidKey);
    }
    if GroupedOnce(db, ordered) {
      forall f ensures f in Chosen(db, ordered) <==> f in Claimed(db, ordered) {
        if f in Claimed(db, ordered) { ClaimedIsChosen(db, ordered, f); }
      }
      SameItems(Chosen(db, ordered), Claimed(db, ordered), RidKey);
    }
  }

  lemma ClaimedIsChosen(db: Lineage, ordered: seq<File>, f: File)
    requires f in Claimed(db, ordered) && GroupedOnce(db, ordered)
    ensures f in Chosen(db, ordered)
  {
    ClaimedMeans(db, ordered);
    KeysMean(ordered);
    EntriesDistinct(ordered);
    UnderMeans(db, ByRid(ordered), Entries(ordered), ByRid(ordered).Keys);
    var e := ByRid(ordered)[f.rid.value];
    var i :| 0 <= i < |ordered| && ordered[i] == f;
    var j :| 0 <= j < |ordered| && ordered[j] == e;
    assert i == j;
  }

  lemma Cancel<T>(a: multiset<T>, b: multiset<T>, c: multiset<T>)
    ensures a + c == b + c <==> a == b
  {
    if a + c == b + c {
      forall x: T ensures a[x] == b[x] { assert (a + c)[x] == (b + c)[x]; }
    }
  }

  /** The rids of the files in groups. */
  function RidsGrouped(db: Lineage, ordered: seq<File>): set<Rid> {
    GroupedRids(InSet(Groups(db, ordered), ByRid(ordered).Keys))
  }

  lemma GroupedLoad(db: Lineage, ordered: seq<File>)
    ensures multiset(FilesOf(SortEach(InSet(Groups(db, ordered), ByRid(ordered).Keys))))
            == multiset(Chosen(db, ordered))
  {
    SortEachKeeps(InSet(Groups(db, ordered), ByRid(ordered).Keys));
    InSetLoad(Groups(db, ordered), ByRid(ordered).Keys);
    GroupsLoad(db, ordered, ByRid(ordered).Keys);
  }

  lemma WithRest(groups: seq<Group>, rest: seq<File>)
    ensures FilesOf(groups + (if rest == [] then [] else [Ungrouped(rest)])) == FilesOf(groups) + rest
  {
    if rest == [] { assert groups + [] == groups; } else { FilesOfAppend(groups, Ungrouped(rest)); }
  }

  lemma SplitLoad(db: Lineage, d: Decision, files: seq<File>)
    requires IsSplit(db, d, SortFiles(files))
    ensures multiset(FilesOf(ManyToOne(db, d, files)))
            == multiset(Chosen(db, SortFiles(files)))
              + multiset(Split(SortFiles(files), RidsGrouped(db, SortFiles(files)), false))
  {
    var ordered := SortFiles(files);
    GroupedLoad(db, ordered);
    WithRest(SortEach(InSet(Groups(db, ordered), ByRid(ordered).Keys)),
             Split(ordered, RidsGrouped(db, ordered), false));
  }

  /** Splitting a run conserves the work, file by file, exactly when it is not split or no grouped file
      is listed twice. */
  lemma GroupingConserves(db: Lineage, d: Decision, files: seq<File>)
    ensures multiset(FilesOf(ManyToOne(db, d, files))) == multiset(files)
            <==> !IsSplit(db, d, SortFiles(files)) || GroupedOnce(db, SortFiles(files))
  {
    var ordered := SortFiles(files);
    SortPermutes(files, PageLeq);
    if !IsSplit(db, d, ordered) {
      assert FilesOf([Ungrouped(ordered)]) == ordered;
    } else {
      SplitLoad(db, d, files);
      ChosenIsClaimed(db, ordered);
      SplitsInTwo(ordered, RidsGrouped(db, ordered));
      Cancel(multiset(Chosen(db, ordered)), multiset(Claimed(db, ordered)),
             multiset(Split(ordered, RidsGrouped(db, ordered), false)));
    }
  }

  lemma {:induction false} SplitCounts(files: seq<File>, grouped: set<Rid>, f: File)
    ensures multiset(Split(files, grouped, true))[f] == if IsGrouped(f, grouped) then multiset(files)[f] else 0
  {
    if files != [] {
      assert files == [files[0]] + files[1..];
      SplitCounts(files[1..], grouped, f);
    }
  }

  /** Putting the files in another order lists no grouped file twice. */
  lemma PairsSurvive(files: seq<File>, ordered: seq<File>, rids: set<Rid>)
    requires multiset(files) == multiset(ordered) && Pairs(files, rids)
    ensures Pairs(ordered, rids)
  {
    forall f ensures multiset(Split(files, rids, true))[f] == multiset(Split(ordered, rids, true))[f] {
      SplitCounts(files, rids, f);
      SplitCounts(ordered, rids, f);
    }
    SplitDistinct(files, rids);
    DistinctByPermutes(Split(files, rids, true), Split(ordered, rids, true), RidKey);
    SplitDistinct(ordered, rids);
  }

  /** Rows of a set have distinct rids, so a run over them keeps every file. */
  lemma DistinctFilesAreKept(db: Lineage, d: Decision, files: seq<File>)
    requires forall i, j :: 0 <= i < j < |files| && files[i].rid == files[j].rid ==> files[i].rid.None?
    ensures multiset(FilesOf(ManyToOne(db, d, files))) == multiset(files)
  {
    var ordered := SortFiles(files);
    var rids := RidsIn(files);
    SortPermutes(files, PageLeq);
    forall f ensures f in files <==> f in ordered { SameElements(files, ordered, f); }
    PairsSurvive(files, ordered, rids);
    assert GroupedOnce(db, ordered);
    GroupingConserves(db, d, files);
  }

  // ---- dispatchGroups ----

  /** The counters of a published message; `groupSize` is sent with a root source only. */
  datatype Message = Message(file: File, source: Option<Rid>, groupSize: Option<nat>, total: nat, current: nat,
                             batchTotal: nat, batchCurrent: nat)

  function MessageFor(g: Group, i: nat, batchTotal: nat, batchIndex: nat): Message
    requires i < |g.files|
  {
    var groupSize := if g.source.Some? then Some(|g.files|) else None;
    Message(g.files[i], g.source, groupSize, |g.files|, i + 1, batchTotal, batchIndex)
  }

  /** The messages of a group, from its `i`-th file on. */
  function GroupMessages(g: Group, i: nat, batchTotal: nat, batchIndex: nat): (r: seq<Message>)
    requires i <= |g.files|
    ensures |r| == |g.files| - i
    decreases |g.files| - i
  {
    if i == |g.files| then []
    else [MessageFor(g, i, batchTotal, batchIndex)] + GroupMessages(g, i + 1, batchTotal, batchIndex + 1)
  }

  /** What an uninterrupted dispatch publishes. */
  function AllMessages(groups: seq<Group>, batchTotal: nat, batchIndex: nat): seq<Message> {
    if groups == [] then []
    else GroupMessages(groups[0], 0, batchTotal, batchIndex)
         + AllMessages(groups[1..], batchTotal, batchIndex + |groups[0].files|)
  }

  /** The batch was paused, cancelled or done by the `k`-th status read. */
  ghost predicate RunsUntil(stopped: nat -> bool, k: nat) { forall i :: 0 <= i < k ==> !stopped(i) }

  /** The messages of one group after those sent before. */
  method DispatchGroup(g: Group, batchTotal: nat, batchIndex: nat, before: seq<Message>, stopped: nat -> bool)
    returns (sent: seq<Message>, nextIndex: nat, stop: bool, ghost rest: seq<Message>)
    requires batchIndex == |before| + 1 && RunsUntil(stopped, |before|)
    ensures RunsUntil(stopped, |sent|) && nextIndex == |sent| + 1
    ensures sent + rest == before + GroupMessages(g, 0, batchTotal, batchIndex)
    ensures if stop then stopped(|sent|) else sent == before + GroupMessages(g, 0, batchTotal, batchIndex)
  {
    sent, nextIndex, stop, rest := before, batchIndex, false, GroupMessages(g, 0, batchTotal, batchIndex);
    ghost var mine := GroupMessages(g, 0, batchTotal, batchIndex);
    for groupIndex := 0 to |g.files|
      invariant nextIndex == |sent| + 1 && RunsUntil(stopped, |sent|)
      invariant rest == GroupMessages(g, groupIndex, batchTotal, nextIndex) && sent + rest == before + mine
    {
      if stopped(|sent|) {
        stop := true;
        return;
      }
      rest := rest[1..];
      sent := sent + [MessageFor(g, groupIndex, batchTotal, nextIndex)];
      nextIndex := nextIndex + 1;
    }
  }

  /** What was sent is the whole of `all`, or a first part of it that ends where a status said stop. */
  ghost predicate SentUntilStop<M>(sent: seq<M>, all: seq<M>, stopped: nat -> bool) {
    && |sent| <= |all| && sent == all[..|sent|]
    && RunsUntil(stopped, |sent|) && (|sent| < |all| ==> stopped(|sent|))
  }

  lemma SentAll<M>(sent: seq<M>, all: seq<M>, stopped: nat -> bool)
    requires sent == all && RunsUntil(stopped, |sent|)
    ensures SentUntilStop(sent, all, stopped)
  {
  }

  lemma SentPart<M>(sent: seq<M>, rest: seq<M>, all: seq<M>, stopped: nat -> bool)
    requires sent + rest == all && RunsUntil(stopped, |sent|) && stopped(|sent|)
    ensures SentUntilStop(sent, all, stopped)
  {
  }

  /** `dispatchGroups`: reads the status before each message and stops for good when the batch is no
      longer running, so it has always published a first part of the whole dispatch. */
  method DispatchGroups(groups: seq<Group>, batchTotal: nat, stopped: nat -> bool) returns (sent: seq<Message>)
    ensures SentUntilStop(sent, AllMessages(groups, batchTotal, 1), stopped)
  {
    sent := [];
    ghost var all := AllMessages(groups, batchTotal, 1);
    var batchIndex := 1;
    GroupsStart(groups, batchTotal);
    for g := 0 to |groups|
      invariant batchIndex == |sent| + 1 && RunsUntil(stopped, |sent|)
      invariant IsBefore(sent, groups, g, batchTotal, batchIndex, all)
    {
      ghost var before := sent;
      var stop;
      ghost var rest;
      sent, batchIndex, stop, rest := DispatchGroup(groups[g], batchTotal, batchIndex, sent, stopped);
      if stop {
        GroupCut(before, sent, rest, groups, g, batchTotal, all, stopped);
        return;
      }
      GroupDone(before, sent, groups, g, batchTotal, all);
    }
    GroupsEnd(sent, groups, batchTotal, batchIndex, all, stopped);
  }

  /** The messages of the groups from the `g`-th on are still to come. */
  ghost predicate IsBefore(sent: seq<Message>, groups: seq<Group>, g: nat, batchTotal: nat, batchIndex: nat,
                           all: seq<Message>) {
    g <= |groups| && all == sent + AllMessages(groups[g..], batchTotal, batchIndex)
  }

  lemma GroupsStart(groups: seq<Group>, batchTotal: nat)
    ensures IsBefore([], groups, 0, batchTotal, 1, AllMessages(groups, batchTotal, 1))
  {
    assert groups[0..] == groups;
  }

  lemma GroupDone(before: seq<Message>, sent: seq<Message>, groups: seq<Group>, g: nat, batchTotal: nat,
                  all: seq<Message>)
    requires g < |groups| && IsBefore(before, groups, g, batchTotal, |before| + 1, all)
    requires sent == before + GroupMessages(groups[g], 0, batchTotal, |before| + 1)
    ensures IsBefore(sent, groups, g + 1, batchTotal, |sent| + 1, all)
  {
    assert groups[g..][1..] == groups[g + 1..];
  }

  lemma GroupCut(before: seq<Message>, sent: seq<Message>, rest: seq<Message>, groups: seq<Group>, g: nat,
                 batchTotal: nat, all: seq<Message>, stopped: nat -> bool)
    requires g < |groups| && IsBefore(before, groups, g, batchTotal, |before| + 1, all)
    requires sent + rest == before + GroupMessages(groups[g], 0, batchTotal, |before| + 1)
    requires RunsUntil(stopped, |sent|) && stopped(|sent|)
    ensures SentUntilStop(sent, all, stopped)
  {
    GroupDone(before, sent + rest, groups, g, batchTotal, all);
    var later := AllMessages(groups[g + 1..], batchTotal, |sent + rest| + 1);
    assert all == sent + (rest + later);
    SentPart(sent, rest + later, all, stopped);
  }

  lemma GroupsEnd(sent: seq<Message>, groups: seq<Group>, batchTotal: nat, batchIndex: nat, all: seq<Message>,
                  stopped: nat -> bool)
    requires IsBefore(sent, groups, |groups|, batchTotal, batchIndex, all) && RunsUntil(stopped, |sent|)
    ensures SentUntilStop(sent, all, stopped)
  {
  }

  function FilesSent(messages: seq<Message>): seq<File> {
    seq(|messages|, i requires 0 <= i < |messages| => messages[i].file)
  }

  function Closer(m: Message): seq<Option<Rid>> { if m.current == m.total then [m.source] else [] }

  /** The sources of the messages that end a group. */
  function Closers(messages: seq<Message>): seq<Option<Rid>> {
    if messages == [] then []
    else Closer(messages[0]) + Closers(messages[1..])
  }

  function Sources(groups: seq<Group>): seq<Option<Rid>> {
    seq(|groups|, i requires 0 <= i < |groups| => groups[i].source)
  }

  lemma {:induction false} ClosersAppend(a: seq<Message>, b: seq<Message>)
    ensures Closers(a + b) == Closers(a) + Closers(b)
  {
    if a == [] {
      assert a + b == b;
    } else {
      assert (a + b)[0] == a[0] && (a + b)[1..] == a[1..] + b;
      ClosersAppend(a[1..], b);
    }
  }

  lemma FilesSentAppend(a: seq<Message>, b: seq<Message>)
    ensures FilesSent(a + b) == FilesSent(a) + FilesSent(b)
  {
  }

  lemma {:induction false} GroupFiles(g: Group, i: nat, batchTotal: nat, batchIndex: nat)
    requires i <= |g.files|
    ensures FilesSent(GroupMessages(g, i, batchTotal, batchIndex)) == g.files[i..]
    decreases |g.files| - i
  {
    if i < |g.files| {
      GroupFiles(g, i + 1, batchTotal, batchIndex + 1);
      FilesSentAppend([MessageFor(g, i, batchTotal, batchIndex)], GroupMessages(g, i + 1, batchTotal, batchIndex + 1));
      assert FilesSent([MessageFor(g, i, batchTotal, batchIndex)]) == [g.files[i]];
    }
  }

  lemma {:induction false} GroupClosers(g: Group, i: nat, batchTotal: nat, batchIndex: nat)
    requires i <= |g.files|
    ensures Closers(GroupMessages(g, i, batchTotal, batchIndex)) == if i < |g.files| then [g.source] else []
    decreases |g.files| - i
  {
    if i < |g.files| {
      GroupClosers(g, i + 1, batchTotal, batchIndex + 1);
      assert GroupMessages(g, i, batchTotal, batchIndex)[1..] == GroupMessages(g, i + 1, batchTotal, batchIndex + 1);
    }
  }

  /** The messages are counted on from `from`. */
  ghost predicate Counted(messages: seq<Message>, batchTotal: nat, from: nat) {
    forall k :: 0 <= k < |messages| ==> messages[k].batchCurrent == from + k && messages[k].batchTotal == batchTotal
  }

  lemma {:induction false} GroupCounted(g: Group, i: nat, batchTotal: nat, batchIndex: nat)
    requires i <= |g.files|
    ensures Counted(GroupMessages(g, i, batchTotal, batchIndex), batchTotal, batchIndex)
    decreases |g.files| - i
  {
    if i < |g.files| { GroupCounted(g, i + 1, batchTotal, batchIndex + 1); }
  }

  lemma {:induction false} AllFiles(groups: seq<Group>, batchTotal: nat, batchIndex: nat)
    ensures FilesSent(AllMessages(groups, batchTotal, batchIndex)) == FilesOf(groups)
  {
    if groups != [] {
      GroupFiles(groups[0], 0, batchTotal, batchIndex);
      AllFiles(groups[1..], batchTotal, batchIndex + |groups[0].files|);
      FilesSentAppend(GroupMessages(groups[0], 0, batchTotal, batchIndex),
                      AllMessages(groups[1..], batchTotal, batchIndex + |groups[0].files|));
    }
  }

  lemma {:induction false} AllClosers(groups: seq<Group>, batchTotal: nat, batchIndex: nat)
    requires forall g :: g in groups ==> g.files != []
    ensures Closers(AllMessages(groups, batchTotal, batchIndex)) == Sources(groups)
  {
    if groups != [] {
      GroupClosers(groups[0], 0, batchTotal, batchIndex);
      AllClosers(groups[1..], batchTotal, batchIndex + |groups[0].files|);
      ClosersAppend(GroupMessages(groups[0], 0, batchTotal, batchIndex),
                    AllMessages(groups[1..], batchTotal, batchIndex + |groups[0].files|));
      assert Sources(groups) == [groups[0].source] + Sources(groups[1..]);
    }
  }

  lemma {:induction false} AllCounted(groups: seq<Group>, batchTotal: nat, batchIndex: nat)
    ensures Counted(AllMessages(groups, batchTotal, batchIndex), batchTotal, batchIndex)
  {
    if groups != [] {
      GroupCounted(groups[0], 0, batchTotal, batchIndex);
      AllCounted(groups[1..], batchTotal, batchIndex + |groups[0].files|);
    }
  }

  lemma {:induction false} InSetHas(groups: seq<Group>, rids: set<Rid>)
    ensures forall g :: g in InSet(groups, rids) ==> g in groups
  {
    if groups != [] { InSetHas(groups[1..], rids); }
  }

  lemma NoGroupEmpty(db: Lineage, d: Decision, files: seq<File>)
    requires files != []
    ensures forall g :: g in ManyToOne(db, d, files) ==> g.files != []
  {
    var ordered := SortFiles(files);
    SortPermutes(files, PageLeq);
    GroupsPartition(db, ordered);
    var inSet := InSet(Groups(db, ordered), ByRid(ordered).Keys);
    InSetHas(Groups(db, ordered), ByRid(ordered).Keys);
    forall i | 0 <= i < |inSet| ensures SortEach(inSet)[i].files != [] {
      assert inSet[i] in Groups(db, ordered);
      SortPermutes(inSet[i].files, PageLeq);
    }
  }

  /** The whole of a grouped run over distinct files: one message for each file, counted 1..n of n, and
      for each group exactly one message that ends it. */
  lemma GroupedRunConserves(db: Lineage, d: Decision, files: seq<File>)
    requires files != []
    requires forall i, j :: 0 <= i < j < |files| && files[i].rid == files[j].rid ==> files[i].rid.None?
    ensures var groups := ManyToOne(db, d, files);
            var r := AllMessages(groups, |files|, 1);
            && multiset(FilesSent(r)) == multiset(files) && |r| == |files|
            && Counted(r, |files|, 1)
            && Closers(r) == Sources(groups)
  {
    var groups := ManyToOne(db, d, files);
    NoGroupEmpty(db, d, files);
    DistinctFilesAreKept(db, d, files);
    AllFiles(groups, |files|, 1);
    AllCounted(groups, |files|, 1);
    AllClosers(groups, |files|, 1);
    var r := AllMessages(groups, |files|, 1);
    assert |multiset(FilesSent(r))| == |r| && |multiset(files)| == |files|;
  }

  // ---- the messages of a group ----

  /** How many files come before the `g`-th group. */
  function FilesBefore(groups: seq<Group>, g: nat): nat
    requires g <= |groups|
  {
    if g == 0 then 0 else FilesBefore(groups, g - 1) + |groups[g - 1].files|
  }

  lemma {:induction false} FilesBeforeTail(groups: seq<Group>, g: nat)
    requires 0 < g <= |groups|
    ensures FilesBefore(groups, g) == |groups[0].files| + FilesBefore(groups[1..], g - 1)
  {
    if g > 1 { FilesBeforeTail(groups, g - 1); }
  }

  lemma {:induction false} GroupMessageAt(g: Group, i: nat, batchTotal: nat, batchIndex: nat, k: nat)
    requires i <= k < |g.files|
    ensures GroupMessages(g, i, batchTotal, batchIndex)[k - i] == MessageFor(g, k, batchTotal, batchIndex + k - i)
    decreases |g.files| - i
  {
    if i < k { GroupMessageAt(g, i + 1, batchTotal, batchIndex + 1, k); }
  }

  /** The message of the `i`-th file of the `g`-th group: it names the file, its place in the group and the
      group's size, the group's source with the size again when it has one, and its place in the batch. */
  lemma {:induction false} MessageAt(groups: seq<Group>, batchTotal: nat, from: nat, g: nat, i: nat)
    requires g < |groups| && i < |groups[g].files|
    ensures var r := AllMessages(groups, batchTotal, from);
            var k := FilesBefore(groups, g) + i;
            && k < |r| && r[k].file == groups[g].files[i]
            && r[k].current == i + 1 && r[k].total == |groups[g].files| && r[k].source == groups[g].source
            && r[k].groupSize == (if groups[g].source.Some? then Some(|groups[g].files|) else None)
            && r[k].batchCurrent == from + k && r[k].batchTotal == batchTotal
  {
    var first := GroupMessages(groups[0], 0, batchTotal, from);
    if g == 0 {
      GroupMessageAt(groups[0], 0, batchTotal, from, i);
    } else {
      FilesBeforeTail(groups, g);
      assert groups[1..][g - 1] == groups[g];
      MessageAt(groups[1..], batchTotal, from + |groups[0].files|, g - 1, i);
      MessageLater(first, AllMessages(groups[1..], batchTotal, from + |groups[0].files|),
                   FilesBefore(groups[1..], g - 1) + i);
    }
  }

  lemma MessageLater(a: seq<Message>, b: seq<Message>, k: nat)
    requires k < |b|
    ensures (a + b)[|a| + k] == b[k]
  {
  }

  lemma PageOrderAt(db: Lineage, d: Decision, files: seq<File>, g: nat, i: nat, j: nat)
    requires g < |ManyToOne(db, d, files)| && i < j < |ManyToOne(db, d, files)[g].files|
    ensures ComesFirst(ManyToOne(db, d, files)[g].files[i], ManyToOne(db, d, files)[g].files[j])
  {
    GroupsInPageOrder(db, d, files);
    assert ManyToOne(db, d, files)[g] in ManyToOne(db, d, files);
  }

  /** Of two files of one group, the one with the lower message number comes first. */
  ghost predicate NumbersFollow(groups: seq<Group>, r: seq<Message>, g: nat, i: nat, j: nat)
    requires g < |groups|
  {
    var a, b := FilesBefore(groups, g) + i, FilesBefore(groups, g) + j;
    && a < b < |r| && r[a].batchCurrent < r[b].batchCurrent && r[a].current < r[b].current
    && r[a].source == groups[g].source && r[b].source == groups[g].source && ComesFirst(r[a].file, r[b].file)
  }

  lemma OrderedGroupSent(groups: seq<Group>, total: nat, g: nat, i: nat, j: nat)
    requires g < |groups| && i < j < |groups[g].files| && ComesFirst(groups[g].files[i], groups[g].files[j])
    ensures NumbersFollow(groups, AllMessages(groups, total, 1), g, i, j)
  {
    MessageAt(groups, total, 1, g, i);
    MessageAt(groups, total, 1, g, j);
  }

  /** Within a group the message numbers follow the pages: of two messages of one group of a run, the one with
      the lower number is of the file that comes first. */
  lemma GroupSentInPageOrder(db: Lineage, d: Decision, files: seq<File>, g: nat, i: nat, j: nat)
    requires g < |ManyToOne(db, d, files)| && i < j < |ManyToOne(db, d, files)[g].files|
    ensures NumbersFollow(ManyToOne(db, d, files), AllMessages(ManyToOne(db, d, files), |files|, 1), g, i, j)
  {
    PageOrderAt(db, d, files, g, i, j);
    OrderedGroupSent(ManyToOne(db, d, files), |files|, g, i, j);
  }

  // ---- dispatchBatchFiles ----

  datatype FileMessage = FileMessage(file: Rid, total: nat, current: nat)

  /** One message for each file that still exists; the others use up a number. */
  function BatchMessages(files: seq<Rid>, gone: set<Rid>, total: nat, index: nat): seq<FileMessage> {
    if files == [] then []
    else FirstMessage(files[0], gone, total, index) + BatchMessages(files[1..], gone, total, index + 1)
  }

  function FirstMessage(file: Rid, gone: set<Rid>, total: nat, index: nat): seq<FileMessage> {
    if file in gone then [] else [FileMessage(file, total, index)]
  }

  /** `dispatchBatchFiles`: like the grouped dispatch it stops for good at the first status that is not
      running, and reports how many messages it published. */
  method DispatchBatchFiles(files: seq<Rid>, gone: set<Rid>, total: nat, startIndex: nat, stopped: nat -> bool)
    returns (count: nat, sent: seq<FileMessage>)
    ensures count == |sent| && SentUntilStop(sent, BatchMessages(files, gone, total, startIndex), stopped)
  {
    count, sent := 0, [];
    var index := startIndex;
    ghost var all := BatchMessages(files, gone, total, startIndex);
    for i := 0 to |files|
      invariant count == |sent| && index == startIndex + i && RunsUntil(stopped, |sent|)
      invariant IsBeforeFile(sent, files, i, gone, total, index, all)
    {
      BatchStep(sent, files, gone, total, index, i, all);
      if files[i] !in gone {
        if stopped(count) {
          SentPart(sent, BatchMessages(files[i..], gone, total, index), all, stopped);
          return;
        }
        sent := sent + [FileMessage(files[i], total, index)];
        count := count + 1;
      }
      index := index + 1;
    }
    assert files[|files|..] == [] && all == sent;
    SentAll(sent, all, stopped);
  }

  /** The messages of the files from the `i`-th on are still to come. */
  ghost predicate IsBeforeFile(sent: seq<FileMessage>, files: seq<Rid>, i: nat, gone: set<Rid>, total: nat, index: nat,
                               all: seq<FileMessage>) {
    i <= |files| && all == sent + BatchMessages(files[i..], gone, total, index)
  }

  lemma BatchStep(sent: seq<FileMessage>, files: seq<Rid>, gone: set<Rid>, total: nat, index: nat, i: nat,
                  all: seq<FileMessage>)
    requires i < |files| && IsBeforeFile(sent, files, i, gone, total, index, all)
    ensures var sent' := if files[i] in gone then sent else sent + [FileMessage(files[i], total, index)];
            IsBeforeFile(sent', files, i + 1, gone, total, index + 1, all)
  {
    assert files[i..][0] == files[i] && files[i..][1..] == files[i + 1..];
    var later := BatchMessages(files[i + 1..], gone, total, index + 1);
    assert files[i] in gone ==> [] + later == later;
  }

  /** The message of the `i`-th file, under the number of its place. */
  function PlacedMessage(files: seq<Rid>, total: nat, index: nat, i: nat): FileMessage
    requires i < |files|
  {
    FileMessage(files[i], total, index + i)
  }

  /** Every existing file is sent, under the number of its place. */
  lemma {:induction false} BatchSendsFile(files: seq<Rid>, gone: set<Rid>, total: nat, index: nat, i: nat)
    requires i < |files|
    ensures files[i] !in gone ==> PlacedMessage(files, total, index, i) in BatchMessages(files, gone, total, index)
  {
    if i > 0 {
      BatchSendsFile(files[1..], gone, total, index + 1, i - 1);
      assert PlacedMessage(files[1..], total, index + 1, i - 1) == PlacedMessage(files, total, index, i);
    }
  }

  /** The message of an existing file, under the number of its place. */
  ghost predicate IsPlaced(m: FileMessage, files: seq<Rid>, gone: set<Rid>, total: nat, index: nat) {
    index <= m.current < index + |files| && m == PlacedMessage(files, total, index, m.current - index)
      && m.file !in gone
  }

  /** Nothing else is sent, and no number twice. */
  lemma {:induction false} BatchSendsOnly(files: seq<Rid>, gone: set<Rid>, total: nat, index: nat, k: nat)
    requires k < |BatchMessages(files, gone, total, index)|
    ensures var r := BatchMessages(files, gone, total, index);
            IsPlaced(r[k], files, gone, total, index) && (k > 0 ==> r[k - 1].current < r[k].current)
  {
    var rest := BatchMessages(files[1..], gone, total, index + 1);
    var first := FirstMessage(files[0], gone, total, index);
    if k >= |first| {
      BatchSendsOnly(files[1..], gone, total, index + 1, k - |first|);
      PlacedLater(rest[k - |first|], files, gone, total, index);
    }
  }

  lemma PlacedLater(m: FileMessage, files: seq<Rid>, gone: set<Rid>, total: nat, index: nat)
    requires files != [] && IsPlaced(m, files[1..], gone, total, index + 1)
    ensures IsPlaced(m, files, gone, total, index) && m.current > index
  {
    assert files[1..][m.current - index - 1] == files[m.current - index];
  }

  lemma {:induction false} PendingHas(listing: seq<Rid>, done: set<Rid>)
    ensures forall x :: x in BatchProtocol.Pending(listing, done) <==> x in listing && x !in done
  {
    if listing != [] { PendingHas(listing[1..], done); }
  }

  /** The pending files are in the order of the listing. */
  lemma {:induction false} PendingInOrder(listing: seq<Rid>, done: set<Rid>, i: nat, j: nat)
    requires i < j < |BatchProtocol.Pending(listing, done)|
    ensures var r := BatchProtocol.Pending(listing, done);
            exists p, q :: 0 <= p < q < |listing| && listing[p] == r[i] && listing[q] == r[j]
  {
    var r, rest := BatchProtocol.Pending(listing, done), BatchProtocol.Pending(listing[1..], done);
    if listing[0] !in done && i == 0 {
      PendingHas(listing[1..], done);
      assert r[j] == rest[j - 1] && rest[j - 1] in listing[1..];
      var q :| 0 <= q < |listing[1..]| && listing[1..][q] == r[j];
      assert listing[q + 1] == r[j];
    } else {
      var n := if listing[0] in done then 0 else 1;
      PendingInOrder(listing[1..], done, i - n, j - n);
      var p, q :| 0 <= p < q < |listing[1..]| && listing[1..][p] == rest[i - n] && listing[1..][q] == rest[j - n];
      assert listing[p + 1] == r[i] && listing[q + 1] == r[j];
    }
  }

  /** How many of the listed files have an output. */
  function StoredCount(listing: seq<Rid>, done: set<Rid>): nat {
    if listing == [] then 0 else (if listing[0] in done then 1 else 0) + StoredCount(listing[1..], done)
  }

  lemma {:induction false} StoredOrPending(listing: seq<Rid>, done: set<Rid>)
    ensures StoredCount(listing, done) + |BatchProtocol.Pending(listing, done)| == |listing|
  {
    if listing != [] { StoredOrPending(listing[1..], done); }
  }

  /** A resumed dispatch sends exactly the listed files without an output that still exist, under numbers that
      go on from the count, a file that is gone using up its own. The last of these numbers is the total
      exactly when as many inputs are counted as have an output. */
  lemma ResumeContinues(listing: seq<Rid>, done: set<Rid>, gone: set<Rid>, processed: nat)
    ensures var pending := BatchProtocol.Pending(listing, done);
            var r := BatchMessages(pending, gone, |listing|, processed + 1);
            && (forall x :: Sends(r, x) <==> x in listing && x !in done && x !in gone)
            && (forall k :: 0 <= k < |r| ==> IsPlaced(r[k], pending, gone, |listing|, processed + 1))
            && (processed + |pending| == |listing| <==> processed == StoredCount(listing, done))
  {
    var pending := BatchProtocol.Pending(listing, done);
    var r := BatchMessages(pending, gone, |listing|, processed + 1);
    StoredOrPending(listing, done);
    PendingHas(listing, done);
    forall x ensures Sends(r, x) <==> x in pending && x !in gone {
      SentFile(pending, gone, |listing|, processed + 1, x);
    }
    forall k | 0 <= k < |r| ensures IsPlaced(r[k], pending, gone, |listing|, processed + 1) {
      BatchSendsOnly(pending, gone, |listing|, processed + 1, k);
    }
  }

  ghost predicate Sends(messages: seq<FileMessage>, x: Rid) { exists m :: m in messages && m.file == x }

  lemma SentFile(files: seq<Rid>, gone: set<Rid>, total: nat, index: nat, x: Rid)
    ensures Sends(BatchMessages(files, gone, total, index), x) <==> x in files && x !in gone
  {
    var r := BatchMessages(files, gone, total, index);
    if x in files && x !in gone {
      var i :| 0 <= i < |files| && files[i] == x;
      BatchSendsFile(files, gone, total, index, i);
      assert PlacedMessage(files, total, index, i) in r;
    }
    if m :| m in r && m.file == x {
      var k :| 0 <= k < |r| && r[k] == m;
      BatchSendsOnly(files, gone, total, index, k);
    }
  }
}
