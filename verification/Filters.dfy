/** The tag filter: which files of a set match the selected tags and ROI labels. */
module Filters {
  import opened Collections
  import ArcadeClient

  type Rid = string

  // ---- ROI keys ----

  /** Service, task, model and label of a recognised region. */
  datatype Roi = Roi(service: string, task: string, model: string, text: string)

  /** `roiKey`: the parts joined by bars. */
  function RoiKey(r: Roi): string { r.service + "|" + r.task + "|" + r.model + "|" + r.text }

  predicate NoBar(s: string) { '|' !in s }

  function BarAt(s: string): nat { if s == "" || s[0] == '|' then 0 else 1 + BarAt(s[1..]) }

  lemma {:induction false} BarAtMeans(s: string)
    ensures BarAt(s) <= |s| && NoBar(s[..BarAt(s)]) && (BarAt(s) < |s| ==> s[BarAt(s)] == '|')
  {
    if s != "" && s[0] != '|' {
      BarAtMeans(s[1..]);
      assert s[..BarAt(s)] == [s[0]] + s[1..][..BarAt(s[1..])];
    }
  }

  /** Up to the first bar, and after it. */
  function Cut(s: string): (string, string) {
    BarAtMeans(s);
    var k := BarAt(s);
    (s[..k], if k < |s| then s[k + 1..] else "")
  }

  /** `parseRoiKey`: the label keeps its bars. */
  function ParseRoiKey(key: string): Roi {
    var (service, more) := Cut(key);
    var (task, rest) := Cut(more);
    var (model, text) := Cut(rest);
    Roi(service, task, model, text)
  }

  lemma {:induction false} CutBack(head: string, tail: string)
    requires NoBar(head)
    ensures Cut(head + "|" + tail) == (head, tail)
  {
    var s := head + "|" + tail;
    if head != "" {
      CutBack(head[1..], tail);
      assert s[1..] == head[1..] + "|" + tail;
      BarAtMeans(s[1..]);
    }
    BarIs(head, tail);
    assert s[..|head|] == head && s[|head| + 1..] == tail;
  }

  lemma {:induction false} BarIs(head: string, tail: string)
    requires NoBar(head)
    ensures BarAt(head + "|" + tail) == |head|
  {
    if head != "" {
      assert (head + "|" + tail)[1..] == head[1..] + "|" + tail;
      BarIs(head[1..], tail);
    }
  }

  lemma CutHasNoBar(s: string)
    ensures NoBar(Cut(s).0)
  {
    BarAtMeans(s);
  }

  /** What is read has no bar but in the label. */
  lemma PartsHaveNoBar(key: string)
    ensures var r := ParseRoiKey(key); NoBar(r.service) && NoBar(r.task) && NoBar(r.model)
  {
    var more := Cut(key).1;
    CutHasNoBar(key);
    CutHasNoBar(more);
    CutHasNoBar(Cut(more).1);
  }

  lemma KeyIsNested(r: Roi)
    ensures RoiKey(r) == r.service + "|" + (r.task + "|" + (r.model + "|" + r.text))
  {
    var rest := r.model + "|" + r.text;
    assert r.task + "|" + r.model + "|" + r.text == r.task + "|" + rest;
    assert RoiKey(r) == r.service + "|" + (r.task + "|" + r.model + "|" + r.text);
  }

  lemma PartsReadBack(r: Roi)
    requires NoBar(r.service) && NoBar(r.task) && NoBar(r.model)
    ensures ParseRoiKey(r.service + "|" + (r.task + "|" + (r.model + "|" + r.text))) == r
  {
    var rest := r.model + "|" + r.text;
    CutBack(r.service, r.task + "|" + rest);
    CutBack(r.task, rest);
    CutBack(r.model, r.text);
  }

  /** A key reads back to its parts exactly when service, task and model have no bar in them. */
  lemma RoiKeyRoundTrip(r: Roi)
    ensures ParseRoiKey(RoiKey(r)) == r <==> NoBar(r.service) && NoBar(r.task) && NoBar(r.model)
  {
    PartsHaveNoBar(RoiKey(r));
    KeyIsNested(r);
    if NoBar(r.service) && NoBar(r.task) && NoBar(r.model) { PartsReadBack(r); }
  }

  /** An item of the request: parts that are not text are None. */
  datatype RoiItem = RoiItem(service: Option<string>, task: Option<string>, model: Option<string>, text: Option<string>)

  predicate IsRoi(item: RoiItem) { item.text.Some? && item.text.value != "" && item.service.Some? && item.task.Some? }

  /** The item has a label, a service and a task, and this key. */
  predicate HasKey(item: RoiItem, key: string) {
    && item.text.Some? && item.text.value != "" && item.service.Some? && item.task.Some?
    && key == item.service.value + "|" + item.task.value + "|" + (if item.model.Some? then item.model.value else "")
          + "|"
              + item.text.value
  }

  function RoiOf(item: RoiItem): Roi
    requires IsRoi(item)
  {
    Roi(item.service.value, item.task.value, if item.model.Some? then item.model.value else "", item.text.value)
  }

  /** `roiCriteria`: the complete items, one for each key. */
  method RoiCriteria(items: seq<RoiItem>) returns (keys: seq<string>, seen: map<string, Roi>)
    ensures Distinct(keys) && Elements(keys) == seen.Keys
    ensures forall k :: k in keys <==> exists item :: item in items && HasKey(item, k)
    ensures forall k :: k in seen ==> RoiKey(seen[k]) == k
  {
    keys, seen := [], map[];
    for i := 0 to |items|
      invariant Distinct(keys) && Elements(keys) == seen.Keys
      invariant forall k :: k in seen <==> exists item :: item in items[..i] && IsRoi(item) && RoiKey(RoiOf(item)) == k
      invariant forall k :: k in seen ==> RoiKey(seen[k]) == k
    {
      assert items[..i + 1] == items[..i] + [items[i]];
      if IsRoi(items[i]) {
        var r := RoiOf(items[i]);
        if RoiKey(r) !in seen {
          assert Elements(keys + [RoiKey(r)]) == Elements(keys) + {RoiKey(r)} && RoiKey(r) !in Elements(keys);
          keys := keys + [RoiKey(r)];
        }
        seen := seen[RoiKey(r) := r];
      }
    }
    assert items[..|items|] == items;
    assert forall k :: k in keys <==> k in Elements(keys);
    forall item, k ensures HasKey(item, k) <==> IsRoi(item) && RoiKey(RoiOf(item)) == k {}
  }

  // ---- what the filter matches ----

  datatype Criterion = ByTag(entity: Rid) | ByRoi(key: string)

  datatype Link = Link(target: Rid, entity: Rid, owner: Rid)

  /** A search document: the file a region was found on, and its keys. */
  datatype Doc = Doc(source: Rid, keys: seq<string>)

  datatype World = World(links: seq<Link>, docs: seq<Doc>, user: Rid)

  ghost predicate Has(w: World, file: Rid, c: Criterion) {
    match c
    case ByTag(e) => Link(file, e, w.user) in w.links
    case ByRoi(key) => exists d :: d in w.docs && d.source == file && key in d.keys
  }

  ghost predicate HasAny(w: World, file: Rid, cs: set<Criterion>) { exists c :: c in cs && Has(w, file, c) }

  ghost predicate HasAll(w: World, file: Rid, cs: set<Criterion>) { forall c :: c in cs ==> Has(w, file, c) }

  function Criteria(selected: seq<Rid>, keys: seq<string>): set<Criterion> {
    (set e | e in selected :: ByTag(e)) + (set k | k in keys :: ByRoi(k))
  }

  /** The number the code compares with is the number of criteria. */
  lemma CriteriaCount(selected: seq<Rid>, keys: seq<string>)
    requires Distinct(selected) && Distinct(keys)
    ensures |Criteria(selected, keys)| == |selected| + |keys|
  {
    var tags, rois := set e | e in selected :: ByTag(e), set k | k in keys :: ByRoi(k);
    TagCount(selected);
    RoiCount(keys);
    assert tags !! rois && Criteria(selected, keys) == tags + rois;
  }

  lemma {:induction false} TagCount(selected: seq<Rid>)
    requires Distinct(selected)
    ensures |set e | e in selected :: ByTag(e)| == |selected|
  {
    if selected != [] {
      TagCount(selected[1..]);
      var rest := set e | e in selected[1..] :: ByTag(e);
      assert (set e | e in selected :: ByTag(e)) == rest + {ByTag(selected[0])};
      assert ByTag(selected[0]) !in rest;
    }
  }

  lemma {:induction false} RoiCount(keys: seq<string>)
    requires Distinct(keys)
    ensures |set k | k in keys :: ByRoi(k)| == |keys|
  {
    if keys != [] {
      RoiCount(keys[1..]);
      var rest := set k | k in keys[1..] :: ByRoi(k);
      assert (set k | k in keys :: ByRoi(k)) == rest + {ByRoi(keys[0])};
      assert ByRoi(keys[0]) !in rest;
    }
  }

  /** As many of the criteria as there are is all of them. */
  lemma AllByCount<T>(some: set<T>, all: set<T>)
    requires some <= all
    ensures |some| == |all| <==> some == all
  {
    if some != all {
      assert some < all;
      var missing := all - some;
      assert all == some + missing && missing != {};
    }
  }

  /** File to the criteria it has. */
  type Found = map<Rid, set<Criterion>>

  function Add(found: Found, file: Rid, c: Criterion): Found {
    found[file := (if file in found then found[file] else {}) + {c}]
  }

  lemma AddSays(found: Found, file: Rid, c: Criterion)
    ensures forall f, x :: Says(Add(found, file, c), f, x) <==> Says(found, f, x) || (f == file && x == c)
  {
  }

  predicate Says(found: Found, file: Rid, c: Criterion) { file in found && c in found[file] }

  /** Exactly the criteria among `cs` that the files have, and no file without one. */
  ghost predicate Complete(w: World, files: seq<Rid>, cs: set<Criterion>, found: Found) {
    && (forall f, c :: Says(found, f, c) <==> f in files && c in cs && Has(w, f, c))
    && (forall f :: f in found ==> found[f] != {})
  }

  /** The rows of tag links, one by one. */
  method AddTags(w: World, files: seq<Rid>, selected: seq<Rid>) returns (found: Found)
    ensures Complete(w, files, set e | e in selected :: ByTag(e), found)
  {
    found := map[];
    for i := 0 to |w.links|
      invariant forall f :: f in found ==> found[f] != {}
      invariant forall f, c ::
                  Says(found, f, c) <==>
                    f in files && c.ByTag? && c.entity in selected && Link(f, c.entity, w.user) in w.links[..i]
    {
      var row := w.links[i];
      assert w.links[..i + 1] == w.links[..i] + [row];
      if row.target in files && row.entity in selected && row.owner == w.user {
        AddSays(found, row.target, ByTag(row.entity));
        found := Add(found, row.target, ByTag(row.entity));
      }
    }
    assert w.links[..|w.links|] == w.links;
  }

  predicate Keyed(sources: map<Rid, set<string>>, f: Rid, k: string) { f in sources && k in sources[f] }

  /** The search index answers with the documents of these files that have one of the keys, a thousand
      files a query; only asked keys count. */
  method RoiSources(w: World, files: seq<Rid>, keys: seq<string>) returns (sources: map<Rid, set<string>>)
    ensures forall f, k :: Keyed(sources, f, k) <==> f in files && k in keys && Has(w, f, ByRoi(k))
  {
    sources := map[];
    var i := 0;
    while i < |files|
      invariant 0 <= i <= |files|
      invariant forall f, k :: Keyed(sources, f, k) <==> f in files[..i] && k in keys && Has(w, f, ByRoi(k))
    {
      var n := if i + 1000 <= |files| then i + 1000 else |files|;
      assert files[..n] == files[..i] + files[i..n];
      sources := RoiChunk(w, files[..i], files[i..n], keys, sources);
      i := n;
    }
    assert files[..i] == files;
  }

  /** One of the first `n` documents is of the file and has the key. */
  ghost predicate HasUpTo(w: World, f: Rid, k: string, n: nat)
    requires n <= |w.docs|
  {
    exists d :: d in w.docs[..n] && d.source == f && k in d.keys
  }

  lemma HasOneMore(w: World, n: nat)
    requires n < |w.docs|
    ensures forall f, k ::
              HasUpTo(w, f, k, n + 1) <==> HasUpTo(w, f, k, n) || (w.docs[n].source == f && k in w.docs[n].keys)
  {
    assert w.docs[..n + 1] == w.docs[..n] + [w.docs[n]];
    forall f, k ensures HasUpTo(w, f, k, n + 1)
      <==> HasUpTo(w, f, k, n) || (w.docs[n].source == f && k in w.docs[n].keys) {
      if HasUpTo(w, f, k, n) {
        var d :| d in w.docs[..n] && d.source == f && k in d.keys;
        assert d in w.docs[..n + 1];
      }
      if w.docs[n].source == f && k in w.docs[n].keys { assert w.docs[n] in w.docs[..n + 1]; }
    }
  }

  function WithKeys(sources: map<Rid, set<string>>, file: Rid, keys: set<string>): map<Rid, set<string>> {
    sources[file := (if file in sources then sources[file] else {}) + keys]
  }

  lemma MoreSays(sources: map<Rid, set<string>>, file: Rid, keys: set<string>)
    ensures forall f, k ::
              Keyed(WithKeys(sources, file, keys), f, k) <==> Keyed(sources, f, k) || (f == file && k in keys)
  {
  }

  method RoiChunk(w: World, ghost done: seq<Rid>, chunk: seq<Rid>, keys: seq<string>, before: map<Rid, set<string>>)
    returns (sources: map<Rid, set<string>>)
    requires forall f, k :: Keyed(before, f, k) <==> f in done && k in keys && Has(w, f, ByRoi(k))
    ensures forall f, k :: Keyed(sources, f, k) <==> f in done + chunk && k in keys && Has(w, f, ByRoi(k))
  {
    sources := before;
    for i := 0 to |w.docs|
      invariant forall f, k :: Keyed(sources, f, k) <==>
                  k in keys && ((f in done && Has(w, f, ByRoi(k))) || (f in chunk && HasUpTo(w, f, k, i)))
    {
      var d := w.docs[i];
      HasOneMore(w, i);
      if d.source in chunk && exists k :: k in d.keys && k in keys {
        MoreSays(sources, d.source, set k | k in d.keys && k in keys);
        sources := WithKeys(sources, d.source, set k | k in d.keys && k in keys);
      }
    }
    assert w.docs[..|w.docs|] == w.docs;
  }

  /** One file's ROI keys into the map. */
  method AddKeys(before: Found, file: Rid, keys: set<string>) returns (found: Found)
    requires forall f :: f in before ==> before[f] != {}
    ensures forall f, c :: Says(found, f, c) <==> Says(before, f, c) || (f == file && c.ByRoi? && c.key in keys)
    ensures forall f :: f in found ==> found[f] != {}
  {
    found := before;
    var rest := keys;
    while rest != {}
      invariant rest <= keys && forall f :: f in found ==> found[f] != {}
      invariant forall f, c ::
                  Says(found, f, c) <==> Says(before, f, c) || (f == file && c.ByRoi? && c.key in keys - rest)
      decreases |rest|
    {
      var key :| key in rest;
      AddSays(found, file, ByRoi(key));
      found := Add(found, file, ByRoi(key));
      rest := rest - {key};
    }
  }

  /** The keys the index found, file by file. */
  method AddRois(w: World, files: seq<Rid>, keys: seq<string>, before: Found) returns (found: Found)
    requires forall f :: f in before ==> before[f] != {}
    ensures forall f, c ::
              Says(found, f, c) <==> Says(before, f, c) || (f in files && c.ByRoi? && c.key in keys && Has(w, f, c))
    ensures forall f :: f in found ==> found[f] != {}
  {
    var sources := RoiSources(w, files, keys);
    found := before;
    var rest := sources.Keys;
    while rest != {}
      invariant rest <= sources.Keys && forall f :: f in found ==> found[f] != {}
      invariant forall f, c ::
                  Says(found, f, c) <==> Says(before, f, c) || (f !in rest && c.ByRoi? && Keyed(sources, f, c.key))
      decreases |rest|
    {
      var file :| file in rest;
      found := AddKeys(found, file, sources[file]);
      rest := rest - {file};
    }
  }

  datatype Mode = Include | Exclude | Untagged

  datatype Request = Request(mode: Mode, selected: seq<ArcadeClient.Value>, rois: seq<RoiItem>, matchAnd: bool)

  datatype Problem = NoTagsSelected | NoFiles | InvalidTags | NothingTagged | IndexUnavailable

  datatype Outcome = Matched(files: seq<Rid>) | Refused(problem: Problem)

  predicate IsTagged(w: World, file: Rid) { exists l :: l in w.links && l.target == file && l.owner == w.user }

  /** What the answer means: with "and" the files of the set that have all criteria, with "or" those with
      any, excluded the others, untagged those without a tag of the user. */
  ghost predicate IsMatch(w: World, mode: Mode, matchAnd: bool, files: seq<Rid>, cs: set<Criterion>, f: Rid) {
    && f in files
    && match mode
       case Include => if matchAnd then HasAll(w, f, cs) else HasAny(w, f, cs)
       case Exclude => !HasAny(w, f, cs)
       case Untagged => forall l :: l in w.links && l.owner == w.user ==> l.target != f
  }

  function Without(files: seq<Rid>, gone: set<Rid>): seq<Rid> {
    if files == [] then [] else (if files[0] in gone then [] else [files[0]]) + Without(files[1..], gone)
  }

  lemma {:induction false} WithoutHas(files: seq<Rid>, gone: set<Rid>)
    ensures forall f :: f in Without(files, gone) <==> f in files && f !in gone
    ensures Distinct(files) ==> Distinct(Without(files, gone))
  {
    if files != [] { WithoutHas(files[1..], gone); }
  }

  /** The files of the map with enough criteria. */
  method Pick(ghost w: World, ghost files: seq<Rid>, ghost cs: set<Criterion>, found: Found, matchAnd: bool, count: nat)
    returns (matched: seq<Rid>)
    requires Complete(w, files, cs, found) && cs != {} && count == |cs|
    ensures Distinct(matched) && forall f :: f in matched <==> IsMatch(w, Include, matchAnd, files, cs, f)
  {
    matched := [];
    var rest := found.Keys;
    while rest != {}
      invariant rest <= found.Keys && Distinct(matched) && (forall f :: f in matched ==> f !in rest)
      invariant forall f :: f in matched <==> f in found.Keys - rest && IsMatch(w, Include, matchAnd, files, cs, f)
      decreases |rest|
    {
      var file :| file in rest;
      CountMeans(w, files, cs, found, file);
      if if matchAnd then |found[file]| == count else |found[file]| > 0 { matched := matched + [file]; }
      rest := rest - {file};
    }
    forall f | IsMatch(w, Include, matchAnd, files, cs, f) ensures f in found {
      MatchIsFound(w, files, cs, found, matchAnd, f);
    }
  }

  /** A file of the map has every criterion exactly when it has as many as there are. */
  lemma CountMeans(w: World, files: seq<Rid>, cs: set<Criterion>, found: Found, f: Rid)
    requires Complete(w, files, cs, found) && f in found
    ensures f in files && HasAny(w, f, cs) && |found[f]| > 0
    ensures |found[f]| == |cs| <==> HasAll(w, f, cs)
  {
    var c :| c in found[f];
    assert Says(found, f, c);
    assert forall x :: x in found[f] ==> Says(found, f, x);
    AllByCount(found[f], cs);
    if HasAll(w, f, cs) {
      forall x | x in cs ensures x in found[f] { assert Says(found, f, x); }
    }
  }

  lemma MatchIsFound(w: World, files: seq<Rid>, cs: set<Criterion>, found: Found, matchAnd: bool, f: Rid)
    requires Complete(w, files, cs, found) && cs != {} && IsMatch(w, Include, matchAnd, files, cs, f)
    ensures f in found
  {
    var c :| c in cs && Has(w, f, c);
    assert Says(found, f, c);
  }

  /** File to criteria, from the tag links and the search index. */
  method Collect(w: World, files: seq<Rid>, selected: seq<Rid>, keys: seq<string>) returns (found: Found)
    ensures Complete(w, files, Criteria(selected, keys), found)
  {
    var tags := AddTags(w, files, selected);
    found := AddRois(w, files, keys, tags);
    forall f, c ensures Says(found, f, c) <==> f in files && c in Criteria(selected, keys) && Has(w, f, c) {
      assert c in Criteria(selected, keys) <==> (c.ByTag? && c.entity in selected) || (c.ByRoi? && c.key in keys);
      assert Says(tags, f, c) <==> f in files && c in (set e | e in selected :: ByTag(e)) && Has(w, f, c);
    }
  }

  function Selected(request: Request): seq<Rid> { ArcadeClient.Clean(ArcadeClient.Normals(request.selected)) }

  /** `tagFilterSet` up to the matched files. `tags` are the user's tags; `indexUp` whether the search
      index answers. */
  method TagFilter(w: World, files: seq<Rid>, request: Request, tags: set<Rid>, indexUp: bool)
    returns (outcome: Outcome, keys: seq<string>)
    ensures Distinct(keys)
    ensures forall k :: k in keys <==> exists item :: item in request.rois && HasKey(item, k)
    ensures var selected := Selected(request); var cs := Criteria(selected, keys);
            match outcome
            case Matched(matched) =>
              && (request.mode.Untagged? || cs != {}) && files != []
              && (forall f :: f in matched <==> IsMatch(w, request.mode, request.matchAnd, files, cs, f))
              && (request.mode.Include? ==> Distinct(matched)) && (Distinct(files) ==> Distinct(matched))
            case Refused(problem) =>
              match problem
              case NoTagsSelected => !request.mode.Untagged? && cs == {}
              case NoFiles => files == []
              case InvalidTags => !request.mode.Untagged? && exists e :: e in selected && e !in tags
              case NothingTagged =>
                request.mode.Include? && keys == []
                && forall l :: l in w.links && l.owner == w.user ==> l.target !in files
              case IndexUnavailable => !indexUp && keys != []
  {
    var seen;
    keys, seen := RoiCriteria(request.rois);
    var selected := Selected(request);
    ghost var cs := Criteria(selected, keys);
    ArcadeClient.CleanMeans(ArcadeClient.Normals(request.selected));
    assert selected != [] ==> ByTag(selected[0]) in cs;
    assert keys != [] ==> ByRoi(keys[0]) in cs;
    if !request.mode.Untagged? && selected == [] && keys == [] { return Refused(NoTagsSelected), keys; }
    if files == [] { return Refused(NoFiles), keys; }
    if request.mode.Untagged? {
      var tagged := set l | l in w.links && l.owner == w.user :: l.target;
      WithoutHas(files, tagged);
      return Matched(Without(files, tagged)), keys;
    }
    if exists e :: e in selected && e !in tags { return Refused(InvalidTags), keys; }
    if request.mode.Include? && keys == [] && forall f :: f in files ==> !IsTagged(w, f) {
      return Refused(NothingTagged), keys;
    }
    if keys != [] && !indexUp { return Refused(IndexUnavailable), keys; }
    var found := Collect(w, files, selected, keys);
    CriteriaCount(selected, keys);
    if request.mode.Exclude? {
      WithoutHas(files, found.Keys);
      ExcludeMeans(w, files, cs, found);
      return Matched(Without(files, found.Keys)), keys;
    }
    var matched := Pick(w, files, cs, found, request.matchAnd, |selected| + |keys|);
    outcome := Matched(matched);
  }

  lemma ExcludeMeans(w: World, files: seq<Rid>, cs: set<Criterion>, found: Found)
    requires Complete(w, files, cs, found)
    ensures forall f :: f in files ==> (f in found <==> HasAny(w, f, cs))
  {
    forall f | f in files ensures f in found <==> HasAny(w, f, cs) {
      if f in found { CountMeans(w, files, cs, found, f); }
      if c :| c in cs && Has(w, f, c) { assert Says(found, f, c); }
    }
  }

  /** Within the set, "exclude" is the complement of "or", and with one criterion "and" is "or". */
  lemma ModesFit(w: World, files: seq<Rid>, cs: set<Criterion>, f: Rid)
    requires f in files
    ensures IsMatch(w, Exclude, true, files, cs, f) <==> !IsMatch(w, Include, false, files, cs, f)
    ensures cs != {} && IsMatch(w, Include, true, files, cs, f) ==> IsMatch(w, Include, false, files, cs, f)
    ensures |cs| == 1 ==> (IsMatch(w, Include, true, files, cs, f) <==> IsMatch(w, Include, false, files, cs, f))
  {
    if cs != {} && HasAll(w, f, cs) {
      var c :| c in cs;
      assert Has(w, f, c);
    }
    if |cs| == 1 {
      var c :| c in cs;
      AllByCount({c}, cs);
    }
  }
}
