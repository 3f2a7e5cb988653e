/** Reading known records: `readByRids` cleans the rid list, reads 500 records a statement, and falls
    back to one statement a record when a record of the chunk is missing. */
module ArcadeClient {
  import opened Collections
  import opened Ids

  /** A rid as callers pass it: any value, text or not. */
  datatype Value = Text(text: string) | NotText

  /** The database: what the statement selects from each existing record, and the statements it
      refuses for a reason other than a missing record. */
  datatype Database<!T> = Database(records: map<string, seq<T>>, refused: set<seq<string>>)

  datatype Answer<T> = Rows(rows: seq<T>) | MissingRecord | OtherError

  const CHUNK := 500

  predicate Complete<T>(db: Database<T>, rids: seq<string>) { forall i :: 0 <= i < |rids| ==> rids[i] in db.records }

  /** The rows of the existing records of a list, in list order. */
  function RowsOf<T>(db: Database<T>, rids: seq<string>): seq<T> {
    if rids == [] then [] else (if rids[0] in db.records then db.records[rids[0]] else []) + RowsOf(db, rids[1..])
  }

  /** One statement over a list of records: a missing record fails all of it. */
  function Query<T(==)>(db: Database<T>, rids: seq<string>): Answer<T> {
    if rids in db.refused then OtherError
    else if Complete(db, rids) then Rows(RowsOf(db, rids))
    else MissingRecord
  }

  function Normal(v: Value): Option<string> { if v.Text? then TryRid(v.text) else None }

  /** What each value means, None where it is not a rid. */
  function Normals(values: seq<Value>): seq<Option<string>> {
    seq(|values|, i requires 0 <= i < |values| => Normal(values[i]))
  }

  /** The distinct rids of a list, each where it occurs first. */
  function Clean(rids: seq<Option<string>>): seq<string> {
    if rids == [] then []
    else
      var before := Clean(rids[..|rids| - 1]);
      var last := rids[|rids| - 1];
      if last.Some? && last.value !in before then before + [last.value] else before
  }

  /** The first place a rid occurs at, or the length of the list. */
  function FirstAt(rids: seq<Option<string>>, rid: string): nat {
    if rids == [] || rids[0] == Some(rid) then 0 else 1 + FirstAt(rids[1..], rid)
  }

  lemma {:induction false} FirstAtMeans(rids: seq<Option<string>>, rid: string)
    ensures FirstAt(rids, rid) <= |rids|
    ensures forall i :: 0 <= i < FirstAt(rids, rid) ==> rids[i] != Some(rid)
    ensures FirstAt(rids, rid) < |rids| ==> rids[FirstAt(rids, rid)] == Some(rid)
  {
    if rids != [] && rids[0] != Some(rid) { FirstAtMeans(rids[1..], rid); }
  }

  lemma FirstAtLonger(rids: seq<Option<string>>, rid: string)
    requires rids != []
    ensures var shorter := rids[..|rids| - 1];
            FirstAt(rids, rid) == if Some(rid) in shorter then FirstAt(shorter, rid)
                                  else if rids[|rids| - 1] == Some(rid) then |rids| - 1 else |rids|
    ensures Some(rid) in rids[..|rids| - 1] ==> FirstAt(rids[..|rids| - 1], rid) < |rids| - 1
  {
    FirstAtMeans(rids, rid);
    FirstAtMeans(rids[..|rids| - 1], rid);
  }

  /** Cleaning keeps each valid rid once, nothing else, in the order of first occurrence. */
  lemma {:induction false} CleanMeans(rids: seq<Option<string>>)
    ensures Distinct(Clean(rids))
    ensures forall rid :: rid in Clean(rids) <==> Some(rid) in rids
    ensures forall i, j :: 0 <= i < j < |Clean(rids)| ==> FirstAt(rids, Clean(rids)[i]) < FirstAt(rids, Clean(rids)[j])
  {
    if rids != [] {
      var shorter := rids[..|rids| - 1];
      assert rids == shorter + [rids[|rids| - 1]];
      CleanMeans(shorter);
      forall i | 0 <= i < |Clean(rids)|
        ensures FirstAt(rids, Clean(rids)[i]) == if i < |Clean(shorter)| then FirstAt(shorter, Clean(shorter)[i])
                else |rids| - 1
        ensures i < |Clean(shorter)| ==> FirstAt(shorter, Clean(shorter)[i]) < |rids| - 1
      {
        if i < |Clean(shorter)| { assert Clean(shorter)[i] in Clean(shorter); }
        FirstAtLonger(rids, Clean(rids)[i]);
      }
    }
  }

  lemma {:induction false} RowsOfAppend<T>(db: Database<T>, a: seq<string>, b: seq<string>)
    ensures RowsOf(db, a + b) == RowsOf(db, a) + RowsOf(db, b)
  {
    if a == [] {
      assert a + b == b;
    } else {
      assert (a + b)[0] == a[0] && (a + b)[1..] == a[1..] + b;
      RowsOfAppend(db, a[1..], b);
    }
  }

  /** Some statement that reading this chunk sends is refused: the whole one, or, when a record is
      missing, the one of a single record. */
  predicate ChunkFails<T(==)>(db: Database<T>, chunk: seq<string>) {
    chunk in db.refused || (!Complete(db, chunk) && exists i :: 0 <= i < |chunk| && [chunk[i]] in db.refused)
  }

  predicate Fails<T(==)>(db: Database<T>, rids: seq<string>)
    decreases |rids|
  {
    rids != [] && var n := if |rids| < CHUNK then |rids| else CHUNK;
                  ChunkFails(db, rids[..n]) || Fails(db, rids[n..])
  }

  /** The rows of a list come record by record, those of a missing one being none. */
  lemma RowsInOrder<T>(db: Database<T>, rids: seq<string>, i: nat)
    requires i < |rids|
    ensures RowsOf(db, rids)
            == RowsOf(db, rids[..i]) + (if rids[i] in db.records then db.records[rids[i]] else [])
              + RowsOf(db, rids[i + 1..])
  {
    assert rids == rids[..i] + rids[i..] && rids[i..][1..] == rids[i + 1..];
    assert rids[i..][0] == rids[i];
    RowsOfAppend(db, rids[..i], rids[i..]);
  }

  /** The statements over the 500 records from the `i`-th on: one is refused that is sent. */
  ghost predicate RefusedFrom<T>(db: Database<T>, rids: seq<string>, i: nat)
    requires i <= |rids|
  {
    var chunk := rids[i..if i + 500 <= |rids| then i + 500 else |rids|];
    || chunk in db.refused
    || ((exists rid :: rid in chunk && rid !in db.records) && exists rid :: rid in chunk && [rid] in db.refused)
  }

  lemma ChunkFailsMeans<T>(db: Database<T>, rids: seq<string>)
    requires rids != []
    ensures var n := if |rids| < CHUNK then |rids| else CHUNK;
            ChunkFails(db, rids[..n]) <==> RefusedFrom(db, rids, 0)
  {
    var n := if |rids| < CHUNK then |rids| else CHUNK;
    var chunk := rids[..n];
    assert chunk == rids[0..if 0 + 500 <= |rids| then 0 + 500 else |rids|];
    if i :| 0 <= i < |chunk| && [chunk[i]] in db.refused { assert chunk[i] in chunk; }
    if rid :| rid in chunk && [rid] in db.refused {
      var i :| 0 <= i < |chunk| && chunk[i] == rid;
    }
  }

  /** A read fails exactly when one of its statements is refused: one over 500 records, or, where a record is
      missing, one over a single record of these. */
  lemma {:induction false} FailsMeans<T>(db: Database<T>, rids: seq<string>)
    ensures Fails(db, rids) <==> exists c: nat :: 500 * c < |rids| && RefusedFrom(db, rids, 500 * c)
    decreases |rids|
  {
    if rids != [] {
      ChunkFailsMeans(db, rids);
      var n := if |rids| < CHUNK then |rids| else CHUNK;
      FailsMeans(db, rids[n..]);
      forall c: nat | 500 * c < |rids[n..]| ensures RefusedFrom(db, rids[n..], 500 * c)
        <==> RefusedFrom(db, rids, 500 * (c + 1)) {
        var k := 500 * c;
        assert rids[n..][k..if k + 500 <= |rids[n..]| then k + 500 else |rids[n..]|]
            == rids[k + 500..if k + 1000 <= |rids| then k + 1000 else |rids|];
      }
      if Fails(db, rids) && !RefusedFrom(db, rids, 0) {
        var c: nat :| 500 * c < |rids[n..]| && RefusedFrom(db, rids[n..], 500 * c);
        assert RefusedFrom(db, rids, 500 * (c + 1));
      }
      if c: nat :| 500 * c < |rids| && RefusedFrom(db, rids, 500 * c) {
        if c > 0 { assert RefusedFrom(db, rids[n..], 500 * (c - 1)); } else { assert RefusedFrom(db, rids, 0); }
      }
    }
  }

  lemma SingleRows<T>(db: Database<T>, rids: seq<string>, i: nat)
    requires i < |rids|
    ensures RowsOf(db, rids[..i + 1]) == RowsOf(db, rids[..i]) + RowsOf(db, [rids[i]])
    ensures Complete(db, [rids[i]]) <==> rids[i] in db.records
    ensures rids[i] !in db.records ==> RowsOf(db, [rids[i]]) == []
  {
    assert rids[..i + 1] == rids[..i] + [rids[i]];
    RowsOfAppend(db, rids[..i], [rids[i]]);
    assert [rids[i]][0] == rids[i] && [rids[i]][1..] == [];
  }

  /** A chunk: the whole of it in one statement, else record by record. */
  method ReadChunk<T(==)>(db: Database<T>, chunk: seq<string>) returns (rows: Option<seq<T>>)
    ensures rows == if ChunkFails(db, chunk) then None else Some(RowsOf(db, chunk))
  {
    var answer := Query(db, chunk);
    if answer.Rows? { return Some(answer.rows); }
    if answer.OtherError? { return None; }
    var out: seq<T> := [];
    for i := 0 to |chunk|
      invariant out == RowsOf(db, chunk[..i])
      invariant forall k :: 0 <= k < i ==> [chunk[k]] !in db.refused
    {
      SingleRows(db, chunk, i);
      var single := Query(db, [chunk[i]]);
      if single.OtherError? { return None; }
      if single.Rows? { out := out + single.rows; }
    }
    assert chunk[..|chunk|] == chunk;
    rows := Some(out);
  }

  lemma CleanHas(values: seq<Value>)
    ensures forall rid :: rid in Clean(Normals(values))
              <==> exists v :: v in values && v.Text? && TryRid(v.text) == Some(rid)
  {
    CleanMeans(Normals(values));
    forall rid ensures Some(rid) in Normals(values)
      <==> exists v :: v in values && v.Text? && TryRid(v.text) == Some(rid) {
      if v :| v in values && v.Text? && TryRid(v.text) == Some(rid) {
        var i :| 0 <= i < |values| && values[i] == v;
        assert Normals(values)[i] == Some(rid);
      }
    }
  }

  /** The distinct valid rids of a list. */
  method CleanList(values: seq<Value>) returns (clean: seq<string>)
    ensures clean == Clean(Normals(values))
  {
    clean := [];
    var seen: set<string> := {};
    ghost var normals := Normals(values);
    for i := 0 to |values|
      invariant clean == Clean(normals[..i]) && seen == Elements(clean)
    {
      var rid := Normal(values[i]);
      assert normals[..i + 1][..i] == normals[..i] && normals[..i + 1][i] == rid;
      if rid.Some? && rid.value !in seen {
        assert Elements(clean + [rid.value]) == Elements(clean) + {rid.value};
        seen := seen + {rid.value};
        clean := clean + [rid.value];
      }
    }
    assert normals[..|values|] == normals;
  }

  /** Reads the records of a rid list with repeats, invalid rids and missing records: the rows of the
      existing distinct rids, in the order the rids first occur, whichever chunks fell back. It fails
      only when a statement it sends is refused. */
  method ReadByRids<T(==)>(db: Database<T>, values: seq<Value>) returns (rows: Option<seq<T>>)
    ensures var clean := Clean(Normals(values));
            rows == if Fails(db, clean) then None else Some(RowsOf(db, clean))
    ensures forall rid :: rid in Clean(Normals(values))
              <==> exists v :: v in values && v.Text? && TryRid(v.text) == Some(rid)
  {
    CleanHas(values);
    var clean := CleanList(values);
    rows := ReadChunks(db, clean);
  }

  lemma Slices<T>(s: seq<T>, i: nat, n: nat)
    requires i <= n <= |s|
    ensures s[i..][..n - i] == s[i..n] && s[i..][n - i..] == s[n..] && s[..n] == s[..i] + s[i..n]
  {
  }

  /** The chunks of a cleaned list, one after the other. */
  method ReadChunks<T(==)>(db: Database<T>, clean: seq<string>) returns (rows: Option<seq<T>>)
    ensures rows == if Fails(db, clean) then None else Some(RowsOf(db, clean))
  {
    var out: seq<T> := [];
    var i := 0;
    while i < |clean|
      invariant 0 <= i <= |clean| && out == RowsOf(db, clean[..i])
      invariant Fails(db, clean) == Fails(db, clean[i..])
    {
      var n := if i + CHUNK <= |clean| then i + CHUNK else |clean|;
      Slices(clean, i, n);
      RowsOfAppend(db, clean[..i], clean[i..n]);
      var chunk := ReadChunk(db, clean[i..n]);
      if chunk.None? { return None; }
      out := out + chunk.value;
      i := n;
    }
    assert clean[..i] == clean;
    rows := Some(out);
  }
}
