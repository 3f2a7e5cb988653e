/** Small vocabulary shared by the other modules: optional values, sequences without
    repetition, and the stable sort the source gets from `Array.prototype.sort`. */
module Collections {

  datatype Option<+T> = None | Some(value: T)

  ghost predicate Distinct<T>(s: seq<T>) {
    forall i, j :: 0 <= i < j < |s| ==> s[i] != s[j]
  }

  function Elements<T>(s: seq<T>): set<T> {
    set x | x in s
  }

  function Min(a: int, b: int): int { if a <= b then a else b }

  function Max(a: int, b: int): int { if a >= b then a else b }

  /** A sequence without repetition is as long as its set of elements. */
  lemma {:induction false} DistinctLength<T>(s: seq<T>)
    requires Distinct(s)
    ensures |Elements(s)| == |s|
  {
    if s != [] {
      var rest := s[1..];
      DistinctLength(rest);
      assert Elements(s) == Elements(rest) + {s[0]};
    }
  }

  /** A set's elements in some order. */
  method Listing<T(==)>(s: set<T>) returns (list: seq<T>)
    ensures Distinct(list) && Elements(list) == s
  {
    list := [];
    var rest := s;
    while rest != {}
      invariant rest <= s && Distinct(list) && Elements(list) == s - rest
      decreases |rest|
    {
      var x :| x in rest;
      assert x !in Elements(list);
      assert Elements(list + [x]) == Elements(list) + {x};
      list := list + [x];
      rest := rest - {x};
    }
  }

  // ---- the stable sort of the language ----

  ghost predicate TotalPreorder<T(!new)>(leq: (T, T) -> bool) {
    && (forall a, b :: leq(a, b) || leq(b, a))
    && (forall a, b, c :: leq(a, b) && leq(b, c) ==> leq(a, c))
  }

  ghost predicate Sorted<T>(s: seq<T>, leq: (T, T) -> bool) {
    forall i, j :: 0 <= i < j < |s| ==> leq(s[i], s[j])
  }

  function Insert<T>(x: T, s: seq<T>, leq: (T, T) -> bool): seq<T> {
    if s == [] || leq(x, s[0]) then [x] + s else [s[0]] + Insert(x, s[1..], leq)
  }

  /** Equal elements keep their order. */
  function SortBy<T>(s: seq<T>, leq: (T, T) -> bool): seq<T> {
    if s == [] then [] else Insert(s[0], SortBy(s[1..], leq), leq)
  }

  lemma {:induction false} InsertPermutes<T>(x: T, s: seq<T>, leq: (T, T) -> bool)
    ensures multiset(Insert(x, s, leq)) == multiset{x} + multiset(s)
  {
    if s != [] && !leq(x, s[0]) {
      InsertPermutes(x, s[1..], leq);
      assert s == [s[0]] + s[1..];
    }
  }

  lemma {:induction false} SortPermutes<T>(s: seq<T>, leq: (T, T) -> bool)
    ensures multiset(SortBy(s, leq)) == multiset(s) && |SortBy(s, leq)| == |s|
  {
    if s != [] {
      SortPermutes(s[1..], leq);
      InsertPermutes(s[0], SortBy(s[1..], leq), leq);
      assert s == [s[0]] + s[1..];
    }
    assert |multiset(SortBy(s, leq))| == |SortBy(s, leq)| && |multiset(s)| == |s|;
  }

  lemma {:induction false} InsertSorts<T(!new)>(x: T, s: seq<T>, leq: (T, T) -> bool)
    requires TotalPreorder(leq) && Sorted(s, leq)
    ensures Sorted(Insert(x, s, leq), leq)
  {
    if s != [] && !leq(x, s[0]) {
      InsertSorts(x, s[1..], leq);
      InsertPermutes(x, s[1..], leq);
      var rest := Insert(x, s[1..], leq);
      forall j | 0 <= j < |rest| ensures leq(s[0], rest[j]) {
        assert rest[j] in multiset(rest);
        assert rest[j] == x || rest[j] in s[1..];
      }
    }
  }

  lemma {:induction false} SortSorts<T(!new)>(s: seq<T>, leq: (T, T) -> bool)
    requires TotalPreorder(leq)
    ensures Sorted(SortBy(s, leq), leq)
  {
    if s != [] {
      SortSorts(s[1..], leq);
      InsertSorts(s[0], SortBy(s[1..], leq), leq);
    }
  }

  /** The elements that tie with `x`, in their order. */
  function Ties<T>(s: seq<T>, leq: (T, T) -> bool, x: T): seq<T> {
    if s == [] then [] else (if leq(s[0], x) && leq(x, s[0]) then [s[0]] else []) + Ties(s[1..], leq, x)
  }

  lemma {:induction false} InsertKeepsTies<T(!new)>(y: T, s: seq<T>, leq: (T, T) -> bool, x: T)
    requires TotalPreorder(leq)
    ensures Ties(Insert(y, s, leq), leq, x) == Ties([y] + s, leq, x)
  {
    assert ([y] + s)[1..] == s;
    if s != [] && !leq(y, s[0]) {
      InsertKeepsTies(y, s[1..], leq, x);
      assert ([y] + s[1..])[1..] == s[1..];
      assert !(leq(s[0], x) && leq(x, s[0]) && leq(y, x) && leq(x, y));
    }
  }

  /** Sorting is stable: elements that tie keep their order. */
  lemma {:induction false} SortStable<T(!new)>(s: seq<T>, leq: (T, T) -> bool, x: T)
    requires TotalPreorder(leq)
    ensures Ties(SortBy(s, leq), leq, x) == Ties(s, leq, x)
  {
    if s != [] {
      SortStable(s[1..], leq, x);
      InsertKeepsTies(s[0], SortBy(s[1..], leq), leq, x);
      var sorted := SortBy(s[1..], leq);
      assert ([s[0]] + sorted)[1..] == sorted;
    }
  }

  lemma SameElements<T>(a: seq<T>, b: seq<T>, x: T)
    requires multiset(a) == multiset(b)
    ensures x in a <==> x in b
  {
    assert x in a <==> x in multiset(a);
    assert x in b <==> x in multiset(b);
  }

  ghost predicate DistinctBy<T, K>(s: seq<T>, key: T -> K) {
    forall i, j :: 0 <= i < j < |s| ==> key(s[i]) != key(s[j])
  }

  lemma {:induction false} TwiceCounts<T>(s: seq<T>, i: nat, j: nat)
    requires i < j < |s| && s[i] == s[j]
    ensures multiset(s)[s[i]] >= 2
  {
    assert s == s[..j] + [s[j]] + s[j + 1..];
    assert s[..j][i] == s[i];
  }

  lemma {:induction false} OnceEach<T, K>(s: seq<T>, key: T -> K, x: T)
    requires DistinctBy(s, key)
    ensures multiset(s)[x] == if x in s then 1 else 0
  {
    if s != [] {
      assert s == [s[0]] + s[1..];
      OnceEach(s[1..], key, x);
      if s[0] == x {
        forall j | 0 <= j < |s[1..]| ensures s[1..][j] != x { assert key(s[0]) != key(s[j + 1]); }
      }
    }
  }

  /** A permutation keeps keys apart. */
  lemma DistinctByPermutes<T, K>(s: seq<T>, t: seq<T>, key: T -> K)
    requires DistinctBy(s, key) && multiset(s) == multiset(t)
    ensures DistinctBy(t, key)
  {
    forall i, j | 0 <= i < j < |t| ensures key(t[i]) != key(t[j]) {
      if t[i] == t[j] {
        TwiceCounts(t, i, j);
        OnceEach(s, key, t[i]);
      } else {
        SameElements(s, t, t[i]);
        SameElements(s, t, t[j]);
        var a :| 0 <= a < |s| && s[a] == t[i];
        var b :| 0 <= b < |s| && s[b] == t[j];
        if a < b { assert key(s[a]) != key(s[b]); } else { assert key(s[b]) != key(s[a]); }
      }
    }
  }

  /** With keys apart, the same elements are the same items. */
  lemma SameItems<T, K>(s: seq<T>, t: seq<T>, key: T -> K)
    requires DistinctBy(s, key) && DistinctBy(t, key) && forall x :: x in s <==> x in t
    ensures multiset(s) == multiset(t)
  {
    forall x: T ensures multiset(s)[x] == multiset(t)[x] {
      OnceEach(s, key, x);
      OnceEach(t, key, x);
    }
  }
}
