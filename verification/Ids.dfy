/** Record ids: "12:3" and "#12:3", with blanks around them, both mean "#12:3". */
module Ids {
  import opened Collections

  predicate IsDigit(c: char) { '0' <= c <= '9' }

  /** What `String.prototype.trim` strips. */
  predicate IsSpace(c: char) {
    var n := c as int;
    9 <= n <= 13 || n == 0x20 || n == 0xA0 || n == 0x1680 || 0x2000 <= n <= 0x200A || n == 0x2028 || n == 0x2029
    || n == 0x202F || n == 0x205F || n == 0x3000 || n == 0xFEFF
  }

  function TrimLeft(s: string): string {
    if s != "" && IsSpace(s[0]) then TrimLeft(s[1..]) else s
  }

  function TrimRight(s: string): string {
    if s != "" && IsSpace(s[|s| - 1]) then TrimRight(s[..|s| - 1]) else s
  }

  predicate Digits(s: string) { s != "" && forall i :: 0 <= i < |s| ==> IsDigit(s[i]) }

  /** `\d+:\d+`: where the colon is. */
  predicate IsPair(s: string, colon: nat) {
    colon < |s| && s[colon] == ':' && Digits(s[..colon]) && Digits(s[colon + 1..])
  }

  function ColonFrom(s: string, i: nat): nat
    requires i <= |s|
    decreases |s| - i
  {
    if i == |s| || s[i] == ':' then i else ColonFrom(s, i + 1)
  }

  function StripHash(s: string): string { if s != "" && s[0] == '#' then s[1..] else s }

  /** `tryRid`: the normalised rid, or None for anything else. */
  function TryRid(value: string): Option<string> {
    var s := StripHash(TrimRight(TrimLeft(value)));
    if IsPair(s, ColonFrom(s, 0)) then Some("#" + s) else None
  }

  lemma {:induction false} ColonIs(s: string, i: nat, colon: nat)
    requires i <= colon && IsPair(s, colon)
    ensures ColonFrom(s, i) == colon
    decreases colon - i
  {
    if i < colon {
      assert IsDigit(s[..colon][i]);
      ColonIs(s, i + 1, colon);
    }
  }

  /** A digit pair is a rid with or without the hash, and both forms have the same normal form. */
  lemma HashIsOptional(s: string, colon: nat)
    requires IsPair(s, colon)
    ensures TryRid(s) == Some("#" + s) && TryRid("#" + s) == Some("#" + s)
  {
    ColonIs(s, 0, colon);
    assert IsDigit(s[..colon][0]);
    assert s[|s| - 1] == s[colon + 1..][|s| - colon - 2] && IsDigit(s[colon + 1..][|s| - colon - 2]);
    var h := "#" + s;
    assert h[|h| - 1] == s[|s| - 1] && h[1..] == s;
    assert TrimLeft(s) == s && TrimRight(s) == s && TrimLeft(h) == h && TrimRight(h) == h;
  }

  // ---- what trimming means ----

  predicate Blank(s: string) { forall i :: 0 <= i < |s| ==> IsSpace(s[i]) }

  /** No blank at either end. */
  predicate Bare(s: string) { s != "" ==> !IsSpace(s[0]) && !IsSpace(s[|s| - 1]) }

  lemma {:induction false} TrimLeftOf(a: string, u: string)
    requires Blank(a) && (u != "" ==> !IsSpace(u[0]))
    ensures TrimLeft(a + u) == u
  {
    if a == "" {
      assert a + u == u;
    } else {
      assert (a + u)[0] == a[0] && (a + u)[1..] == a[1..] + u;
      TrimLeftOf(a[1..], u);
    }
  }

  lemma {:induction false} TrimRightOf(u: string, b: string)
    requires Blank(b) && (u != "" ==> !IsSpace(u[|u| - 1]))
    ensures TrimRight(u + b) == u
    decreases |b|
  {
    if b == "" {
      assert u + b == u;
    } else {
      var shorter := b[..|b| - 1];
      assert (u + b)[|u + b| - 1] == b[|b| - 1] && (u + b)[..|u + b| - 1] == u + shorter;
      TrimRightOf(u, shorter);
    }
  }

  /** Trimming takes off exactly the blanks around. */
  lemma TrimOf(a: string, u: string, b: string)
    requires Blank(a) && Bare(u) && Blank(b)
    ensures TrimRight(TrimLeft(a + u + b)) == u
  {
    if u == "" {
      assert a + u + b == (a + b) + "";
      TrimLeftOf(a + b, "");
    } else {
      assert a + u + b == a + (u + b);
      TrimLeftOf(a, u + b);
      TrimRightOf(u, b);
    }
  }

  lemma {:induction false} TrimLeftParts(v: string) returns (a: string)
    ensures Blank(a) && v == a + TrimLeft(v) && (TrimLeft(v) != "" ==> !IsSpace(TrimLeft(v)[0]))
  {
    a := "";
    if v != "" && IsSpace(v[0]) {
      a := TrimLeftParts(v[1..]);
      a := [v[0]] + a;
    }
  }

  lemma {:induction false} TrimRightParts(v: string) returns (b: string)
    ensures Blank(b) && v == TrimRight(v) + b && (TrimRight(v) != "" ==> !IsSpace(TrimRight(v)[|TrimRight(v)| - 1]))
    decreases |v|
  {
    b := "";
    if v != "" && IsSpace(v[|v| - 1]) {
      b := TrimRightParts(v[..|v| - 1]);
      b := b + [v[|v| - 1]];
    }
  }

  lemma TrimParts(v: string) returns (a: string, b: string)
    ensures Blank(a) && Blank(b) && Bare(TrimRight(TrimLeft(v))) && v == a + TrimRight(TrimLeft(v)) + b
  {
    a := TrimLeftParts(v);
    b := TrimRightParts(TrimLeft(v));
  }

  /** `u` is the text without the blanks around it. */
  ghost predicate IsTrimmed(value: string, u: string) {
    Bare(u) && exists a: string, b: string :: Blank(a) && Blank(b) && value == a + u + b
  }

  lemma TrimMeans(value: string, u: string)
    ensures IsTrimmed(value, u) <==> u == TrimRight(TrimLeft(value))
  {
    if IsTrimmed(value, u) {
      var a: string, b: string :| Blank(a) && Blank(b) && value == a + u + b;
      TrimOf(a, u, b);
    }
    var a, b := TrimParts(value);
  }

  /** The text reads as this digit pair: between blanks, with or without the hash. */
  ghost predicate ReadsAs(value: string, s: string) {
    exists a: string, b: string :: Blank(a) && Blank(b) && (value == a + s + b || value == a + ("#" + s) + b)
  }

  ghost predicate IsDigitPair(s: string) { exists colon: nat :: IsPair(s, colon) }

  /** A text is a rid exactly when it is a digit pair with or without the hash, blanks around it aside, and its
      normal form is that pair with the hash. */
  lemma TryRidMeans(value: string, s: string)
    ensures TryRid(value) == Some("#" + s) <==> IsDigitPair(s) && ReadsAs(value, s)
    ensures TryRid(value).Some? ==> exists t :: TryRid(value) == Some("#" + t)
  {
    if IsDigitPair(s) && ReadsAs(value, s) { ReadRid(value, s); }
    if TryRid(value) == Some("#" + s) { RidReads(value, s); }
  }

  lemma RidReads(value: string, s: string)
    requires TryRid(value) == Some("#" + s)
    ensures IsDigitPair(s) && ReadsAs(value, s)
  {
    var v := TrimRight(TrimLeft(value));
    assert StripHash(v) == s by { assert StripHash(v) == ("#" + StripHash(v))[1..] && s == ("#" + s)[1..]; }
    var a, b := TrimParts(value);
    HashOrNot(v);
    Around(value, a, v, b, s);
  }

  lemma HashOrNot(v: string)
    ensures v == StripHash(v) || v == "#" + StripHash(v)
  {
  }

  lemma Around(value: string, a: string, v: string, b: string, s: string)
    requires Blank(a) && Blank(b) && value == a + v + b && (v == s || v == "#" + s)
    ensures ReadsAs(value, s)
  {
  }

  lemma ReadRid(value: string, s: string)
    requires IsDigitPair(s) && ReadsAs(value, s)
    ensures TryRid(value) == Some("#" + s)
  {
    var colon: nat :| IsPair(s, colon);
    var a: string, b: string :| Blank(a) && Blank(b) && (value == a + s + b || value == a + ("#" + s) + b);
    ColonIs(s, 0, colon);
    assert IsDigit(s[..colon][0]) && s[0] == s[..colon][0];
    assert s[|s| - 1] == s[colon + 1..][|s| - colon - 2] && IsDigit(s[colon + 1..][|s| - colon - 2]);
    if value == a + s + b {
      TrimOf(a, s, b);
    } else {
      TrimOf(a, "#" + s, b);
    }
  }
}
