/**
 * The string operations the service applies to ticker symbols: `str.upper()`,
 * `str.strip()` and `str.split(",")`, restricted to ASCII, and the token list
 * that the batch endpoint builds from its comma-separated query parameter.
 */
module Text {

  /** Python's `str.isspace` on the ASCII range: tab, line feed, vertical tab,
      form feed, carriage return (9..13), the four information separators
      (28..31) and the space (32). */
  predicate IsSpace(c: char) {
    9 <= c as int <= 13 || 28 <= c as int <= 32
  }

  predicate AllSpace(s: string) {
    forall k :: 0 <= k < |s| ==> IsSpace(s[k])
  }

  /** No ASCII lower-case letter occurs in `s`. */
  predicate NoLower(s: string) {
    forall k :: 0 <= k < |s| ==> !('a' <= s[k] <= 'z')
  }

  function UpperChar(c: char): (u: char)
    ensures !('a' <= u <= 'z')
    ensures 'a' <= c <= 'z' ==> u as int == c as int - 32
    ensures !('a' <= c <= 'z') ==> u == c
  {
    if 'a' <= c <= 'z' then (c as int - 32) as char else c
  }

  /** `s.upper()`: every ASCII letter a-z is replaced by its capital, every
      other character is kept, position by position. */
  function Upper(s: string): (r: string)
    ensures |r| == |s|
    ensures forall k :: 0 <= k < |s| ==> r[k] == UpperChar(s[k])
    ensures NoLower(r)
  {
    if s == [] then [] else [UpperChar(s[0])] + Upper(s[1..])
  }

  /** Upper-casing twice is upper-casing once, so a key that is already
      upper case is its own key. */
  lemma UpperIdempotent(s: string)
    ensures Upper(Upper(s)) == Upper(s)
  {
    var u := Upper(s);
    assert forall k :: 0 <= k < |u| ==> Upper(u)[k] == u[k] by {
      forall k | 0 <= k < |u| ensures Upper(u)[k] == u[k] {
        assert u[k] == UpperChar(s[k]);
      }
    }
  }

  /** The first index at or after `i` that does not hold whitespace, or `|s|`. */
  function SkipLeading(s: string, i: nat): (e: nat)
    requires i <= |s|
    ensures i <= e <= |s|
    ensures forall k :: i <= k < e ==> IsSpace(s[k])
    ensures e < |s| ==> !IsSpace(s[e])
    decreases |s| - i
  {
    if i < |s| && IsSpace(s[i]) then SkipLeading(s, i + 1) else i
  }

  /** The end of `s[lo..j]` once its trailing whitespace is dropped. */
  function SkipTrailing(s: string, lo: nat, j: nat): (e: nat)
    requires lo <= j <= |s|
    ensures lo <= e <= j
    ensures forall k :: e <= k < j ==> IsSpace(s[k])
    ensures lo < e ==> !IsSpace(s[e - 1])
  {
    if lo < j && IsSpace(s[j - 1]) then SkipTrailing(s, lo, j - 1) else j
  }

  /** `r` occurs in `s` from index `i` on, and all of `s` before and after
      that occurrence is whitespace. */
  predicate StrippedAt(s: string, i: int, r: string) {
    && 0 <= i <= |s| - |r|
    && (forall k :: 0 <= k < |r| ==> r[k] == s[i + k])
    && (forall k :: 0 <= k < i ==> IsSpace(s[k]))
    && (forall k :: i + |r| <= k < |s| ==> IsSpace(s[k]))
  }

  /** `s.strip()`: a piece of `s` with only whitespace around it in `s`, which
      neither starts nor ends with whitespace; it is empty exactly when `s` is
      all whitespace. */
  function Strip(s: string): (r: string)
    ensures exists i :: StrippedAt(s, i, r)
    ensures r != [] ==> !IsSpace(r[0]) && !IsSpace(r[|r| - 1])
    ensures r == [] <==> AllSpace(s)
  {
    var a := SkipLeading(s, 0);
    var b := SkipTrailing(s, a, |s|);
    assert StrippedAt(s, a, s[a..b]);
    s[a..b]
  }

  /** Stripping adds no character, in particular no comma. */
  lemma StripNoComma(s: string)
    requires ',' !in s
    ensures ',' !in Strip(s)
  {
    var r := Strip(s);
    var i :| StrippedAt(s, i, r);
    forall k | 0 <= k < |r| ensures r[k] != ',' {
      assert r[k] == s[i + k];
    }
  }

  /** `",".join(ps)` */
  function Join(ps: seq<string>): string
  {
    if ps == [] then []
    else if |ps| == 1 then ps[0]
    else ps[0] + [','] + Join(ps[1..])
  }

  /** `s.split(",")`: never empty, no piece holds a comma, and joining the
      pieces with commas gives `s` back. */
  function Split(s: string): (ps: seq<string>)
    ensures ps != []
    ensures forall i :: 0 <= i < |ps| ==> ',' !in ps[i]
    ensures Join(ps) == s
  {
    if s == [] then [[]]
    else
      var rest := Split(s[1..]);
      if s[0] == ',' then
        assert ([[]] + rest)[1..] == rest;
        [[]] + rest
      else
        var ps := [[s[0]] + rest[0]] + rest[1..];
        assert ps[1..] == rest[1..];
        if |rest| == 1 then ps
        else
          assert Join(rest) == rest[0] + [','] + Join(rest[1..]);
          assert Join(ps) == [s[0]] + rest[0] + [','] + Join(rest[1..]);
          assert s == [s[0]] + s[1..];
          ps
  }

  lemma {:induction false} SplitNoComma(a: string)
    requires ',' !in a
    ensures Split(a) == [a]
  {
    if a != [] {
      SplitNoComma(a[1..]);
      assert [a[0]] + a[1..] == a;
    }
  }

  /** Splitting at a comma splits the two sides independently. */
  lemma {:induction false} SplitAtComma(a: string, b: string)
    ensures Split(a + [','] + b) == Split(a) + Split(b)
  {
    var s := a + [','] + b;
    if a == [] {
      assert s[1..] == b;
    } else {
      assert s[1..] == a[1..] + [','] + b;
      SplitAtComma(a[1..], b);
    }
  }

  /** Splitting undoes joining, for pieces that hold no comma. */
  lemma {:induction false} SplitJoin(ps: seq<string>)
    requires ps != []
    requires forall i :: 0 <= i < |ps| ==> ',' !in ps[i]
    ensures Split(Join(ps)) == ps
  {
    SplitNoComma(ps[0]);
    if |ps| > 1 {
      SplitJoin(ps[1..]);
      SplitAtComma(ps[0], Join(ps[1..]));
      assert [ps[0]] + ps[1..] == ps;
    }
  }

  /** Strips every piece and keeps the non-empty results, in order. */
  function Clean(ps: seq<string>): (ts: seq<string>)
    ensures |ts| <= |ps|
    ensures forall i :: 0 <= i < |ts| ==> ts[i] != [] && !IsSpace(ts[i][0]) && !IsSpace(ts[i][|ts[i]| - 1])
  {
    if ps == [] then []
    else
      var t := Strip(ps[0]);
      if t == [] then Clean(ps[1..]) else [t] + Clean(ps[1..])
  }

  lemma {:induction false} CleanAppend(xs: seq<string>, ys: seq<string>)
    ensures Clean(xs + ys) == Clean(xs) + Clean(ys)
  {
    if xs == [] {
      assert xs + ys == ys;
    } else {
      assert (xs + ys)[1..] == xs[1..] + ys;
      CleanAppend(xs[1..], ys);
    }
  }

  /** The batch endpoint's symbol list: `[s.strip() for s in symbols.split(",") if s.strip()]`. */
  function Tokens(symbols: string): (ts: seq<string>)
    ensures forall i :: 0 <= i < |ts| ==> ts[i] != [] && ',' !in ts[i]
    ensures forall i :: 0 <= i < |ts| ==> !IsSpace(ts[i][0]) && !IsSpace(ts[i][|ts[i]| - 1])
  {
    var ps := Split(symbols);
    CleanFromPieces(ps);
    Clean(ps)
  }

  lemma {:induction false} CleanFromPieces(ps: seq<string>)
    requires forall i :: 0 <= i < |ps| ==> ',' !in ps[i]
    ensures forall i :: 0 <= i < |Clean(ps)| ==> ',' !in Clean(ps)[i]
  {
    if ps != [] {
      CleanFromPieces(ps[1..]);
      StripNoComma(ps[0]);
    }
  }

  /** Tokens keep input order: the tokens of two comma-joined lists are the
      tokens of the first followed by those of the second. */
  lemma TokensAtComma(a: string, b: string)
    ensures Tokens(a + [','] + b) == Tokens(a) + Tokens(b)
  {
    SplitAtComma(a, b);
    CleanAppend(Split(a), Split(b));
  }

  /** A symbol with no comma and no surrounding whitespace is its own single
      token; with `TokensAtComma`, "SMCI,MU,TSLA" is the list of its three
      symbols in order. */
  lemma PlainSymbolToken(a: string)
    requires a != [] && ',' !in a
    requires !IsSpace(a[0]) && !IsSpace(a[|a| - 1])
    ensures Tokens(a) == [a]
  {
    SplitNoComma(a);
    assert SkipLeading(a, 0) == 0;
    assert SkipTrailing(a, 0, |a|) == |a|;
    assert a[0..|a|] == a;
  }

  /** A comma-free piece gives its stripped form as its one token, or no
      token when it is all whitespace: " msft " gives "msft". With
      `TokensAtComma` this fixes the tokens of every input. */
  lemma TokenOfPiece(a: string)
    requires ',' !in a
    ensures Tokens(a) == if Strip(a) == [] then [] else [Strip(a)]
  {
    SplitNoComma(a);
  }

  /** Every character is whitespace or a comma. */
  predicate OnlySeparators(s: string) {
    forall k :: 0 <= k < |s| ==> IsSpace(s[k]) || s[k] == ','
  }

  predicate AllBlank(ps: seq<string>) {
    forall i :: 0 <= i < |ps| ==> AllSpace(ps[i])
  }

  lemma {:induction false} CleanEmpty(ps: seq<string>)
    ensures Clean(ps) == [] <==> AllBlank(ps)
  {
    if ps != [] {
      CleanEmpty(ps[1..]);
      AllBlankCons(ps);
    }
  }

  lemma AllBlankCons(ps: seq<string>)
    requires ps != []
    ensures AllBlank(ps) <==> AllSpace(ps[0]) && AllBlank(ps[1..])
  {
    if AllSpace(ps[0]) && AllBlank(ps[1..]) {
      forall i | 0 <= i < |ps| ensures AllSpace(ps[i]) {
        if i > 0 { assert ps[i] == ps[1..][i - 1]; }
      }
    }
  }

  lemma AllSpaceCons(x: string)
    requires x != []
    ensures AllSpace(x) <==> IsSpace(x[0]) && AllSpace(x[1..])
  {
    if IsSpace(x[0]) && AllSpace(x[1..]) {
      forall k | 0 <= k < |x| ensures IsSpace(x[k]) {
        if k > 0 { assert x[k] == x[1..][k - 1]; }
      }
    }
  }

  lemma OnlySeparatorsCons(s: string)
    requires s != []
    ensures OnlySeparators(s) <==> (IsSpace(s[0]) || s[0] == ',') && OnlySeparators(s[1..])
  {
    if (IsSpace(s[0]) || s[0] == ',') && OnlySeparators(s[1..]) {
      forall k | 0 <= k < |s| ensures IsSpace(s[k]) || s[k] == ',' {
        if k > 0 { assert s[k] == s[1..][k - 1]; }
      }
    }
  }

  lemma {:induction false} SplitBlank(s: string)
    ensures AllBlank(Split(s)) <==> OnlySeparators(s)
  {
    if s == [] {
      assert Split(s) == [[]];
    } else {
      SplitBlank(s[1..]);
      OnlySeparatorsCons(s);
      var rest := Split(s[1..]);
      AllBlankCons(rest);
      var ps := Split(s);
      AllBlankCons(ps);
      if s[0] == ',' {
        assert ps == [[]] + rest;
        assert ps[1..] == rest;
      } else {
        assert ps == [[s[0]] + rest[0]] + rest[1..];
        assert ps[1..] == rest[1..];
        AllSpaceCons(ps[0]);
        assert ps[0][0] == s[0] && ps[0][1..] == rest[0];
      }
    }
  }

  /** A symbol list yields no token exactly when it consists of nothing but
      whitespace and commas (the empty string included). */
  lemma TokensEmpty(symbols: string)
    ensures Tokens(symbols) == [] <==> OnlySeparators(symbols)
  {
    CleanEmpty(Split(symbols));
    SplitBlank(symbols);
  }

}
