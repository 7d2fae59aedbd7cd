/**
 * The small pieces of JavaScript semantics the pages rely on: nullable values,
 * how `null` reads as a number, what `String.prototype.trim` and the regular
 * expression class `\s` count as white space, what `.length` counts, and how
 * an integer is printed into a template string.
 */
module Js {

  datatype Option<T> = None | Some(value: T)

  /** `v || 0` (and every arithmetic use) on a nullable numeric column: null reads as 0. */
  function OrZero(v: Option<int>): int {
    if v.Some? then v.value else 0
  }

  /**
   * The WhiteSpace and LineTerminator code points of ECMAScript: exactly what
   * `trim()` strips and what `\s` matches.
   */
  predicate IsSpace(c: char) {
    c == '\t' || c == '\n' || c == '\U{B}' || c == '\U{C}' || c == '\r' || c == ' '
    || c == '\U{A0}' || c == '\U{1680}' || ('\U{2000}' <= c <= '\U{200A}')
    || c == '\U{2028}' || c == '\U{2029}' || c == '\U{202F}' || c == '\U{205F}'
    || c == '\U{3000}' || c == '\U{FEFF}'
  }

  predicate AllSpace(s: string) {
    forall i :: 0 <= i < |s| ==> IsSpace(s[i])
  }

  function TrimStart(s: string): string {
    if s != [] && IsSpace(s[0]) then TrimStart(s[1..]) else s
  }

  function TrimEnd(s: string): string {
    if s != [] && IsSpace(s[|s| - 1]) then TrimEnd(s[..|s| - 1]) else s
  }

  /** `s.trim()`. */
  function Trim(s: string): string {
    TrimEnd(TrimStart(s))
  }

  /** `s.length`: UTF-16 code units, so a code point above U+FFFF counts twice. */
  function Utf16Length(s: string): (n: nat)
    ensures |s| <= n <= 2 * |s|
  {
    if s == [] then 0 else (if s[0] as int > 0xFFFF then 2 else 1) + Utf16Length(s[1..])
  }

  /** An integer interpolated into a template string, in decimal. */
  function IntToString(n: int): string {
    if n < 0 then "-" + NatToString(-n) else NatToString(n)
  }

  function NatToString(n: nat): string
    decreases n
  {
    if n < 10 then [Digit(n)] else NatToString(n / 10) + [Digit(n % 10)]
  }

  function Digit(d: nat): char
    requires d < 10
  {
    "0123456789"[d]
  }

  /**
   * The keys of an object filled by assigning keys in the order `ks`: each
   * key once, in first-assignment order, which is the `Object.keys` order for
   * keys that are not array indices.
   */
  function InsertionOrder<T(==,!new)>(ks: seq<T>): (r: seq<T>)
    ensures forall k :: k in r <==> k in ks
    decreases |ks|
  {
    if ks == [] then []
    else
      var prev := InsertionOrder(ks[..|ks| - 1]);
      assert forall k :: k in ks <==> k in ks[..|ks| - 1] || k == ks[|ks| - 1];
      if ks[|ks| - 1] in prev then prev else prev + [ks[|ks| - 1]]
  }

  /** The position of the first `k` in `ks`. */
  function FirstIndex<T(==)>(ks: seq<T>, k: T): (p: nat)
    requires k in ks
    ensures p < |ks| && ks[p] == k
    ensures forall q :: 0 <= q < p ==> ks[q] != k
    decreases |ks|
  {
    if ks[0] == k then 0 else 1 + FirstIndex(ks[1..], k)
  }

  // ---------------------------------------------------------------------------
  // Properties of trim

  lemma {:induction false} TrimStartIsSuffix(s: string)
    ensures |TrimStart(s)| <= |s| && TrimStart(s) == s[|s| - |TrimStart(s)|..]
    ensures AllSpace(s[..|s| - |TrimStart(s)|])
    ensures TrimStart(s) != [] ==> !IsSpace(TrimStart(s)[0])
    decreases |s|
  {
    if s != [] && IsSpace(s[0]) {
      TrimStartIsSuffix(s[1..]);
      var k := |s| - |TrimStart(s)|;
      assert s[..k] == [s[0]] + s[1..][..k - 1];
    }
  }

  lemma {:induction false} TrimEndIsPrefix(s: string)
    ensures |TrimEnd(s)| <= |s| && TrimEnd(s) == s[..|TrimEnd(s)|]
    ensures AllSpace(s[|TrimEnd(s)|..])
    ensures TrimEnd(s) != [] ==> !IsSpace(TrimEnd(s)[|TrimEnd(s)| - 1])
    decreases |s|
  {
    if s != [] && IsSpace(s[|s| - 1]) {
      var t := s[..|s| - 1];
      TrimEndIsPrefix(t);
      var k := |TrimEnd(s)|;
      assert s[k..] == t[k..] + [s[|s| - 1]];
    }
  }

  /**
   * `s.trim()` is the part of `s` between a white-space prefix and a
   * white-space suffix, and neither of its ends is white space.
   */
  lemma TrimIsInfix(s: string)
    ensures exists i, j :: 0 <= i <= j <= |s| && Trim(s) == s[i..j] && AllSpace(s[..i]) && AllSpace(s[j..])
    ensures Trim(s) != [] ==> !IsSpace(Trim(s)[0]) && !IsSpace(Trim(s)[|Trim(s)| - 1])
  {
    var u := TrimStart(s);
    TrimStartIsSuffix(s);
    TrimEndIsPrefix(u);
    var i := |s| - |u|;
    var j := i + |TrimEnd(u)|;
    assert Trim(s) == s[i..j];
    assert s[j..] == u[|TrimEnd(u)|..];
    if Trim(s) != [] {
      assert Trim(s)[0] == u[0];
    }
  }

  /** `s.trim()` is empty exactly when `s` is all white space. */
  lemma {:induction false} TrimEmptyIff(s: string)
    ensures Trim(s) == [] <==> AllSpace(s)
  {
    TrimIsInfix(s);
    var i, j :| 0 <= i <= j <= |s| && Trim(s) == s[i..j] && AllSpace(s[..i]) && AllSpace(s[j..]);
    if Trim(s) == [] {
      forall k | 0 <= k < |s| ensures IsSpace(s[k]) {
        if k < i { assert s[k] == s[..i][k]; } else { assert s[k] == s[j..][k - j]; }
      }
    } else {
      assert s[i] == Trim(s)[0];
    }
  }

  lemma {:induction false} TrimStartNoop(s: string)
    requires s == [] || !IsSpace(s[0])
    ensures TrimStart(s) == s
  {
  }

  lemma {:induction false} TrimEndNoop(s: string)
    requires s == [] || !IsSpace(s[|s| - 1])
    ensures TrimEnd(s) == s
  {
  }

  /** Leading white space in front of a non-space start is what `trimStart` drops. */
  lemma {:induction false} TrimStartPadding(pre: string, rest: string)
    requires AllSpace(pre) && (rest == [] || !IsSpace(rest[0]))
    ensures TrimStart(pre + rest) == rest
    decreases |pre|
  {
    if pre == [] {
      assert pre + rest == rest;
      TrimStartNoop(rest);
    } else {
      assert IsSpace((pre + rest)[0]);
      assert (pre + rest)[1..] == pre[1..] + rest;
      TrimStartPadding(pre[1..], rest);
    }
  }

  /** Trailing white space after a non-space end is what `trimEnd` drops. */
  lemma {:induction false} TrimEndPadding(rest: string, post: string)
    requires AllSpace(post) && (rest == [] || !IsSpace(rest[|rest| - 1]))
    ensures TrimEnd(rest + post) == rest
    decreases |post|
  {
    if post == [] {
      assert rest + post == rest;
      TrimEndNoop(rest);
    } else {
      var s := rest + post;
      assert IsSpace(s[|s| - 1]);
      assert s[..|s| - 1] == rest + post[..|post| - 1];
      TrimEndPadding(rest, post[..|post| - 1]);
    }
  }

  /** `trim` gives back a text with non-space ends from between any white-space padding. */
  lemma {:induction false} TrimPadding(pre: string, core: string, post: string)
    requires AllSpace(pre) && AllSpace(post)
    requires core != [] && !IsSpace(core[0]) && !IsSpace(core[|core| - 1])
    ensures Trim(pre + core + post) == core
  {
    assert pre + core + post == pre + (core + post);
    TrimStartPadding(pre, core + post);
    TrimEndPadding(core, post);
  }

  /** Trimming twice is trimming once. */
  lemma {:induction false} TrimIdempotent(s: string)
    ensures Trim(Trim(s)) == Trim(s)
  {
    var t := Trim(s);
    TrimIsInfix(s);
    TrimStartNoop(t);
    TrimEndNoop(t);
  }

  lemma {:induction false} AllSpaceSlice(s: string, i: nat, j: nat)
    requires AllSpace(s) && i <= j <= |s|
    ensures AllSpace(s[i..j])
  {
    assert forall k :: 0 <= k < j - i ==> s[i..j][k] == s[i + k];
  }

  /** The printed form of a natural number is one or more decimal digits. */
  lemma {:induction false} NatToStringDigits(n: nat)
    ensures |NatToString(n)| >= 1
    ensures forall k :: 0 <= k < |NatToString(n)| ==> '0' <= NatToString(n)[k] <= '9'
    decreases n
  {
    if n >= 10 {
      NatToStringDigits(n / 10);
    }
  }

  // ---------------------------------------------------------------------------
  // Properties of insertion order

  /** Each key is listed once. */
  lemma {:induction false} InsertionOrderDistinct<T(!new)>(ks: seq<T>)
    ensures forall i, j :: 0 <= i < j < |InsertionOrder(ks)| ==> InsertionOrder(ks)[i] != InsertionOrder(ks)[j]
    decreases |ks|
  {
    if ks != [] {
      InsertionOrderDistinct(ks[..|ks| - 1]);
    }
  }

  lemma {:induction false} FirstIndexPrefix<T>(ks: seq<T>, x: T, k: T)
    requires k in ks
    ensures FirstIndex(ks + [x], k) == FirstIndex(ks, k)
    decreases |ks|
  {
    if ks[0] != k {
      assert (ks + [x])[1..] == ks[1..] + [x];
      FirstIndexPrefix(ks[1..], x, k);
    }
  }

  /** The keys are listed in the order in which each was first assigned. */
  lemma {:induction false} InsertionOrderByFirstAppearance<T(!new)>(ks: seq<T>)
    ensures forall i, j :: 0 <= i < j < |InsertionOrder(ks)| ==>
      FirstIndex(ks, InsertionOrder(ks)[i]) < FirstIndex(ks, InsertionOrder(ks)[j])
    decreases |ks|
  {
    if ks != [] {
      var init, x := ks[..|ks| - 1], ks[|ks| - 1];
      assert ks == init + [x];
      var prev := InsertionOrder(init);
      InsertionOrderByFirstAppearance(init);
      forall k | k in init
        ensures FirstIndex(ks, k) == FirstIndex(init, k)
      {
        FirstIndexPrefix(init, x, k);
      }
      if x !in prev {
        var r := InsertionOrder(ks);
        assert r == prev + [x];
        assert FirstIndex(ks, x) == |init| by {
          assert x !in init;
        }
      }
    }
  }

  // ---------------------------------------------------------------------------
  // Counting copies

  /** In a list without repeats, a listed element occurs once. */
  lemma {:induction false} DistinctCountsOnce<T>(xs: seq<T>, v: T)
    requires forall i, j :: 0 <= i < j < |xs| ==> xs[i] != xs[j]
    requires v in xs
    ensures multiset(xs)[v] == 1
    decreases |xs|
  {
    assert xs == [xs[0]] + xs[1..];
    if xs[0] != v {
      DistinctCountsOnce(xs[1..], v);
    } else {
      assert v !in xs[1..];
    }
  }

  /** An element found at two positions occurs at least twice. */
  lemma {:induction false} RepeatCountsTwice<T>(xs: seq<T>, i: nat, j: nat)
    requires i < j < |xs| && xs[i] == xs[j]
    ensures multiset(xs)[xs[i]] >= 2
  {
    assert xs == xs[..j] + [xs[j]] + xs[j + 1..];
    assert xs[i] in xs[..j];
  }

  // ---------------------------------------------------------------------------
  // Properties of the UTF-16 length

  lemma {:induction false} Utf16LengthConcat(a: string, b: string)
    ensures Utf16Length(a + b) == Utf16Length(a) + Utf16Length(b)
    decreases |a|
  {
    if a != [] {
      assert (a + b)[1..] == a[1..] + b;
      Utf16LengthConcat(a[1..], b);
    } else {
      assert a + b == b;
    }
  }

  /** A prefix or a suffix is never longer than the whole. */
  lemma Utf16LengthParts(s: string, k: nat)
    requires k <= |s|
    ensures Utf16Length(s[..k]) <= Utf16Length(s) && Utf16Length(s[k..]) <= Utf16Length(s)
  {
    assert s == s[..k] + s[k..];
    Utf16LengthConcat(s[..k], s[k..]);
  }

  /** Trimming never lengthens a string. */
  lemma TrimShortens(s: string)
    ensures Utf16Length(Trim(s)) <= Utf16Length(s)
  {
    var u := TrimStart(s);
    TrimStartIsSuffix(s);
    Utf16LengthParts(s, |s| - |u|);
    TrimEndIsPrefix(u);
    Utf16LengthParts(u, |TrimEnd(u)|);
  }
}
