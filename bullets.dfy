/**
 * `parseToBullets`: a text is cut at every newline, every "â€¢" (the
 * bullet character as it reads after a wrong decoding) and every hyphen
 * followed by white space; the pieces are trimmed and the empty ones dropped.
 */
module Bullets {
  import opened Js

  /** The three characters of the bullet separator, exactly as the pattern spells them. */
  const BulletMark: string := "\U{E2}\U{20AC}\U{A2}"

  /** The length of the white-space run `\s+` would take at the start of `s`. */
  function SpaceRun(s: string): (n: nat)
    ensures n <= |s| && AllSpace(s[..n])
    ensures n < |s| ==> !IsSpace(s[n])
    decreases |s|
  {
    if s != [] && IsSpace(s[0]) then
      var n := 1 + SpaceRun(s[1..]);
      assert forall i :: 1 <= i < n ==> s[..n][i] == s[1..][..n - 1][i - 1];
      n
    else 0
  }

  /**
   * The length of the separator `\n|â€¢|-\s+` matches at the start of `s`,
   * 0 when none does; the alternatives are tried in order and `\s+` is greedy.
   */
  function MatchLen(s: string): (n: nat)
    ensures n <= |s|
  {
    if s != [] && s[0] == '\n' then 1
    else if |s| >= 3 && s[..3] == BulletMark then 3
    else if |s| >= 2 && s[0] == '-' && IsSpace(s[1]) then 1 + SpaceRun(s[1..])
    else 0
  }

  /** The pieces `split` returns, and the separator text matched between each two. */
  datatype Pieces = Pieces(segments: seq<string>, separators: seq<string>)

  /**
   * `split` on the rest `s` of the text, `cur` being the piece read so far:
   * at each position the separator is tried; a match ends the piece.
   */
  function SplitFrom(s: string, cur: string): (r: Pieces)
    ensures |r.segments| == |r.separators| + 1
    decreases |s|
  {
    if s == [] then Pieces([cur], [])
    else
      var m := MatchLen(s);
      if m > 0 then
        var rest := SplitFrom(s[m..], []);
        Pieces([cur] + rest.segments, [s[..m]] + rest.separators)
      else SplitFrom(s[1..], cur + [s[0]])
  }

  function Split(s: string): (r: Pieces)
    ensures |r.segments| == |r.separators| + 1
  {
    SplitFrom(s, [])
  }

  /** The pieces put back together with the separators between them. */
  function Join(segments: seq<string>, separators: seq<string>): string
    requires |segments| == |separators| + 1
    decreases |separators|
  {
    if separators == [] then segments[0]
    else segments[0] + separators[0] + Join(segments[1..], separators[1..])
  }

  /** `.map(item => item.trim()).filter(item => item.length > 0)`. */
  function TrimNonEmpty(segments: seq<string>): (r: seq<string>)
    ensures |r| <= |segments|
    ensures forall i :: 0 <= i < |r| ==> r[i] != [] && Trim(r[i]) == r[i]
    decreases |segments|
  {
    if segments == [] then []
    else
      var last := segments[|segments| - 1];
      var t := Trim(last);
      TrimIdempotent(last);
      TrimNonEmpty(segments[..|segments| - 1]) + (if t != [] then [t] else [])
  }

  /**
   * The positions of the pieces the filter keeps: increasing, each bullet the
   * trim of the piece at its position, and every piece that is not empty once
   * trimmed is kept.
   */
  function KeptPositions(segments: seq<string>): (r: seq<nat>)
    ensures |r| == |TrimNonEmpty(segments)|
    ensures forall i :: 0 <= i < |r| ==> r[i] < |segments| && TrimNonEmpty(segments)[i] == Trim(segments[r[i]])
    ensures forall i, j :: 0 <= i < j < |r| ==> r[i] < r[j]
    ensures forall k :: 0 <= k < |segments| && Trim(segments[k]) != [] ==> k in r
    decreases |segments|
  {
    if segments == [] then []
    else
      var init, last := segments[..|segments| - 1], segments[|segments| - 1];
      var prev := KeptPositions(init);
      var kept := TrimNonEmpty(segments);
      assert kept == TrimNonEmpty(init) + (if Trim(last) != [] then [Trim(last)] else []);
      assert forall i :: 0 <= i < |prev| ==> kept[i] == TrimNonEmpty(init)[i];
      assert forall k :: 0 <= k < |init| ==> init[k] == segments[k];
      prev + (if Trim(last) != [] then [|segments| - 1] else [])
  }

  /** `parseToBullets`: a missing or empty text has no bullets. */
  function ParseToBullets(text: Option<string>): seq<string> {
    if text.None? || text.value == [] then [] else TrimNonEmpty(Split(text.value).segments)
  }

  /** No separator starts anywhere in `s`. */
  predicate SeparatorFree(s: string) {
    forall i :: 0 <= i < |s| ==> MatchLen(s[i..]) == 0
  }

  // ---------------------------------------------------------------------------

  /** A separator at the start of a text is still one, at least as long, whatever follows. */
  lemma MatchExtends(a: string, b: string)
    requires MatchLen(a) > 0
    ensures MatchLen(a + b) >= MatchLen(a)
  {
    var ab := a + b;
    if a[0] == '\n' {
    } else if |a| >= 3 && a[..3] == BulletMark {
      assert ab[..3] == a[..3];
    } else {
      assert ab[0] == '-' && ab[1] == a[1];
      assert ab[1..] == a[1..] + b;
      SpaceRunExtends(a[1..], b);
    }
  }

  lemma {:induction false} SpaceRunExtends(a: string, b: string)
    ensures SpaceRun(a + b) >= SpaceRun(a)
    decreases |a|
  {
    if a != [] && IsSpace(a[0]) {
      assert (a + b)[1..] == a[1..] + b;
      SpaceRunExtends(a[1..], b);
    }
  }

  /** Every matched separator is itself a whole match: a newline, the bullet mark, or a hyphen and all the white space after it. */
  lemma MatchedIsSeparator(s: string)
    requires MatchLen(s) > 0
    ensures MatchLen(s[..MatchLen(s)]) == MatchLen(s)
  {
    var m := MatchLen(s);
    var sep := s[..m];
    if s[0] == '\n' {
    } else if |s| >= 3 && s[..3] == BulletMark {
      assert sep[..3] == BulletMark;
    } else {
      assert sep[1..] == s[1..][..m - 1];
      SpaceRunAll(sep[1..]);
    }
  }

  lemma {:induction false} SpaceRunAll(s: string)
    requires AllSpace(s)
    ensures SpaceRun(s) == |s|
    decreases |s|
  {
    if s != [] {
      SpaceRunAll(s[1..]);
    }
  }

  /** Splitting loses nothing: the pieces with their separators between them give the text back. */
  lemma {:induction false} SplitJoin(s: string, cur: string)
    ensures Join(SplitFrom(s, cur).segments, SplitFrom(s, cur).separators) == cur + s
    decreases |s|
  {
    if s == [] {
      assert cur + s == cur;
    } else if MatchLen(s) > 0 {
      var m := MatchLen(s);
      SplitJoin(s[m..], []);
      JoinAfterCut(s, cur);
    } else {
      SplitJoin(s[1..], cur + [s[0]]);
      ReadOn(s, cur);
      assert cur + [s[0]] + s[1..] == cur + s;
    }
  }

  /** The join after a cut: the piece read, the separator, then the rest joined back. */
  lemma JoinAfterCut(s: string, cur: string)
    requires MatchLen(s) > 0
    requires Join(SplitFrom(s[MatchLen(s)..], []).segments, SplitFrom(s[MatchLen(s)..], []).separators) == [] + s[MatchLen(s)..]
    ensures Join(SplitFrom(s, cur).segments, SplitFrom(s, cur).separators) == cur + s
  {
    var m := MatchLen(s);
    var rest := SplitFrom(s[m..], []);
    CutHere(s, cur);
    JoinCons(cur, s[..m], rest.segments, rest.separators);
    JoinSeparated(cur, s, m, Join(rest.segments, rest.separators));
  }

  lemma JoinCons(x: string, sep: string, segments: seq<string>, separators: seq<string>)
    requires |segments| == |separators| + 1
    ensures Join([x] + segments, [sep] + separators) == x + sep + Join(segments, separators)
  {
    assert ([x] + segments)[1..] == segments;
    assert ([sep] + separators)[1..] == separators;
  }

  lemma JoinSeparated(cur: string, s: string, m: nat, tail: string)
    requires 0 < m <= |s| && tail == [] + s[m..]
    ensures cur + s[..m] + tail == cur + s
  {
    assert s[..m] + s[m..] == s;
  }

  /**
   * No piece contains a separator, and every separator is a whole match:
   * the text is cut at every separator and only there.
   */
  lemma {:induction false} SplitCutsEverySeparator(s: string, cur: string)
    requires forall i :: 0 <= i < |cur| ==> MatchLen(cur[i..] + s) == 0
    ensures forall k :: 0 <= k < |SplitFrom(s, cur).segments| ==> SeparatorFree(SplitFrom(s, cur).segments[k])
    ensures forall k :: 0 <= k < |SplitFrom(s, cur).separators| ==>
      SplitFrom(s, cur).separators[k] != [] && MatchLen(SplitFrom(s, cur).separators[k]) == |SplitFrom(s, cur).separators[k]|
    decreases |s|
  {
    CurSeparatorFree(cur, s);
    if s != [] {
      var m := MatchLen(s);
      if m > 0 {
        SplitCutsEverySeparator(s[m..], []);
        MatchedIsSeparator(s);
        var rest := SplitFrom(s[m..], []);
        var r := SplitFrom(s, cur);
        assert r.segments == [cur] + rest.segments && r.separators == [s[..m]] + rest.separators;
        forall k | 0 <= k < |r.segments|
          ensures SeparatorFree(r.segments[k])
        {
          if k > 0 {
            assert r.segments[k] == rest.segments[k - 1];
          }
        }
        forall k | 0 <= k < |r.separators|
          ensures r.separators[k] != [] && MatchLen(r.separators[k]) == |r.separators[k]|
        {
          if k > 0 {
            assert r.separators[k] == rest.separators[k - 1];
          }
        }
      } else {
        var cur' := cur + [s[0]];
        forall i | 0 <= i < |cur'|
          ensures MatchLen(cur'[i..] + s[1..]) == 0
        {
          if i < |cur| {
            assert cur'[i..] + s[1..] == cur[i..] + s;
          } else {
            assert cur'[i..] + s[1..] == s;
          }
        }
        SplitCutsEverySeparator(s[1..], cur');
      }
    }
  }

  /**
   * `split` on a whole text: the pieces and separators rebuild it, no piece
   * holds a separator, and each separator is one whole match.
   */
  lemma SplitRoundTrip(s: string)
    ensures Join(Split(s).segments, Split(s).separators) == s
    ensures forall k :: 0 <= k < |Split(s).segments| ==> SeparatorFree(Split(s).segments[k])
    ensures forall k :: 0 <= k < |Split(s).separators| ==>
      Split(s).separators[k] != [] && MatchLen(Split(s).separators[k]) == |Split(s).separators[k]|
  {
    SplitJoin(s, []);
    assert [] + s == s;
    SplitCutsEverySeparator(s, []);
  }

  /** What is read so far holds no separator, since none starts in it even with the rest of the text after it. */
  lemma CurSeparatorFree(cur: string, s: string)
    requires forall i :: 0 <= i < |cur| ==> MatchLen(cur[i..] + s) == 0
    ensures SeparatorFree(cur)
  {
    forall i | 0 <= i < |cur|
      ensures MatchLen(cur[i..]) == 0
    {
      if MatchLen(cur[i..]) > 0 {
        MatchExtends(cur[i..], s);
      }
    }
  }

  /** A text with no separator in it, and not all white space, is one bullet: itself, trimmed. */
  lemma {:induction false} NoSeparatorOneBullet(s: string)
    requires SeparatorFree(s) && !AllSpace(s)
    ensures ParseToBullets(Some(s)) == [Trim(s)]
  {
    NoSeparatorOnePiece(s, []);
    assert [] + s == s;
    TrimEmptyIff(s);
  }

  lemma {:induction false} NoSeparatorOnePiece(s: string, cur: string)
    requires SeparatorFree(s)
    ensures SplitFrom(s, cur) == Pieces([cur + s], [])
    decreases |s|
  {
    if s == [] {
      assert cur + s == cur;
    } else {
      assert MatchLen(s[0..]) == 0 && s[0..] == s;
      assert forall i :: 0 <= i < |s[1..]| ==> s[1..][i..] == s[i + 1..];
      NoSeparatorOnePiece(s[1..], cur + [s[0]]);
      assert cur + [s[0]] + s[1..] == cur + s;
    }
  }

  /** A text of white space only has no bullets. */
  lemma AllSpaceNoBullets(s: string)
    requires AllSpace(s)
    ensures ParseToBullets(Some(s)) == []
  {
    AllSpacePieces(s, []);
    AllSpaceTrimsAway(Split(s).segments);
  }

  lemma {:induction false} AllSpacePieces(s: string, cur: string)
    requires AllSpace(s) && AllSpace(cur)
    ensures forall k :: 0 <= k < |SplitFrom(s, cur).segments| ==> AllSpace(SplitFrom(s, cur).segments[k])
    decreases |s|
  {
    if s != [] {
      var m := MatchLen(s);
      AllSpaceSlice(s, m, |s|);
      if m > 0 {
        AllSpacePieces(s[m..], []);
      } else {
        AllSpaceSlice(s, 1, |s|);
        AllSpacePieces(s[1..], cur + [s[0]]);
      }
    }
  }

  lemma {:induction false} AllSpaceTrimsAway(segments: seq<string>)
    requires forall k :: 0 <= k < |segments| ==> AllSpace(segments[k])
    ensures TrimNonEmpty(segments) == []
    decreases |segments|
  {
    if segments != [] {
      TrimEmptyIff(segments[|segments| - 1]);
      AllSpaceTrimsAway(segments[..|segments| - 1]);
    }
  }

  /** A missing description and an empty one both give no bullets. */
  lemma MissingTextNoBullets()
    ensures ParseToBullets(None) == []
    ensures ParseToBullets(Some("")) == []
  {
  }

  /** A hyphen inside a word does not cut it. */
  lemma HyphenInsideWord()
    ensures ParseToBullets(Some("pre-book")) == ["pre-book"]
  {
    PreBookHasNoSeparator();
    PreBookIsTrimmed();
    NoSeparatorOneBullet("pre-book");
  }

  lemma PreBookIsTrimmed()
    ensures !AllSpace("pre-book") && Trim("pre-book") == "pre-book"
  {
    var s := "pre-book";
    assert !IsSpace(s[0]) && !IsSpace(s[|s| - 1]);
    TrimStartNoop(s);
    TrimEndNoop(s);
  }

  lemma PreBookHasNoSeparator()
    ensures SeparatorFree("pre-book")
  {
    var s := "pre-book";
    forall i | 0 <= i < |s|
      ensures MatchLen(s[i..]) == 0
    {
      if i == 3 {
        assert s[i..][1] == 'b';
      }
    }
  }

  /** A character that starts no separator joins the piece being read. */
  lemma ReadOn(s: string, cur: string)
    requires s != [] && MatchLen(s) == 0
    ensures SplitFrom(s, cur) == SplitFrom(s[1..], cur + [s[0]])
  {
  }

  /** A separator ends the piece being read. */
  lemma CutHere(s: string, cur: string)
    requires MatchLen(s) > 0
    ensures SplitFrom(s, cur).segments == [cur] + SplitFrom(s[MatchLen(s)..], []).segments
    ensures SplitFrom(s, cur).separators == [s[..MatchLen(s)]] + SplitFrom(s[MatchLen(s)..], []).separators
  {
  }

  /** A hyphen followed by a space starts an item. */
  lemma HyphenStartsItem()
    ensures ParseToBullets(Some("- a")) == ["a"]
  {
    HyphenPieces();
    LettersTrimmed();
    var segs: seq<string> := ["", "a"];
    assert segs[1..] == ["a"];
  }

  /** A newline ends an item. */
  lemma NewlineEndsItem()
    ensures ParseToBullets(Some("a\nb")) == ["a", "b"]
  {
    NewlinePieces();
    LettersTrimmed();
    var segs: seq<string> := ["a", "b"];
    assert segs[1..] == ["b"];
  }

  lemma LettersTrimmed()
    ensures Trim("a") == "a" && Trim("b") == "b"
  {
  }

  lemma HyphenPieces()
    ensures Split("- a").segments == ["", "a"]
  {
    ReadOn("a", "");
    assert "" + ['a'] == "a" && "a"[1..] == [];
    assert MatchLen("- a") == 2 && "- a"[2..] == "a";
    CutHere("- a", "");
  }

  lemma NewlinePieces()
    ensures Split("a\nb").segments == ["a", "b"]
  {
    ReadOn("b", "");
    assert "" + ['b'] == "b" && "b"[1..] == [];
    assert "\nb"[1..] == "b";
    CutHere("\nb", "a");
    ReadOn("a\nb", "");
    assert "" + ['a'] == "a" && "a\nb"[1..] == "\nb";
  }
}
