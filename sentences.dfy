/** `split_into_sentences` (parse.py:124-130): a text block is cut at every
    maximal run of delimiter characters (line feeds in verse mode, the
    characters `.?!;[]` otherwise); the pieces are stripped and the empty
    ones dropped. */
module Sentences {
  import opened Text

  /** The delimiter class of the split pattern (parse.py:125-128). */
  predicate IsDelimiter(c: char, verse: bool) {
    if verse then c == '\n' else c in ".?!;[]"
  }

  /** The end of the word starting at `k`: the first delimiter at or after
      `k`, or the end of `s`. */
  function WordEnd(s: string, k: nat, verse: bool): (e: nat)
    requires k <= |s|
    ensures k <= e <= |s|
    ensures e < |s| ==> IsDelimiter(s[e], verse)
    ensures forall i :: k <= i < e ==> !IsDelimiter(s[i], verse)
    decreases |s| - k
  {
    if k == |s| || IsDelimiter(s[k], verse) then k else WordEnd(s, k + 1, verse)
  }

  /** The end of the delimiter run starting at `k`. */
  function RunEnd(s: string, k: nat, verse: bool): (e: nat)
    requires k <= |s|
    ensures k <= e <= |s|
    ensures e < |s| ==> !IsDelimiter(s[e], verse)
    ensures forall i :: k <= i < e ==> IsDelimiter(s[i], verse)
    decreases |s| - k
  {
    if k < |s| && IsDelimiter(s[k], verse) then RunEnd(s, k + 1, verse) else k
  }

  /** `re.split(pattern, s[k..])`: the pieces between maximal delimiter
      runs, including an empty first or last piece when the text starts or
      ends with a delimiter. */
  function PiecesFrom(s: string, k: nat, verse: bool): (ps: seq<string>)
    requires k <= |s|
    ensures |ps| >= 1
    decreases |s| - k
  {
    var e := WordEnd(s, k, verse);
    if e == |s| then [s[k..]]
    else [s[k..e]] + PiecesFrom(s, RunEnd(s, e, verse), verse)
  }

  /** `re.split(pattern, s)`: putting the delimiter runs back between the
      pieces gives `s`; no piece holds a delimiter, and no inner piece is
      empty, so every run is maximal. */
  function Pieces(s: string, verse: bool): (ps: seq<string>)
    ensures |ps| == |RunsFrom(s, 0, verse)| + 1
    ensures Weave(ps, RunsFrom(s, 0, verse)) == s
    ensures forall j :: 0 <= j < |ps| ==> DelimiterFree(ps[j], verse)
    ensures forall j :: 0 < j < |ps| - 1 ==> ps[j] != []
  {
    PiecesRoundTrip(s, 0, verse);
    PiecesFree(s, 0, verse);
    PiecesInnerNonEmpty(s, 0, verse);
    PiecesFrom(s, 0, verse)
  }

  /** `w` contains no delimiter. */
  predicate DelimiterFree(w: string, verse: bool) {
    forall i :: 0 <= i < |w| ==> !IsDelimiter(w[i], verse)
  }

  /** No piece contains a delimiter. */
  lemma {:induction false} PiecesFree(s: string, k: nat, verse: bool)
    requires k <= |s|
    ensures forall j :: 0 <= j < |PiecesFrom(s, k, verse)| ==> DelimiterFree(PiecesFrom(s, k, verse)[j], verse)
    decreases |s| - k
  {
    var e := WordEnd(s, k, verse);
    var ps := PiecesFrom(s, k, verse);
    assert DelimiterFree(s[k..e], verse) by {
      assert forall i :: 0 <= i < e - k ==> s[k..e][i] == s[k + i];
    }
    if e < |s| {
      var r := RunEnd(s, e, verse);
      PiecesFree(s, r, verse);
      var qs := PiecesFrom(s, r, verse);
      assert ps == [s[k..e]] + qs;
      assert forall j :: 1 <= j < |ps| ==> ps[j] == qs[j - 1];
    }
  }

  /** The delimiter runs `re.split` cuts `s[k..]` at, in order: one fewer
      than the pieces, each non-empty and made of delimiters only. */
  function RunsFrom(s: string, k: nat, verse: bool): (rs: seq<string>)
    requires k <= |s|
    ensures |rs| + 1 == |PiecesFrom(s, k, verse)|
    ensures forall j :: 0 <= j < |rs| ==> rs[j] != [] && AllDelimiters(rs[j], verse)
    decreases |s| - k
  {
    var e := WordEnd(s, k, verse);
    if e == |s| then []
    else
      var r := RunEnd(s, e, verse);
      assert AllDelimiters(s[e..r], verse) by {
        assert forall i :: 0 <= i < r - e ==> s[e..r][i] == s[e + i];
      }
      [s[e..r]] + RunsFrom(s, r, verse)
  }

  /** `w` is made of delimiters only. */
  predicate AllDelimiters(w: string, verse: bool) {
    forall i :: 0 <= i < |w| ==> IsDelimiter(w[i], verse)
  }

  /** The pieces with the runs put back between them. */
  function Weave(ps: seq<string>, rs: seq<string>): string
    requires |ps| == |rs| + 1
    decreases |rs|
  {
    if rs == [] then ps[0] else ps[0] + rs[0] + Weave(ps[1..], rs[1..])
  }

  lemma SliceJoin(s: string, a: nat, b: nat, c: nat)
    requires a <= b <= c <= |s|
    ensures s[a..] == s[a..b] + s[b..c] + s[c..]
  {
    assert s[b..] == s[b..c] + s[c..];
    assert s[a..] == s[a..b] + s[b..];
  }

  /** The split loses nothing: putting the runs back between the pieces
      gives the text again. */
  lemma {:induction false} PiecesRoundTrip(s: string, k: nat, verse: bool)
    requires k <= |s|
    ensures Weave(PiecesFrom(s, k, verse), RunsFrom(s, k, verse)) == s[k..]
    decreases |s| - k
  {
    var e := WordEnd(s, k, verse);
    if e < |s| {
      var r := RunEnd(s, e, verse);
      PiecesRoundTrip(s, r, verse);
      var ps := PiecesFrom(s, k, verse);
      var rs := RunsFrom(s, k, verse);
      assert ps == [s[k..e]] + PiecesFrom(s, r, verse);
      assert rs == [s[e..r]] + RunsFrom(s, r, verse);
      SliceJoin(s, k, e, r);
    }
  }

  /** Every piece but the first and the last is non-empty, so no run
      touches another: with `PiecesFree` and `RunsFrom`'s contract, the
      runs are maximal and the cut points are fixed. */
  lemma {:induction false} PiecesInnerNonEmpty(s: string, k: nat, verse: bool)
    requires k <= |s|
    ensures forall j :: 0 < j < |PiecesFrom(s, k, verse)| - 1 ==> PiecesFrom(s, k, verse)[j] != []
    decreases |s| - k
  {
    var e := WordEnd(s, k, verse);
    if e < |s| {
      var r := RunEnd(s, e, verse);
      PiecesInnerNonEmpty(s, r, verse);
      var ps := PiecesFrom(s, k, verse);
      var qs := PiecesFrom(s, r, verse);
      assert ps == [s[k..e]] + qs;
      forall j | 0 < j < |ps| - 1
        ensures ps[j] != []
      {
        assert ps[j] == qs[j - 1];
        if j == 1 {
          var e2 := WordEnd(s, r, verse);
          assert e2 < |s|;
          assert !IsDelimiter(s[r], verse);
          assert r < e2;
          assert qs[0] == s[r..e2];
          assert |qs[0]| == e2 - r;
        } else {
          assert 0 < j - 1 < |qs| - 1;
          assert qs[j - 1] != [];
        }
      }
    }
  }

  /** The comprehension of parse.py:130: strip each piece, keep the
      non-empty ones. */
  function Clean(ps: seq<string>): seq<string> {
    if ps == [] then []
    else
      var t := Strip(ps[0]);
      if t == [] then Clean(ps[1..]) else [t] + Clean(ps[1..])
  }

  /** `split_into_sentences(text_block)` with the `verse` setting. */
  function SplitIntoSentences(text: string, verse: bool): seq<string> {
    Clean(Pieces(text, verse))
  }

  // ------------------------------------------------------------ shape

  /** Every character of `Strip(p)` comes from `p`. */
  lemma StripWithin(p: string)
    ensures forall i :: 0 <= i < |Strip(p)| ==> Strip(p)[i] in p
  {
    var r := RStrip(p);
    var l := LStrip(r);
    assert r == p[..|r|];
    assert l == r[|r| - |l|..];
    forall i | 0 <= i < |l| ensures l[i] in p {
      assert l[i] == r[|r| - |l| + i] == p[|r| - |l| + i];
    }
  }

  /** A sentence as `split_into_sentences` returns it: non-empty, no
      whitespace at either end, no delimiter. */
  predicate IsSentence(t: string, verse: bool) {
    && t != []
    && !IsSpace(t[0]) && !IsSpace(t[|t| - 1])
    && DelimiterFree(t, verse)
  }

  lemma StripSentence(p: string, verse: bool)
    requires DelimiterFree(p, verse) && Strip(p) != []
    ensures IsSentence(Strip(p), verse)
  {
    StripWithin(p);
    var t := Strip(p);
    forall i | 0 <= i < |t| ensures !IsDelimiter(t[i], verse) {
      assert t[i] in p;
    }
  }

  /** Every piece is free of delimiters. */
  predicate AllFree(ps: seq<string>, verse: bool) {
    forall k :: 0 <= k < |ps| ==> DelimiterFree(ps[k], verse)
  }

  /** Every entry is a sentence. */
  predicate AllSentences(ss: seq<string>, verse: bool) {
    forall k :: 0 <= k < |ss| ==> IsSentence(ss[k], verse)
  }

  lemma {:induction false} CleanShape(ps: seq<string>, verse: bool)
    requires AllFree(ps, verse)
    ensures AllSentences(Clean(ps), verse)
  {
    if ps != [] {
      var rest := ps[1..];
      assert AllFree(rest, verse) by {
        forall k | 0 <= k < |rest| ensures DelimiterFree(rest[k], verse) {
          assert rest[k] == ps[k + 1];
        }
      }
      CleanShape(rest, verse);
      var t := Strip(ps[0]);
      if t != [] {
        assert DelimiterFree(ps[0], verse);
        StripSentence(ps[0], verse);
        ConsSentences(t, Clean(rest), verse);
      }
    }
  }

  lemma ConsSentences(t: string, ss: seq<string>, verse: bool)
    requires IsSentence(t, verse) && AllSentences(ss, verse)
    ensures AllSentences([t] + ss, verse)
  {
    var c := [t] + ss;
    forall k | 0 <= k < |c| ensures IsSentence(c[k], verse) {
      if k > 0 {
        assert c[k] == ss[k - 1];
      }
    }
  }

  /** Every sentence is non-empty, has no whitespace at either end and
      contains no delimiter. */
  lemma SentenceShape(text: string, verse: bool)
    ensures forall k :: 0 <= k < |SplitIntoSentences(text, verse)| ==>
      IsSentence(SplitIntoSentences(text, verse)[k], verse)
  {
    PiecesFree(text, 0, verse);
    assert AllFree(Pieces(text, verse), verse);
    assert Pieces(text, verse) == PiecesFrom(text, 0, verse);
    CleanShape(Pieces(text, verse), verse);
  }

  // ------------------------------------------------------------ nothing else is lost

  /** The characters of `s` that are neither delimiters nor whitespace. */
  function Visible(s: string, verse: bool): (r: string)
    ensures |r| <= |s|
  {
    if s == [] then []
    else (if IsDelimiter(s[0], verse) || IsSpace(s[0]) then [] else [s[0]]) + Visible(s[1..], verse)
  }

  lemma {:induction false} VisibleAppend(a: string, b: string, verse: bool)
    ensures Visible(a + b, verse) == Visible(a, verse) + Visible(b, verse)
  {
    if a != [] {
      assert (a + b)[0] == a[0] && (a + b)[1..] == a[1..] + b;
      VisibleAppend(a[1..], b, verse);
      var h := if IsDelimiter(a[0], verse) || IsSpace(a[0]) then [] else [a[0]];
      assert Visible(a + b, verse) == h + Visible(a[1..] + b, verse);
      assert Visible(a, verse) == h + Visible(a[1..], verse);
      assert h + (Visible(a[1..], verse) + Visible(b, verse)) == (h + Visible(a[1..], verse)) + Visible(b, verse);
    } else {
      assert a + b == b;
    }
  }

  lemma {:induction false} VisibleNone(s: string, verse: bool)
    requires forall i :: 0 <= i < |s| ==> IsDelimiter(s[i], verse) || IsSpace(s[i])
    ensures Visible(s, verse) == []
  {
    if s != [] {
      VisibleNone(s[1..], verse);
    }
  }

  lemma VisibleRStrip(p: string, verse: bool)
    ensures Visible(RStrip(p), verse) == Visible(p, verse)
  {
    var r := RStrip(p);
    var tail := p[|r|..];
    assert p == r + tail;
    assert forall i :: 0 <= i < |tail| ==> tail[i] == p[|r| + i];
    VisibleAppend(r, tail, verse);
    VisibleNone(tail, verse);
  }

  lemma VisibleLStrip(r: string, verse: bool)
    ensures Visible(LStrip(r), verse) == Visible(r, verse)
  {
    var l := LStrip(r);
    var head := r[..|r| - |l|];
    assert r == head + l;
    VisibleAppend(head, l, verse);
    VisibleNone(head, verse);
  }

  /** Stripping loses only whitespace. */
  lemma VisibleStrip(p: string, verse: bool)
    ensures Visible(Strip(p), verse) == Visible(p, verse)
  {
    VisibleRStrip(p, verse);
    VisibleLStrip(RStrip(p), verse);
  }

  lemma {:induction false} ConcatCons(w: string, ws: seq<string>)
    ensures Concat([w] + ws) == w + Concat(ws)
    decreases |ws|
  {
    if ws != [] {
      var init := ws[..|ws| - 1];
      assert ([w] + ws)[..|ws|] == [w] + init;
      ConcatCons(w, init);
    } else {
      assert [w][..0] == [];
    }
  }

  lemma VisibleStarts(t: string, verse: bool)
    requires t != [] && !IsSpace(t[0]) && !IsDelimiter(t[0], verse)
    ensures Visible(t, verse) != []
  {
  }

  /** The text from `k` is the word, the delimiter run after it, and the
      rest; only the word and the rest have visible characters. */
  lemma VisibleSplitAt(s: string, k: nat, e: nat, r: nat, verse: bool)
    requires k <= e <= r <= |s|
    requires forall i :: e <= i < r ==> IsDelimiter(s[i], verse)
    ensures Visible(s[k..], verse) == Visible(s[k..e], verse) + Visible(s[r..], verse)
  {
    assert s[k..] == s[k..e] + s[e..r] + s[r..];
    VisibleAppend(s[k..e] + s[e..r], s[r..], verse);
    VisibleAppend(s[k..e], s[e..r], verse);
    VisibleNone(s[e..r], verse);
  }

  /** The pieces together hold every visible character of the text. */
  lemma {:induction false} PiecesVisible(s: string, k: nat, verse: bool)
    requires k <= |s|
    ensures Visible(Concat(PiecesFrom(s, k, verse)), verse) == Visible(s[k..], verse)
    decreases |s| - k
  {
    var e := WordEnd(s, k, verse);
    var w := s[k..e];
    if e == |s| {
      assert [w][..0] == [];
      assert Concat([w]) == w;
      assert w == s[k..];
    } else {
      var r := RunEnd(s, e, verse);
      var qs := PiecesFrom(s, r, verse);
      PiecesVisible(s, r, verse);
      assert PiecesFrom(s, k, verse) == [w] + qs;
      ConcatCons(w, qs);
      VisibleAppend(w, Concat(qs), verse);
      VisibleSplitAt(s, k, e, r, verse);
    }
  }

  lemma {:induction false} CleanVisible(ps: seq<string>, verse: bool)
    ensures Visible(Concat(Clean(ps)), verse) == Visible(Concat(ps), verse)
  {
    if ps != [] {
      var rest := ps[1..];
      assert ps == [ps[0]] + rest;
      CleanVisible(rest, verse);
      ConcatCons(ps[0], rest);
      VisibleAppend(ps[0], Concat(rest), verse);
      VisibleStrip(ps[0], verse);
      var t := Strip(ps[0]);
      if t != [] {
        ConcatCons(t, Clean(rest));
        VisibleAppend(t, Concat(Clean(rest)), verse);
      }
    }
  }

  /** Splitting loses only delimiters and whitespace: the sentences, read
      one after another, show exactly the visible characters of the text,
      in order. */
  lemma SentencesKeepText(text: string, verse: bool)
    ensures Visible(Concat(SplitIntoSentences(text, verse)), verse) == Visible(text, verse)
  {
    CleanVisible(Pieces(text, verse), verse);
    PiecesVisible(text, 0, verse);
    assert text[0..] == text;
  }

  /** A text with no visible character yields no sentence. */
  lemma {:induction false} EmptyTextNoSentences(text: string, verse: bool)
    requires Visible(text, verse) == []
    ensures SplitIntoSentences(text, verse) == []
  {
    SentencesKeepText(text, verse);
    var ss := SplitIntoSentences(text, verse);
    SentenceShape(text, verse);
    if ss != [] {
      assert ss == [ss[0]] + ss[1..];
      VisibleStarts(ss[0], verse);
      ConcatCons(ss[0], ss[1..]);
      VisibleAppend(ss[0], Concat(ss[1..]), verse);
    }
  }
}
