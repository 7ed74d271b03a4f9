/** The line-selection loop of `process_text` (parse.py:157-253): every
    input line is tokenised, its words are looked up in the syllable
    dictionary, lines with an unknown word or too few syllables are skipped
    and counted, over-long lines are narrowed by the windower, and each kept
    line is recorded under its 1-based position.

    The regular-expression tokeniser and the dictionary lookup are outside
    the model: a line arrives as its text together with its word tokens and,
    for each token, the dictionary's syllable count or `None`. */
module LineSelection {
  import opened Wrappers
  import opened Text
  import Windower

  /** A word token and the syllable count the dictionary gives it (`None`
      for an unknown word or a lookup that raised). */
  datatype Token = Token(word: string, syllables: Option<nat>)

  /** An input line: its text and the word tokens found in it. */
  datatype SourceLine = SourceLine(text: string, tokens: seq<Token>)

  /** A kept line: 1-based position, original text, text to be parsed. */
  datatype Kept = Kept(index: nat, original: string, processed: string)

  /** The settings the loop reads: `min_syllables` (default 0),
      `max_syllables` (`None` when absent) and `window` (`None` when set
      to `none`). */
  datatype Limits = Limits(minSyllables: nat, maxSyllables: Option<nat>, window: Option<string>)

  datatype SelectError =
    | InvalidWindow       // get_window_indices raised on the window setting
    | NoLinesSelected     // no line met the syllable criteria

  /** What happens to one line. */
  datatype Outcome = Skipped | Selected(kept: Kept) | Raised(error: SelectError)

  /** Tokens that are never looked up (parse.py:171). */
  predicate IsUrlWord(w: string) {
    Lower(w) in {"http", "https", "www"}
  }

  /** The `syllable_counts` list of a line, or `None` when the line is to be
      skipped because a looked-up word is unknown. URL words are dropped
      from the list but, as in the source, stay among the word tokens. */
  function Counts(ts: seq<Token>): (r: Option<seq<nat>>)
    ensures r.Some? ==> |r.value| <= |ts|
  {
    if ts == [] then Some([])
    else
      match Counts(ts[..|ts| - 1])
      case None => None
      case Some(cs) =>
        var t := ts[|ts| - 1];
        if IsUrlWord(t.word) then Some(cs)
        else if t.syllables.None? then None
        else Some(cs + [t.syllables.value])
  }

  /** The word tokens of a line. */
  function Words(ts: seq<Token>): (ws: seq<string>)
    ensures |ws| == |ts|
  {
    seq(|ts|, i requires 0 <= i < |ts| => ts[i].word)
  }

  /** A line is skipped for an unknown word exactly when some token that
      is looked up has no syllable count. */
  lemma {:induction false} CountsUnknown(ts: seq<Token>)
    ensures Counts(ts).None? <==>
      exists i :: 0 <= i < |ts| && !IsUrlWord(ts[i].word) && ts[i].syllables.None?
  {
    if ts != [] {
      var init := ts[..|ts| - 1];
      CountsUnknown(init);
      assert forall i :: 0 <= i < |init| ==> init[i] == ts[i];
    }
  }

  /** Once a prefix of the tokens has an unknown word, the whole line has. */
  lemma {:induction false} CountsUnknownSticky(ts: seq<Token>, k: nat)
    requires k <= |ts| && Counts(ts[..k]).None?
    ensures Counts(ts).None?
    decreases |ts| - k
  {
    if k < |ts| {
      assert ts[..k + 1][..k] == ts[..k];
      CountsUnknownSticky(ts, k + 1);
    } else {
      assert ts[..k] == ts;
    }
  }

  /** The inner loop over the word tokens (parse.py:167-183). */
  method CountSyllables(ts: seq<Token>) returns (counts: seq<nat>, skip: bool)
    ensures skip <==> Counts(ts).None?
    ensures !skip ==> Counts(ts) == Some(counts)
  {
    counts := [];
    skip := false;
    for i := 0 to |ts|
      invariant Counts(ts[..i]) == Some(counts)
    {
      assert ts[..i + 1][..i] == ts[..i];
      var t := ts[i];
      if IsUrlWord(t.word) {
        continue;
      }
      if t.syllables.None? {
        skip := true;
        CountsUnknownSticky(ts, i + 1);
        return;
      }
      counts := counts + [t.syllables.value];
    }
    assert ts[..|ts|] == ts;
  }

  /** Whether the line is windowed (parse.py:194): `max_syllables` is set,
      non-zero and exceeded. */
  predicate NeedsWindow(total: nat, lim: Limits) {
    lim.maxSyllables.Some? && lim.maxSyllables.value != 0 && total > lim.maxSyllables.value
  }

  /** What the loop does with line `i` (parse.py:162-248). */
  function LineOutcome(line: SourceLine, i: nat, lim: Limits): Outcome {
    match Counts(line.tokens)
    case None => Skipped
    case Some(cs) =>
      var total := Windower.Sum(cs);
      if total < lim.minSyllables then Skipped
      else if NeedsWindow(total, lim) then
        if lim.window.None? then Raised(InvalidWindow)
        else
          match Windower.WindowSpan(cs, lim.maxSyllables.value, lim.window.value)
          case Failure(_) => Raised(InvalidWindow)
          case Success(w) =>
            Windower.WindowIsRange(cs, lim.maxSyllables.value, lim.window.value);
            Selected(Kept(i + 1, line.text, Join(Words(line.tokens)[w.0..w.1])))
      else Selected(Kept(i + 1, line.text, Join(Words(line.tokens))))
  }

  /** The outcome of every line, in input order. */
  function Outcomes(lines: seq<SourceLine>, lim: Limits): (os: seq<Outcome>)
    ensures |os| == |lines|
  {
    seq(|lines|, i requires 0 <= i < |lines| => LineOutcome(lines[i], i, lim))
  }

  /** A kept line at position `i` of the outcomes is recorded as line `i + 1`. */
  predicate Positioned(os: seq<Outcome>) {
    forall i :: 0 <= i < |os| && os[i].Selected? ==> os[i].kept.index == i + 1
  }

  /** The kept lines and the skip count accumulated over a run of outcomes,
      or the first error among them. */
  function Gather(os: seq<Outcome>): Result<(seq<Kept>, nat), SelectError> {
    if os == [] then Success(([], 0))
    else
      match Gather(os[..|os| - 1])
      case Failure(e) => Failure(e)
      case Success(acc) =>
        match os[|os| - 1]
        case Skipped => Success((acc.0, acc.1 + 1))
        case Selected(k) => Success((acc.0 + [k], acc.1))
        case Raised(e) => Failure(e)
  }

  /** `process_text` from the loaded lines on: the kept lines and the skip
      count, or the error it raises. */
  function SelectLines(lines: seq<SourceLine>, lim: Limits): Result<(seq<Kept>, nat), SelectError> {
    match Gather(Outcomes(lines, lim))
    case Failure(e) => Failure(e)
    case Success(acc) => if acc.0 == [] then Failure(NoLinesSelected) else Success(acc)
  }

  /** An error on one line ends the loop. */
  lemma {:induction false} GatherFailureSticky(os: seq<Outcome>, k: nat)
    requires k <= |os| && Gather(os[..k]).Failure?
    ensures Gather(os) == Gather(os[..k])
    decreases |os| - k
  {
    if k < |os| {
      assert os[..k + 1][..k] == os[..k];
      GatherFailureSticky(os, k + 1);
    } else {
      assert os[..k] == os;
    }
  }

  /** One more outcome: a skipped line is counted, a selected one is kept,
      and a raised error ends the loop. */
  lemma GatherNext(os: seq<Outcome>, i: nat, kept: seq<Kept>, skipped: nat)
    requires i < |os| && Gather(os[..i]) == Success((kept, skipped))
    ensures os[i].Skipped? ==> Gather(os[..i + 1]) == Success((kept, skipped + 1))
    ensures os[i].Selected? ==> Gather(os[..i + 1]) == Success((kept + [os[i].kept], skipped))
    ensures os[i].Raised? ==> Gather(os) == Failure(os[i].error)
  {
    assert os[..i + 1][..i] == os[..i];
    if os[i].Raised? {
      GatherFailureSticky(os, i + 1);
    }
  }

  /** The loop of `process_text` (parse.py:157-253). */
  method ProcessText(lines: seq<SourceLine>, lim: Limits) returns (r: Result<(seq<Kept>, nat), SelectError>)
    ensures r == SelectLines(lines, lim)
  {
    ghost var os := Outcomes(lines, lim);
    var processed: seq<Kept> := [];
    var skipped: nat := 0;
    for i := 0 to |lines|
      invariant Gather(os[..i]) == Success((processed, skipped))
    {
      var line := lines[i];
      ghost var o := LineOutcome(line, i, lim);
      assert os[i] == o;
      GatherNext(os, i, processed, skipped);
      var counts, skip := CountSyllables(line.tokens);
      if skip {
        skipped := skipped + 1;
        continue;
      }
      var syllableCount := Windower.Sum(counts);
      if syllableCount < lim.minSyllables {
        skipped := skipped + 1;
        continue;
      }
      var newText: string;
      if NeedsWindow(syllableCount, lim) {
        if lim.window.None? {
          return Failure(InvalidWindow);
        }
        var w := Windower.WindowIndices(counts, lim.maxSyllables.value, lim.window.value);
        if w.Failure? {
          return Failure(InvalidWindow);
        }
        Windower.WindowIsRange(counts, lim.maxSyllables.value, lim.window.value);
        var (startIdx, endIdx) := w.value;
        newText := Join(Words(line.tokens)[startIdx..endIdx]);
      } else {
        newText := Join(Words(line.tokens));
      }
      processed := processed + [Kept(i + 1, line.text, newText)];
    }
    assert os[..|lines|] == os;
    if processed == [] {
      return Failure(NoLinesSelected);
    }
    return Success((processed, skipped));
  }

  // ------------------------------------------------------------------ lemmas

  /** A line is skipped exactly when it has an unknown word or fewer than
      `min_syllables` syllables; only a line that must be windowed under an
      invalid `window` setting raises. */
  lemma SkippedIff(line: SourceLine, i: nat, lim: Limits)
    ensures LineOutcome(line, i, lim).Skipped? <==>
      Counts(line.tokens).None? || Windower.Sum(Counts(line.tokens).value) < lim.minSyllables
    ensures LineOutcome(line, i, lim).Raised? <==>
      && Counts(line.tokens).Some?
      && var total := Windower.Sum(Counts(line.tokens).value);
      && total >= lim.minSyllables && NeedsWindow(total, lim)
      && (lim.window.None? || lim.window.value !in {"beginning", "middle", "end"})
  {
    if Counts(line.tokens).Some? && lim.window.Some? {
      Windower.WindowIsRange(Counts(line.tokens).value, if lim.maxSyllables.Some? then lim.maxSyllables.value else 0, lim.window.value);
    }
  }

  /** Within the budget (or with no budget) the line is kept whole. */
  lemma NoWindowWithinBudget(line: SourceLine, i: nat, lim: Limits)
    requires Counts(line.tokens).Some?
    requires var total := Windower.Sum(Counts(line.tokens).value);
      total >= lim.minSyllables && !NeedsWindow(total, lim)
    ensures LineOutcome(line, i, lim) == Selected(Kept(i + 1, line.text, Join(Words(line.tokens))))
  {
  }

  /** Every selected line carries its own 1-based position. */
  lemma OutcomesPositioned(lines: seq<SourceLine>, lim: Limits)
    ensures Positioned(Outcomes(lines, lim))
    ensures forall i :: 0 <= i < |lines| && Outcomes(lines, lim)[i].Selected? ==>
      Outcomes(lines, lim)[i].kept.original == lines[i].text
  {
  }

  /** The loop fails exactly when some outcome raised, and then with the
      first such error. */
  lemma {:induction false} GatherFailure(os: seq<Outcome>)
    ensures Gather(os).Success? <==> forall i :: 0 <= i < |os| ==> !os[i].Raised?
    ensures Gather(os).Failure? ==> exists i :: 0 <= i < |os| && os[i] == Raised(Gather(os).error)
  {
    if os != [] {
      var init := os[..|os| - 1];
      assert forall i :: 0 <= i < |init| ==> init[i] == os[i];
      GatherFailure(init);
    }
  }

  /** Every line is either kept or counted as skipped. */
  lemma {:induction false} GatherCount(os: seq<Outcome>)
    ensures Gather(os).Success? ==> |Gather(os).value.0| + Gather(os).value.1 == |os|
  {
    if os != [] {
      GatherCount(os[..|os| - 1]);
    }
  }

  /** Each of `kept` is the selected outcome at its own position in `os`. */
  predicate KeptAt(os: seq<Outcome>, kept: seq<Kept>) {
    forall a :: 0 <= a < |kept| ==> 1 <= kept[a].index <= |os| && os[kept[a].index - 1] == Selected(kept[a])
  }

  /** The positions of `kept` strictly increase. */
  predicate Increasing(kept: seq<Kept>) {
    forall a, b :: 0 <= a < b < |kept| ==> kept[a].index < kept[b].index
  }

  /** One more outcome keeps the kept lines in place and in order. */
  lemma KeptAtSnoc(init: seq<Outcome>, o: Outcome, kept: seq<Kept>)
    requires KeptAt(init, kept) && Increasing(kept)
    requires o.Selected? ==> o.kept.index == |init| + 1
    ensures var kept' := if o.Selected? then kept + [o.kept] else kept;
      KeptAt(init + [o], kept') && Increasing(kept')
  {
    var os := init + [o];
    var kept' := if o.Selected? then kept + [o.kept] else kept;
    forall a | 0 <= a < |kept'|
      ensures 1 <= kept'[a].index <= |os| && os[kept'[a].index - 1] == Selected(kept'[a])
    {
      if a < |kept| {
        assert kept'[a] == kept[a];
        assert os[kept[a].index - 1] == init[kept[a].index - 1];
      }
    }
  }

  /** Each kept line is the selected outcome at its own position, and the
      positions strictly increase. */
  lemma {:induction false} GatherKept(os: seq<Outcome>)
    requires Positioned(os)
    ensures Gather(os).Success? ==> KeptAt(os, Gather(os).value.0) && Increasing(Gather(os).value.0)
  {
    if os != [] {
      var init := os[..|os| - 1];
      var o := os[|os| - 1];
      assert os == init + [o];
      assert Positioned(init) by {
        assert forall i :: 0 <= i < |init| ==> init[i] == os[i];
      }
      GatherKept(init);
      if Gather(os).Success? {
        var kept := Gather(init).value.0;
        assert Gather(os).value.0 == if o.Selected? then kept + [o.kept] else kept;
        KeptAtSnoc(init, o, kept);
      }
    }
  }

  /** The positions of the kept lines. */
  function KeptIndices(kept: seq<Kept>): set<nat> {
    set a | 0 <= a < |kept| :: kept[a].index
  }

  lemma KeptIndicesSnoc(kept: seq<Kept>, k: Kept)
    ensures KeptIndices(kept + [k]) == KeptIndices(kept) + {k.index}
  {
    var kept' := kept + [k];
    forall x | x in KeptIndices(kept) ensures x in KeptIndices(kept') {
      var a :| 0 <= a < |kept| && kept[a].index == x;
      assert kept'[a] == kept[a];
    }
    assert kept'[|kept|] == k;
  }

  /** The 1-based positions of the selected outcomes. */
  function SelectedPositions(os: seq<Outcome>): set<nat> {
    set i: nat | i < |os| && os[i].Selected? :: i + 1
  }

  /** A line is kept exactly when its outcome is `Selected`. */
  lemma {:induction false} GatherKeptIff(os: seq<Outcome>)
    requires Positioned(os)
    ensures Gather(os).Success? ==> KeptIndices(Gather(os).value.0) == SelectedPositions(os)
  {
    if os != [] {
      var init := os[..|os| - 1];
      assert forall i :: 0 <= i < |init| ==> init[i] == os[i];
      GatherKeptIff(init);
      var o := os[|os| - 1];
      assert SelectedPositions(os) == SelectedPositions(init) + (if o.Selected? then {|os|} else {});
      if Gather(os).Success? {
        var kept := Gather(init).value.0;
        if o.Selected? {
          assert Gather(os).value.0 == kept + [o.kept];
          KeptIndicesSnoc(kept, o.kept);
        }
      }
    }
  }

  /** The only error a line raises is `InvalidWindow`. */
  lemma RaisedIsWindowError(line: SourceLine, i: nat, lim: Limits)
    ensures LineOutcome(line, i, lim).Raised? ==> LineOutcome(line, i, lim).error == InvalidWindow
  {
  }

  /** `process_text` fails with `NoLinesSelected` exactly when every line
      is skipped. */
  lemma NoLinesSelectedIff(lines: seq<SourceLine>, lim: Limits)
    ensures SelectLines(lines, lim) == Failure(NoLinesSelected) <==>
      forall i :: 0 <= i < |lines| ==> LineOutcome(lines[i], i, lim).Skipped?
  {
    var os := Outcomes(lines, lim);
    OutcomesPositioned(lines, lim);
    GatherFailure(os);
    GatherKept(os);
    GatherKeptIff(os);
    if Gather(os).Failure? {
      var i :| 0 <= i < |os| && os[i] == Raised(Gather(os).error);
      RaisedIsWindowError(lines[i], i, lim);
    } else {
      var kept := Gather(os).value.0;
      if kept != [] {
        assert os[kept[0].index - 1].Selected?;
      } else {
        assert KeptIndices(kept) == {};
        forall i | 0 <= i < |os| ensures os[i].Skipped? {
          assert i + 1 !in SelectedPositions(os);
        }
      }
    }
  }

  /** `process_text` fails with `InvalidWindow` exactly when some line must
      be windowed under an invalid `window` setting. */
  lemma InvalidWindowIff(lines: seq<SourceLine>, lim: Limits)
    ensures SelectLines(lines, lim) == Failure(InvalidWindow) <==>
      exists i :: 0 <= i < |lines| && LineOutcome(lines[i], i, lim).Raised?
  {
    var os := Outcomes(lines, lim);
    GatherFailure(os);
    if Gather(os).Failure? {
      var i :| 0 <= i < |os| && os[i] == Raised(Gather(os).error);
      RaisedIsWindowError(lines[i], i, lim);
    } else {
      forall i | 0 <= i < |lines| ensures !LineOutcome(lines[i], i, lim).Raised? {
        assert os[i] == LineOutcome(lines[i], i, lim);
      }
    }
  }

  /** On success the kept lines are in input order, each under its 1-based
      position with its own original text, and every line is either kept
      or counted as skipped. */
  lemma SelectedLines(lines: seq<SourceLine>, lim: Limits)
    ensures SelectLines(lines, lim).Success? ==>
      var (kept, skipped) := SelectLines(lines, lim).value;
      && kept != []
      && |kept| + skipped == |lines|
      && (forall a :: 0 <= a < |kept| ==>
            1 <= kept[a].index <= |lines| && kept[a].original == lines[kept[a].index - 1].text)
      && (forall a, b :: 0 <= a < b < |kept| ==> kept[a].index < kept[b].index)
  {
    var os := Outcomes(lines, lim);
    if SelectLines(lines, lim).Success? {
      OutcomesPositioned(lines, lim);
      GatherCount(os);
      GatherKept(os);
      var kept := Gather(os).value.0;
      assert SelectLines(lines, lim).value == Gather(os).value;
      forall a | 0 <= a < |kept|
        ensures 1 <= kept[a].index <= |lines| && kept[a].original == lines[kept[a].index - 1].text
      {
        assert os[kept[a].index - 1] == Selected(kept[a]);
      }
    }
  }

  /** The tokens of the line "http a b c", each word of one syllable. */
  const UrlLineTokens: seq<Token> :=
    [Token("http", None), Token("a", Some(1)), Token("b", Some(1)), Token("c", Some(1))]

  lemma UrlLineCounts()
    ensures Counts(UrlLineTokens) == Some([1, 1, 1])
  {
    var ts := UrlLineTokens;
    var t0, t1, t2, t3 := ts[0], ts[1], ts[2], ts[3];
    assert IsUrlWord(t0.word) by { assert Lower("http") == "http"; }
    assert !IsUrlWord(t1.word) by { assert Lower("a") == "a"; }
    assert !IsUrlWord(t2.word) by { assert Lower("b") == "b"; }
    assert !IsUrlWord(t3.word) by { assert Lower("c") == "c"; }
    var s1, s2, s3 := [t0], [t0, t1], [t0, t1, t2];
    var c0, c1, c2, cs: seq<nat> := [], [1], [1, 1], [1, 1, 1];
    assert Counts(s1) == Some(c0) by { assert s1[..0] == []; }
    assert s2[..1] == s1 && s2[|s2| - 1] == t1 && c0 + [1] == c1;
    assert Counts(s2) == Some(c1);
    assert s3[..2] == s2 && s3[|s3| - 1] == t2 && c1 + [1] == c2;
    assert Counts(s3) == Some(c2);
    assert ts[..3] == s3 && ts[|ts| - 1] == t3 && c2 + [1] == cs;
  }

  lemma UrlLineWindow()
    ensures Windower.WindowSpan([1, 1, 1], 2, "beginning") == Success((0, 2))
    ensures Windower.Sum([1, 1, 1]) == 3
  {
    var one, two, cs: seq<nat> := [1], [1, 1], [1, 1, 1];
    assert Windower.Sum(one) == 1 by { assert one[1..] == []; }
    assert Windower.Sum(two) == 2 by { assert two[1..] == one; }
    assert Windower.Sum(cs) == 3 by { assert cs[1..] == two; }
    assert cs[..0] == [] && cs[..1] == one && cs[..2] == two;
    Windower.ShortestPrefixUnique(cs, 2, 2);
  }

  /** URL words are left out of the syllable counts but not of the word
      tokens the window indices are applied to, so the window can land on
      the wrong words: with `max_syllables = 2` and `beginning`, the line
      "http a b c" is parsed as "http a", not "a b". */
  lemma UrlWordShiftsWindow()
    ensures LineOutcome(SourceLine("http a b c", UrlLineTokens), 0, Limits(0, Some(2), Some("beginning")))
      == Selected(Kept(1, "http a b c", "http a"))
  {
    UrlLineCounts();
    UrlLineWindow();
    var ws := Words(UrlLineTokens);
    assert ws[0..2] == ["http", "a"];
    assert Join(["http", "a"]) == "http a" by {
      assert ["http", "a"][..1] == ["http"];
    }
  }
}
