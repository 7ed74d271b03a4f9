/** The filter and row-assembly loop of `run_parse` (parse.py:256-344):
    every kept line is handed to the metrical parser, the parses it returns
    are filtered by the `meter` and `pentameter` settings, and each parse
    that passes becomes one row of the 28-column table.

    The parser itself is outside the model: for every kept line the model
    receives what the parser produced, as parse records, or the kind of
    exception it raised. */
module RowBuilder {
  import opened Wrappers
  import opened Table
  import LineSelection
  import SettingsFile

  /** A parse as the metrical parser reports it: its foot type, number of
      peaks and rank, its text, meter and stress strings, the items of its
      `stats_d()` dictionary in order, its syllable and word counts, and
      the stanza and line numbers of the line it belongs to (`None` when
      the parser gives none). */
  datatype Parse = Parse(
    footType: string, numPeaks: int, rank: int,
    txt: string, meterStr: string, stressStr: string,
    stats: seq<(string, int)>,
    numSylls: int, numWords: nat,
    stanzaNum: Option<int>, lineNum: Option<int>)

  /** What the parser did with one line: returned its parse lists, raised
      the `AssertionError` of an empty parse, raised anything else inside
      the guarded parse call (`Crashed`), or raised in the work no handler
      guards (`Uncaught`): building the text model (parse.py:263), the
      meter (parse.py:277-282), or a row's line and statistics
      (parse.py:298-299). In exhaustive mode the single list of
      `parse_exhaustive` is one parse list. */
  datatype EngineResult =
    | Parsed(lists: seq<seq<Parse>>)
    | EmptyParse
    | Crashed(message: string)
    | Uncaught(message: string)

  /** The settings `run_parse` reads: `meter` (the empty string when absent
      or null), `pentameter` and `exhaustive` (false when absent). */
  datatype RunOptions = RunOptions(meterFilter: string, pentameter: bool, exhaustive: bool)

  /** The options of a settings dictionary (parse.py:259-260, 264). */
  function OptionsOf(es: seq<(string, SettingsFile.Value)>): RunOptions {
    var meter := SettingsFile.Lookup(es, "meter");
    RunOptions(
      if meter.Some? && meter.value.Str? then meter.value.s else "",
      SettingsFile.Lookup(es, "pentameter") == Some(SettingsFile.Bool(true)),
      SettingsFile.Lookup(es, "exhaustive") == Some(SettingsFile.Bool(true)))
  }

  // ------------------------------------------------------------ the filter (parse.py:291-296)

  /** A parse is kept unless a meter filter is set and its foot type
      differs, or pentameter is required and it does not have five peaks. */
  predicate Admits(p: Parse, opts: RunOptions) {
    && (opts.meterFilter == "" || p.footType == opts.meterFilter)
    && (!opts.pentameter || p.numPeaks == 5)
  }

  /** The parses that pass the filter, in order. */
  function Admitted(ps: seq<Parse>, opts: RunOptions): (r: seq<Parse>)
    ensures |r| <= |ps|
  {
    if ps == [] then []
    else
      var init := Admitted(ps[..|ps| - 1], opts);
      if Admits(ps[|ps| - 1], opts) then init + [ps[|ps| - 1]] else init
  }

  /** Exactly the parses that pass the filter survive it. */
  lemma {:induction false} AdmittedIff(ps: seq<Parse>, opts: RunOptions)
    ensures forall p :: p in Admitted(ps, opts) <==> p in ps && Admits(p, opts)
  {
    if ps != [] {
      var init := ps[..|ps| - 1];
      AdmittedIff(init, opts);
      assert ps == init + [ps[|ps| - 1]];
    }
  }

  /** Filtering works list by list: the filter of two lists one after the
      other is the two filters one after the other, so the order of the
      parses is kept. */
  lemma {:induction false} AdmittedAppend(ps: seq<Parse>, qs: seq<Parse>, opts: RunOptions)
    ensures Admitted(ps + qs, opts) == Admitted(ps, opts) + Admitted(qs, opts)
    decreases |qs|
  {
    if qs == [] {
      assert ps + qs == ps;
    } else {
      var init := qs[..|qs| - 1];
      assert (ps + qs)[..|ps + qs| - 1] == ps + init;
      AdmittedAppend(ps, init, opts);
    }
  }

  /** Filtering twice is filtering once. */
  lemma {:induction false} AdmittedIdempotent(ps: seq<Parse>, opts: RunOptions)
    ensures Admitted(Admitted(ps, opts), opts) == Admitted(ps, opts)
  {
    if ps != [] {
      var init := ps[..|ps| - 1];
      AdmittedIdempotent(init, opts);
      var a := Admitted(init, opts);
      if Admits(ps[|ps| - 1], opts) {
        assert (a + [ps[|ps| - 1]])[..|a|] == a;
      }
    }
  }

  /** With no meter filter and no pentameter requirement every parse is
      kept. */
  lemma {:induction false} AdmittedAll(ps: seq<Parse>, opts: RunOptions)
    requires opts.meterFilter == "" && !opts.pentameter
    ensures Admitted(ps, opts) == ps
  {
    if ps != [] {
      AdmittedAll(ps[..|ps| - 1], opts);
    }
  }

  // ------------------------------------------------------------ one row (parse.py:298-325)

  /** `resd.get(k, d)`: the first value stored under `k`, or `d`. */
  function StatGet(stats: seq<(string, int)>, k: string, d: int): int {
    if stats == [] then d
    else if stats[0].0 == k then stats[0].1
    else StatGet(stats[1..], k, d)
  }

  /** `sum(v for k, v in resd.items() if k.startswith("*"))`. */
  function StarTotal(stats: seq<(string, int)>): int {
    if stats == [] then 0
    else (if |stats[0].0| > 0 && stats[0].0[0] == '*' then stats[0].1 else 0) + StarTotal(stats[1..])
  }

  /** The cell of an optional number: `''` for `None`. */
  function OptionCell(x: Option<int>): Cell {
    match x
    case None => Str("")
    case Some(n) => Num(n)
  }

  /** The columns of the table `run_parse` returns (parse.py:328-336). */
  const Header: seq<string> := [
    "input_index", "stanza_num", "line_num", "line_txt", "parse_rank",
    "parse_txt", "parse_meter", "parse_stress",
    "parse_score", "parse_num_viols",
    "parse_ambig", "parse_num_sylls", "parse_num_words",
    "*w_stress", "*s_unstress", "*unres_within", "*unres_across", "*w_peak", "*s_trough", "*foot_size",
    "*w_stress_norm", "*s_unstress_norm", "*unres_within_norm", "*unres_across_norm", "*w_peak_norm",
    "*s_trough_norm", "*foot_size_norm",
    "source_text"]

  /** The row of one parse of a kept line (the order of the entries of a
      map display does not matter; the column order is `Header`). */
  function MakeRow(k: LineSelection.Kept, p: Parse): Row {
    var s := p.stats;
    map[
      "stanza_num" := OptionCell(p.stanzaNum),
      "line_num" := OptionCell(p.lineNum),
      "parse_txt" := Str(p.txt),
      "parse_meter" := Str(p.meterStr),
      "parse_stress" := Str(p.stressStr),
      "parse_score" := Num(StatGet(s, "*total", -1)),
      "parse_num_viols" := Num(StarTotal(s)),
      "parse_ambig" := Num(StatGet(s, "ambig", 0)),
      "parse_num_sylls" := Num(p.numSylls),
      "parse_num_words" := Num(p.numWords),
      "*w_stress" := Num(StatGet(s, "*w_stress", 0)),
      "*s_unstress" := Num(StatGet(s, "*s_unstress", 0)),
      "*unres_within" := Num(StatGet(s, "*unres_within", 0)),
      "*unres_across" := Num(StatGet(s, "*unres_across", 0)),
      "*w_peak" := Num(StatGet(s, "*w_peak", 0)),
      "*s_trough" := Num(StatGet(s, "*s_trough", 0)),
      "*foot_size" := Num(StatGet(s, "*foot_size", 0)),
      "*w_stress_norm" := Num(StatGet(s, "*w_stress_norm", 0)),
      "*s_unstress_norm" := Num(StatGet(s, "*s_unstress_norm", 0)),
      "*unres_within_norm" := Num(StatGet(s, "*unres_within_norm", 0)),
      "*unres_across_norm" := Num(StatGet(s, "*unres_across_norm", 0)),
      "*w_peak_norm" := Num(StatGet(s, "*w_peak_norm", 0)),
      "*s_trough_norm" := Num(StatGet(s, "*s_trough_norm", 0)),
      "*foot_size_norm" := Num(StatGet(s, "*foot_size_norm", 0)),
      "input_index" := Num(k.index),
      "line_txt" := Str(k.original),
      "parse_rank" := Num(p.rank),
      "source_text" := Str(k.processed)]
  }

  // ------------------------------------------------------------ the rows

  /** The rows of one parse list, in order. */
  function ListRows(k: LineSelection.Kept, ps: seq<Parse>, opts: RunOptions): (rows: seq<Row>)
    ensures |rows| <= |ps|
  {
    if ps == [] then []
    else
      var init := ListRows(k, ps[..|ps| - 1], opts);
      var p := ps[|ps| - 1];
      if Admits(p, opts) then init + [MakeRow(k, p)] else init
  }

  /** The rows of all parse lists of one line, in order. */
  function LineRows(k: LineSelection.Kept, lists: seq<seq<Parse>>, opts: RunOptions): seq<Row> {
    if lists == [] then []
    else LineRows(k, lists[..|lists| - 1], opts) + ListRows(k, lists[|lists| - 1], opts)
  }

  /** The rows of the first `n` kept lines, or the exception that escapes
      `run_parse`: in non-exhaustive mode the guarded call catches only the
      empty-parse error (parse.py:265-275), in exhaustive mode it catches
      every error (parse.py:283-286); an error outside the guarded calls
      escapes in both modes. */
  function RowsUpTo(kept: seq<LineSelection.Kept>, results: seq<EngineResult>, n: nat, opts: RunOptions): Result<seq<Row>, string>
    requires n <= |kept| == |results|
  {
    if n == 0 then Success([])
    else
      match RowsUpTo(kept, results, n - 1, opts)
      case Failure(m) => Failure(m)
      case Success(rows) =>
        match results[n - 1]
        case Parsed(lists) => Success(rows + LineRows(kept[n - 1], lists, opts))
        case EmptyParse => Success(rows)
        case Crashed(m) => if opts.exhaustive then Success(rows) else Failure(m)
        case Uncaught(m) => Failure(m)
  }

  /** The rows of `run_parse`. */
  function Rows(kept: seq<LineSelection.Kept>, results: seq<EngineResult>, opts: RunOptions): Result<seq<Row>, string>
    requires |kept| == |results|
  {
    RowsUpTo(kept, results, |kept|, opts)
  }

  // ------------------------------------------------------------ the loop

  /** The innermost loop of `run_parse`: the parses of one list that pass
      the meter and pentameter filters (parse.py:290-325). */
  method ParseList(k: LineSelection.Kept, parselist: seq<Parse>, opts: RunOptions) returns (listRows: seq<Row>)
    ensures listRows == ListRows(k, parselist, opts)
  {
    listRows := [];
    for m := 0 to |parselist|
      invariant listRows == ListRows(k, parselist[..m], opts)
    {
      assert parselist[..m + 1][..m] == parselist[..m];
      var parse := parselist[m];
      if opts.meterFilter != "" && parse.footType != opts.meterFilter {
        continue;
      }
      if opts.pentameter && parse.numPeaks != 5 {
        continue;
      }
      listRows := listRows + [MakeRow(k, parse)];
    }
    assert parselist[..|parselist|] == parselist;
  }

  /** The loop of `run_parse` over the parse lists of one line
      (parse.py:289-325). */
  method ParseLine(k: LineSelection.Kept, lists: seq<seq<Parse>>, opts: RunOptions) returns (rows: seq<Row>)
    ensures rows == LineRows(k, lists, opts)
  {
    rows := [];
    for j := 0 to |lists|
      invariant rows == LineRows(k, lists[..j], opts)
    {
      assert lists[..j + 1][..j] == lists[..j];
      var listRows := ParseList(k, lists[j], opts);
      rows := rows + listRows;
    }
    assert lists[..|lists|] == lists;
  }

  /** The loop of `run_parse` over the kept lines (parse.py:262-325). */
  method RunParse(kept: seq<LineSelection.Kept>, results: seq<EngineResult>, opts: RunOptions)
    returns (r: Result<seq<Row>, string>)
    requires |kept| == |results|
    ensures r == Rows(kept, results, opts)
  {
    var allRows: seq<Row> := [];
    for i := 0 to |kept|
      invariant RowsUpTo(kept, results, i, opts) == Success(allRows)
    {
      match results[i]
      case EmptyParse =>
      case Crashed(m) =>
        if !opts.exhaustive {
          RowsFailureSticky(kept, results, i + 1, opts);
          return Failure(m);
        }
      case Uncaught(m) =>
        RowsFailureSticky(kept, results, i + 1, opts);
        return Failure(m);
      case Parsed(lists) =>
        var lineRows := ParseLine(kept[i], lists, opts);
        allRows := allRows + lineRows;
    }
    return Success(allRows);
  }

  /** Once an exception has escaped, later lines do not matter. */
  lemma {:induction false} RowsFailureSticky(kept: seq<LineSelection.Kept>, results: seq<EngineResult>, n: nat, opts: RunOptions)
    requires n <= |kept| == |results| && RowsUpTo(kept, results, n, opts).Failure?
    ensures Rows(kept, results, opts) == RowsUpTo(kept, results, n, opts)
    decreases |kept| - n
  {
    if n < |kept| {
      RowsFailureSticky(kept, results, n + 1, opts);
    }
  }

  // ------------------------------------------------------------ properties

  /** The rows of a list of parses, one per parse, in order. */
  function RowsOf(k: LineSelection.Kept, ps: seq<Parse>): (rows: seq<Row>)
    ensures |rows| == |ps| && forall i :: 0 <= i < |ps| ==> rows[i] == MakeRow(k, ps[i])
  {
    seq(|ps|, i requires 0 <= i < |ps| => MakeRow(k, ps[i]))
  }

  /** All parse lists of a line, one after the other. */
  function Flatten(lists: seq<seq<Parse>>): seq<Parse> {
    if lists == [] then [] else Flatten(lists[..|lists| - 1]) + lists[|lists| - 1]
  }

  lemma {:induction false} ListRowsAdmitted(k: LineSelection.Kept, ps: seq<Parse>, opts: RunOptions)
    ensures ListRows(k, ps, opts) == RowsOf(k, Admitted(ps, opts))
  {
    if ps != [] {
      ListRowsAdmitted(k, ps[..|ps| - 1], opts);
    }
  }

  lemma RowsOfAppend(k: LineSelection.Kept, ps: seq<Parse>, qs: seq<Parse>)
    ensures RowsOf(k, ps + qs) == RowsOf(k, ps) + RowsOf(k, qs)
  {
  }

  /** The two nested loops of a line produce one row per parse that passes
      the filter, taken over all parse lists in order. */
  lemma {:induction false} LineRowsFlatten(k: LineSelection.Kept, lists: seq<seq<Parse>>, opts: RunOptions)
    ensures LineRows(k, lists, opts) == RowsOf(k, Admitted(Flatten(lists), opts))
  {
    if lists != [] {
      var init := lists[..|lists| - 1];
      var last := lists[|lists| - 1];
      LineRowsFlatten(k, init, opts);
      ListRowsAdmitted(k, last, opts);
      AdmittedAppend(Flatten(init), last, opts);
      RowsOfAppend(k, Admitted(Flatten(init), opts), Admitted(last, opts));
    }
  }

  /** Every row has exactly the columns of the header. */
  lemma RowColumns(k: LineSelection.Kept, p: Parse)
    ensures forall c :: c in MakeRow(k, p) <==> c in Header
  {
  }

  /** A row records its line's position, original and parsed text, and
      the parse's rank. */
  lemma RowFields(k: LineSelection.Kept, p: Parse)
    ensures Get(MakeRow(k, p), "input_index") == Num(k.index)
    ensures Get(MakeRow(k, p), "line_txt") == Str(k.original)
    ensures Get(MakeRow(k, p), "source_text") == Str(k.processed)
    ensures Get(MakeRow(k, p), "parse_rank") == Num(p.rank)
  {
  }

  /** The error a line's result lets escape `run_parse`: one outside the
      guarded calls, or one inside the guarded non-exhaustive call other
      than the empty-parse error. */
  predicate Escapes(e: EngineResult, opts: RunOptions) {
    e.Uncaught? || (e.Crashed? && !opts.exhaustive)
  }

  /** An exception escapes `run_parse` exactly when some line raises
      outside the guarded calls, or the parser is not run exhaustively and
      raises something other than the empty-parse error; the first such
      line's message is the one reported. */
  lemma {:induction false} RowsFailure(kept: seq<LineSelection.Kept>, results: seq<EngineResult>, n: nat, opts: RunOptions)
    requires n <= |kept| == |results|
    ensures RowsUpTo(kept, results, n, opts).Failure? <==>
      exists i :: 0 <= i < n && Escapes(results[i], opts)
    ensures RowsUpTo(kept, results, n, opts).Failure? ==>
      exists i :: 0 <= i < n && Escapes(results[i], opts) && results[i].message == RowsUpTo(kept, results, n, opts).error
        && forall j :: 0 <= j < i ==> !Escapes(results[j], opts)
  {
    if n > 0 {
      RowsFailure(kept, results, n - 1, opts);
    }
  }

  /** No row of `rows` has a position above `bound`. */
  predicate IndicesAtMost(rows: seq<Row>, bound: int) {
    forall a :: 0 <= a < |rows| ==> NumOf(Get(rows[a], "input_index")) <= bound
  }

  /** Every row of a line carries that line's position and text. */
  lemma {:induction false} LineRowsOfLine(k: LineSelection.Kept, lists: seq<seq<Parse>>, opts: RunOptions)
    ensures forall a :: 0 <= a < |LineRows(k, lists, opts)| ==>
      && Get(LineRows(k, lists, opts)[a], "input_index") == Num(k.index)
      && Get(LineRows(k, lists, opts)[a], "source_text") == Str(k.processed)
  {
    LineRowsFlatten(k, lists, opts);
    var ps := Admitted(Flatten(lists), opts);
    forall a | 0 <= a < |ps| ensures Get(RowsOf(k, ps)[a], "input_index") == Num(k.index) && Get(RowsOf(k, ps)[a], "source_text") == Str(k.processed) {
      RowFields(k, ps[a]);
    }
  }

  /** Every row of `rows` belongs to one of the first `n` kept lines. */
  predicate FromKept(rows: seq<Row>, kept: seq<LineSelection.Kept>, n: nat)
    requires n <= |kept|
  {
    forall a :: 0 <= a < |rows| ==>
      exists i :: (0 <= i < n && Get(rows[a], "input_index") == Num(kept[i].index)
        && Get(rows[a], "source_text") == Str(kept[i].processed))
  }

  /** Row positions never decrease along `rows`. */
  predicate Ascending(rows: seq<Row>) {
    forall a, b :: 0 <= a < b < |rows| ==>
      NumOf(Get(rows[a], "input_index")) <= NumOf(Get(rows[b], "input_index"))
  }

  /** Adding the rows of the `n`-th kept line keeps the rows grouped. */
  lemma AppendLineRows(init: seq<Row>, more: seq<Row>, kept: seq<LineSelection.Kept>, n: nat)
    requires 0 < n <= |kept|
    requires FromKept(init, kept, n - 1) && Ascending(init) && IndicesAtMost(init, kept[n - 1].index)
    requires forall a :: 0 <= a < |more| ==>
      Get(more[a], "input_index") == Num(kept[n - 1].index) && Get(more[a], "source_text") == Str(kept[n - 1].processed)
    ensures FromKept(init + more, kept, n) && Ascending(init + more) && IndicesAtMost(init + more, kept[n - 1].index)
  {
    var rows := init + more;
    forall a | 0 <= a < |rows|
      ensures exists i :: (0 <= i < n && Get(rows[a], "input_index") == Num(kept[i].index)
        && Get(rows[a], "source_text") == Str(kept[i].processed))
    {
      if a < |init| {
        assert rows[a] == init[a];
      } else {
        assert rows[a] == more[a - |init|];
      }
    }
    forall a, b | 0 <= a < b < |rows|
      ensures NumOf(Get(rows[a], "input_index")) <= NumOf(Get(rows[b], "input_index"))
    {
      if b < |init| {
        assert rows[a] == init[a] && rows[b] == init[b];
      } else if a < |init| {
        assert rows[a] == init[a] && rows[b] == more[b - |init|];
      } else {
        assert rows[a] == more[a - |init|] && rows[b] == more[b - |init|];
      }
    }
    forall a | 0 <= a < |rows|
      ensures NumOf(Get(rows[a], "input_index")) <= kept[n - 1].index
    {
      if a < |init| {
        assert rows[a] == init[a];
      } else {
        assert rows[a] == more[a - |init|];
      }
    }
  }

  /** A line that adds no rows keeps the rows grouped. */
  lemma SkipLineRows(rows: seq<Row>, kept: seq<LineSelection.Kept>, n: nat)
    requires 0 < n <= |kept|
    requires FromKept(rows, kept, n - 1) && IndicesAtMost(rows, if n > 1 then kept[n - 2].index else 0)
    requires n > 1 ==> kept[n - 2].index < kept[n - 1].index
    requires n == 1 ==> rows == []
    ensures FromKept(rows, kept, n) && IndicesAtMost(rows, kept[n - 1].index)
  {
  }

  /** When the kept lines come in increasing position, as `process_text`
      delivers them, the rows come grouped by line in the same order: each
      row belongs to a kept line, and row positions never decrease. */
  lemma {:induction false} RowsInLineOrder(kept: seq<LineSelection.Kept>, results: seq<EngineResult>, n: nat, opts: RunOptions)
    requires n <= |kept| == |results|
    requires forall a, b :: 0 <= a < b < |kept| ==> kept[a].index < kept[b].index
    requires RowsUpTo(kept, results, n, opts).Success?
    ensures var rows := RowsUpTo(kept, results, n, opts).value;
      && FromKept(rows, kept, n) && Ascending(rows)
      && (n > 0 ==> IndicesAtMost(rows, kept[n - 1].index))
  {
    if n > 0 {
      RowsInLineOrder(kept, results, n - 1, opts);
      var init := RowsUpTo(kept, results, n - 1, opts).value;
      if n > 1 {
        assert kept[n - 2].index < kept[n - 1].index;
      }
      assert n == 1 ==> init == [];
      if results[n - 1].Parsed? {
        var more := LineRows(kept[n - 1], results[n - 1].lists, opts);
        LineRowsOfLine(kept[n - 1], results[n - 1].lists, opts);
        assert RowsUpTo(kept, results, n, opts).value == init + more;
        AppendLineRows(init, more, kept, n);
      } else {
        assert RowsUpTo(kept, results, n, opts).value == init;
        SkipLineRows(init, kept, n);
      }
    }
  }
}
