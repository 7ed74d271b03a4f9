/** `process_output` (parse.py:348-453): the table of `run_parse` is given
    its aggregate columns (`MU`, `MTS`, the `_sum` columns), optionally
    collapsed to the best parse of each line, given a `parse_id`, pruned,
    reordered and sorted.

    A table is its list of column names and its rows; the pandas
    operations are written out on them: a group-by over a column is a
    count or a sum over the rows that agree on that column, and dropping
    columns shortens the column list, the rows being projected onto the
    final columns at the end. */
module OutputShaper {
  import opened Wrappers
  import opened Text
  import opened Table
  import opened Columns
  import SettingsFile

  /** The settings `process_output` reads (false when absent, except
      `include_norms`, which defaults to true). */
  datatype Flags = Flags(mu: bool, mts: bool, collapse: bool, sums: bool, norms: bool)

  function FlagsOf(es: seq<(string, SettingsFile.Value)>): Flags {
    Flags(
      SettingsFile.Lookup(es, "MU") == Some(SettingsFile.Bool(true)),
      SettingsFile.Lookup(es, "MTS") == Some(SettingsFile.Bool(true)),
      SettingsFile.Lookup(es, "collapse_parses") == Some(SettingsFile.Bool(true)),
      SettingsFile.Lookup(es, "include_sums") == Some(SettingsFile.Bool(true)),
      SettingsFile.Lookup(es, "include_norms") != Some(SettingsFile.Bool(false)))
  }

  /** The columns whose name starts with `*` (parse.py:352). */
  function StarColumns(cols: seq<string>): (r: seq<string>)
    ensures forall x :: x in r <==> x in cols && StartsWith(x, "*")
  {
    if cols == [] then []
    else
      var init := StarColumns(cols[..|cols| - 1]);
      var c := cols[|cols| - 1];
      assert cols == cols[..|cols| - 1] + [c];
      if StartsWith(c, "*") then init + [c] else init
  }

  // ------------------------------------------------------------ group aggregates

  /** The number of rows whose column `k` holds `v`. */
  function CountWhere(rows: seq<Row>, k: string, v: Cell): nat {
    if rows == [] then 0
    else CountWhere(rows[..|rows| - 1], k, v) + (if Get(rows[|rows| - 1], k) == v then 1 else 0)
  }

  /** The sum of column `c` over the rows whose column `k` holds `v`. */
  function SumWhere(rows: seq<Row>, k: string, v: Cell, c: string): int {
    if rows == [] then 0
    else SumWhere(rows[..|rows| - 1], k, v, c) + (if Get(rows[|rows| - 1], k) == v then NumOf(Get(rows[|rows| - 1], c)) else 0)
  }

  /** `df[name] = df.groupby(k)[c].transform("sum")`. */
  function WithGroupSum(rows: seq<Row>, name: string, k: string, c: string): (r: seq<Row>)
    ensures |r| == |rows|
  {
    seq(|rows|, i requires 0 <= i < |rows| => rows[i][name := Num(SumWhere(rows, k, Get(rows[i], k), c))])
  }

  /** `df["MU"] = df.groupby("source_text")["input_index"].transform("count")`
      (parse.py:355-356). */
  function WithMU(rows: seq<Row>): (r: seq<Row>)
    ensures |r| == |rows|
  {
    seq(|rows|, i requires 0 <= i < |rows| =>
      rows[i]["MU" := Num(CountWhere(rows, "source_text", Get(rows[i], "source_text")))])
  }

  /** `df["MTS"] = df.groupby("input_index")["parse_score"].transform("sum")`
      (parse.py:359-360). */
  function WithMTS(rows: seq<Row>): (r: seq<Row>)
    ensures |r| == |rows|
  {
    WithGroupSum(rows, "MTS", "input_index", "parse_score")
  }

  /** The `_sum` twins of the columns `cs`, added one after another
      (parse.py:380-382). */
  function WithSums(rows: seq<Row>, cs: seq<string>): (r: seq<Row>)
    ensures |r| == |rows|
  {
    if cs == [] then rows
    else
      var c := cs[|cs| - 1];
      WithGroupSum(WithSums(rows, cs[..|cs| - 1]), c + "_sum", "source_text", c)
  }

  /** The columns of the `_sum` twins, in the order they are added. */
  function SumNames(cs: seq<string>): (r: seq<string>)
    ensures |r| == |cs| && forall i :: 0 <= i < |cs| ==> r[i] == cs[i] + "_sum"
  {
    seq(|cs|, i requires 0 <= i < |cs| => cs[i] + "_sum")
  }

  /** `cols` with each of `names` added at the end unless present. */
  function AddColumns(cols: seq<string>, names: seq<string>): seq<string> {
    if names == [] then cols
    else AddColumn(AddColumns(cols, names[..|names| - 1]), names[|names| - 1])
  }

  // ------------------------------------------------------------ collapse (parse.py:364-372)

  function Rank(r: Row): int {
    NumOf(Get(r, "parse_rank"))
  }

  /** Row `i` is the first row of minimal `parse_rank` among the rows with
      its `input_index`: what `idxmin` picks. */
  predicate IsBest(rows: seq<Row>, i: nat)
    requires i < |rows|
  {
    forall j :: 0 <= j < |rows| && Get(rows[j], "input_index") == Get(rows[i], "input_index") ==>
      Rank(rows[i]) < Rank(rows[j]) || (Rank(rows[i]) == Rank(rows[j]) && i <= j)
  }

  /** The positions among the first `n` rows of the rows `idxmin` picks, in
      increasing order. */
  function BestUpTo(rows: seq<Row>, n: nat): (r: seq<nat>)
    requires n <= |rows|
    ensures |r| <= n
    ensures forall a :: 0 <= a < |r| ==> r[a] < n && IsBest(rows, r[a])
    ensures forall a, b :: 0 <= a < b < |r| ==> r[a] < r[b]
  {
    if n == 0 then []
    else if IsBest(rows, n - 1) then BestUpTo(rows, n - 1) + [n - 1]
    else BestUpTo(rows, n - 1)
  }

  /** The collapsed rows, one per `input_index`. */
  function Collapse(rows: seq<Row>): (r: seq<Row>)
    ensures |r| <= |rows|
  {
    var idx := BestUpTo(rows, |rows|);
    seq(|idx|, a requires 0 <= a < |idx| => rows[idx[a]])
  }

  // ------------------------------------------------------------ parse_id (parse.py:368-376)

  /** `parse_id`: `"{input_index}"` when collapsed, otherwise
      `"{input_index}.{parse_rank}"`. */
  function MakeId(r: Row, collapse: bool): string {
    var ii := IntToString(NumOf(Get(r, "input_index")));
    if collapse then ii else ii + "." + IntToString(Rank(r))
  }

  function WithIds(rows: seq<Row>, collapse: bool): (r: seq<Row>)
    ensures |r| == |rows|
  {
    seq(|rows|, i requires 0 <= i < |rows| => rows[i]["parse_id" := Str(MakeId(rows[i], collapse))])
  }

  /** The sort key read back from `parse_id` (parse.py:433-444): the part
      before the dot, and the part after it or 0. */
  function SortKey(r: Row): (int, int) {
    var id := Get(r, "parse_id");
    var s := if id.Str? then id.s else "";
    match IndexOf(s, '.')
    case None => (ParseInt(s), 0)
    case Some(p) => (ParseInt(s[..p]), ParseInt(s[p + 1..]))
  }

  // ------------------------------------------------------------ sort (parse.py:447)

  predicate KeyLe(a: (int, int), b: (int, int)) {
    a.0 < b.0 || (a.0 == b.0 && a.1 <= b.1)
  }

  /** The rows are in non-decreasing order of `key`. */
  predicate SortedBy<T>(rows: seq<T>, key: T -> (int, int)) {
    forall i, j :: 0 <= i < j < |rows| ==> KeyLe(key(rows[i]), key(rows[j]))
  }

  /** Insert `x` after every row whose key is at most its own. */
  function Insert<T>(s: seq<T>, x: T, key: T -> (int, int)): (r: seq<T>)
    ensures |r| == |s| + 1
  {
    if s == [] then [x]
    else if KeyLe(key(s[|s| - 1]), key(x)) then s + [x]
    else
      assert s == s[..|s| - 1] + [s[|s| - 1]];
      Insert(s[..|s| - 1], x, key) + [s[|s| - 1]]
  }

  /** A stable insertion sort by `key`. */
  function SortBy<T>(rows: seq<T>, key: T -> (int, int)): (r: seq<T>)
    ensures |r| == |rows|
  {
    if rows == [] then []
    else
      assert rows == rows[..|rows| - 1] + [rows[|rows| - 1]];
      Insert(SortBy(rows[..|rows| - 1], key), rows[|rows| - 1], key)
  }

  /** `sort_values(['input_index', 'parse_rank'])` on the keys the ids
      encode. */
  function SortRows(rows: seq<Row>): (r: seq<Row>)
    ensures |r| == |rows|
  {
    SortBy(rows, SortKey)
  }

  // ------------------------------------------------------------ the whole

  /** The column list after `MU`, `MTS`, the collapse and `parse_id`. */
  function IdColumns(cols: seq<string>, f: Flags): seq<string> {
    var c1 := if f.mu then AddColumn(cols, "MU") else cols;
    var c2 := if f.mts then AddColumn(c1, "MTS") else c1;
    if f.collapse then Without(AddColumn(c2, "parse_id"), ["parse_rank"]) else AddColumn(c2, "parse_id")
  }

  /** The column list as each step of `process_output` leaves it, up to
      the drops. */
  function ColumnsBeforeDrops(cols: seq<string>, f: Flags): seq<string> {
    var c3 := IdColumns(cols, f);
    if f.sums then Interleave(AddColumns(c3, SumNames(StarColumns(cols)))) else c3
  }

  /** The columns left by the two drop lists (parse.py:400-422). */
  function Pruned(c4: seq<string>, f: Flags): seq<string> {
    var c5 := Without(c4, DropList);
    if !f.norms then Without(c5, NormDropList) else c5
  }

  /** The final columns: `parse_id` moved to the front and `input_index`
      dropped, both only when `parse_id` is present (parse.py:424-450). */
  function ColumnsAfterDrops(c4: seq<string>, f: Flags): seq<string> {
    var c6 := Pruned(c4, f);
    if "parse_id" in c6 then Without(MoveToFront(c6, "parse_id"), ["input_index"]) else c6
  }

  function OutputColumns(cols: seq<string>, f: Flags): seq<string> {
    ColumnsAfterDrops(ColumnsBeforeDrops(cols, f), f)
  }

  /** The rows after `MU`, `MTS`, the collapse and `parse_id`. */
  function IdRows(rows: seq<Row>, f: Flags): seq<Row> {
    var r1 := if f.mu then WithMU(rows) else rows;
    var r2 := if f.mts then WithMTS(r1) else r1;
    WithIds(if f.collapse then Collapse(r2) else r2, f.collapse)
  }

  /** The rows before sorting. */
  function ShapedRows(cols: seq<string>, rows: seq<Row>, f: Flags): seq<Row> {
    var r3 := IdRows(rows, f);
    if f.sums then WithSums(r3, StarColumns(cols)) else r3
  }

  function ProjectAll(rows: seq<Row>, cols: seq<string>): (r: seq<Row>)
    ensures |r| == |rows|
  {
    seq(|rows|, i requires 0 <= i < |rows| => Project(rows[i], cols))
  }

  /** The rows of the output: sorted when `parse_id` survives the drops,
      and projected onto the final columns. */
  function OutputRows(cols: seq<string>, rows: seq<Row>, f: Flags): seq<Row> {
    var s := ShapedRows(cols, rows, f);
    var sorted := if "parse_id" in Pruned(ColumnsBeforeDrops(cols, f), f) then SortRows(s) else s;
    ProjectAll(sorted, OutputColumns(cols, f))
  }

  /** `process_output` on a table with columns `cols` and rows `rows`. */
  method ProcessOutput(cols: seq<string>, rows: seq<Row>, f: Flags) returns (outCols: seq<string>, outRows: seq<Row>)
    requires Distinct(cols)
    ensures outCols == OutputColumns(cols, f)
    ensures outRows == OutputRows(cols, rows, f)
  {
    var constraintCols := StarColumns(cols);
    var c := cols;
    var r := rows;
    if f.mu {
      r := WithMU(r);
      AddColumnDistinct(c, "MU");
      c := AddColumn(c, "MU");
    }
    if f.mts {
      r := WithMTS(r);
      AddColumnDistinct(c, "MTS");
      c := AddColumn(c, "MTS");
    }
    AddColumnDistinct(c, "parse_id");
    if f.collapse {
      r := Collapse(r);
      r := WithIds(r, true);
      WithoutDistinct(AddColumn(c, "parse_id"), ["parse_rank"]);
      c := Without(AddColumn(c, "parse_id"), ["parse_rank"]);
    } else {
      r := WithIds(r, false);
      c := AddColumn(c, "parse_id");
    }
    if f.sums {
      r := WithSums(r, constraintCols);
      var summed := AddColumns(c, SumNames(constraintCols));
      AddColumnsDistinct(c, SumNames(constraintCols));
      c := InterleaveSums(summed);
    } else {
      assert c == IdColumns(cols, f);
      assert r == IdRows(rows, f);
    }
    assert c == ColumnsBeforeDrops(cols, f);
    assert r == ShapedRows(cols, rows, f);
    c := Pruned(c, f);
    if "parse_id" in c {
      c := MoveToFront(c, "parse_id");
      r := SortRows(r);
      c := Without(c, ["input_index"]);
    }
    r := ProjectAll(r, c);
    return c, r;
  }

  lemma {:induction false} AddColumnsDistinct(cols: seq<string>, names: seq<string>)
    requires Distinct(cols)
    ensures Distinct(AddColumns(cols, names))
  {
    if names != [] {
      AddColumnsDistinct(cols, names[..|names| - 1]);
      AddColumnDistinct(AddColumns(cols, names[..|names| - 1]), names[|names| - 1]);
    }
  }

  // ------------------------------------------------------------ sorting

  lemma {:induction false} InsertSorted<T>(s: seq<T>, x: T, key: T -> (int, int))
    requires SortedBy(s, key)
    ensures SortedBy(Insert(s, x, key), key)
    ensures Insert(s, x, key)[|s|] == x || (s != [] && Insert(s, x, key)[|s|] == s[|s| - 1])
  {
    if s != [] && !KeyLe(key(s[|s| - 1]), key(x)) {
      var init := s[..|s| - 1];
      var last := s[|s| - 1];
      assert SortedBy(init, key);
      InsertSorted(init, x, key);
      var t := Insert(init, x, key);
      assert KeyLe(key(t[|t| - 1]), key(last));
    }
  }

  lemma {:induction false} SortBySorted<T>(rows: seq<T>, key: T -> (int, int))
    ensures SortedBy(SortBy(rows, key), key)
  {
    if rows != [] {
      SortBySorted(rows[..|rows| - 1], key);
      InsertSorted(SortBy(rows[..|rows| - 1], key), rows[|rows| - 1], key);
    }
  }

  lemma {:induction false} InsertPermutes<T>(s: seq<T>, x: T, key: T -> (int, int))
    ensures multiset(Insert(s, x, key)) == multiset(s) + multiset{x}
  {
    if s != [] && !KeyLe(key(s[|s| - 1]), key(x)) {
      assert s == s[..|s| - 1] + [s[|s| - 1]];
      InsertPermutes(s[..|s| - 1], x, key);
    }
  }

  lemma {:induction false} SortByPermutes<T>(rows: seq<T>, key: T -> (int, int))
    ensures multiset(SortBy(rows, key)) == multiset(rows)
  {
    if rows != [] {
      assert rows == rows[..|rows| - 1] + [rows[|rows| - 1]];
      SortByPermutes(rows[..|rows| - 1], key);
      InsertPermutes(SortBy(rows[..|rows| - 1], key), rows[|rows| - 1], key);
    }
  }

  /** The sort neither loses nor adds a row. */
  lemma SortRowsPermutes(rows: seq<Row>)
    ensures multiset(SortRows(rows)) == multiset(rows)
  {
    SortByPermutes(rows, SortKey);
  }

  /** The sort leaves the rows in non-decreasing order of their ids. */
  lemma SortRowsSorted(rows: seq<Row>)
    ensures SortedBy(SortRows(rows), SortKey)
  {
    SortBySorted(rows, SortKey);
  }

  // ------------------------------------------------------------ parse_id

  lemma NoDotInNumber(n: int)
    ensures '.' !in IntToString(n)
  {
    var s := IntToString(n);
    if n < 0 {
      var d := NatToString(-n);
      assert s == "-" + d;
      forall i | 0 <= i < |s| ensures s[i] != '.' {
        if i > 0 {
          assert s[i] == d[i - 1];
        }
      }
    }
  }

  /** Reading `parse_id` back gives `input_index` and `parse_rank`, or 0
      for the rank of a collapsed row. */
  lemma IdRoundTrip(r: Row, collapse: bool)
    ensures SortKey(r["parse_id" := Str(MakeId(r, collapse))]) ==
      (NumOf(Get(r, "input_index")), if collapse then 0 else Rank(r))
  {
    var a := IntToString(NumOf(Get(r, "input_index")));
    var b := IntToString(Rank(r));
    NoDotInNumber(NumOf(Get(r, "input_index")));
    ParseIntToString(NumOf(Get(r, "input_index")));
    if !collapse {
      var id := a + "." + b;
      assert id[|a|] == '.';
      assert id[..|a|] == a;
      assert id[|a| + 1..] == b;
      ParseIntToString(Rank(r));
      assert IndexOf(id, '.') == Some(|a|);
    }
  }

  // ------------------------------------------------------------ column layout

  lemma {:induction false} AddColumnsMembers(cols: seq<string>, names: seq<string>)
    ensures forall x :: x in AddColumns(cols, names) <==> x in cols || x in names
  {
    if names != [] {
      var init := names[..|names| - 1];
      AddColumnsMembers(cols, init);
      assert names == init + [names[|names| - 1]];
    }
  }

  lemma SumNamesAreSums(cs: seq<string>)
    ensures forall x :: x in SumNames(cs) ==> IsSum(x)
  {
    forall x | x in SumNames(cs) ensures IsSum(x) {
      var i :| 0 <= i < |cs| && SumNames(cs)[i] == x;
      SumIsSum(cs[i]);
    }
  }

  lemma IdColumnsMembers(cols: seq<string>, f: Flags)
    ensures forall x :: x in IdColumns(cols, f) <==>
      (x in cols || (f.mu && x == "MU") || (f.mts && x == "MTS") || x == "parse_id")
      && !(f.collapse && x == "parse_rank")
  {
  }

  lemma IdColumnsDistinct(cols: seq<string>, f: Flags)
    requires Distinct(cols)
    ensures Distinct(IdColumns(cols, f))
  {
    var c1 := if f.mu then AddColumn(cols, "MU") else cols;
    AddColumnDistinct(cols, "MU");
    var c2 := if f.mts then AddColumn(c1, "MTS") else c1;
    AddColumnDistinct(c1, "MTS");
    AddColumnDistinct(c2, "parse_id");
    WithoutDistinct(AddColumn(c2, "parse_id"), ["parse_rank"]);
  }

  /** The columns before the drops: the input columns, `MU`, `MTS` and
      `parse_id` when asked for, without `parse_rank` when collapsed, and
      the `_sum` twins of the `*` columns when sums are asked for. */
  lemma BeforeDropsMembers(cols: seq<string>, f: Flags)
    ensures forall x :: x in ColumnsBeforeDrops(cols, f) <==>
      || ((x in cols || (f.mu && x == "MU") || (f.mts && x == "MTS") || x == "parse_id")
          && !(f.collapse && x == "parse_rank"))
      || (f.sums && x in SumNames(StarColumns(cols)))
  {
    var c3 := IdColumns(cols, f);
    IdColumnsMembers(cols, f);
    if f.sums {
      var names := SumNames(StarColumns(cols));
      AddColumnsMembers(c3, names);
      InterleaveSameColumns(AddColumns(c3, names));
      SumNamesAreSums(StarColumns(cols));
      assert !IsSum("parse_rank");
    }
  }

  lemma BeforeDropsDistinct(cols: seq<string>, f: Flags)
    requires Distinct(cols)
    ensures Distinct(ColumnsBeforeDrops(cols, f))
  {
    var c3 := IdColumns(cols, f);
    IdColumnsDistinct(cols, f);
    AddColumnsDistinct(c3, SumNames(StarColumns(cols)));
    InterleaveDistinct(AddColumns(c3, SumNames(StarColumns(cols))));
  }

  lemma ParseIdNotDropped()
    ensures "parse_id" !in DropList && "parse_id" !in NormDropList
  {
    forall i | 0 <= i < |DropList| ensures DropList[i] != "parse_id" {
    }
    assert forall i :: 0 <= i < |NormDropList| ==> NormDropList[i][0] == '*';
  }

  /** `parse_id` is never dropped, so the rows are always sorted and
      `input_index` always removed. */
  lemma ParseIdSurvives(cols: seq<string>, f: Flags)
    ensures "parse_id" in Pruned(ColumnsBeforeDrops(cols, f), f)
  {
    BeforeDropsMembers(cols, f);
    ParseIdNotDropped();
  }

  /** The final columns: `parse_id` first, no column twice, and exactly
      the columns before the drops that no drop removes. */
  lemma OutputLayout(cols: seq<string>, f: Flags)
    requires Distinct(cols)
    ensures var oc := OutputColumns(cols, f);
      && oc != [] && oc[0] == "parse_id"
      && Distinct(oc)
      && forall x :: x in oc <==>
        x in ColumnsBeforeDrops(cols, f) && x !in DropList && (f.norms || x !in NormDropList) && x != "input_index"
  {
    var c4 := ColumnsBeforeDrops(cols, f);
    BeforeDropsDistinct(cols, f);
    ParseIdSurvives(cols, f);
    var c5 := Without(c4, DropList);
    WithoutDistinct(c4, DropList);
    WithoutDistinct(c5, NormDropList);
    var c6 := Pruned(c4, f);
    MoveToFrontShape(c6, "parse_id");
    var m := MoveToFront(c6, "parse_id");
    WithoutDistinct(m, ["input_index"]);
    assert m == [m[0]] + m[1..];
    assert Without(m, ["input_index"]) == [m[0]] + Without(m[1..], ["input_index"]);
  }

  /** Before the drops, a `*` column and its `_sum` twin are neighbours. */
  lemma BeforeDropsAdjacent(cols: seq<string>, f: Flags, c: string)
    requires f.sums && c in cols && StartsWith(c, "*") && !IsSum(c)
    ensures Adjacent(ColumnsBeforeDrops(cols, f), c, c + "_sum")
  {
    var c3 := IdColumns(cols, f);
    var stars := StarColumns(cols);
    var names := SumNames(stars);
    AddColumnsMembers(c3, names);
    var i :| 0 <= i < |stars| && stars[i] == c;
    assert c + "_sum" == names[i];
    assert c[0] == '*';
    IdColumnsMembers(cols, f);
    assert c in c3;
    InterleaveAdjacent(AddColumns(c3, names), c);
  }

  /** The drops keep two surviving neighbours together. */
  lemma PrunedAdjacent(c4: seq<string>, f: Flags, x: string, y: string)
    requires Adjacent(c4, x, y)
    requires x !in DropList && y !in DropList
    requires f.norms || (x !in NormDropList && y !in NormDropList)
    ensures Adjacent(Pruned(c4, f), x, y)
  {
    WithoutAdjacent(c4, DropList, x, y);
    if !f.norms {
      WithoutAdjacent(Without(c4, DropList), NormDropList, x, y);
    }
  }

  lemma PrunedDistinct(c4: seq<string>, f: Flags)
    requires Distinct(c4)
    ensures Distinct(Pruned(c4, f))
  {
    WithoutDistinct(c4, DropList);
    WithoutDistinct(Without(c4, DropList), NormDropList);
  }

  /** Moving `parse_id` to the front and dropping `input_index` keeps two
      other neighbours together. */
  lemma FrontAdjacent(c6: seq<string>, x: string, y: string)
    requires Distinct(c6) && "parse_id" in c6 && Adjacent(c6, x, y)
    requires x != "parse_id" && y != "parse_id" && x != "input_index" && y != "input_index"
    ensures Adjacent(Without(MoveToFront(c6, "parse_id"), ["input_index"]), x, y)
  {
    MoveToFrontAdjacent(c6, "parse_id", x, y);
    WithoutAdjacent(MoveToFront(c6, "parse_id"), ["input_index"], x, y);
  }

  /** The drops and the move of `parse_id` keep two surviving neighbours
      together. */
  lemma AfterDropsAdjacent(c4: seq<string>, f: Flags, x: string, y: string)
    requires Distinct(c4) && "parse_id" in Pruned(c4, f) && Adjacent(c4, x, y)
    requires x !in DropList && y !in DropList
    requires f.norms || (x !in NormDropList && y !in NormDropList)
    requires x != "parse_id" && y != "parse_id" && x != "input_index" && y != "input_index"
    ensures Adjacent(ColumnsAfterDrops(c4, f), x, y)
  {
    PrunedAdjacent(c4, f, x, y);
    PrunedDistinct(c4, f);
    FrontAdjacent(Pruned(c4, f), x, y);
  }

  lemma StarNamesDiffer(c: string)
    requires StartsWith(c, "*")
    ensures c != "parse_id" && c + "_sum" != "parse_id"
    ensures c != "input_index" && c + "_sum" != "input_index"
  {
    assert c[0] == '*';
    assert (c + "_sum")[0] == '*';
  }

  /** When sums are asked for, a `*` column and its `_sum` twin stand next
      to each other in the output whenever both survive the drops. */
  lemma OutputSumsAdjacent(cols: seq<string>, f: Flags, c: string)
    requires Distinct(cols) && f.sums
    requires c in cols && StartsWith(c, "*") && !IsSum(c)
    requires c !in DropList && c + "_sum" !in DropList
    requires f.norms || (c !in NormDropList && c + "_sum" !in NormDropList)
    ensures Adjacent(OutputColumns(cols, f), c, c + "_sum")
  {
    BeforeDropsAdjacent(cols, f, c);
    BeforeDropsDistinct(cols, f);
    ParseIdSurvives(cols, f);
    StarNamesDiffer(c);
    AfterDropsAdjacent(ColumnsBeforeDrops(cols, f), f, c, c + "_sum");
  }

  // ------------------------------------------------------------ row order

  /** The key the output is meant to be ordered by: `input_index`, then
      `parse_rank` (0 once collapsed). */
  function IndexRank(r: Row, collapse: bool): (int, int) {
    (NumOf(Get(r, "input_index")), if collapse then 0 else Rank(r))
  }

  /** Adding `_sum` twins leaves every column that is not such a twin as
      it was. */
  lemma {:induction false} WithSumsKeeps(rows: seq<Row>, cs: seq<string>, k: string)
    requires forall j :: 0 <= j < |cs| ==> k != cs[j] + "_sum"
    ensures forall i :: 0 <= i < |rows| ==> Get(WithSums(rows, cs)[i], k) == Get(rows[i], k)
  {
    if cs != [] {
      WithSumsKeeps(rows, cs[..|cs| - 1], k);
    }
  }

  lemma NoTwin(cs: seq<string>, k: string)
    requires !IsSum(k)
    ensures forall j :: 0 <= j < |cs| ==> k != cs[j] + "_sum"
  {
    forall j | 0 <= j < |cs| ensures k != cs[j] + "_sum" {
      SumIsSum(cs[j]);
    }
  }

  lemma WithIdsKeys(rows: seq<Row>, collapse: bool)
    ensures forall i :: 0 <= i < |rows| ==>
      SortKey(WithIds(rows, collapse)[i]) == IndexRank(WithIds(rows, collapse)[i], collapse)
  {
    forall i | 0 <= i < |rows| ensures SortKey(WithIds(rows, collapse)[i]) == IndexRank(WithIds(rows, collapse)[i], collapse) {
      IdRoundTrip(rows[i], collapse);
    }
  }

  lemma WithSumsKeys(rows: seq<Row>, cs: seq<string>, collapse: bool)
    requires forall i :: 0 <= i < |rows| ==> SortKey(rows[i]) == IndexRank(rows[i], collapse)
    ensures forall i :: 0 <= i < |rows| ==>
      SortKey(WithSums(rows, cs)[i]) == IndexRank(WithSums(rows, cs)[i], collapse)
  {
    var s := WithSums(rows, cs);
    forall i | 0 <= i < |rows| ensures SortKey(s[i]) == IndexRank(s[i], collapse) {
      KeyCellsKept(rows, cs, i);
      SameKeyCells(s[i], rows[i], collapse);
    }
  }

  /** Rows that agree on `parse_id`, `input_index` and `parse_rank` have
      the same sort key and the same position and rank. */
  lemma SameKeyCells(a: Row, b: Row, collapse: bool)
    requires Get(a, "parse_id") == Get(b, "parse_id")
    requires Get(a, "input_index") == Get(b, "input_index")
    requires Get(a, "parse_rank") == Get(b, "parse_rank")
    ensures SortKey(a) == SortKey(b) && IndexRank(a, collapse) == IndexRank(b, collapse)
  {
  }

  lemma KeyCellsKept(rows: seq<Row>, cs: seq<string>, i: nat)
    requires i < |rows|
    ensures Get(WithSums(rows, cs)[i], "parse_id") == Get(rows[i], "parse_id")
    ensures Get(WithSums(rows, cs)[i], "input_index") == Get(rows[i], "input_index")
    ensures Get(WithSums(rows, cs)[i], "parse_rank") == Get(rows[i], "parse_rank")
  {
    assert !IsSum("parse_id") && !IsSum("input_index") && !IsSum("parse_rank");
    NoTwin(cs, "parse_id");
    WithSumsKeeps(rows, cs, "parse_id");
    NoTwin(cs, "input_index");
    WithSumsKeeps(rows, cs, "input_index");
    NoTwin(cs, "parse_rank");
    WithSumsKeeps(rows, cs, "parse_rank");
  }

  /** Before sorting, the key read back from each row's `parse_id` is its
      `input_index` and `parse_rank`. */
  lemma ShapedKeys(cols: seq<string>, rows: seq<Row>, f: Flags)
    ensures forall r :: r in ShapedRows(cols, rows, f) ==> SortKey(r) == IndexRank(r, f.collapse)
  {
    var r1 := if f.mu then WithMU(rows) else rows;
    var r2 := if f.mts then WithMTS(r1) else r1;
    WithIdsKeys(if f.collapse then Collapse(r2) else r2, f.collapse);
    var r3 := IdRows(rows, f);
    if f.sums {
      WithSumsKeys(r3, StarColumns(cols), f.collapse);
    }
  }

  /** The output rows are the shaped rows, reordered and projected onto
      the final columns, in non-decreasing order of `input_index` and then
      `parse_rank`. */
  lemma OutputOrder(cols: seq<string>, rows: seq<Row>, f: Flags)
    ensures var s := SortRows(ShapedRows(cols, rows, f));
      && OutputRows(cols, rows, f) == ProjectAll(s, OutputColumns(cols, f))
      && multiset(s) == multiset(ShapedRows(cols, rows, f))
      && forall i, j :: 0 <= i < j < |s| ==> KeyLe(IndexRank(s[i], f.collapse), IndexRank(s[j], f.collapse))
  {
    var sh := ShapedRows(cols, rows, f);
    var s := SortRows(sh);
    ParseIdSurvives(cols, f);
    SortRowsPermutes(sh);
    SortRowsSorted(sh);
    ShapedKeys(cols, rows, f);
    forall i | 0 <= i < |s| ensures SortKey(s[i]) == IndexRank(s[i], f.collapse) {
      assert s[i] in multiset(sh);
    }
  }

  // ------------------------------------------------------------ collapse

  /** The first row of minimal `parse_rank` among the first `n` rows whose
      `input_index` is `v`, if any. */
  function GroupBest(rows: seq<Row>, v: Cell, n: nat): (m: Option<nat>)
    requires n <= |rows|
    ensures m.None? <==> forall j :: 0 <= j < n ==> Get(rows[j], "input_index") != v
    ensures m.Some? ==> m.value < n && Get(rows[m.value], "input_index") == v
    ensures m.Some? ==> forall j :: 0 <= j < n && Get(rows[j], "input_index") == v ==>
      Rank(rows[m.value]) < Rank(rows[j]) || (Rank(rows[m.value]) == Rank(rows[j]) && m.value <= j)
  {
    if n == 0 then None
    else
      var m := GroupBest(rows, v, n - 1);
      if Get(rows[n - 1], "input_index") != v then m
      else if m.None? || Rank(rows[n - 1]) < Rank(rows[m.value]) then Some(n - 1)
      else m
  }

  lemma {:induction false} BestUpToComplete(rows: seq<Row>, n: nat, i: nat)
    requires i < n <= |rows| && IsBest(rows, i)
    ensures i in BestUpTo(rows, n)
  {
    if i < n - 1 {
      BestUpToComplete(rows, n - 1, i);
    }
  }

  /** Collapsing keeps at most one row per `input_index`. */
  lemma CollapseOnePerLine(rows: seq<Row>)
    ensures var c := Collapse(rows);
      forall a, b :: 0 <= a < b < |c| ==> Get(c[a], "input_index") != Get(c[b], "input_index")
  {
    var idx := BestUpTo(rows, |rows|);
    var c := Collapse(rows);
    forall a, b | 0 <= a < b < |c| ensures Get(c[a], "input_index") != Get(c[b], "input_index") {
      assert c[a] == rows[idx[a]] && c[b] == rows[idx[b]];
      assert IsBest(rows, idx[a]) && IsBest(rows, idx[b]) && idx[a] < idx[b];
    }
  }

  /** Every `input_index` of the table keeps a row, and that row is the
      first of minimal `parse_rank` among the rows of its line. */
  lemma CollapseBest(rows: seq<Row>, j: nat)
    requires j < |rows|
    ensures var c := Collapse(rows);
      exists a :: 0 <= a < |c| && Get(c[a], "input_index") == Get(rows[j], "input_index")
    ensures var c := Collapse(rows);
      forall a :: 0 <= a < |c| && Get(c[a], "input_index") == Get(rows[j], "input_index") ==>
        exists i :: 0 <= i < |rows| && c[a] == rows[i] && IsBest(rows, i)
  {
    var v := Get(rows[j], "input_index");
    var m := GroupBest(rows, v, |rows|);
    var i := m.value;
    assert IsBest(rows, i);
    BestUpToComplete(rows, |rows|, i);
    var idx := BestUpTo(rows, |rows|);
    var c := Collapse(rows);
    var a :| 0 <= a < |idx| && idx[a] == i;
    assert c[a] == rows[i];
    forall a' | 0 <= a' < |c| && Get(c[a'], "input_index") == v
      ensures exists i' :: 0 <= i' < |rows| && c[a'] == rows[i'] && IsBest(rows, i')
    {
      assert c[a'] == rows[idx[a']];
    }
  }

  // ------------------------------------------------------------ group aggregates

  /** The rows whose column `k` holds `v`, in table order: one group of
      `groupby(k)`. */
  function Group(rows: seq<Row>, k: string, v: Cell): (g: seq<Row>)
    ensures forall r :: r in g <==> r in rows && Get(r, k) == v
  {
    if rows == [] then []
    else
      var init := Group(rows[..|rows| - 1], k, v);
      var last := rows[|rows| - 1];
      assert rows == rows[..|rows| - 1] + [last];
      if Get(last, k) == v then init + [last] else init
  }

  /** The sum of column `c` over `rows`. */
  function Total(rows: seq<Row>, c: string): int {
    if rows == [] then 0 else Total(rows[..|rows| - 1], c) + NumOf(Get(rows[|rows| - 1], c))
  }

  /** The count and the sum `transform` spreads over a group are the size
      and the column total of that group. */
  lemma {:induction false} AggregatesOfGroup(rows: seq<Row>, k: string, v: Cell, c: string)
    ensures CountWhere(rows, k, v) == |Group(rows, k, v)|
    ensures SumWhere(rows, k, v, c) == Total(Group(rows, k, v), c)
  {
    if rows != [] {
      var init := rows[..|rows| - 1];
      AggregatesOfGroup(init, k, v, c);
      var g := Group(init, k, v);
      var last := rows[|rows| - 1];
      if Get(last, k) == v {
        assert (g + [last])[..|g|] == g;
      }
    }
  }

  lemma {:induction false} SumWhereAppend(a: seq<Row>, b: seq<Row>, k: string, v: Cell, c: string)
    ensures SumWhere(a + b, k, v, c) == SumWhere(a, k, v, c) + SumWhere(b, k, v, c)
  {
    if b == [] {
      assert a + b == a;
    } else {
      var init := b[..|b| - 1];
      SumWhereAppend(a, init, k, v, c);
      assert (a + b)[..|a + b| - 1] == a + init;
    }
  }

  /** Rows that agree on `k` and `c` have the same group sums. */
  lemma {:induction false} SumWhereFrame(rows: seq<Row>, other: seq<Row>, k: string, v: Cell, c: string)
    requires |rows| == |other|
    requires forall i :: 0 <= i < |rows| ==> Get(rows[i], k) == Get(other[i], k) && Get(rows[i], c) == Get(other[i], c)
    ensures SumWhere(rows, k, v, c) == SumWhere(other, k, v, c)
  {
    if rows != [] {
      SumWhereFrame(rows[..|rows| - 1], other[..|other| - 1], k, v, c);
    }
  }

  /** `MU`: each row holds the number of rows of its `source_text`. */
  lemma MUCounts(rows: seq<Row>, i: nat)
    requires i < |rows|
    ensures Get(WithMU(rows)[i], "MU") == Num(|Group(rows, "source_text", Get(rows[i], "source_text"))|)
  {
    AggregatesOfGroup(rows, "source_text", Get(rows[i], "source_text"), "parse_score");
  }

  /** `MTS`: each row holds the total `parse_score` of the rows of its
      `input_index`. */
  lemma MTSTotals(rows: seq<Row>, i: nat)
    requires i < |rows|
    ensures Get(WithMTS(rows)[i], "MTS") == Num(Total(Group(rows, "input_index", Get(rows[i], "input_index")), "parse_score"))
  {
    AggregatesOfGroup(rows, "input_index", Get(rows[i], "input_index"), "parse_score");
  }

  /** Each `_sum` twin holds the total of its column over the rows of the
      row's `source_text`, as long as no column of `cs` is itself the twin
      of another. */
  lemma {:induction false} WithSumsValues(rows: seq<Row>, cs: seq<string>, i: nat, c: string)
    requires i < |rows| && c in cs
    requires forall a, b :: 0 <= a < |cs| && 0 <= b < |cs| ==> cs[a] != cs[b] + "_sum"
    ensures Get(WithSums(rows, cs)[i], c + "_sum") ==
      Num(Total(Group(rows, "source_text", Get(rows[i], "source_text")), c))
  {
    var init := cs[..|cs| - 1];
    var d := cs[|cs| - 1];
    var w := WithSums(rows, init);
    assert !IsSum("source_text");
    NoTwin(init, "source_text");
    WithSumsKeeps(rows, init, "source_text");
    var v := Get(rows[i], "source_text");
    if c == d {
      assert forall j :: 0 <= j < |init| ==> d != init[j] + "_sum";
      WithSumsKeeps(rows, init, d);
      SumWhereFrame(w, rows, "source_text", v, d);
      AggregatesOfGroup(rows, "source_text", v, d);
    } else {
      assert c in init;
      SumsDiffer(c, d);
      WithSumsValues(rows, init, i, c);
    }
  }

  /** In the shaped table, the `_sum` twin of a `*` column holds that
      column's total over the rows of the same `source_text`. */
  lemma ShapedSums(cols: seq<string>, rows: seq<Row>, f: Flags, i: nat, c: string)
    requires f.sums && c in cols && StartsWith(c, "*")
    requires forall x :: x in cols && StartsWith(x, "*") ==> !IsSum(x)
    requires i < |IdRows(rows, f)|
    ensures var r3 := IdRows(rows, f);
      Get(ShapedRows(cols, rows, f)[i], c + "_sum") ==
        Num(Total(Group(r3, "source_text", Get(r3[i], "source_text")), c))
  {
    var cs := StarColumns(cols);
    forall a, b | 0 <= a < |cs| && 0 <= b < |cs| ensures cs[a] != cs[b] + "_sum" {
      assert cs[a] in cs;
      SumIsSum(cs[b]);
    }
    WithSumsValues(IdRows(rows, f), cs, i, c);
  }
}
