/** The column side of `process_output` (parse.py:348-453): which columns
    the output has and in which order. Column names are distinct, as the
    labels of the table `run_parse` builds are. */
module Columns {
  import opened Text

  predicate Distinct(xs: seq<string>) {
    forall i, j :: 0 <= i < j < |xs| ==> xs[i] != xs[j]
  }

  /** `col.endswith("_sum")`. */
  predicate IsSum(c: string) {
    EndsWith(c, "_sum")
  }

  lemma SumIsSum(c: string)
    ensures IsSum(c + "_sum")
  {
    assert (c + "_sum")[|c|..] == "_sum";
  }

  lemma SumsDiffer(c: string, d: string)
    requires c != d
    ensures c + "_sum" != d + "_sum"
  {
    assert c == (c + "_sum")[..|c|];
    assert d == (d + "_sum")[..|d|];
  }

  /** `[col for col in cols if col.endswith("_sum")]` (parse.py:389). */
  function SumColumns(cols: seq<string>): (r: seq<string>)
    ensures forall x :: x in r <==> x in cols && IsSum(x)
  {
    if cols == [] then []
    else
      var init := SumColumns(cols[..|cols| - 1]);
      assert cols == cols[..|cols| - 1] + [cols[|cols| - 1]];
      if IsSum(cols[|cols| - 1]) then init + [cols[|cols| - 1]] else init
  }

  lemma {:induction false} SumColumnsDistinct(cols: seq<string>)
    requires Distinct(cols)
    ensures Distinct(SumColumns(cols))
  {
    if cols != [] {
      var init := cols[..|cols| - 1];
      assert Distinct(init);
      SumColumnsDistinct(init);
    }
  }

  /** `xs.remove(x)`: drop the first occurrence of `x`. */
  function RemoveFirst(xs: seq<string>, x: string): (r: seq<string>)
    requires x in xs
    ensures |r| == |xs| - 1
    ensures Distinct(xs) ==> Distinct(r) && forall y :: y in r <==> y in xs && y != x
  {
    if xs[0] == x then
      assert forall k :: 0 <= k < |xs[1..]| ==> xs[1..][k] == xs[k + 1];
      xs[1..]
    else
      var rest := RemoveFirst(xs[1..], x);
      assert xs == [xs[0]] + xs[1..];
      assert Distinct(xs) ==> Distinct(xs[1..]) && xs[0] !in xs[1..];
      [xs[0]] + rest
  }

  // ------------------------------------------------------------ the `_sum` reorder (parse.py:386-403)

  /** The first loop of the reorder over the columns `cs`: every column
      that is not a `_sum` column, each followed by its `_sum` twin when
      `all` has one. */
  function Paired(cs: seq<string>, all: seq<string>): seq<string> {
    if cs == [] then []
    else
      var init := Paired(cs[..|cs| - 1], all);
      var c := cs[|cs| - 1];
      if IsSum(c) then init
      else init + [c] + (if c + "_sum" in all then [c + "_sum"] else [])
  }

  /** The columns of `cs` that are not among `placed`, in order. */
  function Leftover(cs: seq<string>, placed: seq<string>): (r: seq<string>)
    ensures forall x :: x in r <==> x in cs && x !in placed
  {
    if cs == [] then []
    else
      var init := Leftover(cs[..|cs| - 1], placed);
      var c := cs[|cs| - 1];
      assert cs == cs[..|cs| - 1] + [c];
      if c in placed then init else init + [c]
  }

  /** The column order after the reorder. */
  function Interleave(cols: seq<string>): seq<string> {
    var p := Paired(cols, cols);
    p + Leftover(cols, p)
  }

  /** A `_sum` column placed by the first loop is the twin of an earlier
      column. */
  lemma {:induction false} PairedSums(cs: seq<string>, all: seq<string>, x: string)
    requires x in Paired(cs, all) && IsSum(x)
    ensures exists j :: 0 <= j < |cs| && !IsSum(cs[j]) && x == cs[j] + "_sum"
  {
    var init := cs[..|cs| - 1];
    var c := cs[|cs| - 1];
    if x in Paired(init, all) {
      PairedSums(init, all, x);
      var j :| 0 <= j < |init| && !IsSum(init[j]) && x == init[j] + "_sum";
      assert cs[j] == init[j];
    } else {
      assert x == c + "_sum";
    }
  }

  /** A `_sum` column that is the twin of none of `cs` is not placed by
      the first loop over `cs`. */
  lemma {:induction false} PairedNoTwin(cs: seq<string>, all: seq<string>, x: string)
    requires IsSum(x)
    requires forall j :: 0 <= j < |cs| ==> x != cs[j] + "_sum"
    ensures x !in Paired(cs, all)
  {
    if cs != [] {
      var init := cs[..|cs| - 1];
      forall j | 0 <= j < |init|
        ensures x != init[j] + "_sum"
      {
        assert init[j] == cs[j];
      }
      PairedNoTwin(init, all, x);
    }
  }

  /** Every column the first loop places is a column. */
  lemma {:induction false} PairedWithin(cs: seq<string>, all: seq<string>)
    requires forall x :: x in cs ==> x in all
    ensures forall x :: x in Paired(cs, all) ==> x in all
  {
    if cs != [] {
      var init := cs[..|cs| - 1];
      assert forall x :: x in init ==> x in cs;
      PairedWithin(init, all);
    }
  }

  /** Every column that is not a `_sum` column is placed by the first loop. */
  lemma {:induction false} PairedCovers(cs: seq<string>, all: seq<string>)
    ensures forall x :: x in cs && !IsSum(x) ==> x in Paired(cs, all)
  {
    if cs != [] {
      var init := cs[..|cs| - 1];
      PairedCovers(init, all);
      assert cs == init + [cs[|cs| - 1]];
    }
  }

  /** When the first loop reaches a column that is not a `_sum` column,
      its twin has not been placed yet. */
  lemma TwinNotPlaced(cols: seq<string>, i: nat)
    requires Distinct(cols) && i < |cols| && !IsSum(cols[i])
    ensures cols[i] + "_sum" !in Paired(cols[..i], cols)
  {
    var sumCol := cols[i] + "_sum";
    SumIsSum(cols[i]);
    forall j | 0 <= j < i
      ensures sumCol != cols[..i][j] + "_sum"
    {
      assert cols[..i][j] == cols[j] != cols[i];
      SumsDiffer(cols[i], cols[j]);
    }
    PairedNoTwin(cols[..i], cols, sumCol);
  }

  /** The two loops of the reorder (parse.py:386-401). */
  method InterleaveSums(cols: seq<string>) returns (order: seq<string>)
    requires Distinct(cols)
    ensures order == Interleave(cols)
  {
    var sumCols := SumColumns(cols);
    SumColumnsDistinct(cols);
    order := [];
    for i := 0 to |cols|
      invariant order == Paired(cols[..i], cols)
      invariant Distinct(sumCols)
      invariant forall s :: s in sumCols <==> s in cols && IsSum(s) && s !in order
    {
      assert cols[..i + 1][..i] == cols[..i];
      var col := cols[i];
      if IsSum(col) {
        continue;
      }
      var sumCol := col + "_sum";
      SumIsSum(col);
      TwinNotPlaced(cols, i);
      order := order + [col];
      if sumCol in sumCols {
        order := order + [sumCol];
        sumCols := RemoveFirst(sumCols, sumCol);
      }
    }
    assert cols[..|cols|] == cols;
    ghost var placed := order;
    for i := 0 to |cols|
      invariant order == placed + Leftover(cols[..i], placed)
    {
      assert cols[..i + 1][..i] == cols[..i];
      var col := cols[i];
      assert col !in Leftover(cols[..i], placed);
      if col !in order {
        order := order + [col];
      }
    }
    assert cols[..|cols|] == cols;
  }

  /** The columns that are not `_sum` columns, in order. */
  function NonSums(cs: seq<string>): (r: seq<string>)
    ensures forall x :: x in r <==> x in cs && !IsSum(x)
  {
    if cs == [] then []
    else
      var init := NonSums(cs[..|cs| - 1]);
      var c := cs[|cs| - 1];
      assert cs == cs[..|cs| - 1] + [c];
      if IsSum(c) then init else init + [c]
  }

  lemma {:induction false} NonSumsAppend(a: seq<string>, b: seq<string>)
    ensures NonSums(a + b) == NonSums(a) + NonSums(b)
    decreases |b|
  {
    if b == [] {
      assert a + b == a;
    } else {
      var init := b[..|b| - 1];
      assert (a + b)[..|a + b| - 1] == a + init;
      NonSumsAppend(a, init);
    }
  }

  lemma {:induction false} NonSumsPaired(cs: seq<string>, all: seq<string>)
    ensures NonSums(Paired(cs, all)) == NonSums(cs)
  {
    if cs != [] {
      var init := cs[..|cs| - 1];
      var c := cs[|cs| - 1];
      NonSumsPaired(init, all);
      if !IsSum(c) {
        var tail := if c + "_sum" in all then [c + "_sum"] else [];
        SumIsSum(c);
        NonSumsAppend(Paired(init, all) + [c], tail);
        NonSumsAppend(Paired(init, all), [c]);
        assert NonSums(tail) == [] by {
          if tail != [] {
            assert tail[..0] == [];
          }
        }
      }
    }
  }

  lemma {:induction false} NonSumsNone(cs: seq<string>)
    requires forall x :: x in cs ==> IsSum(x)
    ensures NonSums(cs) == []
  {
    if cs != [] {
      NonSumsNone(cs[..|cs| - 1]);
    }
  }

  /** The reorder moves only `_sum` columns: all other columns keep their
      relative order. */
  lemma InterleaveKeepsOthers(cols: seq<string>)
    ensures NonSums(Interleave(cols)) == NonSums(cols)
  {
    var p := Paired(cols, cols);
    var l := Leftover(cols, p);
    PairedCovers(cols, cols);
    NonSumsNone(l);
    NonSumsAppend(p, l);
    NonSumsPaired(cols, cols);
  }

  /** The reorder neither loses nor invents a column. */
  lemma InterleaveSameColumns(cols: seq<string>)
    ensures forall x :: x in Interleave(cols) <==> x in cols
  {
    PairedWithin(cols, cols);
  }

  lemma {:induction false} PairedDistinct(cs: seq<string>, all: seq<string>)
    requires Distinct(cs)
    ensures Distinct(Paired(cs, all))
  {
    if cs != [] {
      var init := cs[..|cs| - 1];
      var c := cs[|cs| - 1];
      var p := Paired(init, all);
      assert Distinct(init);
      PairedDistinct(init, all);
      if !IsSum(c) {
        SumIsSum(c);
        assert c !in p by {
          NonSumsPaired(init, all);
        }
        var s := c + "_sum";
        assert s !in p by {
          if s in p {
            PairedSums(init, all, s);
          }
        }
        assert c != s;
        var q := p + [c];
        assert Distinct(q);
        if s in all {
          assert s !in q;
        }
      }
    }
  }

  lemma {:induction false} LeftoverDistinct(cs: seq<string>, placed: seq<string>)
    requires Distinct(cs)
    ensures Distinct(Leftover(cs, placed))
  {
    if cs != [] {
      var init := cs[..|cs| - 1];
      assert Distinct(init);
      LeftoverDistinct(init, placed);
    }
  }

  /** The reorder of distinct columns lists each column once. */
  lemma InterleaveDistinct(cols: seq<string>)
    requires Distinct(cols)
    ensures Distinct(Interleave(cols))
  {
    var p := Paired(cols, cols);
    var l := Leftover(cols, p);
    PairedDistinct(cols, cols);
    LeftoverDistinct(cols, p);
    var r := p + l;
    forall i, j | 0 <= i < j < |r| ensures r[i] != r[j] {
      if j >= |p| && i < |p| {
        assert r[j] in l;
        assert r[i] in p;
      }
    }
  }

  /** `x` is immediately followed by `y` somewhere in `cs`. */
  predicate Adjacent(cs: seq<string>, x: string, y: string) {
    exists k :: 0 <= k < |cs| - 1 && cs[k] == x && cs[k + 1] == y
  }

  lemma AdjacentAppend(a: seq<string>, b: seq<string>, x: string, y: string)
    requires Adjacent(a, x, y)
    ensures Adjacent(a + b, x, y)
  {
    var k :| 0 <= k < |a| - 1 && a[k] == x && a[k + 1] == y;
    assert (a + b)[k] == x && (a + b)[k + 1] == y;
  }

  lemma AdjacentPrepend(a: seq<string>, b: seq<string>, x: string, y: string)
    requires Adjacent(b, x, y)
    ensures Adjacent(a + b, x, y)
  {
    var k :| 0 <= k < |b| - 1 && b[k] == x && b[k + 1] == y;
    assert (a + b)[|a| + k] == x && (a + b)[|a| + k + 1] == y;
  }

  lemma {:induction false} PairedAdjacent(cs: seq<string>, all: seq<string>, c: string)
    requires c in cs && !IsSum(c) && c + "_sum" in all
    ensures Adjacent(Paired(cs, all), c, c + "_sum")
  {
    var init := cs[..|cs| - 1];
    var last := cs[|cs| - 1];
    if c in init {
      PairedAdjacent(init, all, c);
      if !IsSum(last) {
        AdjacentAppend(Paired(init, all), [last] + (if last + "_sum" in all then [last + "_sum"] else []), c, c + "_sum");
        assert Paired(cs, all) == Paired(init, all) + ([last] + (if last + "_sum" in all then [last + "_sum"] else []));
      }
    } else {
      assert cs == init + [last];
      var p := Paired(init, all);
      var r := Paired(cs, all);
      assert r == p + [c] + [c + "_sum"];
      assert r[|p|] == c && r[|p| + 1] == c + "_sum";
    }
  }

  /** After the reorder each `_sum` column comes right after its base
      column. */
  lemma InterleaveAdjacent(cols: seq<string>, c: string)
    requires c in cols && !IsSum(c) && c + "_sum" in cols
    ensures Adjacent(Interleave(cols), c, c + "_sum")
  {
    var p := Paired(cols, cols);
    PairedAdjacent(cols, cols, c);
    AdjacentAppend(p, Leftover(cols, p), c, c + "_sum");
  }

  // ------------------------------------------------------------ adding, dropping, moving

  /** `df[c] = ...`: a new column goes to the end. */
  function AddColumn(cs: seq<string>, c: string): (r: seq<string>)
    ensures forall x :: x in r <==> x in cs || x == c
  {
    if c in cs then cs else cs + [c]
  }

  lemma AddColumnDistinct(cs: seq<string>, c: string)
    requires Distinct(cs)
    ensures Distinct(AddColumn(cs, c))
  {
  }

  /** `df.drop(columns=[c for c in names if c in df.columns])`. */
  function Without(cs: seq<string>, names: seq<string>): (r: seq<string>)
    ensures forall x :: x in r <==> x in cs && x !in names
  {
    if cs == [] then []
    else
      assert cs == [cs[0]] + cs[1..];
      (if cs[0] in names then [] else [cs[0]]) + Without(cs[1..], names)
  }

  lemma {:induction false} WithoutDistinct(cs: seq<string>, names: seq<string>)
    requires Distinct(cs)
    ensures Distinct(Without(cs, names))
  {
    if cs != [] {
      assert Distinct(cs[1..]) && cs[0] !in cs[1..];
      WithoutDistinct(cs[1..], names);
    }
  }

  /** One step of `Without`: the first column stays or goes. */
  lemma WithoutCons(cs: seq<string>, names: seq<string>)
    requires cs != []
    ensures Without(cs, names) == (if cs[0] in names then [] else [cs[0]]) + Without(cs[1..], names)
  {
  }

  /** Dropping other columns keeps two neighbours together. */
  lemma {:induction false} WithoutAdjacent(cs: seq<string>, names: seq<string>, x: string, y: string)
    requires Adjacent(cs, x, y) && x !in names && y !in names
    ensures Adjacent(Without(cs, names), x, y)
  {
    var t := cs[1..];
    WithoutCons(cs, names);
    if cs[0] == x && cs[1] == y {
      WithoutCons(t, names);
      var w := Without(cs, names);
      assert w == [x] + ([y] + Without(t[1..], names));
      assert w[0] == x && w[1] == y;
    } else {
      var k :| 0 <= k < |cs| - 1 && cs[k] == x && cs[k + 1] == y;
      assert t[k - 1] == x && t[k] == y;
      WithoutAdjacent(t, names, x, y);
      AdjacentPrepend(if cs[0] in names then [] else [cs[0]], Without(t, names), x, y);
    }
  }

  /** `cols.insert(0, cols.pop(cols.index(c)))` (parse.py:429-430). */
  function MoveToFront(cs: seq<string>, c: string): seq<string>
    requires c in cs
  {
    [c] + RemoveFirst(cs, c)
  }

  lemma {:induction false} RemoveFirstIsWithout(xs: seq<string>, x: string)
    requires x in xs && Distinct(xs)
    ensures RemoveFirst(xs, x) == Without(xs, [x])
  {
    assert Distinct(xs[1..]) && xs[0] !in xs[1..];
    if xs[0] == x {
      assert forall y :: y in xs[1..] ==> y !in [x];
      WithoutNone(xs[1..], [x]);
    } else {
      RemoveFirstIsWithout(xs[1..], x);
    }
  }

  lemma {:induction false} WithoutNone(cs: seq<string>, names: seq<string>)
    requires forall y :: y in cs ==> y !in names
    ensures Without(cs, names) == cs
  {
    if cs != [] {
      assert forall y :: y in cs[1..] ==> y in cs;
      WithoutNone(cs[1..], names);
      assert cs == [cs[0]] + cs[1..];
    }
  }

  /** Moving a column to the front puts it first and leaves every other
      column, and the order of the others, as it was. */
  lemma MoveToFrontShape(cs: seq<string>, c: string)
    requires c in cs && Distinct(cs)
    ensures var r := MoveToFront(cs, c);
      && r[0] == c
      && Distinct(r)
      && (forall x :: x in r <==> x in cs)
      && r[1..] == Without(cs, [c])
  {
    RemoveFirstIsWithout(cs, c);
    var r := MoveToFront(cs, c);
    assert r[1..] == RemoveFirst(cs, c);
  }

  lemma MoveToFrontAdjacent(cs: seq<string>, c: string, x: string, y: string)
    requires c in cs && Distinct(cs) && Adjacent(cs, x, y) && x != c && y != c
    ensures Adjacent(MoveToFront(cs, c), x, y)
  {
    RemoveFirstIsWithout(cs, c);
    WithoutAdjacent(cs, [c], x, y);
    AdjacentPrepend([c], Without(cs, [c]), x, y);
  }

  /** The columns dropped whatever the settings (parse.py:406-412). */
  const DropList: seq<string> := [
    "stanza_num", "line_num", "parse_ambig", "parse_is_bounded",
    "*total_sylls", "*total_sylls_sum", "*total", "*total_sum",
    "*total_sylls_norm", "source_text", "*total_sylls_norm_sum",
    "*total_norm", "*total_norm_sum", "*foot_size", "*foot_size_sum"]

  /** The columns dropped when `include_norms` is false (parse.py:417-424). */
  const NormDropList: seq<string> := [
    "*w_stress_norm", "*w_stress_norm_sum",
    "*s_unstress_norm", "*s_unstress_norm_sum",
    "*unres_within_norm", "*unres_within_norm_sum",
    "*foot_size_norm", "*foot_size_norm_sum",
    "*unres_across_norm", "*unres_across_norm_sum",
    "*w_peak_norm", "*w_peak_norm_sum",
    "*s_trough_norm", "*s_trough_norm_sum"]
}
