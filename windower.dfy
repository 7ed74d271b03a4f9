/** The syllable windower `get_window_indices` (parse.py:196-240): given a
    line's per-token syllable counts, a budget and a placement mode, it
    picks a half-open token range `[start, end)`.

    Each mode is a method with the source's loop, proved equal to a
    reference function whose contract says which range it is: the shortest
    prefix reaching the budget, the shortest suffix reaching it, or the
    first window of the alternating outward growth from the midpoint. */
module Windower {
  import opened Wrappers

  /** Python's `sum` over syllable counts. */
  function Sum(c: seq<nat>): nat {
    if c == [] then 0 else c[0] + Sum(c[1..])
  }

  lemma {:induction false} SumSnoc(c: seq<nat>, x: nat)
    ensures Sum(c + [x]) == Sum(c) + x
  {
    if c == [] {
      assert [] + [x] == [x];
    } else {
      assert (c + [x])[1..] == c[1..] + [x];
      SumSnoc(c[1..], x);
    }
  }

  /** Extending a slice by one token on the right adds that token's count. */
  lemma SliceGrowRight(c: seq<nat>, l: nat, r: nat)
    requires l <= r < |c|
    ensures Sum(c[l..r + 1]) == Sum(c[l..r]) + c[r]
  {
    assert c[l..r + 1] == c[l..r] + [c[r]];
    SumSnoc(c[l..r], c[r]);
  }

  /** Extending a suffix by one token on the left adds that token's count. */
  lemma SuffixGrowLeft(c: seq<nat>, s: nat)
    requires 0 < s <= |c|
    ensures Sum(c[s - 1..]) == c[s - 1] + Sum(c[s..])
  {
    assert c[s - 1..][1..] == c[s..];
  }

  /** Prefix sums never decrease, since every count is a natural. */
  lemma {:induction false} PrefixMonotone(c: seq<nat>, j: nat, k: nat)
    requires j <= k <= |c|
    ensures Sum(c[..j]) <= Sum(c[..k])
  {
    if j < k {
      PrefixMonotone(c, j, k - 1);
      SliceGrowRight(c, 0, k - 1);
      assert c[0..k - 1] == c[..k - 1] && c[0..k] == c[..k];
    }
  }

  // ---------------------------------------------------------------- beginning

  /** The least `e >= k` whose prefix `c[..e]` reaches `m` syllables, or
      `|c|` when no prefix does. */
  function PrefixEnd(c: seq<nat>, m: nat, k: nat): (e: nat)
    requires k <= |c|
    ensures k <= e <= |c|
    ensures e == |c| || Sum(c[..e]) >= m
    ensures forall j :: k <= j < e ==> Sum(c[..j]) < m
    decreases |c| - k
  {
    if k == |c| || Sum(c[..k]) >= m then k else PrefixEnd(c, m, k + 1)
  }

  /** `beginning` (parse.py:197-203). */
  method BeginningWindow(c: seq<nat>, m: nat) returns (start: nat, end: nat)
    ensures start == 0 && end == PrefixEnd(c, m, 0)
  {
    var endIdx := 0;
    var syllSum := 0;
    while endIdx < |c| && syllSum < m
      invariant endIdx <= |c|
      invariant syllSum == Sum(c[..endIdx])
      invariant PrefixEnd(c, m, endIdx) == PrefixEnd(c, m, 0)
    {
      SliceGrowRight(c, 0, endIdx);
      assert c[0..endIdx] == c[..endIdx] && c[0..endIdx + 1] == c[..endIdx + 1];
      syllSum := syllSum + c[endIdx];
      endIdx := endIdx + 1;
    }
    start, end := 0, endIdx;
  }

  // ---------------------------------------------------------------------- end

  /** The greatest `s <= k` whose suffix `c[s..]` reaches `m`, or 0. */
  function SuffixStart(c: seq<nat>, m: nat, k: nat): (s: nat)
    requires k < |c|
    ensures s <= k
    ensures s == 0 || Sum(c[s..]) >= m
    ensures forall j :: s < j <= k ==> Sum(c[j..]) < m
    decreases k
  {
    if k == 0 || Sum(c[k..]) >= m then k else SuffixStart(c, m, k - 1)
  }

  /** Start of the `end` window. The source moves left before it tests the
      budget, so a non-empty line keeps at least its last token even when
      the budget is 0. */
  function EndStart(c: seq<nat>, m: nat): (s: nat)
    ensures s <= |c| && (|c| > 0 ==> s < |c|)
    ensures s == 0 || Sum(c[s..]) >= m
    ensures forall j :: s < j < |c| ==> Sum(c[j..]) < m
  {
    if |c| == 0 then 0 else SuffixStart(c, m, |c| - 1)
  }

  /** `end` (parse.py:205-213). */
  method EndWindow(c: seq<nat>, m: nat) returns (start: nat, end: nat)
    ensures start == EndStart(c, m) && end == |c|
  {
    var startIdx: nat := |c|;
    var syllSum := 0;
    while startIdx > 0
      invariant startIdx <= |c|
      invariant syllSum == Sum(c[startIdx..])
      invariant startIdx < |c| ==> syllSum < m && EndStart(c, m) == SuffixStart(c, m, startIdx)
    {
      SuffixGrowLeft(c, startIdx);
      EndStep(c, m, startIdx);
      startIdx := startIdx - 1;
      syllSum := syllSum + c[startIdx];
      if syllSum >= m {
        assert SuffixStart(c, m, startIdx) == startIdx;
        break;
      }
    }
    start, end := startIdx, |c|;
  }

  /** One step of the `end` loop: the start it looks for lies at or below
      the next index. */
  lemma EndStep(c: seq<nat>, m: nat, s: nat)
    requires 0 < s <= |c|
    requires s < |c| ==> Sum(c[s..]) < m && EndStart(c, m) == SuffixStart(c, m, s)
    ensures EndStart(c, m) == SuffixStart(c, m, s - 1)
  {
  }

  // ------------------------------------------------------------------- middle

  /** The greatest `p <= k` whose prefix `c[..p]` is at most `half`. */
  function PivotBelow(c: seq<nat>, half: nat, k: nat): (p: nat)
    requires k <= |c|
    ensures p <= k && Sum(c[..p]) <= half
    ensures forall j :: p < j <= k ==> Sum(c[..j]) > half
  {
    if Sum(c[..k]) <= half then k else PivotBelow(c, half, k - 1)
  }

  /** The midpoint of `middle`: the largest index whose prefix sum is at
      most `sum(counts) // 2`. */
  function Pivot(c: seq<nat>): (p: nat)
    ensures p <= |c| && Sum(c[..p]) <= Sum(c) / 2
    ensures forall j :: p < j <= |c| ==> Sum(c[..j]) > Sum(c) / 2
  {
    PivotBelow(c, Sum(c) / 2, |c|)
  }

  /** The midpoint loop stops at the pivot: a prefix within half the total
      whose one-longer prefix exceeds it is the last such prefix. */
  lemma PivotUnique(c: seq<nat>, k: nat)
    requires k <= |c| && Sum(c[..k]) <= Sum(c) / 2
    requires k == |c| || Sum(c[..k + 1]) > Sum(c) / 2
    ensures k == Pivot(c)
  {
    var p := Pivot(c);
    if p > k {
      PrefixMonotone(c, k + 1, p);
    }
  }

  /** The syllables of the tokens `[l, r)`, summed from the right. */
  function Span(c: seq<nat>, l: nat, r: nat): nat
    requires l <= r <= |c|
    decreases r - l
  {
    if l == r then 0 else Span(c, l, r - 1) + c[r - 1]
  }

  /** Extending a span by one token on the left adds that token's count. */
  lemma {:induction false} SpanGrowLeft(c: seq<nat>, l: nat, r: nat)
    requires 0 < l <= r <= |c|
    ensures Span(c, l - 1, r) == c[l - 1] + Span(c, l, r)
    decreases r - l
  {
    if l < r {
      SpanGrowLeft(c, l, r - 1);
    }
  }

  /** A span sums the same syllables as the slice. */
  lemma {:induction false} SpanIsSum(c: seq<nat>, l: nat, r: nat)
    requires l <= r <= |c|
    ensures Span(c, l, r) == Sum(c[l..r])
    decreases r - l
  {
    if l < r {
      SpanIsSum(c, l, r - 1);
      SliceGrowRight(c, l, r - 1);
    }
  }

  /** Left edge of the growth window after `q` iterations of the growth
      loop: `max(0, p - q)`. */
  function LeftAt(p: nat, q: nat): (l: nat)
    ensures l <= p
  {
    if q <= p then p - q else 0
  }

  /** Right edge of the growth window after `q` iterations: `min(n, p + q)`. */
  function RightAt(n: nat, p: nat, q: nat): (r: nat)
    requires p <= n
    ensures p <= r <= n
  {
    if p + q <= n then p + q else n
  }

  /** Where the growth loop leaves: after `iterations` whole iterations it
      either found both sides exhausted at the loop test, or reached the
      budget after the left or the right half-step of the next one. */
  datatype Growth = Growth(iterations: nat, left: nat, right: nat)

  /** The growth loop entered at iteration `q`, with the window
      `[LeftAt(p, q), RightAt(|c|, p, q))`: the loop test fails once both
      sides are exhausted; otherwise the left edge moves, the sum is
      compared with the budget, the right edge moves and the sum is compared
      again. */
  function GrowFrom(c: seq<nat>, m: nat, p: nat, q: nat): (g: Growth)
    requires p <= |c| && q <= |c|
    ensures q <= g.iterations <= |c| && g.left <= p <= g.right <= |c|
    decreases |c| - q
  {
    var n := |c|;
    if LeftAt(p, q) == 0 && RightAt(n, p, q) == n then Growth(q, 0, n)
    else if Span(c, LeftAt(p, q + 1), RightAt(n, p, q)) >= m then Growth(q, LeftAt(p, q + 1), RightAt(n, p, q))
    else if Span(c, LeftAt(p, q + 1), RightAt(n, p, q + 1)) >= m then Growth(q, LeftAt(p, q + 1), RightAt(n, p, q + 1))
    else GrowFrom(c, m, p, q + 1)
  }

  /** The `middle` window: grow outward from the pivot, left first, and
      take the window where the source stops. */
  function MiddleSpan(c: seq<nat>, m: nat): (w: (nat, nat))
    ensures w.0 <= Pivot(c) <= w.1 <= |c|
  {
    var g := GrowFrom(c, m, Pivot(c), 0);
    (g.left, g.right)
  }

  /** The midpoint loop of `middle` (parse.py:216-222). */
  method MiddlePivot(c: seq<nat>) returns (start: nat)
    ensures start == Pivot(c)
  {
    var total := Sum(c);
    var midTarget := total / 2;
    start := 0;
    var accum := 0;
    while start < |c| && accum + c[start] <= midTarget
      invariant start <= |c|
      invariant accum == Sum(c[..start]) && accum <= midTarget
    {
      SliceGrowRight(c, 0, start);
      assert c[0..start] == c[..start] && c[0..start + 1] == c[..start + 1];
      accum := accum + c[start];
      start := start + 1;
    }
    if start < |c| {
      SliceGrowRight(c, 0, start);
      assert c[0..start] == c[..start] && c[0..start + 1] == c[..start + 1];
    }
    PivotUnique(c, start);
  }

  /** One left half-step (parse.py:227-229): the edge moves unless it is
      already at 0, and the sum gains the token it passes. */
  lemma LeftHalfStep(c: seq<nat>, p: nat, q: nat, r: nat, l: nat, s: int, l': nat, s': int)
    requires p <= |c| && l == LeftAt(p, q) && r <= |c| && l <= r && s == Span(c, l, r)
    requires l > 0 ==> l' == l - 1 && s' == s + c[l - 1]
    requires l == 0 ==> l' == l && s' == s
    ensures l' == LeftAt(p, q + 1) && s' == Span(c, l', r)
  {
    if l > 0 {
      SpanGrowLeft(c, l, r);
    }
  }

  /** One right half-step (parse.py:232-234): the edge moves unless it is
      already at the end, and the sum gains the token it passes. */
  lemma RightHalfStep(c: seq<nat>, p: nat, q: nat, l: nat, r: nat, s: int, r': nat, s': int)
    requires p <= |c| && r == RightAt(|c|, p, q) && l <= r && s == Span(c, l, r)
    requires r < |c| ==> r' == r + 1 && s' == s + c[r]
    requires r == |c| ==> r' == r && s' == s
    ensures r' == RightAt(|c|, p, q + 1) && s' == Span(c, l, r')
  {
  }

  /** The loop leaves at the loop test at iteration `q`, with the window
      `[l, r)` covering the whole line. */
  lemma GrowFromExhausted(c: seq<nat>, m: nat, p: nat, q: nat, l: nat, r: nat)
    requires p <= |c| && q <= |c| && l == LeftAt(p, q) == 0 && r == RightAt(|c|, p, q) == |c|
    ensures GrowFrom(c, m, p, q).left == l && GrowFrom(c, m, p, q).right == r
  {
  }

  /** The loop leaves after the left half-step of iteration `q`, with the
      window `[l, r)`. */
  lemma GrowFromLeft(c: seq<nat>, m: nat, p: nat, q: nat, l: nat, r: nat)
    requires p <= |c| && q <= |c| && (LeftAt(p, q) > 0 || RightAt(|c|, p, q) < |c|)
    requires l == LeftAt(p, q + 1) && r == RightAt(|c|, p, q) && Span(c, l, r) >= m
    ensures GrowFrom(c, m, p, q).left == l && GrowFrom(c, m, p, q).right == r
  {
  }

  /** The loop leaves after the right half-step of iteration `q`, with the
      window `[l, r)`. */
  lemma GrowFromRight(c: seq<nat>, m: nat, p: nat, q: nat, l: nat, r: nat)
    requires p <= |c| && q <= |c| && (LeftAt(p, q) > 0 || RightAt(|c|, p, q) < |c|)
    requires Span(c, LeftAt(p, q + 1), RightAt(|c|, p, q)) < m
    requires l == LeftAt(p, q + 1) && r == RightAt(|c|, p, q + 1) && Span(c, l, r) >= m
    ensures GrowFrom(c, m, p, q).left == l && GrowFrom(c, m, p, q).right == r
  {
  }

  /** The loop goes on to iteration `q + 1`. */
  lemma GrowFromNext(c: seq<nat>, m: nat, p: nat, q: nat)
    requires p <= |c| && q <= |c| && (LeftAt(p, q) > 0 || RightAt(|c|, p, q) < |c|)
    requires Span(c, LeftAt(p, q + 1), RightAt(|c|, p, q)) < m
    requires Span(c, LeftAt(p, q + 1), RightAt(|c|, p, q + 1)) < m
    ensures q + 1 <= |c| && GrowFrom(c, m, p, q) == GrowFrom(c, m, p, q + 1)
  {
  }

  /** The growth loop of `middle` (parse.py:223-237), from the pivot `p`. */
  method MiddleGrow(c: seq<nat>, m: nat, p: nat) returns (left: nat, right: nat)
    requires p <= |c|
    ensures var g := GrowFrom(c, m, p, 0); left == g.left && right == g.right
  {
    left, right := p, p;
    var syllSum := 0;
    ghost var q: nat := 0;
    while left > 0 || right < |c|
      invariant q <= |c| && left == LeftAt(p, q) && right == RightAt(|c|, p, q)
      invariant syllSum == Span(c, left, right)
      invariant GrowFrom(c, m, p, q) == GrowFrom(c, m, p, 0)
      decreases |c| - q
    {
      ghost var l0, s0 := left, syllSum;
      if left > 0 {
        left := left - 1;
        syllSum := syllSum + c[left];
      }
      LeftHalfStep(c, p, q, right, l0, s0, left, syllSum);
      if syllSum >= m {
        GrowFromLeft(c, m, p, q, left, right);
        return;
      }
      ghost var r0, s1 := right, syllSum;
      if right < |c| {
        syllSum := syllSum + c[right];
        right := right + 1;
      }
      RightHalfStep(c, p, q, left, r0, s1, right, syllSum);
      if syllSum >= m {
        GrowFromRight(c, m, p, q, left, right);
        return;
      }
      GrowFromNext(c, m, p, q);
      q := q + 1;
    }
    GrowFromExhausted(c, m, p, q, left, right);
  }

  /** `middle` (parse.py:215-237). */
  method MiddleWindow(c: seq<nat>, m: nat) returns (left: nat, right: nat)
    ensures (left, right) == MiddleSpan(c, m)
  {
    var start := MiddlePivot(c);
    left, right := MiddleGrow(c, m, start);
  }

  // ------------------------------------------------------------- the dispatch

  datatype WindowError = InvalidWindow(mode: string)

  /** What `get_window_indices(counts, max_sylls, mode)` returns or raises. */
  function WindowSpan(c: seq<nat>, m: nat, mode: string): Result<(nat, nat), WindowError> {
    if mode == "beginning" then Success((0, PrefixEnd(c, m, 0)))
    else if mode == "end" then Success((EndStart(c, m), |c|))
    else if mode == "middle" then Success(MiddleSpan(c, m))
    else Failure(InvalidWindow(mode))
  }

  /** `get_window_indices` (parse.py:196-240). */
  method WindowIndices(c: seq<nat>, m: nat, mode: string) returns (r: Result<(nat, nat), WindowError>)
    ensures r == WindowSpan(c, m, mode)
  {
    if mode == "beginning" {
      var s, e := BeginningWindow(c, m);
      r := Success((s, e));
    } else if mode == "end" {
      var s, e := EndWindow(c, m);
      r := Success((s, e));
    } else if mode == "middle" {
      var s, e := MiddleWindow(c, m);
      r := Success((s, e));
    } else {
      r := Failure(InvalidWindow(mode));
    }
  }

  // ------------------------------------------------------------------ lemmas

  /** Every mode returns a contiguous range of the tokens, and any other mode
      is an error. */
  lemma WindowIsRange(c: seq<nat>, m: nat, mode: string)
    ensures WindowSpan(c, m, mode).Success? <==> mode in {"beginning", "middle", "end"}
    ensures WindowSpan(c, m, mode).Success? ==>
      WindowSpan(c, m, mode).value.0 <= WindowSpan(c, m, mode).value.1 <= |c|
  {
  }

  /** The `beginning` end is the only index that is a shortest prefix
      reaching the budget. */
  lemma ShortestPrefixUnique(c: seq<nat>, m: nat, e: nat)
    requires e <= |c| && (e == |c| || Sum(c[..e]) >= m)
    requires forall j :: 0 <= j < e ==> Sum(c[..j]) < m
    ensures e == PrefixEnd(c, m, 0)
  {
  }

  /** The `end` start is the greatest index below `|c|` whose suffix
      reaches the budget; with a positive budget no larger index does. */
  lemma EndIsShortestSuffix(c: seq<nat>, m: nat)
    requires m > 0
    ensures forall j :: EndStart(c, m) < j <= |c| ==> Sum(c[j..]) < m
  {
  }

  /** The `middle` window alternates: while neither side is exhausted the
      left side is as long as the right side or one token longer; once one
      side is exhausted only the other grows. */
  lemma {:induction false} GrowAlternates(c: seq<nat>, m: nat, p: nat, q: nat)
    requires p <= |c| && q <= |c|
    ensures var g := GrowFrom(c, m, p, q); var l, r := g.left, g.right;
      && (l > 0 && r < |c| ==> p - l == r - p || p - l == r - p + 1)
      && (l == 0 && r < |c| ==> p - l <= r - p + 1)
      && (l > 0 && r == |c| ==> r - p <= p - l)
    decreases |c| - q
  {
    var n := |c|;
    if !(LeftAt(p, q) == 0 && RightAt(n, p, q) == n)
      && Span(c, LeftAt(p, q + 1), RightAt(n, p, q)) < m
      && Span(c, LeftAt(p, q + 1), RightAt(n, p, q + 1)) < m
    {
      GrowAlternates(c, m, p, q + 1);
    }
  }

  lemma MiddleAlternates(c: seq<nat>, m: nat)
    ensures var (l, r) := MiddleSpan(c, m); var p := Pivot(c);
      && (l > 0 && r < |c| ==> p - l == r - p || p - l == r - p + 1)
      && (l == 0 && r < |c| ==> p - l <= r - p + 1)
      && (l > 0 && r == |c| ==> r - p <= p - l)
  {
    GrowAlternates(c, m, Pivot(c), 0);
  }

  /** Both windows of iteration `j` of the growth loop, after its left and
      after its right half-step, fall short of the budget. */
  predicate FellShort(c: seq<nat>, m: nat, p: nat, j: nat)
    requires p <= |c|
  {
    && Span(c, LeftAt(p, j + 1), RightAt(|c|, p, j)) < m
    && Span(c, LeftAt(p, j + 1), RightAt(|c|, p, j + 1)) < m
  }

  /** Where iteration `i` of the growth loop leaves with the window
      `[l, r)`: after its left half-step, which reaches the budget; after
      its right half-step, the left one having fallen short; or at the loop
      test, with both sides exhausted. */
  predicate StopsAt(c: seq<nat>, m: nat, p: nat, i: nat, l: nat, r: nat)
    requires p <= |c|
  {
    var n := |c|;
    var open := LeftAt(p, i) > 0 || RightAt(n, p, i) < n;
    || (open && l == LeftAt(p, i + 1) && r == RightAt(n, p, i) && Span(c, l, r) >= m)
    || (open && l == LeftAt(p, i + 1) && r == RightAt(n, p, i + 1)
        && Span(c, LeftAt(p, i + 1), RightAt(n, p, i)) < m && Span(c, l, r) >= m)
    || (!open && l == 0 && r == n)
  }

  /** The growth from iteration `q` stops at a window that reaches the
      budget or covers the whole line, every window it passed on the way
      fell short of the budget, and the window it returns is the one of the
      half-step at which it stopped (`StopsAt`). */
  lemma {:induction false} GrowStopsFirst(c: seq<nat>, m: nat, p: nat, q: nat)
    requires p <= |c| && q <= |c|
    ensures var g := GrowFrom(c, m, p, q);
      Span(c, g.left, g.right) >= m || (g.left == 0 && g.right == |c|)
    ensures var g := GrowFrom(c, m, p, q);
      forall j :: q <= j < g.iterations ==> FellShort(c, m, p, j)
    ensures var g := GrowFrom(c, m, p, q); StopsAt(c, m, p, g.iterations, g.left, g.right)
    decreases |c| - q
  {
    var n := |c|;
    var g := GrowFrom(c, m, p, q);
    GrowStopsAt(c, m, p, q);
    if !(LeftAt(p, q) == 0 && RightAt(n, p, q) == n)
      && Span(c, LeftAt(p, q + 1), RightAt(n, p, q)) < m
      && Span(c, LeftAt(p, q + 1), RightAt(n, p, q + 1)) < m
    {
      assert FellShort(c, m, p, q);
      assert g == GrowFrom(c, m, p, q + 1);
      GrowStopsFirst(c, m, p, q + 1);
    } else {
      assert g.iterations == q;
    }
  }

  /** The window the growth from iteration `q` returns is the one of the
      half-step at which it stopped. */
  lemma {:induction false} GrowStopsAt(c: seq<nat>, m: nat, p: nat, q: nat)
    requires p <= |c| && q <= |c|
    ensures var g := GrowFrom(c, m, p, q); StopsAt(c, m, p, g.iterations, g.left, g.right)
    decreases |c| - q
  {
    var n := |c|;
    if !(LeftAt(p, q) == 0 && RightAt(n, p, q) == n)
      && Span(c, LeftAt(p, q + 1), RightAt(n, p, q)) < m
      && Span(c, LeftAt(p, q + 1), RightAt(n, p, q + 1)) < m
    {
      GrowStopsAt(c, m, p, q + 1);
    }
  }

  /** The `middle` window either reaches the budget or covers the whole
      line, every window met before it during the growth fell short, and it
      is the window of the half-step at which the growth stopped. */
  lemma MiddleStopsFirst(c: seq<nat>, m: nat)
    ensures var (l, r) := MiddleSpan(c, m);
      Sum(c[l..r]) >= m || (l == 0 && r == |c|)
    ensures var p := Pivot(c); var g := GrowFrom(c, m, p, 0);
      forall j :: 0 <= j < g.iterations ==> FellShort(c, m, p, j)
    ensures var (l, r) := MiddleSpan(c, m); var g := GrowFrom(c, m, Pivot(c), 0);
      StopsAt(c, m, Pivot(c), g.iterations, l, r)
  {
    var g := GrowFrom(c, m, Pivot(c), 0);
    GrowStopsFirst(c, m, Pivot(c), 0);
    SpanIsSum(c, g.left, g.right);
  }

  /** The example line "the cat sat on the mat" with a budget of 4 and
      `beginning`: six one-syllable words give the first four. */
  lemma BeginningExample()
    ensures WindowSpan([1, 1, 1, 1, 1, 1], 4, "beginning") == Success((0, 4))
  {
    var c: seq<nat> := [1, 1, 1, 1, 1, 1];
    var one: seq<nat> := [1];
    assert Sum(one) == 1 by { assert one[1..] == []; }
    var two: seq<nat> := [1, 1];
    assert Sum(two) == 2 by { assert two[1..] == one; }
    var three: seq<nat> := [1, 1, 1];
    assert Sum(three) == 3 by { assert three[1..] == two; }
    var four: seq<nat> := [1, 1, 1, 1];
    assert Sum(four) == 4 by { assert four[1..] == three; }
    assert c[..0] == [] && c[..1] == one && c[..2] == two && c[..3] == three && c[..4] == four;
    ShortestPrefixUnique(c, 4, 4);
  }
}
