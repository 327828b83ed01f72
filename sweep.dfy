/**
 * The threshold sweep shared by the three scripts: counting, for every threshold
 * of an ascending grid, how many aggregated site values reach it, in one
 * two-pointer pass; plus the zero-guarded ratio used for rates and precision,
 * and the ascending sort (`sorted()`) that feeds the sweep.
 */
module ThresholdSweep {

  /** Non-decreasing order, the order `sorted()` produces. */
  predicate Ascending(s: seq<real>) {
    forall i, j :: 0 <= i <= j < |s| ==> s[i] <= s[j]
  }

  /** Strictly increasing order, the shape of every threshold grid. */
  predicate StrictlyIncreasing(s: seq<real>) {
    forall i, j :: 0 <= i < j < |s| ==> s[i] < s[j]
  }

  /** The number of values `v` with `v >= t`: the sites called at threshold `t`. */
  function CountAtLeast(values: seq<real>, t: real): (n: nat)
    ensures n <= |values|
  {
    if values == [] then 0
    else (if values[0] >= t then 1 else 0) + CountAtLeast(values[1..], t)
  }

  /** `num / den`, or 0 when `den` is 0 (the scripts' guard against an empty denominator). */
  function Ratio(num: nat, den: nat): (r: real)
    ensures den == 0 ==> r == 0.0
    ensures den > 0 ==> r * den as real == num as real
    ensures 0.0 <= r
    ensures num <= den ==> r <= 1.0
  {
    if den > 0 then num as real / den as real else 0.0
  }

  /** With a fixed denominator, a smaller count gives a smaller ratio. */
  lemma RatioMonotone(n1: nat, n2: nat, den: nat)
    requires n1 <= n2
    ensures Ratio(n1, den) <= Ratio(n2, den)
  {
    if den > 0 {
      assert Ratio(n2, den) - Ratio(n1, den) == (n2 - n1) as real / den as real;
    }
  }

  lemma {:induction false} CountAppend(a: seq<real>, b: seq<real>, t: real)
    ensures CountAtLeast(a + b, t) == CountAtLeast(a, t) + CountAtLeast(b, t)
  {
    if a != [] {
      assert (a + b)[1..] == a[1..] + b;
      CountAppend(a[1..], b, t);
    } else {
      assert a + b == b;
    }
  }

  lemma {:induction false} CountNoneReach(s: seq<real>, t: real)
    requires forall i :: 0 <= i < |s| ==> s[i] < t
    ensures CountAtLeast(s, t) == 0
  {
    if s != [] {
      CountNoneReach(s[1..], t);
    }
  }

  lemma {:induction false} CountAllReach(s: seq<real>, t: real)
    requires forall i :: 0 <= i < |s| ==> s[i] >= t
    ensures CountAtLeast(s, t) == |s|
  {
    if s != [] {
      CountAllReach(s[1..], t);
    }
  }

  /**
   * In an ascending list, once the first `i` values are below `t` and the value
   * at `i` reaches it, exactly the suffix from `i` on is called.
   */
  lemma CountSortedSuffix(s: seq<real>, t: real, i: nat)
    requires Ascending(s) && i <= |s|
    requires forall j :: 0 <= j < i ==> s[j] < t
    requires i < |s| ==> s[i] >= t
    ensures CountAtLeast(s, t) == |s| - i
  {
    assert s == s[..i] + s[i..];
    CountAppend(s[..i], s[i..], t);
    CountNoneReach(s[..i], t);
    CountAllReach(s[i..], t);
  }

  /** A higher threshold never calls more sites. */
  lemma {:induction false} CountAntitone(s: seq<real>, t1: real, t2: real)
    requires t1 <= t2
    ensures CountAtLeast(s, t2) <= CountAtLeast(s, t1)
  {
    if s != [] {
      CountAntitone(s[1..], t1, t2);
    }
  }

  /** Inserts `x` into an ascending list; the head is then `x` or the old head. */
  function Insert(x: real, s: seq<real>): (r: seq<real>)
    requires Ascending(s)
    ensures Ascending(r)
    ensures multiset(r) == multiset(s) + multiset{x}
    ensures |r| == |s| + 1
    ensures r[0] == x || (s != [] && r[0] == s[0])
  {
    if s == [] || x <= s[0] then [x] + s
    else
      var rest := Insert(x, s[1..]);
      assert s == [s[0]] + s[1..];
      assert s[0] <= rest[0];
      [s[0]] + rest
  }

  /** Python's `sorted()` on a list of reals: an ascending permutation. */
  function Sort(s: seq<real>): (r: seq<real>)
    ensures Ascending(r)
    ensures multiset(r) == multiset(s)
    ensures |r| == |s|
  {
    if s == [] then []
    else
      assert s == [s[0]] + s[1..];
      Insert(s[0], Sort(s[1..]))
  }

  lemma {:induction false} InsertCount(x: real, s: seq<real>, t: real)
    requires Ascending(s)
    ensures CountAtLeast(Insert(x, s), t) == CountAtLeast(s, t) + (if x >= t then 1 else 0)
  {
    if s != [] && x > s[0] {
      InsertCount(x, s[1..], t);
      assert Insert(x, s)[1..] == Insert(x, s[1..]);
    }
  }

  /** Sorting changes no count: the sweep over the sorted list counts the unsorted one. */
  lemma {:induction false} SortCount(s: seq<real>, t: real)
    ensures CountAtLeast(Sort(s), t) == CountAtLeast(s, t)
  {
    if s != [] {
      SortCount(s[1..], t);
      InsertCount(s[0], Sort(s[1..]), t);
    }
  }

  // ---------------------------------------------------------------------------
  // The threshold grid of get_validated_genomic_recall_precision.py:147-161
  // and modkitopt/bin/eval_recall_precision.py:79-93.

  /** `[0, 1/10**7, 1/10**6, 1/10**5, 1/10**4] + [x/1000 for x in range(1, 900)]` */
  function CoarseGrid(): (g: seq<real>)
    ensures |g| == 904
  {
    [0.0, 1.0 / 10000000.0, 1.0 / 1000000.0, 1.0 / 100000.0, 1.0 / 10000.0]
      + seq(899, x requires 0 <= x < 899 => (x + 1) as real / 1000.0)
  }

  /** The decimal refinement of [0.9, 1) appended after the coarse part. */
  predicate RefinementOk(refinement: seq<real>) {
    StrictlyIncreasing(refinement) &&
    forall i :: 0 <= i < |refinement| ==> 0.9 <= refinement[i] < 1.0
  }

  /** The whole grid: the coarse part, the refinement, and 1. */
  function RefinedGrid(refinement: seq<real>): (g: seq<real>)
    ensures |g| == 905 + |refinement|
    ensures forall i :: 0 <= i < |refinement| ==> g[904 + i] == refinement[i]
    ensures g[|g| - 1] == 1.0
  {
    CoarseGrid() + refinement + [1.0]
  }

  lemma CoarseGridIncreasing()
    ensures StrictlyIncreasing(CoarseGrid())
    ensures forall i :: 0 <= i < 904 ==> 0.0 <= CoarseGrid()[i] <= 0.899
  {
    var g := CoarseGrid();
    assert forall i :: 5 <= i < 904 ==> g[i] == (i - 4) as real / 1000.0;
  }

  /** The grid rises strictly from 0 to 1. */
  lemma RefinedGridIncreasing(refinement: seq<real>)
    requires RefinementOk(refinement)
    ensures StrictlyIncreasing(RefinedGrid(refinement)) && Ascending(RefinedGrid(refinement))
    ensures |RefinedGrid(refinement)| == 905 + |refinement|
    ensures RefinedGrid(refinement)[0] == 0.0 && RefinedGrid(refinement)[|RefinedGrid(refinement)| - 1] == 1.0
  {
    CoarseGridIncreasing();
    var c, g := CoarseGrid(), RefinedGrid(refinement);
    assert forall i :: 0 <= i < 904 ==> g[i] == c[i];
    assert forall i :: 904 <= i < 904 + |refinement| ==> g[i] == refinement[i - 904];
    assert forall i, j :: 0 <= i < j < |g| ==> g[i] < g[j];
  }

  /** One output row of a sweep: `[thresh, rate, count]`. */
  datatype SweepRow = SweepRow(threshold: real, rate: real, count: nat)

  /**
   * The two-pointer sweep (get_validated_genomic_recall_precision.py:165-196 and
   * its copies): row `i` holds threshold `i`, the number of values reaching it,
   * and that number over `denominator`.
   */
  method Sweep(values: seq<real>, thresholds: seq<real>, denominator: nat) returns (rows: seq<SweepRow>)
    requires Ascending(values) && Ascending(thresholds)
    requires values != [] ==> denominator > 0
    ensures |rows| == |thresholds|
    ensures forall i :: 0 <= i < |rows| ==>
      rows[i].threshold == thresholds[i] &&
      rows[i].count == CountAtLeast(values, thresholds[i]) &&
      rows[i].rate == Ratio(rows[i].count, denominator)
  {
    var indexP, indexT := 0, 0;
    rows := [];
    while indexP < |values| && indexT < |thresholds|
      invariant 0 <= indexP <= |values| && 0 <= indexT <= |thresholds|
      invariant |rows| == indexT
      invariant forall i :: 0 <= i < indexT ==>
        rows[i].threshold == thresholds[i] &&
        rows[i].count == CountAtLeast(values, thresholds[i]) &&
        rows[i].rate == Ratio(rows[i].count, denominator)
      invariant indexT < |thresholds| ==> forall j :: 0 <= j < indexP ==> values[j] < thresholds[indexT]
      decreases |values| - indexP + |thresholds| - indexT
    {
      var prob := values[indexP];
      var thresh := thresholds[indexT];
      if prob < thresh {
        indexP := indexP + 1;
      } else {
        CountSortedSuffix(values, thresh, indexP);
        indexT := indexT + 1;
        var called := |values| - indexP;
        rows := rows + [SweepRow(thresh, called as real / denominator as real, called)];
      }
    }
    while indexT < |thresholds|
      invariant 0 <= indexT <= |thresholds|
      invariant |rows| == indexT
      invariant forall i :: 0 <= i < indexT ==>
        rows[i].threshold == thresholds[i] &&
        rows[i].count == CountAtLeast(values, thresholds[i]) &&
        rows[i].rate == Ratio(rows[i].count, denominator)
      invariant indexT < |thresholds| ==> forall j :: 0 <= j < |values| ==> values[j] < thresholds[indexT]
    {
      var thresh := thresholds[indexT];
      CountNoneReach(values, thresh);
      rows := rows + [SweepRow(thresh, 0.0, 0)];
      indexT := indexT + 1;
    }
  }

  /** The rows of one sweep never increase in count as the threshold rises. */
  lemma SweepCountsNonIncreasing(values: seq<real>, thresholds: seq<real>, i: nat, j: nat)
    requires Ascending(thresholds) && i <= j < |thresholds|
    ensures CountAtLeast(values, thresholds[j]) <= CountAtLeast(values, thresholds[i])
  {
    CountAntitone(values, thresholds[i], thresholds[j]);
  }
}
