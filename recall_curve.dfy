/**
 * The recall/precision curve of modkitopt/bin/eval_recall_precision.py and
 * bin/precision_recall.py: both sweep the validated and the all-sites values
 * over a grid and write `threshold, recall, precision` per threshold. They
 * differ only in what recall is taken over: the predicted validated sites, or
 * the whole truth set.
 */
module RecallCurve {
  import opened Results
  import opened ThresholdSweep
  import opened SiteAggregation

  /** One output line. */
  datatype CurveRow = CurveRow(threshold: real, recall: real, precision: real)

  /**
   * The output loop: recall is taken from the validated row, precision is the
   * validated count over the all-sites count, or 0 when no site at all is
   * called.
   */
  method AssembleCurve(valRows: seq<SweepRow>, allRows: seq<SweepRow>) returns (curve: seq<CurveRow>)
    requires |valRows| <= |allRows|
    ensures |curve| == |valRows|
    ensures forall i :: 0 <= i < |curve| ==>
      curve[i] == CurveRow(allRows[i].threshold, valRows[i].rate, Ratio(valRows[i].count, allRows[i].count))
    ensures forall i :: 0 <= i < |curve| && valRows[i].count <= allRows[i].count ==>
      0.0 <= curve[i].precision <= 1.0
  {
    curve := [];
    for i := 0 to |valRows|
      invariant |curve| == i
      invariant forall j :: 0 <= j < i ==>
        curve[j] == CurveRow(allRows[j].threshold, valRows[j].rate, Ratio(valRows[j].count, allRows[j].count))
    {
      var tp, allPred := valRows[i].count, allRows[i].count;
      var precision := if allPred > 0 then tp as real / allPred as real else 0.0;
      curve := curve + [CurveRow(allRows[i].threshold, valRows[i].rate, precision)];
    }
  }

  /**
   * What row `row` says about the dictionaries `t` at threshold `thresh`, with
   * recall taken over `recallDenominator` sites.
   */
  predicate RowAgrees(row: CurveRow, thresh: real, t: Tables, recallDenominator: nat) {
    row.threshold == thresh &&
    row.recall == Ratio(Called(t.validated, thresh), recallDenominator) &&
    row.precision == Ratio(Called(t.validated, thresh), Called(t.all, thresh))
  }

  /**
   * Everything after the per-line loop: list, sort and sweep both
   * dictionaries, then assemble the rows. It fails exactly when some site's
   * coverage sum is zero; otherwise row `i` gives recall and precision at
   * threshold `i`, both in [0, 1], and recall never rises with the threshold.
   */
  method Curve(t: Tables, validatedSites: set<string>, thresholds: seq<real>, recallDenominator: nat)
    returns (r: Result<seq<CurveRow>>)
    requires Restricts(t.validated, t.all, validatedSites)
    requires Ascending(thresholds) && |t.validated| <= recallDenominator
    ensures r.Ok? <==> AllDefined(t.all)
    ensures r.Err? ==> r.failure == CoverageSumZero
    ensures r.Ok? ==> |r.value| == |thresholds|
    ensures r.Ok? ==> forall i :: 0 <= i < |thresholds| ==> RowAgrees(r.value[i], thresholds[i], t, recallDenominator)
    ensures r.Ok? ==> forall i :: 0 <= i < |thresholds| ==>
      0.0 <= r.value[i].recall <= 1.0 && 0.0 <= r.value[i].precision <= 1.0
    ensures r.Ok? ==> forall i, j :: 0 <= i <= j < |thresholds| ==> r.value[j].recall <= r.value[i].recall
  {
    var allRows := SweepSites(t.all, thresholds, |t.all|);
    if allRows.Err? {
      return Err(allRows.failure);
    }
    CalledRestricted(t.validated, t.all, validatedSites, 0.0);
    var valRows := SweepSites(t.validated, thresholds, recallDenominator);
    var vr, ar := valRows.value, allRows.value;
    forall i | 0 <= i < |thresholds|
      ensures vr[i].count <= ar[i].count && vr[i].count <= recallDenominator
    {
      CalledRestricted(t.validated, t.all, validatedSites, thresholds[i]);
      CalledAtMostSites(t.validated, thresholds[i]);
    }
    forall i, j | 0 <= i <= j < |thresholds|
      ensures vr[j].rate <= vr[i].rate
    {
      RatioMonotone(vr[j].count, vr[i].count, recallDenominator);
    }
    var curve := AssembleCurve(vr, ar);
    r := Ok(curve);
  }
}
