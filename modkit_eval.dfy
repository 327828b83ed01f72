/**
 * modkitopt/bin/eval_recall_precision.py: predicted sites scored against a
 * ground-truth site list. Ground-truth keys take the contig as written;
 * prediction keys prefix the contig with `chr`. Sites are aggregated by the
 * coverage-weighted mean stoichiometry; each output row is threshold, recall,
 * precision.
 */
module ModkitEval {
  import opened Results
  import opened SiteKeys
  import opened ThresholdSweep
  import opened SiteAggregation
  import opened RecallCurve

  /** The first two tab-separated columns of a ground-truth line. */
  datatype TruthLine = TruthLine(seqname: string, site: string)

  /**
   * One line of the prediction BED file: the first and third columns, and the
   * third- and second-last columns (coverage, stoichiometry) as `float()` parses them.
   */
  datatype BedRecord = BedRecord(chromosome: string, end: string, coverage: Option<real>, stoich: Option<real>)

  /** Ground-truth key: the contig exactly as in the truth file. */
  function TruthKey(line: TruthLine): (k: string)
    ensures |k| == |line.seqname| + 1 + |line.site|
    ensures k[..|line.seqname|] == line.seqname && k[|line.seqname|] == '_' && k[|line.seqname| + 1..] == line.site
  {
    JoinKey(line.seqname, line.site)
  }

  /** Prediction key: `chr` is put in front of the prediction's contig. */
  function PredictionKey(r: BedRecord): (k: string)
    ensures |k| == 3 + |r.chromosome| + 1 + |r.end|
    ensures k[..3] == "chr" && k[3..3 + |r.chromosome|] == r.chromosome
    ensures k[3 + |r.chromosome|] == '_' && k[3 + |r.chromosome| + 1..] == r.end
  {
    var k := JoinKey("chr" + r.chromosome, r.end);
    assert k[..3 + |r.chromosome|] == "chr" + r.chromosome;
    k
  }

  /**
   * Building `truth_sites` line by line: the set holds exactly the keys of the
   * given lines (duplicates collapse).
   */
  method LoadTruthSites(lines: seq<TruthLine>) returns (truth: set<string>)
    ensures forall k :: k in truth <==> exists i :: 0 <= i < |lines| && TruthKey(lines[i]) == k
    ensures truth == TruthSites(lines)
  {
    truth := CollectKeys(lines, TruthKey);
  }

  /** The set `LoadTruthSites` builds. */
  function TruthSites(lines: seq<TruthLine>): set<string> {
    set i | 0 <= i < |lines| :: TruthKey(lines[i])
  }

  /**
   * With end coordinates free of underscores, a truth line and a prediction
   * name the same site exactly when the truth contig is the prediction contig
   * with `chr` in front.
   */
  lemma KeysMatch(line: TruthLine, r: BedRecord)
    requires '_' !in line.site && '_' !in r.end
    ensures TruthKey(line) == PredictionKey(r) <==> line.seqname == "chr" + r.chromosome && line.site == r.end
  {
    if TruthKey(line) == PredictionKey(r) {
      JoinKeyInjective(line.seqname, line.site, "chr" + r.chromosome, r.end);
    }
  }

  /** A truth file whose contigs lack the `chr` prefix matches no prediction at all. */
  lemma UnprefixedTruthNeverMatches(line: TruthLine, r: BedRecord)
    requires |line.seqname| < 3 || line.seqname[..3] != "chr"
    ensures TruthKey(line) != PredictionKey(r)
  {
    var p := PredictionKey(r);
    assert p[..3] == "chr";
    if |line.seqname| < 3 {
      var n := |line.seqname|;
      assert TruthKey(line)[n] == '_';
      assert p[n] != '_';
    } else {
      assert TruthKey(line)[..3] == line.seqname[..3];
    }
  }

  /**
   * The per-line decision: skipped when the stoichiometry does not parse; then
   * `float(coverage)`, outside the `try`, raises on an unparseable coverage;
   * otherwise the stoichiometry itself is the score and the coverage the weight.
   */
  function Classify(r: BedRecord): (a: Admission)
    ensures a.Skip? <==> r.stoich.None?
    ensures a.Crash? <==> r.stoich.Some? && r.coverage.None?
    ensures a.Crash? ==> a.failure == CoverageNotNumeric
    ensures a.Take? ==> a.key == PredictionKey(r) && Some(a.score) == r.stoich && Some(a.coverage) == r.coverage
  {
    match r.stoich
    case None => Skip
    case Some(stoich) =>
      match r.coverage
      case None => Crash(CoverageNotNumeric)
      case Some(coverage) => Take(PredictionKey(r), stoich, coverage)
  }

  function Admissions(records: seq<BedRecord>): (adms: seq<Admission>)
    ensures |adms| == |records|
    ensures forall i :: 0 <= i < |records| ==> adms[i] == Classify(records[i])
  {
    seq(|records|, i requires 0 <= i < |records| => Classify(records[i]))
  }

  /**
   * `preds_all` and `preds_validated` after the per-line loop, or the exception
   * that ended it: the run stops exactly when some line has a parsed
   * stoichiometry and an unparseable coverage, and `preds_validated` is
   * `preds_all` restricted to the truth sites.
   */
  function Aggregated(truthLines: seq<TruthLine>, records: seq<BedRecord>): (r: Result<Tables>)
    ensures r.Err? <==> exists i :: 0 <= i < |records| && records[i].stoich.Some? && records[i].coverage.None?
    ensures r.Err? ==> r.failure == CoverageNotNumeric
    ensures r.Ok? ==> Restricts(r.value.validated, r.value.all, TruthSites(truthLines))
  {
    var adms := Admissions(records);
    assert forall i :: 0 <= i < |records| ==> adms[i] == Classify(records[i]);
    Fold(Avg, TruthSites(truthLines), adms)
  }

  /**
   * Each site's entry is `[Σ stoich·cov, Σ cov]` over its parsed records, and
   * when the coverage sum is not zero its value is the coverage-weighted mean.
   */
  lemma SiteEntry(truthLines: seq<TruthLine>, records: seq<BedRecord>, key: string)
    requires Aggregated(truthLines, records).Ok?
    requires key in Aggregated(truthLines, records).value.all
    ensures var obs := ObservationsOf(Admissions(records), key);
      var entry := Aggregated(truthLines, records).value.all[key];
      obs != [] && entry == Weighted(WeightedSum(obs), WeightSum(obs)) &&
      (WeightSum(obs) != 0.0 ==> Defined(entry) && Value(entry) == WeightedSum(obs) / WeightSum(obs))
  {
    var adms := Admissions(records);
    FoldSummary(Avg, TruthSites(truthLines), adms, key);
    AvgSummary(ObservationsOf(adms, key));
  }

  /**
   * The whole script from the parsed lines to the curve. It fails exactly when
   * a coverage does not parse or a site's coverage sum is zero; otherwise row
   * `i` gives recall and precision at threshold `i`, both in [0, 1], and recall
   * (taken over the predicted validated sites, not over the truth set) never
   * rises with the threshold.
   */
  method Evaluate(truthLines: seq<TruthLine>, records: seq<BedRecord>, refinement: seq<real>)
    returns (r: Result<seq<CurveRow>>)
    requires RefinementOk(refinement)
    ensures var agg := Aggregated(truthLines, records);
      r.Ok? <==> agg.Ok? && AllDefined(agg.value.all)
    ensures r.Err? ==> r.failure == CoverageNotNumeric || r.failure == CoverageSumZero
    ensures r.Ok? ==>
      var t := Aggregated(truthLines, records).value;
      var g := RefinedGrid(refinement);
      |r.value| == |g| &&
      (forall i :: 0 <= i < |g| ==> RowAgrees(r.value[i], g[i], t, |t.validated|)) &&
      (forall i :: 0 <= i < |g| ==> 0.0 <= r.value[i].recall <= 1.0 && 0.0 <= r.value[i].precision <= 1.0) &&
      (forall i, j :: 0 <= i <= j < |g| ==> r.value[j].recall <= r.value[i].recall)
  {
    var truthSites := LoadTruthSites(truthLines);
    var agg := Accumulate(Avg, truthSites, Admissions(records));
    if agg.Err? {
      return Err(agg.failure);
    }
    var thresholds := RefinedGrid(refinement);
    assert Ascending(thresholds) by { RefinedGridIncreasing(refinement); }
    r := Curve(agg.value, truthSites, thresholds, |agg.value.validated|);
  }
}
