/**
 * get_validated_genomic_recall_precision.py: predicted genomic sites scored
 * against a set of validated sites, with a choice of aggregation (`max`/`avg`),
 * of scored column (`model2`/`rate`), a minimum-stoichiometry gate and a set of
 * sites to discard. The output curve has one row per threshold:
 * threshold, validated called, validated rate, all called, all rate, precision.
 */
module ValidatedRates {
  import opened Results
  import opened SiteKeys
  import opened ThresholdSweep
  import opened SiteAggregation

  /** `--metric`: score by the probability column (`model2`) or by the stoichiometry column (`rate`). */
  datatype Metric = Model2 | Rate

  /** The run's configuration, passed explicitly instead of through a global argument object. */
  datatype Config = Config(aggregate: Policy, metric: Metric, minStoich: real, discardSites: set<string>)

  /**
   * One line of the prediction BED file: the first and third columns and the
   * last three (coverage, stoichiometry, probability), each numeric column as
   * `float()` would parse it.
   */
  datatype BedRecord = BedRecord(contig: string, end: string, coverage: Option<real>, stoich: Option<real>, prob: Option<real>)

  /** One output line. */
  datatype CurveRow = CurveRow(threshold: real, validatedCalled: nat, validatedRate: real,
                               allCalled: nat, allRate: real, precision: real)

  /** The site key, with the contig taken as written (no `chr` handling). */
  function SiteKey(r: BedRecord): (k: string)
    ensures |k| == |r.contig| + 1 + |r.end|
    ensures k[..|r.contig|] == r.contig && k[|r.contig|] == '_' && k[|r.contig| + 1..] == r.end
  {
    JoinKey(r.contig, r.end)
  }

  /**
   * The score of a record, or `None` when the `try` block raises and the line
   * is skipped. Above the gate the score is the metric's column (the
   * stoichiometry column itself under `rate`); at or below it the score is 0 and
   * the probability column is never parsed.
   */
  function Score(cfg: Config, r: BedRecord): (s: Option<real>)
    ensures r.stoich.None? ==> s.None?
    ensures r.stoich.Some? && r.stoich.value > cfg.minStoich ==>
      s == (if cfg.metric == Rate then r.stoich else r.prob)
    ensures r.stoich.Some? && r.stoich.value <= cfg.minStoich ==> s == Some(0.0)
  {
    var prob := if cfg.metric == Rate then r.stoich else r.prob;
    match r.stoich
    case None => None
    case Some(stoich) =>
      if stoich > cfg.minStoich then
        match prob
        case None => None
        case Some(p) => Some(p)
      else Some(0.0)
  }

  /**
   * The per-line decision: skipped when the score is missing or the site is
   * discarded; otherwise taken, except that under `avg` an unparseable coverage
   * column raises and ends the run. Under `max` the coverage column is not
   * read, and the weight handed on (0) is ignored by the `max` policy.
   */
  function Classify(cfg: Config, r: BedRecord): (a: Admission)
    ensures a.Skip? <==> Score(cfg, r).None? || SiteKey(r) in cfg.discardSites
    ensures a.Crash? <==> (Score(cfg, r).Some? && SiteKey(r) !in cfg.discardSites &&
                           cfg.aggregate == Avg && r.coverage.None?)
    ensures a.Crash? ==> a.failure == CoverageNotNumeric
    ensures a.Take? ==> a.key == SiteKey(r) && a.key !in cfg.discardSites && Score(cfg, r) == Some(a.score)
    ensures a.Take? && cfg.aggregate == Avg ==> r.coverage == Some(a.coverage)
  {
    match Score(cfg, r)
    case None => Skip
    case Some(p) =>
      var key := SiteKey(r);
      if key in cfg.discardSites then Skip
      else if cfg.aggregate == Max then Take(key, p, 0.0)
      else
        assert cfg.aggregate == Avg;
        match r.coverage
        case None => Crash(CoverageNotNumeric)
        case Some(c) => Take(key, p, c)
  }

  function Admissions(cfg: Config, records: seq<BedRecord>): (adms: seq<Admission>)
    ensures |adms| == |records|
    ensures forall i :: 0 <= i < |records| ==> adms[i] == Classify(cfg, records[i])
  {
    seq(|records|, i requires 0 <= i < |records| => Classify(cfg, records[i]))
  }

  /**
   * The two dictionaries after the per-line loop, or the exception that ended
   * it: the run stops exactly when some line raises, and the validated
   * dictionary is the all-sites one restricted to the validated sites.
   */
  function Aggregated(cfg: Config, validatedSites: set<string>, records: seq<BedRecord>): (r: Result<Tables>)
    ensures r.Err? <==> exists i :: 0 <= i < |records| && Classify(cfg, records[i]).Crash?
    ensures r.Err? ==> r.failure == CoverageNotNumeric
    ensures r.Ok? ==> Restricts(r.value.validated, r.value.all, validatedSites)
  {
    var adms := Admissions(cfg, records);
    assert forall i :: 0 <= i < |records| ==> adms[i] == Classify(cfg, records[i]);
    Fold(cfg.aggregate, validatedSites, adms)
  }

  /** A discarded site appears in neither dictionary. */
  lemma DiscardedSitesAbsent(cfg: Config, validatedSites: set<string>, records: seq<BedRecord>, key: string)
    requires key in cfg.discardSites
    requires Aggregated(cfg, validatedSites, records).Ok?
    ensures key !in Aggregated(cfg, validatedSites, records).value.all
    ensures key !in Aggregated(cfg, validatedSites, records).value.validated
  {
    var adms := Admissions(cfg, records);
    ObservationsOfUnadmitted(adms, key);
    FoldSummary(cfg.aggregate, validatedSites, adms, key);
  }

  /**
   * Under `max` a site's entry is the largest score among its admitted records;
   * under `avg` it is `[Σ p·c, Σ c]` over them.
   */
  lemma SiteEntry(cfg: Config, validatedSites: set<string>, records: seq<BedRecord>, key: string)
    requires Aggregated(cfg, validatedSites, records).Ok?
    requires key in Aggregated(cfg, validatedSites, records).value.all
    ensures var obs := ObservationsOf(Admissions(cfg, records), key);
      var entry := Aggregated(cfg, validatedSites, records).value.all[key];
      obs != [] &&
      (cfg.aggregate == Max ==>
        entry.Best? && (forall i :: 0 <= i < |obs| ==> obs[i].score <= entry.best) &&
        (exists i :: 0 <= i < |obs| && obs[i].score == entry.best)) &&
      (cfg.aggregate == Avg ==> entry == Weighted(WeightedSum(obs), WeightSum(obs)))
  {
    var adms := Admissions(cfg, records);
    FoldSummary(cfg.aggregate, validatedSites, adms, key);
    var obs := ObservationsOf(adms, key);
    if cfg.aggregate == Max {
      MaxSummary(obs);
    } else {
      AvgSummary(obs);
    }
  }

  // ---------------------------------------------------------------------------
  // The curve.

  /**
   * The output loop (lines 201-207): row `i` joins validated row `i` with
   * all-sites row `i`, with precision `validated_pred / all_pred`, or 0 when no
   * site at all is called.
   */
  method AssembleCurve(valRows: seq<SweepRow>, allRows: seq<SweepRow>) returns (curve: seq<CurveRow>)
    requires |valRows| <= |allRows|
    ensures |curve| == |valRows|
    ensures forall i :: 0 <= i < |curve| ==>
      curve[i] == CurveRow(allRows[i].threshold, valRows[i].count, valRows[i].rate,
                           allRows[i].count, allRows[i].rate, Ratio(valRows[i].count, allRows[i].count))
    ensures forall i :: 0 <= i < |curve| && valRows[i].count <= allRows[i].count ==>
      0.0 <= curve[i].precision <= 1.0
  {
    curve := [];
    for i := 0 to |valRows|
      invariant |curve| == i
      invariant forall j :: 0 <= j < i ==>
        curve[j] == CurveRow(allRows[j].threshold, valRows[j].count, valRows[j].rate,
                             allRows[j].count, allRows[j].rate, Ratio(valRows[j].count, allRows[j].count))
    {
      var validatedPred, allPred := valRows[i].count, allRows[i].count;
      var precision := if allPred > 0 then validatedPred as real / allPred as real else 0.0;
      curve := curve + [CurveRow(allRows[i].threshold, validatedPred, valRows[i].rate,
                                 allPred, allRows[i].rate, precision)];
    }
  }

  /** What row `row` of the curve says about the dictionaries `t` at threshold `thresh`. */
  predicate RowAgrees(row: CurveRow, thresh: real, t: Tables) {
    row.threshold == thresh &&
    row.validatedCalled == Called(t.validated, thresh) &&
    row.allCalled == Called(t.all, thresh) &&
    row.validatedRate == Ratio(row.validatedCalled, |t.validated|) &&
    row.allRate == Ratio(row.allCalled, |t.all|) &&
    row.precision == Ratio(row.validatedCalled, row.allCalled)
  }

  /**
   * The whole script from the parsed records to the curve. It fails exactly
   * when the per-line loop raises or a site's coverage sum is zero under
   * `avg`; otherwise row `i` counts, for threshold `i`, the validated and all
   * sites whose aggregated value reaches it, with rates and precision in
   * [0, 1] and counts that never rise with the threshold.
   */
  method Evaluate(cfg: Config, validatedSites: set<string>, records: seq<BedRecord>, refinement: seq<real>)
    returns (r: Result<seq<CurveRow>>)
    requires RefinementOk(refinement)
    ensures var agg := Aggregated(cfg, validatedSites, records);
      r.Ok? <==> agg.Ok? && AllDefined(agg.value.all)
    ensures r.Ok? ==>
      var t := Aggregated(cfg, validatedSites, records).value;
      var g := RefinedGrid(refinement);
      |r.value| == |g| &&
      (forall i :: 0 <= i < |g| ==> RowAgrees(r.value[i], g[i], t)) &&
      (forall i :: 0 <= i < |g| ==>
        0.0 <= r.value[i].validatedRate <= 1.0 && 0.0 <= r.value[i].allRate <= 1.0 &&
        0.0 <= r.value[i].precision <= 1.0) &&
      (forall i, j :: 0 <= i <= j < |g| ==>
        r.value[j].allCalled <= r.value[i].allCalled &&
        r.value[j].validatedCalled <= r.value[i].validatedCalled)
  {
    var agg := Accumulate(cfg.aggregate, validatedSites, Admissions(cfg, records));
    if agg.Err? {
      return Err(agg.failure);
    }
    var tables := agg.value;
    var thresholds := RefinedGrid(refinement);
    assert Ascending(thresholds) by { RefinedGridIncreasing(refinement); }
    var allRows := SweepSites(tables.all, thresholds, |tables.all|);
    if allRows.Err? {
      return Err(allRows.failure);
    }
    CalledRestricted(tables.validated, tables.all, validatedSites, 0.0);
    var valRows := SweepSites(tables.validated, thresholds, |tables.validated|);
    forall i | 0 <= i < |thresholds|
      ensures valRows.value[i].count <= allRows.value[i].count
      ensures valRows.value[i].count <= |tables.validated| && allRows.value[i].count <= |tables.all|
    {
      CalledRestricted(tables.validated, tables.all, validatedSites, thresholds[i]);
      CalledAtMostSites(tables.validated, thresholds[i]);
      CalledAtMostSites(tables.all, thresholds[i]);
    }
    var curve := AssembleCurve(valRows.value, allRows.value);
    r := Ok(curve);
  }
}
