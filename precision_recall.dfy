/**
 * bin/precision_recall.py: predicted sites scored against a ground-truth site
 * list. Both sides strip leading `c`, `h` and `r` characters from the contig,
 * records with coverage under 20 are dropped, stoichiometry is given in percent,
 * sites are aggregated by the coverage-weighted mean, and recall is measured
 * against the whole ground-truth set on a grid of 1000 thresholds.
 */
module PrecisionRecall {
  import opened Results
  import opened SiteKeys
  import opened ThresholdSweep
  import opened SiteAggregation
  import opened RecallCurve

  /** The first two tab-separated columns of a ground-truth line. */
  datatype TruthLine = TruthLine(seqname: string, site: string)

  /**
   * One line of the prediction BED file: the first and third columns, and the
   * last two (coverage as `int()` parses it, stoichiometry as `float()` does).
   */
  datatype BedRecord = BedRecord(chromosome: string, end: string, coverage: Option<int>, stoich: Option<real>)

  /** Records with fewer reads than this are ignored. */
  const MinCoverage: int := 20

  /** The characters `str.lstrip("chr")` removes: any of them, in any order. */
  predicate Stripped(c: char) {
    c == 'c' || c == 'h' || c == 'r'
  }

  /**
   * `s.lstrip("chr")`: drops the longest prefix made only of `c`, `h` and `r`,
   * so what is left is a suffix of `s` that does not start with one of them.
   */
  function LStripChr(s: string): (r: string)
    ensures |r| <= |s| && r == s[|s| - |r|..]
    ensures forall i :: 0 <= i < |s| - |r| ==> Stripped(s[i])
    ensures r == [] || !Stripped(r[0])
  {
    if s != [] && Stripped(s[0]) then LStripChr(s[1..]) else s
  }

  /** Stripping twice strips nothing more. */
  lemma LStripChrIdempotent(s: string)
    ensures LStripChr(LStripChr(s)) == LStripChr(s)
  {
  }

  /** One leading `c`, `h` or `r` goes, and stripping carries on from there. */
  lemma LStripChrStep(s: string)
    requires s != [] && Stripped(s[0])
    ensures LStripChr(s) == LStripChr(s[1..])
  {
  }

  /** A leading `chr` is always removed. */
  lemma LStripChrDropsChr(c: string)
    ensures LStripChr("chr" + c) == LStripChr(c)
  {
    var s := "chr" + c;
    assert s[0] == 'c' && s[1..] == "hr" + c;
    LStripChrStep(s);
    assert s[1..][0] == 'h' && s[1..][1..] == "r" + c;
    LStripChrStep(s[1..]);
    assert s[1..][1..][0] == 'r' && s[1..][1..][1..] == c;
    LStripChrStep(s[1..][1..]);
  }

  /**
   * `chr12` and `12` meet as intended, but so do `h12` and `chrchr12`: the
   * whole leading run of `c`/`h`/`r` goes, not just one `chr` prefix.
   */
  lemma LStripChrExamples()
    ensures LStripChr("12") == "12" && LStripChr("chr12") == "12"
    ensures LStripChr("h12") == "12" && LStripChr("chrchr12") == "12"
  {
    var bare := "12";
    assert bare[0] == '1';
    assert LStripChr(bare) == bare;
    assert "chr12" == "chr" + bare;
    LStripChrDropsChr(bare);
    assert "chrchr12" == "chr" + "chr12";
    LStripChrDropsChr("chr12");
    assert "h12"[0] == 'h' && "h12"[1..] == bare;
  }

  /** The key used on both sides: stripped contig, underscore, end coordinate. */
  function SiteKey(contig: string, end: string): (k: string)
    ensures |k| == |LStripChr(contig)| + 1 + |end|
    ensures k[..|k| - |end| - 1] == LStripChr(contig) && k[|k| - |end| - 1] == '_' && k[|k| - |end|..] == end
  {
    JoinKey(LStripChr(contig), end)
  }

  /** The truth key; a leading `chr` on the truth contig makes no difference. */
  function TruthKey(line: TruthLine): (k: string)
    ensures k == SiteKey("chr" + line.seqname, line.site)
  {
    LStripChrDropsChr(line.seqname);
    SiteKey(line.seqname, line.site)
  }

  /** The prediction key; a leading `chr` on the prediction contig makes no difference. */
  function PredictionKey(r: BedRecord): (k: string)
    ensures k == SiteKey("chr" + r.chromosome, r.end)
  {
    LStripChrDropsChr(r.chromosome);
    SiteKey(r.chromosome, r.end)
  }

  /** Both sides are normalised the same way, so `chr`-prefixed and bare contigs match. */
  lemma KeysSymmetric(line: TruthLine, r: BedRecord)
    requires line.site == r.end
    requires line.seqname == "chr" + r.chromosome || r.chromosome == "chr" + line.seqname
    ensures TruthKey(line) == PredictionKey(r)
  {
    LStripChrDropsChr(if line.seqname == "chr" + r.chromosome then r.chromosome else line.seqname);
  }

  /**
   * Building `truth_sites` line by line: the set holds exactly the normalised
   * keys of the given lines (duplicates collapse).
   */
  method LoadTruthSites(lines: seq<TruthLine>) returns (truth: set<string>)
    ensures forall k :: k in truth <==> exists i :: 0 <= i < |lines| && TruthKey(lines[i]) == k
    ensures truth == TruthSites(lines)
  {
    truth := CollectKeys(lines, TruthKey);
  }

  /** The set `LoadTruthSites` builds. */
  function TruthSites(lines: seq<TruthLine>): set<string> {
    set i | 0 <= i < |lines| :: TruthKey(lines[i])
  }

  /**
   * The per-line decision: `int(coverage)` raises on a non-integer coverage;
   * coverage below 20 skips the line before the stoichiometry is looked at;
   * an unparseable stoichiometry skips it; otherwise the score is the
   * stoichiometry divided by 100 and the weight is the coverage.
   */
  function Classify(r: BedRecord): (a: Admission)
    ensures a.Crash? <==> r.coverage.None?
    ensures a.Crash? ==> a.failure == CoverageNotNumeric
    ensures a.Skip? <==> r.coverage.Some? && (r.coverage.value < MinCoverage || r.stoich.None?)
    ensures a.Take? ==> (a.key == PredictionKey(r) && r.stoich.Some? && r.coverage.Some? &&
                         a.score * 100.0 == r.stoich.value && a.coverage == r.coverage.value as real &&
                         a.coverage >= MinCoverage as real)
  {
    match r.coverage
    case None => Crash(CoverageNotNumeric)
    case Some(coverage) =>
      if coverage < MinCoverage then Skip
      else
        match r.stoich
        case None => Skip
        case Some(stoich) => Take(PredictionKey(r), stoich / 100.0, coverage as real)
  }

  function Admissions(records: seq<BedRecord>): (adms: seq<Admission>)
    ensures |adms| == |records|
    ensures forall i :: 0 <= i < |records| ==> adms[i] == Classify(records[i])
  {
    seq(|records|, i requires 0 <= i < |records| => Classify(records[i]))
  }

  /**
   * `preds_all` and `preds_validated` after the per-line loop, or the exception
   * that ended it: the run stops exactly when some coverage is not an integer,
   * and `preds_validated` is `preds_all` restricted to the truth sites.
   */
  function Aggregated(truthLines: seq<TruthLine>, records: seq<BedRecord>): (r: Result<Tables>)
    ensures r.Err? <==> exists i :: 0 <= i < |records| && records[i].coverage.None?
    ensures r.Err? ==> r.failure == CoverageNotNumeric
    ensures r.Ok? ==> Restricts(r.value.validated, r.value.all, TruthSites(truthLines))
  {
    var adms := Admissions(records);
    assert forall i :: 0 <= i < |records| ==> adms[i] == Classify(records[i]);
    Fold(Avg, TruthSites(truthLines), adms)
  }

  /**
   * Every site's coverage sum is at least 20, so the mean at line 78 never
   * divides by zero.
   */
  lemma CoverageSumsAtLeastMinimum(truthLines: seq<TruthLine>, records: seq<BedRecord>)
    requires Aggregated(truthLines, records).Ok?
    ensures var t := Aggregated(truthLines, records).value;
      (forall k :: k in t.all ==> t.all[k].Weighted? && t.all[k].weightSum >= MinCoverage as real) &&
      AllDefined(t.all) && AllDefined(t.validated)
  {
    var adms := Admissions(records);
    FoldWeightsAtLeast(TruthSites(truthLines), adms, MinCoverage as real);
    var t := Aggregated(truthLines, records).value;
    CalledRestricted(t.validated, t.all, TruthSites(truthLines), 0.0);
  }

  /** `[t / 1000 for t in range(0, 1000)]` */
  function Grid(): (g: seq<real>)
    ensures |g| == 1000
  {
    seq(1000, t requires 0 <= t < 1000 => t as real / 1000.0)
  }

  /** The grid has 1000 strictly increasing thresholds from 0 to 0.999. */
  lemma GridIncreasing()
    ensures StrictlyIncreasing(Grid()) && Ascending(Grid())
    ensures Grid()[0] == 0.0 && Grid()[999] == 0.999
  {
  }

  /**
   * The whole script from the parsed lines to the curve. It fails exactly when
   * a coverage is not an integer (no coverage sum is ever zero); otherwise it
   * gives 1000 rows whose recall (over the whole truth set) and precision lie
   * in [0, 1], and recall never rises with the threshold.
   */
  method Evaluate(truthLines: seq<TruthLine>, records: seq<BedRecord>) returns (r: Result<seq<CurveRow>>)
    ensures r.Ok? <==> Aggregated(truthLines, records).Ok?
    ensures r.Err? ==> r.failure == CoverageNotNumeric
    ensures r.Ok? ==>
      var t := Aggregated(truthLines, records).value;
      var g := Grid();
      |r.value| == 1000 &&
      (forall i :: 0 <= i < 1000 ==> RowAgrees(r.value[i], g[i], t, |TruthSites(truthLines)|)) &&
      (forall i :: 0 <= i < 1000 ==> 0.0 <= r.value[i].recall <= 1.0 && 0.0 <= r.value[i].precision <= 1.0) &&
      (forall i, j :: 0 <= i <= j < 1000 ==> r.value[j].recall <= r.value[i].recall)
  {
    var truthSites := LoadTruthSites(truthLines);
    var agg := Accumulate(Avg, truthSites, Admissions(records));
    if agg.Err? {
      return Err(agg.failure);
    }
    CoverageSumsAtLeastMinimum(truthLines, records);
    CalledRestricted(agg.value.validated, agg.value.all, truthSites, 0.0);
    var thresholds := Grid();
    GridIncreasing();
    r := Curve(agg.value, truthSites, thresholds, |truthSites|);
  }
}
