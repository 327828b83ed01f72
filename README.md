# Site-level recall/precision curves for predicted RNA modification sites

The repository scores predicted genomic modification sites (a BED file, one
line per transcriptomic site) against a set of validated or ground-truth
sites, and writes a curve with one row per stoichiometry/probability
threshold. Three scripts carry the same pipeline with small variations:

- `get_validated_genomic_recall_precision.py`: `max` or `avg` aggregation, a
  `model2`/`rate` metric switch, a minimum-stoichiometry gate, and a discard
  set. Each row gives the validated and all-site counts and rates, and the
  precision.
- `modkitopt/bin/eval_recall_precision.py`: truth keys are taken as written,
  and prediction keys get a `chr` prefix. Aggregation is the coverage-weighted
  mean. Recall is the fraction of predicted validated sites that reach the
  threshold.
- `bin/precision_recall.py`: both sides are passed through `lstrip("chr")`.
  Records with coverage under 20 are dropped, and stoichiometry is given in
  percent. The grid is `t/1000` for `t` in 0..999, and recall is measured
  against the whole truth set.

Each script runs five stages:

1. Build the site key `contig_end`.
2. Admit, skip or abort per record.
3. Fold records that share a key into two dictionaries: all sites, and
   validated sites.
4. Sort the values, then do a two-pointer sweep over an ascending threshold
   list.
5. Assemble the curve row by row.

The Dafny modules follow that split:

- `Results` (`results.dfy`): `Option` and `Result`, plus the two
  data-dependent exceptions the model covers. These are a coverage column that
  does not parse, and an aggregated coverage sum of zero. The scripts can also
  raise on lines with too few columns; see "Left out".
- `SiteKeys` (`site_keys.dfy`): the key format `f"{contig}_{end}"`, and the
  loop that fills a truth-key set.
- `ThresholdSweep` (`sweep.dfy`): the count of values at or above a threshold,
  the zero-guarded ratio, `sorted()` as an ascending permutation, the
  threshold grid, and the two-pointer sweep as a `while`-loop method proved
  against the count.
- `SiteAggregation` (`aggregation.dfy`):
  - the functional specification `Fold` of the per-line loop, and the loop
    itself (`Accumulate`), which updates the two dictionaries;
  - a per-key reference definition, covering the maximum and
    `[Σ p·c, Σ c]`;
  - the listing of dictionary values in arbitrary key order;
  - one dictionary's list, sort and sweep (`SweepSites`).
- `RecallCurve` (`recall_curve.dfy`): the three-column `threshold, recall,
  precision` row shared by `modkitopt/bin/eval_recall_precision.py` and
  `bin/precision_recall.py`, its output loop, and everything after the
  per-line loop (`Curve`). Recall is taken over a denominator that the caller
  passes in.
- `ValidatedRates`, `ModkitEval` and `PrecisionRecall`: one module per script.
  Each holds the script's record shape, key, per-record decision and the whole
  run (`Evaluate`). `ValidatedRates` also holds its own six-column output loop.

Parsed numbers are `real` (`int` for the coverage column of
`bin/precision_recall.py`). A column that `float()`/`int()` rejects is `None`.
A record is modelled as its already-split columns.

`bin/precision_recall.py:26,39` calls `str.lstrip("chr")`. That call removes
every leading `c`, `h` and `r` character, not one `chr` prefix, so `h12` and
`chrchr12` both become `12`. The model follows the code, not a prefix-only
reading of it (`PrecisionRecall.LStripChr`, `PrecisionRecall.LStripChrExamples`).

## Model

| member | source | states |
|---|---|---|
| SiteKeys.JoinKey | get_validated_genomic_recall_precision.py:79 | the key is the contig, one underscore, then the end coordinate, with no `chr` handling |
| SiteKeys.JoinKeyInjective | get_validated_genomic_recall_precision.py:79 | when end coordinates contain no underscore, equal keys mean equal contig and equal end |
| ThresholdSweep.RefinedGrid | get_validated_genomic_recall_precision.py:147-161 | the grid is the coarse part, then the refinement in place (entries 904 onward), then 1; it has 905 + the refinement's length entries (ordering: `ThresholdSweep.RefinedGridIncreasing`) |
| SiteKeys.CollectKeys | modkitopt/bin/eval_recall_precision.py:22-29 | after the loop, the set holds exactly the keys of the lines read |
| ThresholdSweep.Ratio | get_validated_genomic_recall_precision.py:204-207 | the guarded ratio: 0 when the denominator is 0, otherwise ratio × denominator = numerator; never negative, and at most 1 when numerator ≤ denominator |
| ThresholdSweep.RatioMonotone | modkitopt/bin/eval_recall_precision.py:105 | over a fixed denominator, a smaller count never gives a larger rate |
| ThresholdSweep.CountSortedSuffix | get_validated_genomic_recall_precision.py:167-174 | in an ascending list, once the first `index_p` values lie below the threshold and the next one reaches it, `len - index_p` values reach it |
| ThresholdSweep.CountAntitone | get_validated_genomic_recall_precision.py:165-196 | a higher threshold never counts more values |
| ThresholdSweep.Insert | get_validated_genomic_recall_precision.py:143-144 | inserting into an ascending list keeps it ascending and adds exactly that element |
| ThresholdSweep.Sort | get_validated_genomic_recall_precision.py:143-144 | `sorted()`: the result is ascending, has the same length, and is a permutation of the input |
| ThresholdSweep.SortCount | get_validated_genomic_recall_precision.py:143-144 | sorting does not change how many values reach any threshold |
| ThresholdSweep.CoarseGrid | get_validated_genomic_recall_precision.py:147 | the fixed part of the grid has 904 thresholds |
| ThresholdSweep.CoarseGridIncreasing | get_validated_genomic_recall_precision.py:147 | the fixed part of the grid is strictly increasing and lies in [0, 0.899] |
| ThresholdSweep.RefinedGridIncreasing | get_validated_genomic_recall_precision.py:147-161 | with any strictly increasing refinement inside [0.9, 1), the whole grid is strictly increasing from 0 to 1 and has 905 + the refinement's length thresholds |
| ThresholdSweep.Sweep | get_validated_genomic_recall_precision.py:165-196 | for ascending values and thresholds, one row per threshold; row `i` holds threshold `i`, the number of values ≥ it, and that number over the denominator (so an empty value list gives all-zero rows) |
| ThresholdSweep.SweepCountsNonIncreasing | modkitopt/bin/eval_recall_precision.py:96-127 | the counts never rise along an ascending grid |
| SiteAggregation.Start | get_validated_genomic_recall_precision.py:104-105 | a site's first record creates `p` under `max` and `[p·c, c]` under `avg` (also lines 122-123) |
| SiteAggregation.Absorb | get_validated_genomic_recall_precision.py:102-103 | a further record gives `max(old, p)` under `max`: at least both, equal to one of them, and the stored value on ties; under `avg` it gives `[s + p·c, w + c]` (lines 117-121) |
| SiteAggregation.Add | get_validated_genomic_recall_precision.py:117-123 | updating one key adds that key; its entry becomes `Absorb` of the old entry when the key was present and `Start` otherwise; every other entry stays as it was |
| SiteAggregation.Step | get_validated_genomic_recall_precision.py:95-132 | one loop iteration: a skipped line changes nothing, a raising line ends the run with its failure, and a taken line updates `all` and, only for a validated key, `validated`; the restriction of `all` to the validated keys is kept |
| SiteAggregation.Fold | get_validated_genomic_recall_precision.py:75-132 | the validated dictionary is the all-sites dictionary restricted to the validated keys; the run fails exactly when some record raises, with that record's failure |
| SiteAggregation.FoldAbortsEarly | get_validated_genomic_recall_precision.py:116 | once a record has raised, later records change nothing |
| SiteAggregation.Accumulate | get_validated_genomic_recall_precision.py:71-132 | the in-place loop over the records returns exactly what `Fold` specifies, or the first exception |
| SiteAggregation.FoldSummary | get_validated_genomic_recall_precision.py:99-132 | a key has an entry exactly when some record was admitted for it, and the entry is the fold of that key's admitted observations |
| SiteAggregation.ObservationsOfUnadmitted | get_validated_genomic_recall_precision.py:95-97 | a key that no record was admitted for has no observations |
| SiteAggregation.MaxSummary | get_validated_genomic_recall_precision.py:101-110 | under `max`, the entry is one of the key's admitted scores and is at least every one of them |
| SiteAggregation.AvgSummary | get_validated_genomic_recall_precision.py:115-132 | under `avg`, the entry is `[Σ p·c, Σ c]` over the key's admitted records |
| SiteAggregation.MaxOrderIndependent | get_validated_genomic_recall_precision.py:101-110 | under `max`, any reordering of a key's records gives the same entry |
| SiteAggregation.SumsPermutation | modkitopt/bin/eval_recall_precision.py:52-68 | `Σ p·c` and `Σ c` do not depend on record order |
| SiteAggregation.AvgOrderIndependent | get_validated_genomic_recall_precision.py:115-132 | under `avg`, any reordering of a key's records gives the same entry |
| SiteAggregation.SingleObservation | get_validated_genomic_recall_precision.py:136-140 | a site seen once (with nonzero coverage under `avg`) ends with its own score under either policy |
| SiteAggregation.ListValues | get_validated_genomic_recall_precision.py:134-140 | listing succeeds exactly when no coverage sum is zero (otherwise it fails with a zero division); it lists one value per site, and at every threshold as many listed values reach it as sites do |
| SiteAggregation.SweepSites | get_validated_genomic_recall_precision.py:134-196 | one dictionary's list, sort and sweep: it fails exactly when listing does; otherwise row `i` counts the sites whose value reaches threshold `i`, and the counts never rise |
| SiteAggregation.CalledRestricted | get_validated_genomic_recall_precision.py:99-132 | validated keys lie among the validated sites; validated values are computable whenever all-site values are; at every threshold, no more validated sites are called than sites overall |
| SiteAggregation.CalledAtMostSites | get_validated_genomic_recall_precision.py:174 | no more sites are called than the dictionary holds |
| SiteAggregation.FoldWeightsAtLeast | bin/precision_recall.py:42-75 | when every admitted coverage is at least `lo`, every entry is a weighted pair whose coverage sum is at least `lo` |
| ValidatedRates.SiteKey | get_validated_genomic_recall_precision.py:78-79 | the key is the contig exactly as written, `_`, then the end (no `chr` handling) |
| ValidatedRates.Score | get_validated_genomic_recall_precision.py:82-93 | under `rate` the score is the stoichiometry column, otherwise the probability column; it is taken only when the stoichiometry is strictly above the gate, is 0 otherwise even when the probability does not parse, and is missing when the stoichiometry does not parse |
| ValidatedRates.Classify | get_validated_genomic_recall_precision.py:76-116 | a line is skipped exactly when it has no score or its key is discarded; it aborts exactly when it is otherwise taken under `avg` with an unparseable coverage; a taken line carries the script's key and score |
| ValidatedRates.Admissions | get_validated_genomic_recall_precision.py:75-116 | every line is judged on its own: one decision per line, in file order |
| ValidatedRates.Aggregated | get_validated_genomic_recall_precision.py:70-132 | the run stops exactly when some line's decision is to raise, and then with a non-numeric coverage; otherwise the validated dictionary is the all-sites one restricted to the validated sites |
| ValidatedRates.DiscardedSitesAbsent | get_validated_genomic_recall_precision.py:95-97 | a discarded key appears in neither dictionary |
| ValidatedRates.SiteEntry | get_validated_genomic_recall_precision.py:99-132 | each key's entry is the maximum of its admitted scores (`max`), or `[Σ p·c, Σ c]` over them (`avg`) |
| ValidatedRates.AssembleCurve | get_validated_genomic_recall_precision.py:198-208 | row `i` joins validated row `i` with all-sites row `i`; precision is `validated_pred / all_pred`, or 0, and lies in [0, 1] when the validated count does not exceed the all-sites count |
| ValidatedRates.Evaluate | get_validated_genomic_recall_precision.py:70-208 | the run fails exactly when a line raises or a coverage sum is zero; otherwise there is one row per threshold, with counts equal to the sites whose value reaches it, rates and precision in [0, 1], and counts that never rise |
| ModkitEval.TruthKey | modkitopt/bin/eval_recall_precision.py:27-29 | the truth key is the contig exactly as written, `_`, then the site column |
| ModkitEval.PredictionKey | modkitopt/bin/eval_recall_precision.py:39-40 | the prediction key is `chr`, the contig, `_`, then the end (how it meets truth keys: `ModkitEval.KeysMatch`) |
| ModkitEval.LoadTruthSites | modkitopt/bin/eval_recall_precision.py:21-29 | the truth set holds exactly the `seqname_site` keys of the truth lines |
| ModkitEval.KeysMatch | modkitopt/bin/eval_recall_precision.py:27-40 | a truth line and a prediction name the same key exactly when the truth contig is `chr` + the prediction contig and the ends agree |
| ModkitEval.UnprefixedTruthNeverMatches | modkitopt/bin/eval_recall_precision.py:29-40 | a truth contig that does not start with `chr` matches no prediction |
| ModkitEval.Classify | modkitopt/bin/eval_recall_precision.py:37-52 | an unparseable stoichiometry skips the line; otherwise an unparseable coverage aborts the run; otherwise the line is taken with the prefixed key, its stoichiometry and its coverage |
| ModkitEval.Admissions | modkitopt/bin/eval_recall_precision.py:36-52 | every line is judged on its own: one decision per line, in file order |
| ModkitEval.Aggregated | modkitopt/bin/eval_recall_precision.py:31-68 | the run stops exactly when some line has a parsed stoichiometry and an unparseable coverage; otherwise `preds_validated` is `preds_all` restricted to the truth sites |
| ModkitEval.SiteEntry | modkitopt/bin/eval_recall_precision.py:52-72 | each entry is `[Σ stoich·cov, Σ cov]` over the key's lines, and its value is the weighted mean when `Σ cov` ≠ 0 |
| ModkitEval.Evaluate | modkitopt/bin/eval_recall_precision.py:21-142 | the run fails exactly when a coverage does not parse or a coverage sum is zero, and with one of those two failures; otherwise recall is the fraction of predicted validated sites that reach each threshold (not a fraction of the truth set); recall and precision lie in [0, 1], and recall never rises |
| PrecisionRecall.LStripChr | bin/precision_recall.py:26 | `lstrip("chr")` leaves a suffix whose removed prefix is made only of `c`, `h` and `r`, and whose first character is none of them |
| PrecisionRecall.LStripChrIdempotent | bin/precision_recall.py:26 | stripping twice is stripping once |
| PrecisionRecall.LStripChrDropsChr | bin/precision_recall.py:39 | a leading `chr` is always removed |
| PrecisionRecall.LStripChrExamples | bin/precision_recall.py:26 | `12`, `chr12`, `h12` and `chrchr12` all become `12` |
| PrecisionRecall.SiteKey | bin/precision_recall.py:26-28 | the key is the stripped contig, `_`, then the end |
| PrecisionRecall.TruthKey | bin/precision_recall.py:26-28 | the truth key is unchanged when `chr` is put in front of the truth contig |
| PrecisionRecall.PredictionKey | bin/precision_recall.py:39-40 | the prediction key is unchanged when `chr` is put in front of the prediction contig |
| PrecisionRecall.KeysSymmetric | bin/precision_recall.py:26-40 | a `chr`-prefixed contig and the bare one give the same key on either side |
| PrecisionRecall.LoadTruthSites | bin/precision_recall.py:20-28 | the truth set holds exactly the normalised keys of the truth lines |
| PrecisionRecall.Classify | bin/precision_recall.py:36-55 | a non-integer coverage aborts the run; coverage under 20 skips the line before the stoichiometry is read; an unparseable stoichiometry skips it; a taken line has score = stoichiometry / 100 and weight = coverage ≥ 20 |
| PrecisionRecall.Admissions | bin/precision_recall.py:35-55 | every line is judged on its own: one decision per line, in file order |
| PrecisionRecall.Aggregated | bin/precision_recall.py:30-75 | the run stops exactly when some coverage is not an integer; otherwise `preds_validated` is `preds_all` restricted to the truth sites |
| PrecisionRecall.CoverageSumsAtLeastMinimum | bin/precision_recall.py:60-79 | every coverage sum is at least 20, so the division at line 78 never fails |
| PrecisionRecall.Grid | bin/precision_recall.py:86 | the grid has 1000 thresholds |
| PrecisionRecall.GridIncreasing | bin/precision_recall.py:86 | the 1000 thresholds are strictly increasing, from 0 to 0.999 |
| PrecisionRecall.Evaluate | bin/precision_recall.py:20-138 | the run fails only when a coverage is not an integer; otherwise there are 1000 rows, recall is the count of validated sites reaching the threshold over the size of the truth set, recall and precision lie in [0, 1], and recall never rises |
| RecallCurve.AssembleCurve | modkitopt/bin/eval_recall_precision.py:129-142 | row `i` takes recall from validated row `i` and precision `tp / all_pred`, or 0 when `all_pred` is 0, which lies in [0, 1] when `tp ≤ all_pred` (the same loop is bin/precision_recall.py:125-138) |
| RecallCurve.Curve | modkitopt/bin/eval_recall_precision.py:70-142 | from the two dictionaries: fails exactly when some coverage sum is zero; otherwise one row per threshold with recall = called validated sites over the given denominator and precision = called validated over called overall, both in [0, 1], and recall never rises (also bin/precision_recall.py:77-138) |

## Left out

- Command-line parsing, and the hard-coded argument override in `get_validated_genomic_recall_precision.py`: the configuration (aggregation, metric, minimum stoichiometry, discard set) is an explicit parameter.
- File and pickle I/O: header skipping, tab splitting, column selection, output writing (including `.3f` formatting), `print` diagnostics and timing. Records are modelled as their parsed columns. One consequence: in the two truth loaders, `line.split("\t")` keeps the trailing newline when the site is the last column. Such a key would never match; the model takes the site column as already clean.
- A line with too few columns raises while being unpacked (prediction lines), or at `fields[1]` (a truth line without a tab). This is not modelled, because records arrive already split.
- IEEE floating point: `nan`, infinities and rounding are not modelled. Scores, coverages and ratios are exact `real`s. Because of this, `float()` accepting `"nan"`/`"inf"` is outside the model.
- ThresholdSweep.RefinedGridIncreasing: the `[0.9, 1)` refinement in `get_validated_genomic_recall_precision.py:149-161` and `modkitopt/bin/eval_recall_precision.py:81-93` is built by concatenating `str(float)` text. It is a parameter here, required to be strictly increasing inside `[0.9, 1)`, not the exact decimal values the text round-trip produces.
- SiteAggregation.CalledRestricted: "`p_lst_val` is a sub-multiset of `p_lst_all`" is stated as two facts. The first is that the validated dictionary is the all-sites dictionary restricted to validated keys (`SiteAggregation.Fold`). The second is per-threshold count domination. There is no multiset inclusion over the listed values.
- SiteAggregation.ListValues: dictionary iteration order is not modelled. Keys are picked in an arbitrary order, and the contract fixes the count of values reaching each threshold, which is all the sort-then-sweep uses.
- ThresholdSweep.Sweep: `get_validated_genomic_recall_precision.py:174,191` and `modkitopt/bin/eval_recall_precision.py:105,122` write the rate as `1 - index_p/len`. The model states it as `count/len`, which is equal whenever `len > 0`; when `len = 0` the first loop never runs and the rows are zero. `bin/precision_recall.py:98-99` divides by `len(truth_sites)` instead, which the model passes in as the sweep's denominator.
- ValidatedRates.Classify: under `max` the coverage column is never read. A taken line then carries weight 0, which the `max` policy ignores.
- Order of evaluation in `ValidatedRates.Evaluate` and `RecallCurve.Curve`: the all-sites values are listed and swept before the validated ones are listed. The scripts list both and then sort both. There is no side effect between these steps, and a zero coverage sum among validated sites implies one among all sites. So the outcome, including which failure is reported, is the same.
- PrecisionRecall.Evaluate: the all-sites sweep also computes a rate, which `bin/precision_recall.py:110-123` does not keep. That rate is not part of any output row.
- `print` of skipped lines, and the `__main__` entry point.
