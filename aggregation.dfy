/**
 * Folding prediction records that share a site key into the two dictionaries
 * the scripts keep: every admitted site (`preds_dct_all` / `preds_all`) and the
 * admitted sites whose key is a validated / ground-truth site
 * (`preds_dct_val` / `preds_validated`).
 */
module SiteAggregation {
  import opened Results
  import opened ThresholdSweep

  /** The `--aggregate` choice: keep the maximum, or the coverage-weighted mean. */
  datatype Policy = Max | Avg

  /** A dictionary entry: the running maximum, or the pair `[Σ p·c, Σ c]`. */
  datatype Acc = Best(best: real) | Weighted(weightedSum: real, weightSum: real)

  /** One admitted record's scored value `p` and its coverage `c`. */
  datatype Observation = Observation(score: real, coverage: real)

  /**
   * What a script's per-line code decides about one record: skip it (`continue`),
   * abort the run (an uncaught exception), or fold its score into site `key`.
   */
  datatype Admission = Skip | Crash(failure: Failure) | Take(key: string, score: real, coverage: real)

  /** The two dictionaries. */
  datatype Tables = Tables(all: map<string, Acc>, validated: map<string, Acc>)

  /**
   * The entry created by the first admitted record of a site: the score itself
   * under `max`, the pair `[p·c, c]` under `avg`.
   */
  function Start(policy: Policy, o: Observation): (a: Acc)
    ensures a.Best? <==> policy == Max
    ensures a.Best? ==> a.best == o.score
    ensures a.Weighted? ==> a.weightedSum == o.score * o.coverage && a.weightSum == o.coverage
  {
    match policy
    case Max => Best(o.score)
    case Avg => Weighted(o.score * o.coverage, o.coverage)
  }

  /**
   * Folds one more record into an existing entry: `max(old, p)`, which keeps
   * the stored value on ties, or `[s + p·c, w + c]`.
   */
  function Absorb(a: Acc, o: Observation): (r: Acc)
    ensures r.Best? <==> a.Best?
    ensures a.Best? ==> r.best >= a.best && r.best >= o.score && (r.best == a.best || r.best == o.score)
    ensures a.Best? && o.score <= a.best ==> r == a
    ensures a.Weighted? ==> r.weightedSum == a.weightedSum + o.score * o.coverage &&
                            r.weightSum == a.weightSum + o.coverage
  {
    match a
    case Best(b) => Best(if o.score > b then o.score else b)
    case Weighted(s, w) => Weighted(s + o.score * o.coverage, w + o.coverage)
  }

  /**
   * Updates or creates the entry of `key` (the `if site_index in d` branches),
   * leaving every other entry alone.
   */
  function Add(policy: Policy, m: map<string, Acc>, key: string, o: Observation): (r: map<string, Acc>)
    ensures r.Keys == m.Keys + {key}
    ensures r[key] == if key in m then Absorb(m[key], o) else Start(policy, o)
    ensures forall k :: k in m && k != key ==> r[k] == m[k]
  {
    m[key := if key in m then Absorb(m[key], o) else Start(policy, o)]
  }

  /** `all` restricted to the validated keys is exactly `validated`, entry for entry. */
  predicate Restricts(validated: map<string, Acc>, all: map<string, Acc>, validatedSites: set<string>) {
    (forall k :: k in validated ==> k in all && k in validatedSites && validated[k] == all[k]) &&
    (forall k :: k in all && k in validatedSites ==> k in validated)
  }

  /**
   * One iteration of the per-line loop, after the record has been classified:
   * a skipped record changes nothing, a raising one ends the run, and a taken
   * one updates `all` and, for a validated key, `validated`. The restriction
   * of `all` to the validated keys is kept.
   */
  function Step(policy: Policy, validatedSites: set<string>, t: Tables, a: Admission): (r: Result<Tables>)
    ensures a.Skip? ==> r == Ok(t)
    ensures a.Crash? ==> r == Err(a.failure)
    ensures a.Take? ==> r.Ok? && r.value.all == Add(policy, t.all, a.key, Observation(a.score, a.coverage))
    ensures a.Take? && a.key in validatedSites ==>
      r.Ok? && r.value.validated == Add(policy, t.validated, a.key, Observation(a.score, a.coverage))
    ensures a.Take? && a.key !in validatedSites ==> r.Ok? && r.value.validated == t.validated
    ensures r.Ok? && Restricts(t.validated, t.all, validatedSites) ==>
      Restricts(r.value.validated, r.value.all, validatedSites)
  {
    match a
    case Skip => Ok(t)
    case Crash(f) => Err(f)
    case Take(key, p, c) =>
      var o := Observation(p, c);
      Ok(Tables(Add(policy, t.all, key, o),
                if key in validatedSites then Add(policy, t.validated, key, o) else t.validated))
  }

  /**
   * The whole per-line loop over a file's records, in order. Whatever the records,
   * the validated dictionary is the all-sites dictionary restricted to the
   * validated keys, and the run fails exactly when some record aborts it.
   */
  function Fold(policy: Policy, validatedSites: set<string>, adms: seq<Admission>): (r: Result<Tables>)
    ensures r.Ok? ==> Restricts(r.value.validated, r.value.all, validatedSites)
    ensures r.Err? <==> exists i :: 0 <= i < |adms| && adms[i].Crash?
    ensures r.Err? ==> exists i :: 0 <= i < |adms| && adms[i] == Crash(r.failure)
  {
    if adms == [] then Ok(Tables(map[], map[]))
    else
      var init := adms[..|adms| - 1];
      assert forall i :: 0 <= i < |init| ==> init[i] == adms[i];
      match Fold(policy, validatedSites, init)
      case Err(f) => Err(f)
      case Ok(t) => Step(policy, validatedSites, t, adms[|adms| - 1])
  }

  /** Once a prefix of the records has aborted the run, the whole file aborts with it. */
  lemma {:induction false} FoldAbortsEarly(policy: Policy, validatedSites: set<string>, adms: seq<Admission>, n: nat)
    requires n <= |adms| && Fold(policy, validatedSites, adms[..n]).Err?
    ensures Fold(policy, validatedSites, adms) == Fold(policy, validatedSites, adms[..n])
  {
    if n < |adms| {
      var init := adms[..|adms| - 1];
      assert init[..n] == adms[..n];
      FoldAbortsEarly(policy, validatedSites, init, n);
    } else {
      assert adms[..n] == adms;
    }
  }

  /**
   * The per-line loop over the classified records (e.g.
   * get_validated_genomic_recall_precision.py:75-132): returns the two
   * dictionaries, or the exception that stopped the loop.
   */
  method Accumulate(policy: Policy, validatedSites: set<string>, adms: seq<Admission>) returns (r: Result<Tables>)
    ensures r == Fold(policy, validatedSites, adms)
  {
    var all: map<string, Acc> := map[];
    var validated: map<string, Acc> := map[];
    var i := 0;
    while i < |adms|
      invariant 0 <= i <= |adms|
      invariant Fold(policy, validatedSites, adms[..i]) == Ok(Tables(all, validated))
    {
      assert adms[..i + 1][..i] == adms[..i];
      match adms[i] {
        case Skip =>
        case Crash(f) =>
          FoldAbortsEarly(policy, validatedSites, adms, i + 1);
          return Err(f);
        case Take(key, p, c) =>
          var o := Observation(p, c);
          all := Add(policy, all, key, o);
          if key in validatedSites {
            validated := Add(policy, validated, key, o);
          }
      }
      i := i + 1;
    }
    assert adms[..i] == adms;
    r := Ok(Tables(all, validated));
  }

  // ---------------------------------------------------------------------------
  // What each entry holds: a reference definition per site key.

  /** The observations admitted for `key`, in record order. */
  function ObservationsOf(adms: seq<Admission>, key: string): seq<Observation> {
    if adms == [] then []
    else
      ObservationsOf(adms[..|adms| - 1], key) +
      match adms[|adms| - 1]
      case Take(k, p, c) => if k == key then [Observation(p, c)] else []
      case _ => []
  }

  /** The entry that folding a non-empty list of observations produces. */
  function Summary(policy: Policy, obs: seq<Observation>): Acc
    requires obs != []
  {
    if |obs| == 1 then Start(policy, obs[0])
    else Absorb(Summary(policy, obs[..|obs| - 1]), obs[|obs| - 1])
  }

  /**
   * A site has an entry exactly when some record was admitted for it, and the
   * entry summarises the site's admitted observations.
   */
  lemma {:induction false} FoldSummary(policy: Policy, validatedSites: set<string>, adms: seq<Admission>, key: string)
    requires Fold(policy, validatedSites, adms).Ok?
    ensures var t := Fold(policy, validatedSites, adms).value;
      (key in t.all <==> ObservationsOf(adms, key) != []) &&
      (key in t.all ==> t.all[key] == Summary(policy, ObservationsOf(adms, key)))
  {
    if adms != [] {
      var init := adms[..|adms| - 1];
      FoldSummary(policy, validatedSites, init, key);
      var before := ObservationsOf(init, key);
      match adms[|adms| - 1]
      case Skip =>
        assert ObservationsOf(adms, key) == before + [] == before;
      case Crash(_) =>
      case Take(k, p, c) =>
        if k == key {
          var obs := before + [Observation(p, c)];
          assert obs[..|obs| - 1] == before;
        } else {
          assert ObservationsOf(adms, key) == before + [] == before;
        }
    }
  }

  /** `p * c`, one record's share of the weighted sum. */
  function Product(o: Observation): real {
    o.score * o.coverage
  }

  /** A key no record was admitted for has no observations. */
  lemma {:induction false} ObservationsOfUnadmitted(adms: seq<Admission>, key: string)
    requires forall i :: 0 <= i < |adms| && adms[i].Take? ==> adms[i].key != key
    ensures ObservationsOf(adms, key) == []
  {
    if adms != [] {
      var init := adms[..|adms| - 1];
      assert forall i :: 0 <= i < |init| ==> init[i] == adms[i];
      ObservationsOfUnadmitted(init, key);
    }
  }

  function WeightedSum(obs: seq<Observation>): real {
    if obs == [] then 0.0 else WeightedSum(obs[..|obs| - 1]) + Product(obs[|obs| - 1])
  }

  function WeightSum(obs: seq<Observation>): real {
    if obs == [] then 0.0 else WeightSum(obs[..|obs| - 1]) + obs[|obs| - 1].coverage
  }

  /** Under `max` the entry is the largest admitted score of the site. */
  lemma {:induction false} MaxSummary(obs: seq<Observation>)
    requires obs != []
    ensures Summary(Max, obs).Best?
    ensures exists i :: 0 <= i < |obs| && obs[i].score == Summary(Max, obs).best
    ensures forall i :: 0 <= i < |obs| ==> obs[i].score <= Summary(Max, obs).best
  {
    if |obs| > 1 {
      var init := obs[..|obs| - 1];
      MaxSummary(init);
      var j :| 0 <= j < |init| && init[j].score == Summary(Max, init).best;
      if obs[|obs| - 1].score <= Summary(Max, init).best {
        assert obs[j].score == Summary(Max, obs).best;
      }
      assert forall i :: 0 <= i < |init| ==> obs[i] == init[i];
    }
  }

  /** Under `avg` the entry is the pair `[Σ p·c, Σ c]` over the site's admitted records. */
  lemma {:induction false} AvgSummary(obs: seq<Observation>)
    requires obs != []
    ensures Summary(Avg, obs) == Weighted(WeightedSum(obs), WeightSum(obs))
  {
    var init := obs[..|obs| - 1];
    if |obs| > 1 {
      AvgSummary(init);
    } else {
      assert init == [];
    }
  }

  /** Under `max` the entry does not depend on the order of the site's records. */
  lemma MaxOrderIndependent(obs1: seq<Observation>, obs2: seq<Observation>)
    requires obs1 != [] && multiset(obs1) == multiset(obs2)
    ensures obs2 != [] && Summary(Max, obs1) == Summary(Max, obs2)
  {
    assert obs1[0] in multiset(obs2);
    MaxSummary(obs1);
    MaxSummary(obs2);
    var i :| 0 <= i < |obs1| && obs1[i].score == Summary(Max, obs1).best;
    var j :| 0 <= j < |obs2| && obs2[j].score == Summary(Max, obs2).best;
    assert obs1[i] in multiset(obs2);
    assert obs2[j] in multiset(obs1);
  }

  lemma {:induction false} SumsAppend(a: seq<Observation>, b: seq<Observation>)
    ensures WeightedSum(a + b) == WeightedSum(a) + WeightedSum(b)
    ensures WeightSum(a + b) == WeightSum(a) + WeightSum(b)
  {
    if b == [] {
      assert a + b == a;
    } else {
      assert (a + b)[..|a + b| - 1] == a + b[..|b| - 1];
      SumsAppend(a, b[..|b| - 1]);
    }
  }

  lemma SumsSingle(x: Observation)
    ensures WeightedSum([x]) == Product(x) && WeightSum([x]) == x.coverage
  {
    assert [x][..0] == [];
  }

  /** The sums over `front + [x] + back` split into the three parts. */
  lemma SumsSplit(front: seq<Observation>, x: Observation, back: seq<Observation>)
    ensures WeightedSum(front + [x] + back) == WeightedSum(front) + Product(x) + WeightedSum(back)
    ensures WeightSum(front + [x] + back) == WeightSum(front) + x.coverage + WeightSum(back)
  {
    SumsAppend(front + [x], back);
    SumsAppend(front, [x]);
    SumsSingle(x);
  }

  lemma SumsRemove(s: seq<Observation>, j: nat)
    requires j < |s|
    ensures WeightedSum(s) == WeightedSum(s[..j] + s[j + 1..]) + Product(s[j])
    ensures WeightSum(s) == WeightSum(s[..j] + s[j + 1..]) + s[j].coverage
  {
    var front, x, back := s[..j], s[j], s[j + 1..];
    assert s == front + [x] + back;
    SumsSplit(front, x, back);
    SumsAppend(front, back);
  }

  /** Taking out the element at `j` takes one copy of it out of the multiset. */
  lemma MultisetRemove(s: seq<Observation>, j: nat)
    requires j < |s|
    ensures multiset(s[..j] + s[j + 1..]) == multiset(s) - multiset{s[j]}
  {
    assert s == s[..j] + [s[j]] + s[j + 1..];
  }

  /** Both sums are the same for any reordering of the observations. */
  lemma {:induction false} SumsPermutation(a: seq<Observation>, b: seq<Observation>)
    requires multiset(a) == multiset(b)
    ensures WeightedSum(a) == WeightedSum(b) && WeightSum(a) == WeightSum(b)
  {
    if a == [] {
      assert |b| == |multiset(b)| == 0;
    } else {
      var n := |a| - 1;
      var x := a[n];
      MultisetRemove(a, n);
      assert a[..n] + a[n + 1..] == a[..n];
      assert x in multiset(b);
      var j :| 0 <= j < |b| && b[j] == x;
      MultisetRemove(b, j);
      SumsPermutation(a[..n], b[..j] + b[j + 1..]);
      SumsRemove(b, j);
    }
  }

  /** Under `avg` the entry does not depend on the order of the site's records. */
  lemma AvgOrderIndependent(obs1: seq<Observation>, obs2: seq<Observation>)
    requires obs1 != [] && multiset(obs1) == multiset(obs2)
    ensures obs2 != [] && Summary(Avg, obs1) == Summary(Avg, obs2)
  {
    assert obs1[0] in multiset(obs2);
    AvgSummary(obs1);
    AvgSummary(obs2);
    SumsPermutation(obs1, obs2);
  }

  // ---------------------------------------------------------------------------
  // From entries to the list of site values (`p_lst_all` / `p_all` ...).

  /** An entry whose value can be computed: `item[0] / item[1]` raises on a zero coverage sum. */
  predicate Defined(a: Acc) {
    a.Best? || a.weightSum != 0.0
  }

  /** The value a site contributes to the curve. */
  function Value(a: Acc): real
    requires Defined(a)
  {
    match a
    case Best(b) => b
    case Weighted(s, w) => s / w
  }

  predicate AllDefined(m: map<string, Acc>) {
    forall k :: k in m ==> Defined(m[k])
  }

  /** A site seen once keeps its own score under either policy. */
  lemma SingleObservation(policy: Policy, o: Observation)
    requires policy == Avg ==> o.coverage != 0.0
    ensures Defined(Summary(policy, [o])) && Value(Summary(policy, [o])) == o.score
  {
    if policy == Avg {
      assert o.score * o.coverage / o.coverage == o.score;
    }
  }

  /** The number of sites in `m` whose value reaches `t`. */
  function Called(m: map<string, Acc>, t: real): nat {
    |set k | k in m && Defined(m[k]) && Value(m[k]) >= t|
  }

  /** The number of sites among `keys` whose value reaches `t`. */
  function CalledAmong(m: map<string, Acc>, keys: set<string>, t: real): nat {
    |set k | k in keys && k in m && Defined(m[k]) && Value(m[k]) >= t|
  }

  lemma CalledAmongAdd(m: map<string, Acc>, keys: set<string>, key: string, t: real)
    requires key !in keys && key in m && Defined(m[key])
    ensures CalledAmong(m, keys + {key}, t) == CalledAmong(m, keys, t) + (if Value(m[key]) >= t then 1 else 0)
  {
    var before := set k | k in keys && k in m && Defined(m[k]) && Value(m[k]) >= t;
    var after := set k | k in keys + {key} && k in m && Defined(m[k]) && Value(m[k]) >= t;
    if Value(m[key]) >= t {
      assert after == before + {key};
    } else {
      assert after == before;
    }
  }

  lemma CalledAmongAll(m: map<string, Acc>, t: real)
    ensures CalledAmong(m, m.Keys, t) == Called(m, t)
  {
    assert (set k | k in m.Keys && k in m && Defined(m[k]) && Value(m[k]) >= t)
        == (set k | k in m && Defined(m[k]) && Value(m[k]) >= t);
  }

  /**
   * `[item[0] / item[1] for key, item in d.items()]`, in whatever order the
   * dictionary yields its keys: fails exactly when some coverage sum is zero,
   * and otherwise lists one value per site, so that every threshold calls as
   * many listed values as sites.
   */
  method ListValues(m: map<string, Acc>) returns (r: Result<seq<real>>)
    ensures r.Ok? <==> AllDefined(m)
    ensures r.Err? ==> r.failure == CoverageSumZero
    ensures r.Ok? ==> |r.value| == |m| && forall t :: CountAtLeast(r.value, t) == Called(m, t)
  {
    var values: seq<real> := [];
    var remaining := m.Keys;
    ghost var done: set<string> := {};
    while remaining != {}
      invariant remaining <= m.Keys && done == m.Keys - remaining
      invariant forall k :: k in done ==> Defined(m[k])
      invariant |values| == |done|
      invariant forall t :: CountAtLeast(values, t) == CalledAmong(m, done, t)
      decreases |remaining|
    {
      var key :| key in remaining;
      var item := m[key];
      if item.Weighted? && item.weightSum == 0.0 {
        assert !Defined(m[key]);
        return Err(CoverageSumZero);
      }
      var v := Value(item);
      forall t ensures CountAtLeast(values + [v], t) == CalledAmong(m, done + {key}, t) {
        CountAppend(values, [v], t);
        CalledAmongAdd(m, done, key, t);
      }
      values := values + [v];
      done := done + {key};
      remaining := remaining - {key};
    }
    assert done == m.Keys;
    forall t ensures CalledAmong(m, done, t) == Called(m, t) {
      CalledAmongAll(m, t);
    }
    r := Ok(values);
  }

  // ---------------------------------------------------------------------------
  // Consequences of the restriction for the curve.

  /**
   * One dictionary's half of the curve: its values listed, sorted and swept
   * over the thresholds. It fails exactly when listing does; otherwise row `i`
   * counts the sites whose value reaches threshold `i`, with the rate taken
   * over `denominator`, and the counts never rise with the threshold.
   */
  method SweepSites(m: map<string, Acc>, thresholds: seq<real>, denominator: nat) returns (r: Result<seq<SweepRow>>)
    requires Ascending(thresholds) && |m| <= denominator
    ensures r.Ok? <==> AllDefined(m)
    ensures r.Err? ==> r.failure == CoverageSumZero
    ensures r.Ok? ==> |r.value| == |thresholds|
    ensures r.Ok? ==> forall i :: 0 <= i < |thresholds| ==>
      r.value[i] == SweepRow(thresholds[i], Ratio(Called(m, thresholds[i]), denominator), Called(m, thresholds[i]))
    ensures r.Ok? ==> forall i, j :: 0 <= i <= j < |thresholds| ==> r.value[j].count <= r.value[i].count
  {
    var listed := ListValues(m);
    if listed.Err? {
      return Err(listed.failure);
    }
    var sorted := Sort(listed.value);
    var rows := Sweep(sorted, thresholds, denominator);
    forall i | 0 <= i < |thresholds|
      ensures rows[i].count == Called(m, thresholds[i])
    {
      SortCount(listed.value, thresholds[i]);
    }
    forall i, j | 0 <= i <= j < |thresholds|
      ensures rows[j].count <= rows[i].count
    {
      SweepCountsNonIncreasing(sorted, thresholds, i, j);
    }
    r := Ok(rows);
  }

  lemma SubsetCardinality(a: set<string>, b: set<string>)
    requires a <= b
    ensures |a| <= |b|
  {
    assert b == a + (b - a);
  }

  /**
   * Because the validated dictionary is the all-sites dictionary restricted to
   * the validated keys, its values are computable whenever those of all sites
   * are, and at every threshold it calls no more sites than all sites do.
   */
  lemma CalledRestricted(validated: map<string, Acc>, all: map<string, Acc>, validatedSites: set<string>, t: real)
    requires Restricts(validated, all, validatedSites)
    ensures AllDefined(all) ==> AllDefined(validated)
    ensures Called(validated, t) <= Called(all, t)
    ensures validated.Keys <= validatedSites && |validated| <= |validatedSites|
  {
    SubsetCardinality((set k | k in validated && Defined(validated[k]) && Value(validated[k]) >= t),
                      (set k | k in all && Defined(all[k]) && Value(all[k]) >= t));
    SubsetCardinality(validated.Keys, validatedSites);
  }

  /** At most every site is called. */
  lemma CalledAtMostSites(m: map<string, Acc>, t: real)
    ensures Called(m, t) <= |m|
  {
    SubsetCardinality((set k | k in m && Defined(m[k]) && Value(m[k]) >= t), m.Keys);
  }

  /**
   * Under `avg`, when every admitted record carries coverage at least `lo >= 0`,
   * every entry is a weighted pair whose coverage sum is at least `lo`.
   */
  lemma {:induction false} FoldWeightsAtLeast(validatedSites: set<string>, adms: seq<Admission>, lo: real)
    requires 0.0 <= lo
    requires forall i :: 0 <= i < |adms| && adms[i].Take? ==> adms[i].coverage >= lo
    requires Fold(Avg, validatedSites, adms).Ok?
    ensures forall k :: k in Fold(Avg, validatedSites, adms).value.all ==>
      Fold(Avg, validatedSites, adms).value.all[k].Weighted? &&
      Fold(Avg, validatedSites, adms).value.all[k].weightSum >= lo
  {
    if adms != [] {
      var init := adms[..|adms| - 1];
      assert forall i :: 0 <= i < |init| ==> init[i] == adms[i];
      FoldWeightsAtLeast(validatedSites, init, lo);
    }
  }
}
