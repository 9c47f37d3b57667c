// The aggregation stage: sums, means and the sample variance of D values,
// grouping of tagged values in first-appearance order, the per-subject mean
// D (`calc_subject_D`) and the per-group summaries with their n <= 1 branch.
module Aggregation {
  import opened Records
  import opened Balancing

  function Sum(xs: seq<real>): real {
    if xs == [] then 0.0 else Sum(xs[..|xs| - 1]) + xs[|xs| - 1]
  }

  /** `Series.mean()`; pandas gives NaN for no values, which is why the callers guard it. */
  function Mean(xs: seq<real>): real
    requires |xs| > 0
  {
    Sum(xs) / (|xs| as real)
  }

  /** The sum of squared deviations from `m`. */
  function SquaredDeviations(xs: seq<real>, m: real): real {
    if xs == [] then 0.0
    else SquaredDeviations(xs[..|xs| - 1], m) + (xs[|xs| - 1] - m) * (xs[|xs| - 1] - m)
  }

  /** `Series.var()` with pandas' default `ddof=1`; `std()` is its square root. */
  function SampleVariance(xs: seq<real>): real
    requires |xs| > 1
  {
    SquaredDeviations(xs, Mean(xs)) / ((|xs| - 1) as real)
  }

  lemma {:induction false} SumBounds(xs: seq<real>, lo: real, hi: real)
    requires forall i :: 0 <= i < |xs| ==> lo <= xs[i] <= hi
    ensures (|xs| as real) * lo <= Sum(xs) <= (|xs| as real) * hi
  {
    if xs != [] {
      var init := xs[..|xs| - 1];
      assert forall i :: 0 <= i < |init| ==> init[i] == xs[i];
      SumBounds(init, lo, hi);
      assert (|xs| as real) * lo == (|init| as real) * lo + lo;
      assert (|xs| as real) * hi == (|init| as real) * hi + hi;
    }
  }

  /** A mean lies between any bounds of its values; in particular non-negative values have a non-negative mean. */
  lemma MeanBounds(xs: seq<real>, lo: real, hi: real)
    requires |xs| > 0
    requires forall i :: 0 <= i < |xs| ==> lo <= xs[i] <= hi
    ensures lo <= Mean(xs) <= hi
  {
    SumBounds(xs, lo, hi);
    var n := |xs| as real;
    assert Mean(xs) * n == Sum(xs);
    DivideBounds(Sum(xs), n, lo, hi);
  }

  lemma DivideBounds(s: real, n: real, lo: real, hi: real)
    requires n > 0.0 && n * lo <= s <= n * hi
    ensures lo <= s / n <= hi
  {
    var q := s / n;
    assert q * n == s;
  }

  lemma SquareNonNegative(d: real)
    ensures d * d >= 0.0
  {
    if d < 0.0 {
      assert d * d == (-d) * (-d);
    }
  }

  /** The squared deviations are never negative, and they vanish when every value equals `m`. */
  lemma {:induction false} SquaredDeviationsNonNegative(xs: seq<real>, m: real)
    ensures SquaredDeviations(xs, m) >= 0.0
    ensures (forall i :: 0 <= i < |xs| ==> xs[i] == m) ==> SquaredDeviations(xs, m) == 0.0
  {
    if xs != [] {
      var init := xs[..|xs| - 1];
      SquaredDeviationsNonNegative(init, m);
      SquareNonNegative(xs[|xs| - 1] - m);
      if forall i :: 0 <= i < |xs| ==> xs[i] == m {
        assert forall i :: 0 <= i < |init| ==> init[i] == xs[i];
        assert xs[|xs| - 1] - m == 0.0;
      }
    }
  }

  /** The sample variance is never negative, and it is zero when all values are equal. */
  lemma SampleVarianceNonNegative(xs: seq<real>)
    requires |xs| > 1
    ensures SampleVariance(xs) >= 0.0
    ensures (forall i :: 0 <= i < |xs| ==> xs[i] == xs[0]) ==> SampleVariance(xs) == 0.0
  {
    SquaredDeviationsNonNegative(xs, Mean(xs));
    if forall i :: 0 <= i < |xs| ==> xs[i] == xs[0] {
      MeanBounds(xs, xs[0], xs[0]);
      SquaredDeviationsNonNegative(xs, Mean(xs));
    }
  }

  /** The result of `scipy.stats.ttest_1samp(values, 0)`, which the model takes as given. */
  datatype TTest = TTest(statistic: real, pValue: real)

  /**
   * A count with its mean, sample variance and one-sample t-test; a missing
   * value stands for pandas' NaN.
   */
  datatype Summary = Summary(n: nat, mean: Option<real>, variance: Option<real>, test: Option<TTest>)

  /**
   * The n > 1 / n <= 1 branch: everything for two or more values; for one
   * value the mean only; for none, nothing.
   */
  function Summarize(xs: seq<real>, ttest: seq<real> -> TTest): (s: Summary)
    ensures s.n == |xs|
    ensures s.mean.Some? <==> |xs| >= 1
    ensures s.variance.Some? <==> |xs| > 1
    ensures s.test.Some? <==> |xs| > 1
    ensures s.mean.Some? ==> s.mean.value * (|xs| as real) == Sum(xs)
    ensures s.variance.Some? ==> s.variance.value >= 0.0
    ensures s.test.Some? ==> s.test.value == ttest(xs)
  {
    if |xs| > 1 then
      SampleVarianceNonNegative(xs);
      Summary(|xs|, Some(Mean(xs)), Some(SampleVariance(xs)), Some(ttest(xs)))
    else if |xs| == 1 then Summary(1, Some(Mean(xs)), None, None)
    else Summary(0, None, None, None)
  }

  /** A guarded percentage, `num / den * 100` when `den > 0` and 0 otherwise. */
  function Percent(num: int, den: int): real {
    if den > 0 then (num as real) / (den as real) * 100.0 else 0.0
  }

  /** A zero denominator gives 0; a part of a whole lies in [0, 100], strictly above 0 when the part is not empty. */
  lemma PercentBounds(num: int, den: int)
    ensures den <= 0 ==> Percent(num, den) == 0.0
    ensures 0 <= num <= den ==> 0.0 <= Percent(num, den) <= 100.0
    ensures 0 < num <= den ==> 0.0 < Percent(num, den)
    ensures 0 < den && num == den ==> Percent(num, den) == 100.0
  {
    if 0 <= num <= den && den > 0 {
      DivideBounds(num as real, den as real, 0.0, 1.0);
    }
  }

  // ---- Grouping of tagged values ----

  function KeysOf<K>(obs: seq<(K, real)>): (r: seq<K>)
    ensures |r| == |obs| && forall i :: 0 <= i < |obs| ==> r[i] == obs[i].0
  {
    seq(|obs|, i requires 0 <= i < |obs| => obs[i].0)
  }

  /** `df[df[key] == k][value]`: the values tagged `k`, in order. */
  function ValuesOf<K(==,!new)>(obs: seq<(K, real)>, k: K): (r: seq<real>)
    ensures |r| == Occurrences(KeysOf(obs), k)
  {
    if obs == [] then []
    else
      var init := obs[..|obs| - 1];
      assert KeysOf(obs)[..|obs| - 1] == KeysOf(init);
      ValuesOf(init, k) + (if obs[|obs| - 1].0 == k then [obs[|obs| - 1].1] else [])
  }

  /** The values tagged `k` are exactly the values of the observations with key `k`. */
  lemma {:induction false} ValuesOfMembers<K(!new)>(obs: seq<(K, real)>, k: K)
    ensures forall x :: x in ValuesOf(obs, k) <==> exists i :: 0 <= i < |obs| && obs[i] == (k, x)
  {
    if obs != [] {
      var init := obs[..|obs| - 1];
      ValuesOfMembers(init, k);
      assert forall i :: 0 <= i < |init| ==> init[i] == obs[i];
    }
  }

  /** The group keys in first-appearance order, as `df[key].unique()`. */
  function Groups<K(==,!new)>(obs: seq<(K, real)>): seq<K> {
    Distinct(KeysOf(obs))
  }

  /** `groupby(key)[value].mean()`: one mean per key. */
  function GroupMeans<K(==,!new)>(obs: seq<(K, real)>): (r: seq<(K, real)>)
    ensures KeysOf(r) == Groups(obs)
    ensures forall i :: 0 <= i < |r| ==> |ValuesOf(obs, r[i].0)| > 0 && r[i].1 == Mean(ValuesOf(obs, r[i].0))
  {
    var gs := Groups(obs);
    assert forall i :: 0 <= i < |gs| ==> gs[i] in KeysOf(obs);
    var r := seq(|gs|, i requires 0 <= i < |gs| => (gs[i], Mean(ValuesOf(obs, gs[i]))));
    assert KeysOf(r) == gs;
    r
  }

  /** One group mean per distinct key, each key once; bounds on the values carry over to the means. */
  lemma GroupMeansSpec<K(!new)>(obs: seq<(K, real)>, lo: real, hi: real)
    ensures forall k :: k in KeysOf(GroupMeans(obs)) <==> exists i :: 0 <= i < |obs| && obs[i].0 == k
    ensures NoDup(KeysOf(GroupMeans(obs)))
    ensures |GroupMeans(obs)| <= |obs|
    ensures (forall i :: 0 <= i < |obs| ==> lo <= obs[i].1 <= hi) ==>
              forall i :: 0 <= i < |GroupMeans(obs)| ==> lo <= GroupMeans(obs)[i].1 <= hi
  {
    var r := GroupMeans(obs);
    forall k ensures k in KeysOf(r) <==> exists i :: 0 <= i < |obs| && obs[i].0 == k {
      if k in KeysOf(obs) {
        var i :| 0 <= i < |obs| && KeysOf(obs)[i] == k;
      }
    }
    if forall i :: 0 <= i < |obs| ==> lo <= obs[i].1 <= hi {
      forall i | 0 <= i < |r| ensures lo <= r[i].1 <= hi {
        var vs := ValuesOf(obs, r[i].0);
        ValuesOfMembers(obs, r[i].0);
        forall j | 0 <= j < |vs| ensures lo <= vs[j] <= hi {
          assert vs[j] in vs;
        }
        MeanBounds(vs, lo, hi);
      }
    }
  }

  /** A group key with its summary: one row of the per-face statistics table. */
  datatype GroupSummary<K> = GroupSummary(key: K, summary: Summary)

  /** The per-group statistics a loop over the distinct keys builds. */
  function GroupSummaries<K(==,!new)>(obs: seq<(K, real)>, ttest: seq<real> -> TTest): seq<GroupSummary<K>> {
    var gs := Groups(obs);
    seq(|gs|, i requires 0 <= i < |gs| => GroupSummary(gs[i], Summarize(ValuesOf(obs, gs[i]), ttest)))
  }

  /** The distinct keys are exactly the keys of the values, and their group sizes add up to the number of values. */
  lemma GroupsSpec<K(!new)>(obs: seq<(K, real)>)
    ensures forall k :: k in Groups(obs) <==> exists i :: 0 <= i < |obs| && obs[i].0 == k
    ensures NoDup(Groups(obs))
    ensures SumOccurrences(KeysOf(obs), Groups(obs)) == |obs|
  {
    var ks := KeysOf(obs);
    forall k ensures k in Groups(obs) <==> exists i :: 0 <= i < |obs| && obs[i].0 == k {
      if k in ks {
        var i :| 0 <= i < |obs| && ks[i] == k;
      }
    }
    GroupSizesAddUp(ks, Groups(obs));
  }

  /**
   * One row per distinct key, in order; each row counts its group, which is
   * never empty, so a mean is always present and only groups of two or more
   * get a variance and a t-test.
   */
  lemma GroupSummariesSpec<K(!new)>(obs: seq<(K, real)>, ttest: seq<real> -> TTest)
    ensures |GroupSummaries(obs, ttest)| == |Groups(obs)|
    ensures forall i :: 0 <= i < |Groups(obs)| ==>
      var row := GroupSummaries(obs, ttest)[i];
      && row.key == Groups(obs)[i]
      && row.summary.n == Occurrences(KeysOf(obs), row.key) >= 1
      && row.summary.mean.Some?
      && (row.summary.variance.Some? <==> row.summary.n > 1)
      && (row.summary.test.Some? <==> row.summary.n > 1)
  {
    var gs := Groups(obs);
    forall i | 0 <= i < |gs| ensures Occurrences(KeysOf(obs), gs[i]) >= 1 {
      assert gs[i] in gs;
    }
  }

  /**
   * The loop over the distinct keys that appends one statistics row per key
   * (`calc_stats`, and the `p_values` loop of the analysis scripts).
   */
  method CalcGroupSummaries<K(==,!new)>(obs: seq<(K, real)>, ttest: seq<real> -> TTest) returns (rows: seq<GroupSummary<K>>)
    ensures rows == GroupSummaries(obs, ttest)
  {
    var gs := Groups(obs);
    rows := [];
    var i := 0;
    while i < |gs|
      invariant 0 <= i <= |gs|
      invariant rows == GroupSummaries(obs, ttest)[..i]
    {
      var values := ValuesOf(obs, gs[i]);
      var s := Summarize(values, ttest);
      rows := rows + [GroupSummary(gs[i], s)];
      i := i + 1;
    }
  }

  // ---- Subject-level D ----

  /** A pair's D tagged by its (user, face): the input of `groupby(['user_number', 'face_id'])['d']`. */
  function ByUserFace(ps: seq<Pair>): (r: seq<((int, string), real)>)
    ensures |r| == |ps| && forall i :: 0 <= i < |ps| ==> r[i] == ((ps[i].key.user, ps[i].key.face), ps[i].d)
  {
    seq(|ps|, i requires 0 <= i < |ps| => ((ps[i].key.user, ps[i].key.face), ps[i].d))
  }

  /** A row of `calc_subject_D`: one user's mean D on one face. */
  datatype SubjectScore = SubjectScore(user: int, face: string, d: real)

  /** `calc_subject_D`: the mean `d` of every (user, face) that has a pair; no pairs, no rows. */
  function SubjectScores(ps: seq<Pair>): (r: seq<SubjectScore>)
    ensures |r| == |GroupMeans(ByUserFace(ps))|
    ensures forall i :: 0 <= i < |r| ==> r[i] == SubjectScore(GroupMeans(ByUserFace(ps))[i].0.0, GroupMeans(ByUserFace(ps))[i].0.1, GroupMeans(ByUserFace(ps))[i].1)
  {
    var m := GroupMeans(ByUserFace(ps));
    seq(|m|, i requires 0 <= i < |m| => SubjectScore(m[i].0.0, m[i].0.1, m[i].1))
  }

  /** The (user, face) of every score row. */
  function ScoreKeys(r: seq<SubjectScore>): (ks: seq<(int, string)>)
    ensures |ks| == |r| && forall i :: 0 <= i < |r| ==> ks[i] == (r[i].user, r[i].face)
  {
    seq(|r|, i requires 0 <= i < |r| => (r[i].user, r[i].face))
  }

  /**
   * Each (user, face) that has a pair gets exactly one score, there is no
   * other score, and there are never more scores than pairs.
   */
  lemma SubjectScoresKeys(ps: seq<Pair>)
    ensures forall k :: k in ScoreKeys(SubjectScores(ps)) <==>
              exists j :: 0 <= j < |ps| && (ps[j].key.user, ps[j].key.face) == k
    ensures NoDup(ScoreKeys(SubjectScores(ps)))
    ensures |SubjectScores(ps)| <= |ps|
  {
    var obs := ByUserFace(ps);
    var m := GroupMeans(obs);
    GroupMeansSpec(obs, 0.0, 0.0);
    assert ScoreKeys(SubjectScores(ps)) == KeysOf(m);
    forall j | 0 <= j < |ps| ensures obs[j].0 == (ps[j].key.user, ps[j].key.face) {
    }
  }

  /** Every score is the mean of the D values of its (user, face)'s pairs, a group that is never empty. */
  lemma SubjectScoresMeans(ps: seq<Pair>)
    ensures forall i :: 0 <= i < |SubjectScores(ps)| ==>
              var r := SubjectScores(ps)[i];
              && |ValuesOf(ByUserFace(ps), (r.user, r.face))| > 0
              && r.d == Mean(ValuesOf(ByUserFace(ps), (r.user, r.face)))
  {
  }

  /** With no pairs there are no scores; with non-negative D values (the absolute formula) every score is non-negative. */
  lemma SubjectScoresNonNegative(ps: seq<Pair>)
    ensures ps == [] ==> SubjectScores(ps) == []
    ensures (forall j :: 0 <= j < |ps| ==> ps[j].d >= 0.0) ==>
              forall i :: 0 <= i < |SubjectScores(ps)| ==> 0.0 <= SubjectScores(ps)[i].d <= MaxD(ps)
  {
    var obs := ByUserFace(ps);
    var hi := MaxD(ps);
    forall j | 0 <= j < |ps| ensures ps[j].d <= hi {
      MaxDBound(ps, j);
    }
    GroupMeansSpec(obs, 0.0, hi);
    if ps == [] {
      assert |SubjectScores(ps)| <= |ps| by { SubjectScoresKeys(ps); }
    }
  }

  /** An upper bound on every pair's D. */
  function MaxD(ps: seq<Pair>): real {
    if ps == [] then 0.0
    else
      var m := MaxD(ps[..|ps| - 1]);
      if ps[|ps| - 1].d > m then ps[|ps| - 1].d else m
  }

  lemma {:induction false} MaxDBound(ps: seq<Pair>, j: int)
    requires 0 <= j < |ps|
    ensures ps[j].d <= MaxD(ps)
  {
    if j < |ps| - 1 {
      MaxDBound(ps[..|ps| - 1], j);
    }
  }

  /** The subject scores of one face, tagged by face: the input of the per-face statistics of `calc_stats`. */
  function ScoresByFace(scores: seq<SubjectScore>): (r: seq<(string, real)>)
    ensures |r| == |scores| && forall i :: 0 <= i < |scores| ==> r[i] == (scores[i].face, scores[i].d)
  {
    seq(|scores|, i requires 0 <= i < |scores| => (scores[i].face, scores[i].d))
  }
}
