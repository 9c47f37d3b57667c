// The generator of hand-verification data: the trials go through the
// standard `TubeTrials` steps, candidate pairs are collected per
// (user, face, tube) group without a validity check, up to ten of them are
// sampled, their trials are exported towards-then-away with the signed D,
// and the subject-level statistics of the sampled D values are reported.
module SelectVerify {
  import opened Records
  import opened Processing
  import opened Balancing
  import opened Aggregation
  import opened Trials

  const MinAngle := 3.0
  const MaxAngle := 40.0
  const MaxInvalidTrials := 2
  /** The most pairs sampled for verification. */
  const SampleLimit := 10
  /** The name of the subject step that `TubeTrials` defines. */
  const SubjectStepName := "mark_valid_subjects"
  /** The name the generator calls instead. */
  const CalledStepName := "mark_bad_subjects"

  /** The standard steps with the subject step `TubeTrials` defines, ending in `select(valid_only=True)`. */
  function CleanTable(df: Table): (r: Table)
    ensures r.hasEnd && r.hasAngleValid && r.hasSubjectValid
  {
    var subjects := MarkSubjects(AngleChecked(df), MaxInvalidTrials).value.0;
    SelectTable(subjects, true)
  }

  /**
   * The table the generator works on when it calls the subject step by
   * `name`: a name `TubeTrials` has no method for raises `AttributeError`.
   */
  function PreparedTable(df: Table, name: string): (r: Result<Table>)
    ensures r.Failure? <==> name != SubjectStepName
    ensures r.Failure? ==> r.error == MissingAttribute(name)
  {
    if name == SubjectStepName then Success(CleanTable(df)) else Failure(MissingAttribute(name))
  }

  /** The angle-checked table the subject step works on. */
  function AngleChecked(df: Table): (r: Table)
    ensures r.hasEnd && r.hasAngleValid && |r.rows| == |df.rows|
  {
    ValidateAngles(TransformAngles(RenameFaceIds(df)), MinAngle, MaxAngle).value
  }

  /**
   * A trial survives the subject step and `select`: it is an angle-valid row
   * of the angle-checked table, marked subject-valid, and its user has at
   * most two invalid trials.
   */
  ghost predicate KeptTrial(angles: Table, x: Trial) {
    x.angleValid && x.subjectValid && exists i :: KeptAt(angles, x, i)
  }

  /** `x` is row `i` of the angle-checked table, with the subject mark, and user `i` has at most two invalid trials. */
  ghost predicate KeptAt(angles: Table, x: Trial, i: int) {
    && 0 <= i < |angles.rows| && x == angles.rows[i].(subjectValid := x.subjectValid)
    && InvalidCount(angles.rows, angles.rows[i].user) <= MaxInvalidTrials
  }

  /**
   * Every trial left for pairing is angle-valid under the strict (3, 40)
   * rule and belongs to a subject with at most two invalid trials; every
   * such trial is kept.
   */
  lemma CleanTableSpec(df: Table)
    ensures forall x :: x in CleanTable(df).rows <==> KeptTrial(AngleChecked(df), x)
    ensures forall x :: x in CleanTable(df).rows ==> MinAngle < x.end < MaxAngle
  {
    var angles := AngleChecked(df);
    assert CleanTable(df) == SelectTable(MarkSubjects(angles, MaxInvalidTrials).value.0, true);
    SubjectsSelected(angles);
    forall x | x in CleanTable(df).rows ensures MinAngle < x.end < MaxAngle {
      var i :| KeptAt(angles, x, i);
    }
  }

  /** The subject step and `select` on an angle-checked table keep exactly the kept trials. */
  lemma SubjectsSelected(angles: Table)
    requires angles.hasAngleValid
    ensures forall x :: x in SelectTable(MarkSubjects(angles, MaxInvalidTrials).value.0, true).rows <==> KeptTrial(angles, x)
  {
    var subjects := MarkSubjects(angles, MaxInvalidTrials).value.0;
    MarkSubjectsSpec(angles, MaxInvalidTrials);
    KeepSelectedSpec(subjects, subjects.rows);
    forall x | x in subjects.rows && Selected(subjects, x) ensures KeptTrial(angles, x) {
      var i :| 0 <= i < |subjects.rows| && subjects.rows[i] == x;
      assert KeptAt(angles, x, i);
    }
    forall x | KeptTrial(angles, x) ensures x in subjects.rows && Selected(subjects, x) {
      var i :| KeptAt(angles, x, i);
      assert subjects.rows[i] == x;
    }
  }

  /**
   * The standard steps through the `TubeTrials` object, calling the subject
   * step by `name`; an unknown name stops the generator before `select`.
   */
  method Prepare(df: Table, name: string) returns (r: Result<Table>)
    ensures r == PreparedTable(df, name)
  {
    var trials := new TubeTrials(df);
    trials.ProcessAngles();
    var angleReport := trials.MarkValidAngles(MinAngle, MaxAngle);
    if name != SubjectStepName {
      return Failure(MissingAttribute(name));
    }
    var subjectReport := trials.MarkValidSubjects(MaxInvalidTrials);
    var clean := trials.Select(true);
    r := Success(clean.df);
  }

  /** The candidate pairs: per group and side, exactly one towards and one away trial, validity not checked. */
  function Candidates(rows: seq<Trial>): seq<Pair> {
    PairsOver(rows, GroupKeys(rows), SignedD, false)
  }

  /** The loop over the groups that appends the FaceLeft and then the FaceRight candidate of each. */
  method FindCandidates(rows: seq<Trial>) returns (cands: seq<Pair>)
    ensures cands == Candidates(rows)
  {
    var keys := GroupKeys(rows);
    cands := [];
    var i := 0;
    while i < |keys|
      invariant 0 <= i <= |keys|
      invariant cands == PairsOver(rows, keys[..i], SignedD, false)
    {
      var k := keys[i];
      cands := AddCandidates(rows, k, cands);
      KeysStep(rows, keys, i);
      i := i + 1;
    }
    assert keys[..i] == keys;
  }

  lemma KeysStep(rows: seq<Trial>, keys: seq<Key>, i: nat)
    requires i < |keys|
    ensures PairsOver(rows, keys[..i + 1], SignedD, false) == PairsOver(rows, keys[..i], SignedD, false) + GroupPairs(rows, keys[i], SignedD, false)
  {
    assert keys[..i + 1][..i] == keys[..i];
  }

  /** One group's step: append its FaceLeft candidate, then its FaceRight candidate, when they exist. */
  method AddCandidates(rows: seq<Trial>, k: Key, cands: seq<Pair>) returns (r: seq<Pair>)
    ensures r == cands + GroupPairs(rows, k, SignedD, false)
  {
    var left := PairFor(rows, k, FaceLeft, SignedD, false);
    var mid := cands;
    if left.Some? {
      mid := mid + [left.value];
    }
    assert mid == cands + OptSeq(left);
    var right := PairFor(rows, k, FaceRight, SignedD, false);
    r := mid;
    if right.Some? {
      r := r + [right.value];
    }
    assert r == mid + OptSeq(right);
    AppendAssoc(cands, OptSeq(left), OptSeq(right));
  }

  /**
   * On the selected table every trial is angle-valid, so the unchecked
   * candidate search finds exactly the pairs the checked balancing forms.
   */
  lemma CandidatesOnCleanTable(df: Table)
    ensures Candidates(CleanTable(df).rows) == Balance(CleanTable(df).rows, SignedD)
  {
    var rows := CleanTable(df).rows;
    CleanTableSpec(df);
    UncheckedOnValidRows(rows, GroupKeys(rows));
  }

  lemma {:induction false} UncheckedOnValidRows(rows: seq<Trial>, ks: seq<Key>)
    requires forall x :: x in rows ==> x.angleValid
    ensures PairsOver(rows, ks, SignedD, false) == PairsOver(rows, ks, SignedD, true)
  {
    if ks != [] {
      var k := ks[|ks| - 1];
      UncheckedOnValidRows(rows, ks[..|ks| - 1]);
      CheckedPairsOnValidRows(rows, k, FaceLeft, SignedD);
      CheckedPairsOnValidRows(rows, k, FaceRight, SignedD);
    }
  }

  /** `min(10, len(valid_pairs))`. */
  function SampleSize(n: nat): (r: nat)
    ensures r <= n && r <= SampleLimit
    ensures r == n || r == SampleLimit
  {
    if n < SampleLimit then n else SampleLimit
  }

  /**
   * A draw of `random.sample(range(n), min(10, n))`: the right number of
   * distinct positions, all below `n`.
   */
  predicate ValidSample(picks: seq<nat>, n: nat) {
    && |picks| == SampleSize(n)
    && (forall i :: 0 <= i < |picks| ==> picks[i] < n)
    && (forall i, j :: 0 <= i < j < |picks| ==> picks[i] != picks[j])
  }

  /** The sampled candidates, in the order drawn. */
  function Sampled(cands: seq<Pair>, picks: seq<nat>): (r: seq<Pair>)
    requires forall i :: 0 <= i < |picks| ==> picks[i] < |cands|
    ensures |r| == |picks|
    ensures forall p :: p in r ==> p in cands
  {
    seq(|picks|, i requires 0 <= i < |picks| => cands[picks[i]])
  }

  predicate PairsInRange(rows: seq<Trial>, ps: seq<Pair>) {
    forall i :: 0 <= i < |ps| ==> ps[i].towards < |rows| && ps[i].away < |rows|
  }

  /** `abs(t['end_angle']) - abs(a['end_angle'])` for every sampled pair, in order. */
  function SampledDs(rows: seq<Trial>, ps: seq<Pair>): (r: seq<real>)
    requires PairsInRange(rows, ps)
    ensures |r| == |ps|
  {
    if ps == [] then []
    else
      var n := |ps| - 1;
      SampledDs(rows, ps[..n]) + [Abs(rows[ps[n].towards].end) - Abs(rows[ps[n].away].end)]
  }

  /** `csv_rows`: the towards trial and then the away trial of every sampled pair. */
  function ExportRows(rows: seq<Trial>, ps: seq<Pair>): (r: seq<Trial>)
    requires PairsInRange(rows, ps)
    ensures |r| == 2 * |ps|
  {
    if ps == [] then []
    else
      var n := |ps| - 1;
      ExportRows(rows, ps[..n]) + [rows[ps[n].towards], rows[ps[n].away]]
  }

  /** Row `2i` of the export is pair `i`'s towards trial and row `2i + 1` its away trial. */
  lemma {:induction false} ExportRowsSpec(rows: seq<Trial>, ps: seq<Pair>)
    requires PairsInRange(rows, ps)
    ensures forall i :: 0 <= i < |ps| ==>
              ExportRows(rows, ps)[2 * i] == rows[ps[i].towards] && ExportRows(rows, ps)[2 * i + 1] == rows[ps[i].away]
  {
    if ps != [] {
      var n := |ps| - 1;
      var init := ps[..n];
      assert PairsInRange(rows, init);
      ExportRowsSpec(rows, init);
      assert forall i :: 0 <= i < n ==> init[i] == ps[i];
    }
  }

  /** Each recomputed D is `abs(end_t) - abs(end_a)` of its pair's two trials. */
  lemma {:induction false} SampledDsSpec(rows: seq<Trial>, ps: seq<Pair>)
    requires PairsInRange(rows, ps)
    ensures forall i :: 0 <= i < |ps| ==> SampledDs(rows, ps)[i] == Abs(rows[ps[i].towards].end) - Abs(rows[ps[i].away].end)
  {
    if ps != [] {
      var n := |ps| - 1;
      var init := ps[..n];
      assert PairsInRange(rows, init);
      SampledDsSpec(rows, init);
      assert forall i :: 0 <= i < n ==> init[i] == ps[i];
    }
  }

  /** Each recomputed D is the signed D the candidate search recorded for its pair. */
  lemma SampledDsAreCandidateDs(rows: seq<Trial>, ps: seq<Pair>)
    requires PairsInRange(rows, ps)
    requires forall p :: p in ps ==> p in Candidates(rows)
    ensures forall i :: 0 <= i < |ps| ==> SampledDs(rows, ps)[i] == ps[i].d
  {
    SampledDsSpec(rows, ps);
    PairsOverD(rows, GroupKeys(rows), SignedD, false);
    forall i | 0 <= i < |ps| ensures SampledDs(rows, ps)[i] == ps[i].d {
      assert ps[i] in ps;
    }
  }

  /** The loop over the sampled pairs that appends each D and the pair's two trials. */
  method Export(rows: seq<Trial>, ps: seq<Pair>) returns (dValues: seq<real>, csvRows: seq<Trial>)
    requires PairsInRange(rows, ps)
    ensures dValues == SampledDs(rows, ps)
    ensures csvRows == ExportRows(rows, ps)
  {
    dValues, csvRows := [], [];
    var i := 0;
    while i < |ps|
      invariant 0 <= i <= |ps|
      invariant PairsInRange(rows, ps[..i])
      invariant dValues == SampledDs(rows, ps[..i])
      invariant csvRows == ExportRows(rows, ps[..i])
    {
      var t := rows[ps[i].towards];
      var a := rows[ps[i].away];
      dValues := dValues + [Abs(t.end) - Abs(a.end)];
      csvRows := csvRows + [t, a];
      assert ps[..i + 1][..i] == ps[..i];
      i := i + 1;
    }
    assert ps[..|ps|] == ps;
  }

  /** The sampled pairs' users tagged with their D: the input of `groupby('user')['d']`. */
  function UserDs(ps: seq<Pair>, ds: seq<real>): (r: seq<(int, real)>)
    requires |ds| == |ps|
    ensures |r| == |ps| && forall i :: 0 <= i < |ps| ==> r[i] == (ps[i].key.user, ds[i])
  {
    seq(|ps|, i requires 0 <= i < |ps| => (ps[i].key.user, ds[i]))
  }

  /**
   * The subject-level statistics of the generator: the per-user means, their
   * mean, the sample variance (0 with one subject), and the square of the
   * t statistic, and whether the standard error is 0 (t is then set to 0).
   */
  datatype SubjectLevel = SubjectLevel(means: seq<real>, mean: real, variance: real, tSquared: real, semIsZero: bool)

  function MeanValues(ms: seq<(int, real)>): (r: seq<real>)
    ensures |r| == |ms| && forall i :: 0 <= i < |ms| ==> r[i] == ms[i].1
  {
    seq(|ms|, i requires 0 <= i < |ms| => ms[i].1)
  }

  /** The statistics of the subject means `ms`: one subject has variance 0, so the standard error is 0 and t is set to 0. */
  function LevelOf(ms: seq<real>): (s: SubjectLevel)
    requires |ms| >= 1
    ensures s.means == ms
    ensures s.mean * (|ms| as real) == Sum(ms)
    ensures |ms| == 1 ==> s.variance == 0.0 && s.semIsZero
    ensures s.variance >= 0.0 && s.tSquared >= 0.0
    ensures s.semIsZero <==> s.variance == 0.0
    ensures !s.semIsZero ==> s.tSquared * s.variance == s.mean * s.mean * (|ms| as real)
    ensures s.semIsZero ==> s.tSquared == 0.0
  {
    var mean := Mean(ms);
    var variance := if |ms| > 1 then SampleVariance(ms) else 0.0;
    assert |ms| > 1 ==> SampleVariance(ms) >= 0.0 by {
      if |ms| > 1 {
        SampleVarianceNonNegative(ms);
      }
    }
    var semIsZero := variance <= 0.0;
    SubjectLevel(ms, mean, variance, TSquared(mean, |ms|, variance), semIsZero)
  }

  /** `(mean / (std / sqrt(n)))^2`, that is `mean^2 * n / variance`, and 0 when the standard error is 0. */
  function TSquared(mean: real, n: nat, variance: real): (t: real)
    ensures t >= 0.0
    ensures variance > 0.0 ==> t * variance == mean * mean * (n as real)
    ensures variance <= 0.0 ==> t == 0.0
  {
    SquareNonNegative(mean);
    if variance <= 0.0 then 0.0 else mean * mean * (n as real) / variance
  }

  /** `groupby('user')['d'].mean()` and the statistics of those means. */
  function SubjectLevelStats(obs: seq<(int, real)>): (s: SubjectLevel)
    requires |obs| > 0
    ensures |s.means| == |Groups(obs)| >= 1
    ensures forall i :: 0 <= i < |s.means| ==> s.means[i] == Mean(ValuesOf(obs, Groups(obs)[i]))
  {
    GroupsSpec(obs);
    assert obs[0].0 in Groups(obs);
    var gm := GroupMeans(obs);
    LevelOf(MeanValues(gm))
  }

  /** What the generator produces once it has candidates. */
  datatype Verification = Verification(
    candidates: nat,
    selected: seq<Pair>,
    dValues: seq<real>,
    exported: seq<Trial>,
    subjects: SubjectLevel)

  /** How the generator ends: it raises, it finds no candidates, or it exports. */
  datatype Outcome = Raised(error: Error) | NoCandidates | Exported(v: Verification)

  /** Steps 4 to 6 on the given candidates and draw. */
  function Verified(rows: seq<Trial>, cands: seq<Pair>, picks: seq<nat>): (v: Verification)
    requires cands != []
    requires ValidSample(picks, |cands|)
    requires PairsInRange(rows, cands)
  {
    var sel := Sampled(cands, picks);
    assert PairsInRange(rows, sel) by {
      forall i | 0 <= i < |sel| ensures sel[i].towards < |rows| && sel[i].away < |rows| {
        assert sel[i] == cands[picks[i]];
      }
    }
    var ds := SampledDs(rows, sel);
    Verification(|cands|, sel, ds, ExportRows(rows, sel), SubjectLevelStats(UserDs(sel, ds)))
  }

  /**
   * The generator with the subject step called by `name`, and `choose`
   * standing for `random.sample`. With no candidates it returns before
   * sampling.
   */
  method Run(df: Table, name: string, choose: nat -> seq<nat>) returns (o: Outcome)
    requires forall n: nat :: ValidSample(choose(n), n)
    ensures PreparedTable(df, name).Failure? ==> o == Raised(PreparedTable(df, name).error)
    ensures PreparedTable(df, name).Success? ==>
      var rows := PreparedTable(df, name).value.rows;
      && (o == NoCandidates <==> Candidates(rows) == [])
      && (Candidates(rows) != [] ==> PairsInRange(rows, Candidates(rows)) && o == Exported(Verified(rows, Candidates(rows), choose(|Candidates(rows)|))))
  {
    var prepared := Prepare(df, name);
    if prepared.Failure? {
      return Raised(prepared.error);
    }
    var rows := prepared.value.rows;
    var cands := FindCandidates(rows);
    if cands == [] {
      return NoCandidates;
    }
    CandidatesInRange(rows);
    var v := SampleAndExport(rows, cands, choose(|cands|));
    o := Exported(v);
  }

  /** Every candidate names two rows of the table. */
  lemma CandidatesInRange(rows: seq<Trial>)
    ensures PairsInRange(rows, Candidates(rows))
  {
    var cands := Candidates(rows);
    PairsOverD(rows, GroupKeys(rows), SignedD, false);
    forall i | 0 <= i < |cands| ensures cands[i].towards < |rows| && cands[i].away < |rows| {
      assert cands[i] in cands;
    }
  }

  /** Steps 4 to 6: sample the candidates with the draw, export the sampled pairs, and compute the statistics. */
  method SampleAndExport(rows: seq<Trial>, cands: seq<Pair>, picks: seq<nat>) returns (v: Verification)
    requires cands != []
    requires ValidSample(picks, |cands|)
    requires PairsInRange(rows, cands)
    ensures v == Verified(rows, cands, picks)
  {
    var selected := Sampled(cands, picks);
    assert PairsInRange(rows, selected) by {
      forall i | 0 <= i < |selected| ensures selected[i].towards < |rows| && selected[i].away < |rows| {
        assert selected[i] == cands[picks[i]];
      }
    }
    var dValues, csvRows := Export(rows, selected);
    var subjects := SubjectLevelStats(UserDs(selected, dValues));
    v := Verification(|cands|, selected, dValues, csvRows, subjects);
  }

  /**
   * On the candidates themselves: the count, at most ten distinct sampled
   * candidates, two exported trials per sampled pair, and each recomputed D
   * equal to the pair's recorded D.
   */
  lemma VerifiedSpec(rows: seq<Trial>, picks: seq<nat>)
    requires Candidates(rows) != []
    requires ValidSample(picks, |Candidates(rows)|)
    requires PairsInRange(rows, Candidates(rows))
    ensures var v := Verified(rows, Candidates(rows), picks);
      && v.candidates == |Candidates(rows)|
      && |v.selected| == SampleSize(|Candidates(rows)|)
      && (forall p :: p in v.selected ==> p in Candidates(rows))
      && |v.exported| == 2 * |v.selected|
      && |v.dValues| == |v.selected|
      && (forall i :: 0 <= i < |v.selected| ==> v.dValues[i] == v.selected[i].d)
  {
    var cands := Candidates(rows);
    var sel := Sampled(cands, picks);
    assert PairsInRange(rows, sel) by {
      forall i | 0 <= i < |sel| ensures sel[i].towards < |rows| && sel[i].away < |rows| {
        assert sel[i] == cands[picks[i]];
      }
    }
    SampledDsAreCandidateDs(rows, sel);
  }

  /**
   * The generator as written calls `mark_bad_subjects`, which `TubeTrials`
   * does not define, so it raises on every input before any pair is found.
   */
  method RunAsWritten(df: Table, choose: nat -> seq<nat>) returns (o: Outcome)
    requires forall n: nat :: ValidSample(choose(n), n)
    ensures o == Raised(MissingAttribute(CalledStepName))
  {
    o := Run(df, CalledStepName, choose);
  }

  /**
   * The generator with the subject step `TubeTrials` defines: it never
   * raises; it stops exactly when balancing the selected trials forms no
   * pair; otherwise at most ten distinct balanced pairs are sampled, each
   * exported as two trials with the pair's D.
   */
  method RunCorrected(df: Table, choose: nat -> seq<nat>) returns (o: Outcome)
    requires forall n: nat :: ValidSample(choose(n), n)
    ensures !o.Raised?
    ensures o.NoCandidates? <==> Balance(CleanTable(df).rows, SignedD) == []
    ensures o.Exported? ==>
      var rows := CleanTable(df).rows;
      && o.v.candidates == |Balance(rows, SignedD)|
      && |o.v.selected| == SampleSize(|Balance(rows, SignedD)|)
      && (forall p :: p in o.v.selected ==> p in Balance(rows, SignedD))
      && |o.v.exported| == 2 * |o.v.selected|
      && |o.v.dValues| == |o.v.selected|
      && (forall i :: 0 <= i < |o.v.selected| ==> o.v.dValues[i] == o.v.selected[i].d)
  {
    o := Run(df, SubjectStepName, choose);
    var rows := CleanTable(df).rows;
    CandidatesOnCleanTable(df);
    if o.Exported? {
      VerifiedSpec(rows, choose(|Candidates(rows)|));
    }
  }
}
