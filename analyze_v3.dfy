// The version-3 analysis script (kept in two copies that run the same
// steps): remap the face ids, compute end angles, apply the hard-coded
// (3, 40) rule, exclude subjects with more than two invalid trials, pair
// with the signed D, and report the stage counts and the per-face
// statistics of the pair D values.
module AnalysisV3 {
  import opened Records
  import opened Processing
  import opened Balancing
  import opened Aggregation

  /** The hard-coded rule of step 4 and the threshold of step 5. */
  const MinAngle := 3.0
  const MaxAngle := 40.0
  const MaxInvalidTrials := 2

  /** Steps 2 to 4: the remapped, angle-annotated, validated table. */
  function Validated(t: Table): (r: Table)
    ensures r.hasEnd && r.hasAngleValid && |r.rows| == |t.rows|
    ensures forall i :: 0 <= i < |t.rows| ==>
              && r.rows[i].face == RemapFace(t.rows[i].face)
              && r.rows[i].end == EndAngle(t.rows[i].tip, t.rows[i].raw)
              && (r.rows[i].angleValid <==> MinAngle < r.rows[i].end < MaxAngle)
              && r.rows[i].user == t.rows[i].user && r.rows[i].raw == t.rows[i].raw
              && r.rows[i].faceSide == t.rows[i].faceSide && r.rows[i].tip == t.rows[i].tip
  {
    var renamed := RenameFaceIds(t);
    var ended := TransformAngles(renamed);
    ValidateAngles(ended, MinAngle, MaxAngle).value
  }

  /** Step 5: the excluded subjects (ascending) and the table without their trials. */
  function Cleaned(t: Table): (r: (Table, seq<int>))
    ensures Success(r) == Processing.ExcludeSubjects(Validated(t), MaxInvalidTrials)
  {
    Processing.ExcludeSubjects(Validated(t), MaxInvalidTrials).value
  }

  /** The counts the summary prints, stage by stage. */
  datatype StageCounts = StageCounts(
    initialTrials: nat,
    initialSubjects: nat,
    invalidatedAngle: int,
    excludedSubjects: seq<int>,
    removedByExclusion: nat,
    trialsAfterExclusion: nat,
    subjectsAfterExclusion: nat,
    validAfterExclusion: nat,
    usedInPairs: nat,
    invalidatedBalancing: int,
    finalTrials: nat)

  /** What the script reports: counts, the pairs, the subjects with a pair, overall and per-face statistics. */
  datatype Report = Report(
    counts: StageCounts,
    pairs: seq<Pair>,
    finalSubjects: nat,
    overall: Option<Summary>,
    faces: seq<GroupSummary<string>>)

  /** The `D` column of the results. */
  function DValues(ps: seq<Pair>): (r: seq<real>)
    ensures |r| == |ps| && forall i :: 0 <= i < |ps| ==> r[i] == ps[i].d
  {
    seq(|ps|, i requires 0 <= i < |ps| => ps[i].d)
  }

  /** The results' (`face_id`, `D`) pairs, the input of `groupby('face_id')['D']`. */
  function FaceDs(ps: seq<Pair>): (r: seq<(string, real)>)
    ensures |r| == |ps| && forall i :: 0 <= i < |ps| ==> r[i] == (ps[i].key.face, ps[i].d)
  {
    seq(|ps|, i requires 0 <= i < |ps| => (ps[i].key.face, ps[i].d))
  }

  /** The `user_number` column of the results. */
  function PairUsers(ps: seq<Pair>): (r: seq<int>)
    ensures |r| == |ps| && forall i :: 0 <= i < |ps| ==> r[i] == ps[i].key.user
  {
    seq(|ps|, i requires 0 <= i < |ps| => ps[i].key.user)
  }

  /**
   * Steps 2 to 7 with the empty-result short-circuit taking effect: with no
   * pairs there are no statistics and no subjects. Every stage count is
   * stated through the table it counts, and the counts add up.
   */
  method Analyze(t: Table, ttest: seq<real> -> TTest) returns (r: Report)
    ensures var (clean, bad) := Cleaned(t);
      && r.pairs == Balance(clean.rows, SignedD)
      && r.counts.initialTrials == |t.rows|
      && r.counts.initialSubjects == |Distinct(Users(t.rows))|
      && r.counts.invalidatedAngle == |t.rows| - CountValid(Validated(t).rows)
      && r.counts.excludedSubjects == bad
      && r.counts.removedByExclusion + r.counts.trialsAfterExclusion == r.counts.initialTrials
      && r.counts.trialsAfterExclusion == |clean.rows|
      && r.counts.subjectsAfterExclusion == |Distinct(Users(clean.rows))|
      && r.counts.validAfterExclusion == CountValid(clean.rows)
      && r.counts.usedInPairs == 2 * |r.pairs|
      && r.counts.invalidatedBalancing == r.counts.validAfterExclusion - r.counts.usedInPairs >= 0
      && r.counts.finalTrials == r.counts.usedInPairs <= r.counts.trialsAfterExclusion
      && r.finalSubjects == |Distinct(PairUsers(r.pairs))|
      && (r.pairs == [] ==> r.overall == None && r.faces == [])
      && (r.pairs != [] ==> r.overall == Some(Summarize(DValues(r.pairs), ttest)))
      && (r.pairs != [] ==> r.faces == GroupSummaries(FaceDs(r.pairs), ttest))
  {
    var initialTrials := |t.rows|;
    var initialSubjects := |Distinct(Users(t.rows))|;
    var v := Validated(t);
    var invalidatedAngle := |v.rows| - CountValid(v.rows);
    var bad := IdentifyBadSubjects(v, MaxInvalidTrials).value;
    var removed := CountUsersIn(v.rows, set u | u in bad);
    var clean := DropUsers(v, bad);
    var pairs, used := BalanceTrials(clean.rows, SignedD);
    BalanceSpec(clean.rows, SignedD);
    var validAfter := CountValid(clean.rows);
    var counts := StageCounts(initialTrials, initialSubjects, invalidatedAngle, bad, removed,
                              |clean.rows|, |Distinct(Users(clean.rows))|, validAfter,
                              |used|, validAfter - |used|, |used|);
    if pairs == [] {
      return Report(counts, pairs, 0, None, []);
    }
    var faces := CalcGroupSummaries(FaceDs(pairs), ttest);
    r := Report(counts, pairs, |Distinct(PairUsers(pairs))|, Some(Summarize(DValues(pairs), ttest)), faces);
  }

  /**
   * The script as written: `results_df['user_number']` is read before the
   * emptiness check, and a DataFrame built from no records has no such
   * column, so with no pairs the script stops with a `KeyError` there.
   */
  method AnalyzeAsWritten(t: Table, ttest: seq<real> -> TTest) returns (r: Result<Report>)
    ensures Balance(Cleaned(t).0.rows, SignedD) == [] <==> r.Failure?
    ensures r.Failure? ==> r.error == MissingColumn("user_number")
    ensures r.Success? ==> r.value.pairs == Balance(Cleaned(t).0.rows, SignedD) && r.value.overall.Some?
  {
    var report := Analyze(t, ttest);
    if report.pairs == [] {
      return Failure(MissingColumn("user_number"));
    }
    r := Success(report);
  }

  /**
   * A table with no pairable slot: one subject with a single, valid,
   * towards trial. The rule and the exclusion keep it, no pair forms, and
   * the script as written fails where the intended one reports empty
   * statistics.
   */
  lemma NoPairsExample(ttest: seq<real> -> TTest)
    ensures var t := RawTable([Trial(1, "ID015", 0, Left, Left, -10.0, 0.0, false, false, "")], false);
      && Validated(t).rows[0].angleValid
      && Cleaned(t).0.rows == Validated(t).rows
      && Balance(Cleaned(t).0.rows, SignedD) == []
  {
    var t := RawTable([Trial(1, "ID015", 0, Left, Left, -10.0, 0.0, false, false, "")], false);
    assert EndAngle(Left, -10.0) == 10.0;
    TowardsOnlyTable(t);
  }

  /**
   * A table whose trials are towards trials within the rule loses no trial
   * to the exclusion and forms no pair.
   */
  lemma TowardsOnlyTable(t: Table)
    requires forall i :: 0 <= i < |t.rows| ==>
               t.rows[i].faceSide == t.rows[i].tip && MinAngle < EndAngle(t.rows[i].tip, t.rows[i].raw) < MaxAngle
    ensures Cleaned(t).0.rows == Validated(t).rows
    ensures Balance(Cleaned(t).0.rows, SignedD) == []
  {
    var v := Validated(t);
    NoInvalidUsers(v.rows);
    var bad := IdentifyBadSubjects(v, MaxInvalidTrials).value;
    assert bad == [];
    assert (set u | u in bad) == {};
    KeepUsersNotInNone(v.rows);
    NoPairWithoutAway(v.rows);
  }

  /** A table whose trials are all towards trials (face and tip on the same side) forms no pair. */
  lemma NoPairWithoutAway(rows: seq<Trial>)
    requires forall i :: 0 <= i < |rows| ==> rows[i].faceSide == rows[i].tip
    ensures Balance(rows, SignedD) == []
  {
    NoAwayNoPairs(rows, GroupKeys(rows));
  }

  lemma {:induction false} NoAwayNoPairs(rows: seq<Trial>, ks: seq<Key>)
    requires forall i :: 0 <= i < |rows| ==> rows[i].faceSide == rows[i].tip
    ensures PairsOver(rows, ks, SignedD, true) == []
  {
    if ks != [] {
      NoAwayNoPairs(rows, ks[..|ks| - 1]);
      var k := ks[|ks| - 1];
      forall pt ensures PairFor(rows, k, pt, SignedD, true).None? {
        RoleCount(rows, k, SideOf(pt), AwayTip(pt));
      }
    }
  }

  /** Exclusion removes exactly the trials of the excluded subjects and keeps only subjects with at most two invalid trials. */
  lemma CleanedSpec(t: Table)
    ensures var (clean, bad) := Cleaned(t);
      && |clean.rows| + CountUsersIn(Validated(t).rows, set u | u in bad) == |t.rows|
      && (forall x :: x in clean.rows ==> InvalidCount(Validated(t).rows, x.user) <= MaxInvalidTrials)
      && (forall u :: u in bad <==> InvalidCount(Validated(t).rows, u) > MaxInvalidTrials)
  {
    ExcludeSubjectsSpec(Validated(t), MaxInvalidTrials);
  }
}
