// The `TubeTrials` wrapper: an object that owns one trial table, rewrites
// it step by step (angles, angle validity, subject validity), hands out
// filtered copies, and computes pairs, unmatched trials, subject scores and
// per-face statistics from it.
module Trials {
  import opened Records
  import opened Processing
  import opened Balancing
  import opened Aggregation

  /** What the constructor is given: a DataFrame, or a value of any other type. */
  datatype InitArg = FrameArg(table: Table) | OtherArg

  /** The counts `mark_valid_angles` reports. */
  datatype AngleReport = AngleReport(nValid: nat, nTotal: nat, pctValid: real, nInvalid: int, pctInvalid: real)

  /** The counts `mark_valid_subjects` reports. */
  datatype SubjectReport = SubjectReport(
    nSubjects: nat, nExcluded: nat, pctValidSubjects: real,
    nValidTrials: nat, nTrials: nat, pctValidTrials: real)

  /** The counts `get_validity_stats` reports. */
  datatype ValidityStats = ValidityStats(nTotal: nat, nAngleValid: nat, nSubjectValid: nat, nFullyValid: nat)

  /** `df['subject_valid'].sum()`. */
  function CountSubjectValid(rows: seq<Trial>): (n: nat)
    ensures n <= |rows|
  {
    if rows == [] then 0
    else CountSubjectValid(rows[..|rows| - 1]) + (if rows[|rows| - 1].subjectValid then 1 else 0)
  }

  /** `len(df[df['angle_valid'] & df['subject_valid']])`. */
  function CountFullyValid(rows: seq<Trial>): (n: nat)
    ensures n <= |rows|
  {
    if rows == [] then 0
    else CountFullyValid(rows[..|rows| - 1]) + (if rows[|rows| - 1].angleValid && rows[|rows| - 1].subjectValid then 1 else 0)
  }

  /** A fully valid trial is angle-valid and subject-valid, and the two kinds together never exceed the table. */
  lemma {:induction false} ValidityCounts(rows: seq<Trial>)
    ensures CountFullyValid(rows) <= CountValid(rows)
    ensures CountFullyValid(rows) <= CountSubjectValid(rows)
    ensures CountValid(rows) + CountSubjectValid(rows) <= |rows| + CountFullyValid(rows)
  {
    if rows != [] {
      ValidityCounts(rows[..|rows| - 1]);
    }
  }

  /** The `subject_valid` column: a trial is valid exactly when its user is not in `bad`. */
  function MarkSubjectRows(rows: seq<Trial>, bad: seq<int>): (r: seq<Trial>)
    ensures |r| == |rows|
    ensures forall i :: 0 <= i < |rows| ==> r[i] == rows[i].(subjectValid := rows[i].user !in bad)
  {
    seq(|rows|, i requires 0 <= i < |rows| => rows[i].(subjectValid := rows[i].user !in bad))
  }

  /** Marking keeps as many subject-valid trials as excluding the same users keeps trials. */
  lemma {:induction false} MarkSubjectRowsCount(rows: seq<Trial>, bad: seq<int>)
    ensures CountSubjectValid(MarkSubjectRows(rows, bad)) + CountUsersIn(rows, set u | u in bad) == |rows|
  {
    if rows != [] {
      var p := rows[..|rows| - 1];
      MarkSubjectRowsCount(p, bad);
      assert MarkSubjectRows(rows, bad)[..|rows| - 1] == MarkSubjectRows(p, bad);
    }
  }

  /**
   * `mark_valid_subjects` on a table: needs `angle_valid`; then every trial's
   * `subject_valid` says whether its user has at most `maxInvalid` invalid
   * trials (a user without invalid trials is always valid), which is the
   * same for all trials of one user. Nothing else changes.
   */
  function MarkSubjects(t: Table, maxInvalid: int): (r: Result<(Table, seq<int>)>)
    ensures r.Failure? <==> !t.hasAngleValid
    ensures r.Failure? ==> r.error == MissingColumn("angle_valid")
    ensures r.Success? ==> IdentifyBadSubjects(t, maxInvalid) == Success(r.value.1)
    ensures r.Success? ==> var m := r.value.0;
      && m.hasSubjectValid && m == t.(rows := m.rows, hasSubjectValid := true)
      && |m.rows| == |t.rows|
      && (forall i :: 0 <= i < |t.rows| ==> m.rows[i] == t.rows[i].(subjectValid := m.rows[i].subjectValid))
  {
    match IdentifyBadSubjects(t, maxInvalid)
    case Failure(e) => Failure(e)
    case Success(bad) => Success((t.(rows := MarkSubjectRows(t.rows, bad), hasSubjectValid := true), bad))
  }

  /**
   * After marking, a trial is subject-invalid exactly when its user has more
   * than `maxInvalid` invalid trials (and at least one), so all trials of
   * one user agree.
   */
  lemma MarkSubjectsSpec(t: Table, maxInvalid: int)
    requires t.hasAngleValid
    ensures var m := MarkSubjects(t, maxInvalid).value.0;
      && (forall i :: 0 <= i < |t.rows| ==>
            (!m.rows[i].subjectValid <==> InvalidCount(t.rows, t.rows[i].user) > maxInvalid && InvalidCount(t.rows, t.rows[i].user) > 0))
      && (forall i, j :: 0 <= i < |t.rows| && 0 <= j < |t.rows| && t.rows[i].user == t.rows[j].user ==>
            m.rows[i].subjectValid == m.rows[j].subjectValid)
  {
  }

  /** The excluded users are users of the table, each once, so there are no more of them than users. */
  lemma BadSubjectsAreUsers(t: Table, maxInvalid: int)
    requires t.hasAngleValid
    ensures |IdentifyBadSubjects(t, maxInvalid).value| <= |Distinct(Users(t.rows))|
  {
    var bad := IdentifyBadSubjects(t, maxInvalid).value;
    StrictlyIncreasingNoDup(bad);
    forall u | u in bad ensures u in Distinct(Users(t.rows)) {
      InvalidUserHasRow(t.rows, u);
      UserInColumn(t.rows, u);
    }
    NoDupSubsetLength(bad, Distinct(Users(t.rows)));
  }

  /** Marking keeps the `user_number` column, so the excluded users are at most the users of the marked table. */
  lemma MarkedUsers(t: Table, maxInvalid: int)
    requires t.hasAngleValid
    ensures Users(MarkSubjects(t, maxInvalid).value.0.rows) == Users(t.rows)
    ensures |MarkSubjects(t, maxInvalid).value.1| <= |Distinct(Users(MarkSubjects(t, maxInvalid).value.0.rows))|
  {
    var m := MarkSubjects(t, maxInvalid).value.0;
    assert Users(m.rows) == Users(t.rows) by {
      forall i | 0 <= i < |t.rows| ensures Users(m.rows)[i] == Users(t.rows)[i] {
        assert m.rows[i] == t.rows[i].(subjectValid := m.rows[i].subjectValid);
      }
    }
    BadSubjectsAreUsers(t, maxInvalid);
  }

  lemma {:induction false} InvalidUserHasRow(rows: seq<Trial>, u: int)
    requires InvalidCount(rows, u) > 0
    ensures exists i :: 0 <= i < |rows| && rows[i].user == u
  {
    var p := rows[..|rows| - 1];
    if InvalidCount(p, u) > 0 {
      InvalidUserHasRow(p, u);
      var i :| 0 <= i < |p| && p[i].user == u;
      assert rows[i] == p[i];
    } else {
      assert rows[|rows| - 1].user == u;
    }
  }

  /** A trial passes the `valid_only` filters: each filter applies only when its column exists. */
  predicate Selected(t: Table, x: Trial) {
    (!t.hasAngleValid || x.angleValid) && (!t.hasSubjectValid || x.subjectValid)
  }

  function KeepSelected(t: Table, rows: seq<Trial>): (r: seq<Trial>)
    ensures |r| <= |rows|
  {
    if rows == [] then []
    else
      var p := KeepSelected(t, rows[..|rows| - 1]);
      if Selected(t, rows[|rows| - 1]) then p + [rows[|rows| - 1]] else p
  }

  /** The `valid_only` filters keep row order and repeats: row by row, a row is kept exactly when it is selected. */
  lemma {:induction false} KeepSelectedConcat(t: Table, a: seq<Trial>, b: seq<Trial>, x: Trial)
    ensures KeepSelected(t, a + b) == KeepSelected(t, a) + KeepSelected(t, b)
    ensures KeepSelected(t, [x]) == (if Selected(t, x) then [x] else [])
  {
    if b != [] {
      var n := |b| - 1;
      KeepSelectedConcat(t, a, b[..n], x);
      assert (a + b)[..|a + b| - 1] == a + b[..n];
    } else {
      assert a + b == a;
    }
    assert [x][..0] == [];
  }

  /** The kept rows are exactly the selected ones, none invented and none duplicated. */
  lemma {:induction false} KeepSelectedSpec(t: Table, rows: seq<Trial>)
    ensures forall x :: x in KeepSelected(t, rows) <==> x in rows && Selected(t, x)
    ensures multiset(KeepSelected(t, rows)) <= multiset(rows)
  {
    if rows != [] {
      var p := rows[..|rows| - 1];
      KeepSelectedSpec(t, p);
      assert rows == p + [rows[|rows| - 1]];
    }
  }

  /** The table of `select(valid_only)`: the same columns, and with `valid_only` only the selected rows, in order. */
  function SelectTable(t: Table, validOnly: bool): (r: Table)
    ensures r == t.(rows := r.rows)
    ensures !validOnly ==> r == t
  {
    if validOnly then t.(rows := KeepSelected(t, t.rows)) else t
  }

  /** Selecting keeps exactly the valid rows; selecting again keeps them all, and a selected table has only angle-valid trials. */
  lemma SelectTableSpec(t: Table)
    ensures forall x :: x in SelectTable(t, true).rows <==> x in t.rows && Selected(t, x)
    ensures multiset(SelectTable(t, true).rows) <= multiset(t.rows)
    ensures SelectTable(SelectTable(t, true), true) == SelectTable(t, true)
    ensures t.hasAngleValid ==> CountValid(SelectTable(t, true).rows) == |SelectTable(t, true).rows|
  {
    var s := SelectTable(t, true);
    KeepSelectedSpec(t, t.rows);
    KeepAllSelected(s, s.rows);
    if t.hasAngleValid {
      AllValidCount(s.rows);
    }
  }

  /** `select(valid_only=True)` keeps row order and repeats: a table split in two keeps the selected rows of each part, in turn. */
  lemma SelectTableInOrder(t: Table, a: seq<Trial>, b: seq<Trial>, x: Trial)
    requires t.rows == a + b
    ensures SelectTable(t, true).rows == KeepSelected(t, a) + KeepSelected(t, b)
    ensures KeepSelected(t, [x]) == (if Selected(t, x) then [x] else [])
  {
    KeepSelectedConcat(t, a, b, x);
  }

  lemma {:induction false} KeepAllSelected(t: Table, rows: seq<Trial>)
    requires forall x :: x in rows ==> Selected(t, x)
    ensures KeepSelected(t, rows) == rows
  {
    if rows != [] {
      var p := rows[..|rows| - 1];
      assert forall x :: x in p ==> x in rows;
      KeepAllSelected(t, p);
      assert rows == p + [rows[|rows| - 1]];
    }
  }

  lemma {:induction false} AllValidCount(rows: seq<Trial>)
    requires forall x :: x in rows ==> x.angleValid
    ensures CountValid(rows) == |rows|
  {
    if rows != [] {
      var p := rows[..|rows| - 1];
      assert forall x :: x in p ==> x in rows;
      AllValidCount(p);
    }
  }

  /**
   * On a table with only angle-valid trials the validity check of the
   * pairing decides nothing: a slot forms a pair with the check exactly
   * when it forms one without.
   */
  lemma CheckedPairsOnValidRows(rows: seq<Trial>, k: Key, pt: PairType, f: DFormula)
    requires forall x :: x in rows ==> x.angleValid
    ensures PairFor(rows, k, pt, f, true) == PairFor(rows, k, pt, f, false)
  {
    var ts := RolePositions(rows, k, SideOf(pt), TowardsTip(pt));
    var aw := RolePositions(rows, k, SideOf(pt), AwayTip(pt));
    if |ts| == 1 && |aw| == 1 {
      assert rows[ts[0]] in rows && rows[aw[0]] in rows;
    }
  }

  /** The trials whose label is not in `used`, in order: `df[~df.index.isin(used)]`. */
  function UnmatchedRows(rows: seq<Trial>, used: set<nat>): (r: seq<Trial>)
    ensures |r| <= |rows|
  {
    if rows == [] then []
    else
      var p := UnmatchedRows(rows[..|rows| - 1], used);
      if |rows| - 1 in used then p else p + [rows[|rows| - 1]]
  }

  /** Every trial is matched or unmatched, never both: unmatched ones plus used labels of the table make up the table. */
  lemma {:induction false} UnmatchedRowsCount(rows: seq<Trial>, used: set<nat>)
    ensures |UnmatchedRows(rows, used)| + |used * AllPositions(|rows|)| == |rows|
  {
    if rows != [] {
      var n := |rows| - 1;
      UnmatchedRowsCount(rows[..n], used);
      assert AllPositions(|rows|) == AllPositions(n) + {n};
      if n in used {
        assert used * AllPositions(|rows|) == (used * AllPositions(n)) + {n};
      } else {
        assert used * AllPositions(|rows|) == used * AllPositions(n);
      }
    }
  }

  /** The unmatched trials are exactly the trials at labels outside `used`. */
  lemma {:induction false} UnmatchedRowsMembers(rows: seq<Trial>, used: set<nat>)
    ensures forall i :: 0 <= i < |rows| && i !in used ==> rows[i] in UnmatchedRows(rows, used)
    ensures forall x :: x in UnmatchedRows(rows, used) ==> exists i :: 0 <= i < |rows| && i !in used && rows[i] == x
  {
    if rows != [] {
      var n := |rows| - 1;
      var p := rows[..n];
      UnmatchedRowsMembers(p, used);
      forall i | 0 <= i < |rows| && i !in used ensures rows[i] in UnmatchedRows(rows, used) {
        if i < n {
          assert p[i] == rows[i];
        }
      }
      forall x | x in UnmatchedRows(rows, used) ensures exists i :: 0 <= i < |rows| && i !in used && rows[i] == x {
        if x in UnmatchedRows(p, used) {
          var i :| 0 <= i < |p| && i !in used && p[i] == x;
          assert rows[i] == x;
        } else {
          assert rows[n] == x;
        }
      }
    }
  }

  /** The labels `0..n-1` outside `used`, ascending. */
  function FreePositions(n: nat, used: set<nat>): (ps: seq<nat>)
    ensures forall k :: 0 <= k < |ps| ==> ps[k] < n
  {
    if n == 0 then [] else FreePositions(n - 1, used) + (if n - 1 in used then [] else [n - 1])
  }

  /** The free positions are exactly the labels below `n` outside `used`, in strictly ascending order. */
  lemma {:induction false} FreePositionsSpec(n: nat, used: set<nat>)
    ensures forall i: nat :: i in FreePositions(n, used) <==> i < n && i !in used
    ensures forall a, b :: 0 <= a < b < |FreePositions(n, used)| ==> FreePositions(n, used)[a] < FreePositions(n, used)[b]
  {
    if n > 0 {
      FreePositionsSpec(n - 1, used);
    }
  }

  /** The unmatched rows are the rows at the free positions, one for one and in order. */
  lemma {:induction false} UnmatchedRowsInOrder(rows: seq<Trial>, used: set<nat>)
    ensures |UnmatchedRows(rows, used)| == |FreePositions(|rows|, used)|
    ensures forall k :: 0 <= k < |UnmatchedRows(rows, used)| ==>
              UnmatchedRows(rows, used)[k] == rows[FreePositions(|rows|, used)[k]]
  {
    if rows != [] {
      var n := |rows| - 1;
      var p := rows[..n];
      UnmatchedRowsInOrder(p, used);
      assert forall j :: 0 <= j < n ==> p[j] == rows[j];
    }
  }

  /**
   * The pairs of a table: two trials each, so the unmatched trials are the
   * table minus twice the number of pairs, and only angle-valid trials are
   * matched.
   */
  lemma BalanceUnmatched(rows: seq<Trial>, f: DFormula)
    ensures |UnmatchedRows(rows, UsedOf(Balance(rows, f)))| + 2 * |Balance(rows, f)| == |rows|
    ensures forall i :: 0 <= i < |rows| && !rows[i].angleValid ==> rows[i] in UnmatchedRows(rows, UsedOf(Balance(rows, f)))
  {
    var used := UsedOf(Balance(rows, f));
    BalanceSpec(rows, f);
    UnmatchedRowsCount(rows, used);
    UnmatchedRowsMembers(rows, used);
    assert used * AllPositions(|rows|) == used;
  }

  /** The error `calc_d_values` and `get_unmatched_trials` raise: `end_angle` is checked before `angle_valid`. */
  function ColumnsError(t: Table): (r: Option<Error>)
    ensures r.None? <==> t.hasEnd && t.hasAngleValid
    ensures !t.hasEnd ==> r == Some(MissingColumn("end_angle"))
    ensures t.hasEnd && !t.hasAngleValid ==> r == Some(MissingColumn("angle_valid"))
  {
    if !t.hasEnd then Some(MissingColumn("end_angle"))
    else if !t.hasAngleValid then Some(MissingColumn("angle_valid"))
    else None
  }

  class TubeTrials {
    var df: Table

    /** Construction from a DataFrame: the object holds a copy of it. */
    constructor (data: Table)
      ensures df == data
    {
      df := data;
    }

    /** The constructor's type dispatch: a DataFrame is copied, any other value is a `ValueError`. */
    static method Create(arg: InitArg) returns (r: Result<TubeTrials>)
      ensures r.Failure? <==> arg.OtherArg?
      ensures r.Failure? ==> r.error == BadArgument
      ensures r.Success? ==> fresh(r.value) && r.value.df == arg.table
    {
      match arg
      case FrameArg(table) =>
        var tt := new TubeTrials(table);
        r := Success(tt);
      case OtherArg =>
        r := Failure(BadArgument);
    }

    /** `process_angles`: remap the face ids, then recompute `end_angle`. */
    method ProcessAngles()
      modifies this
      ensures df == TransformAngles(RenameFaceIds(old(df)))
    {
      df := RenameFaceIds(df);
      df := TransformAngles(df);
    }

    /**
     * `mark_valid_angles`: without `end_angle` the call fails and nothing
     * changes; otherwise `angle_valid` is written and the guarded counts are
     * reported.
     */
    method MarkValidAngles(minAngle: real := 3.0, maxAngle: real := 40.0) returns (r: Result<AngleReport>)
      modifies this
      ensures !old(df).hasEnd ==> df == old(df) && r == Failure(MissingColumn("end_angle"))
      ensures old(df).hasEnd ==> df == ValidateAngles(old(df), minAngle, maxAngle).value
      ensures old(df).hasEnd ==> r.Success? && r.value.nValid == CountValid(df.rows) && r.value.nTotal == |df.rows|
      ensures r.Success? ==> r.value.pctValid == Percent(r.value.nValid, r.value.nTotal)
      ensures r.Success? ==> r.value.nInvalid == r.value.nTotal - r.value.nValid
      ensures r.Success? ==> r.value.pctInvalid == 100.0 - r.value.pctValid
    {
      var v := ValidateAngles(df, minAngle, maxAngle);
      if v.Failure? {
        r := Failure(v.error);
        return;
      }
      df := v.value;
      var nValid := CountValid(df.rows);
      var nTotal := |df.rows|;
      var pct := Percent(nValid, nTotal);
      r := Success(AngleReport(nValid, nTotal, pct, nTotal - nValid, 100.0 - pct));
    }

    /**
     * `mark_valid_subjects`: fails without `angle_valid`, leaving the table
     * as it was; otherwise writes `subject_valid` and reports the counts,
     * each percentage guarded against an empty table.
     */
    method MarkValidSubjects(maxInvalid: int := 2) returns (r: Result<SubjectReport>)
      modifies this
      ensures !old(df).hasAngleValid ==> df == old(df) && r == Failure(MissingColumn("angle_valid"))
      ensures old(df).hasAngleValid ==> df == MarkSubjects(old(df), maxInvalid).value.0
      ensures old(df).hasAngleValid ==> r.Success?
      ensures r.Success? ==> r.value.nSubjects == |Distinct(Users(df.rows))|
      ensures r.Success? ==> r.value.nExcluded == |MarkSubjects(old(df), maxInvalid).value.1| <= r.value.nSubjects
      ensures r.Success? ==> r.value.pctValidSubjects == Percent(r.value.nSubjects - r.value.nExcluded, r.value.nSubjects)
      ensures r.Success? ==> r.value.nValidTrials == CountSubjectValid(df.rows) && r.value.nTrials == |df.rows|
      ensures r.Success? ==> r.value.pctValidTrials == Percent(r.value.nValidTrials, r.value.nTrials)
    {
      var m := MarkSubjects(df, maxInvalid);
      if m.Failure? {
        r := Failure(m.error);
        return;
      }
      MarkedUsers(df, maxInvalid);
      var marked, bad := m.value.0, m.value.1;
      var nSubjects := |Distinct(Users(marked.rows))|;
      var nExcluded := |bad|;
      assert nExcluded <= nSubjects;
      var nValidTrials := CountSubjectValid(marked.rows);
      var nTrials := |marked.rows|;
      df := marked;
      var nKept: nat := nSubjects - nExcluded;
      r := Success(SubjectReport(nSubjects, nExcluded, Percent(nKept, nSubjects),
                                 nValidTrials, nTrials, Percent(nValidTrials, nTrials)));
    }

    /** `select(valid_only)`: a new object over the selected copy; this object is left alone. */
    method Select(validOnly: bool) returns (r: TubeTrials)
      ensures fresh(r)
      ensures r.df == SelectTable(df, validOnly)
    {
      var newDf := SelectTable(df, validOnly);
      r := new TubeTrials(newDf);
    }

    /** `calc_d_values`: the checked, absolute-D pairs of the table, after the column checks. */
    method CalcDValues() returns (r: Result<seq<Pair>>)
      ensures ColumnsError(df).Some? ==> r == Failure(ColumnsError(df).value)
      ensures ColumnsError(df).None? ==> r == Success(Balance(df.rows, AbsoluteD))
    {
      var e := ColumnsError(df);
      if e.Some? {
        r := Failure(e.value);
        return;
      }
      var pairs, _ := BalanceTrials(df.rows, AbsoluteD);
      r := Success(pairs);
    }

    /** `get_unmatched_trials`: the trials that are in no pair, after the same column checks. */
    method GetUnmatchedTrials() returns (r: Result<seq<Trial>>)
      ensures ColumnsError(df).Some? ==> r == Failure(ColumnsError(df).value)
      ensures ColumnsError(df).None? ==> r == Success(UnmatchedRows(df.rows, UsedOf(Balance(df.rows, AbsoluteD))))
    {
      var e := ColumnsError(df);
      if e.Some? {
        r := Failure(e.value);
        return;
      }
      var _, used := BalanceTrials(df.rows, AbsoluteD);
      r := Success(UnmatchedRows(df.rows, used));
    }

    /** `calc_subject_D`: the subject scores of the pairs; no pairs give no rows. */
    method CalcSubjectD() returns (r: Result<seq<SubjectScore>>)
      ensures ColumnsError(df).Some? ==> r == Failure(ColumnsError(df).value)
      ensures ColumnsError(df).None? ==> r == Success(SubjectScores(Balance(df.rows, AbsoluteD)))
    {
      var pairs := CalcDValues();
      if pairs.Failure? {
        r := Failure(pairs.error);
        return;
      }
      if pairs.value == [] {
        r := Success([]);
        SubjectScoresNonNegative(pairs.value);
        return;
      }
      r := Success(SubjectScores(pairs.value));
    }

    /** `get_validity_stats`: nothing without both validity columns or without rows, the four counts otherwise. */
    method GetValidityStats() returns (r: Option<ValidityStats>)
      ensures r.None? <==> !df.hasAngleValid || !df.hasSubjectValid || |df.rows| == 0
      ensures r.Some? ==> r.value == ValidityStats(|df.rows|, CountValid(df.rows), CountSubjectValid(df.rows), CountFullyValid(df.rows))
    {
      if !df.hasAngleValid || !df.hasSubjectValid {
        return None;
      }
      if |df.rows| == 0 {
        return None;
      }
      r := Some(ValidityStats(|df.rows|, CountValid(df.rows), CountSubjectValid(df.rows), CountFullyValid(df.rows)));
    }

    /**
     * `calc_stats`: one summary per face over the subject scores of that
     * face, with an empty result when there are no scores.
     */
    method CalcStats(ttest: seq<real> -> TTest) returns (r: Result<seq<GroupSummary<string>>>)
      ensures ColumnsError(df).Some? ==> r == Failure(ColumnsError(df).value)
      ensures ColumnsError(df).None? ==>
                r == Success(GroupSummaries(ScoresByFace(SubjectScores(Balance(df.rows, AbsoluteD))), ttest))
    {
      var scores := CalcSubjectD();
      if scores.Failure? {
        r := Failure(scores.error);
        return;
      }
      if scores.value == [] {
        r := Success([]);
        assert GroupSummaries(ScoresByFace(scores.value), ttest) == [];
        return;
      }
      var rows := CalcGroupSummaries(ScoresByFace(scores.value), ttest);
      r := Success(rows);
    }

    /** `len(tt)`. */
    function Length(): nat
      reads this
    {
      |df.rows|
    }
  }

  /** Processing angles twice is processing them once: the remap and the end angle are both idempotent and touch different columns. */
  lemma {:induction false} ProcessAnglesIdempotent(t: Table)
    ensures TransformAngles(RenameFaceIds(TransformAngles(RenameFaceIds(t)))) == TransformAngles(RenameFaceIds(t))
  {
    var once := TransformAngles(RenameFaceIds(t));
    var again := TransformAngles(RenameFaceIds(once));
    RenameFaceIdsIdempotent(t);
    assert |again.rows| == |once.rows|;
    forall i | 0 <= i < |once.rows| ensures again.rows[i] == once.rows[i] {
      RemapFaceIdempotent(t.rows[i].face);
    }
    assert again.rows == once.rows;
  }

  /** The statistics rows: a face per row, each counting its subjects, the counts adding up to the number of scores, with a variance only for two or more. */
  lemma CalcStatsSpec(ps: seq<Pair>, ttest: seq<real> -> TTest)
    ensures var scores := SubjectScores(ps);
      var rows := GroupSummaries(ScoresByFace(scores), ttest);
      && (ps == [] ==> rows == [])
      && (forall i :: 0 <= i < |rows| ==>
            && rows[i].summary.n >= 1
            && rows[i].summary.n == Occurrences(KeysOf(ScoresByFace(scores)), rows[i].key)
            && (rows[i].summary.variance.Some? <==> rows[i].summary.n > 1))
      && SumOccurrences(KeysOf(ScoresByFace(scores)), Groups(ScoresByFace(scores))) == |scores|
  {
    var scores := SubjectScores(ps);
    SubjectScoresNonNegative(ps);
    GroupSummariesSpec(ScoresByFace(scores), ttest);
    GroupsSpec(ScoresByFace(scores));
  }
}
