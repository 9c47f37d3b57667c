// The column transforms and the subject exclusion of the processing module:
// face-id remap, end-angle normalisation, the angle rule, and the
// identification and removal of subjects with too many invalid trials.
module Processing {
  import opened Records

  /** The two legacy face ids and the ids they are folded into. */
  const LegacyA := "ID001"
  const CanonicalA := "ID017"
  const LegacyB := "ID022"
  const CanonicalB := "ID015"

  /** `Series.replace({'ID001': 'ID017', 'ID022': 'ID015'})` on one cell. */
  function RemapFace(f: string): (r: string)
    ensures r != LegacyA && r != LegacyB
    ensures r != f <==> f == LegacyA || f == LegacyB
  {
    if f == LegacyA then CanonicalA
    else if f == LegacyB then CanonicalB
    else f
  }

  /** No target of the remap is a source, so remapping twice is remapping once. */
  lemma RemapFaceIdempotent(f: string)
    ensures RemapFace(RemapFace(f)) == RemapFace(f)
    ensures f == LegacyA ==> RemapFace(f) == CanonicalA
    ensures f == LegacyB ==> RemapFace(f) == CanonicalB
  {
  }

  function RenameFaceIds(t: Table): (r: Table)
    ensures |r.rows| == |t.rows|
    ensures forall i :: 0 <= i < |t.rows| ==> r.rows[i].face == RemapFace(t.rows[i].face)
    ensures forall i :: 0 <= i < |t.rows| ==> r.rows[i] == t.rows[i].(face := r.rows[i].face)
    ensures r.(rows := t.rows) == t
  {
    t.(rows := seq(|t.rows|, i requires 0 <= i < |t.rows| => t.rows[i].(face := RemapFace(t.rows[i].face))))
  }

  /** After the rename no legacy id is left, and renaming again changes nothing. */
  lemma {:induction false} RenameFaceIdsIdempotent(t: Table)
    ensures forall i :: 0 <= i < |t.rows| ==> RenameFaceIds(t).rows[i].face !in {LegacyA, LegacyB}
    ensures RenameFaceIds(RenameFaceIds(t)) == RenameFaceIds(t)
  {
    var once := RenameFaceIds(t);
    var twice := RenameFaceIds(once);
    assert |twice.rows| == |once.rows|;
    forall i | 0 <= i < |once.rows| ensures twice.rows[i] == once.rows[i] {
      RemapFaceIdempotent(t.rows[i].face);
    }
    assert twice.rows == once.rows;
  }

  /** `calculate_end_angle`: negate for a left tip, keep for right, pass through otherwise. */
  function EndAngle(tip: Dir, raw: real): (e: real)
    ensures tip == Left ==> e == -raw
    ensures tip != Left ==> e == raw
  {
    match tip
    case Left => raw * -1.0
    case Right => raw * 1.0
    case OtherDir => raw
  }

  function TransformAngles(t: Table): (r: Table)
    ensures |r.rows| == |t.rows| && r.hasEnd
    ensures forall i :: 0 <= i < |t.rows| ==> r.rows[i] == t.rows[i].(end := EndAngle(t.rows[i].tip, t.rows[i].raw))
    ensures r.(rows := t.rows, hasEnd := t.hasEnd) == t
  {
    t.(rows := seq(|t.rows|, i requires 0 <= i < |t.rows| => t.rows[i].(end := EndAngle(t.rows[i].tip, t.rows[i].raw))),
       hasEnd := true)
  }

  /** `end_angle` is recomputed from `raw_angle`, so applying the transform twice is applying it once. */
  lemma {:induction false} TransformAnglesIdempotent(t: Table)
    ensures TransformAngles(TransformAngles(t)) == TransformAngles(t)
  {
    var once := TransformAngles(t);
    var twice := TransformAngles(once);
    assert |twice.rows| == |once.rows|;
    forall i | 0 <= i < |once.rows| ensures twice.rows[i] == once.rows[i] {
    }
    assert twice.rows == once.rows;
  }

  /** The angle rule: strictly inside `(minAngle, maxAngle)`. */
  predicate AngleValid(end: real, minAngle: real, maxAngle: real) {
    minAngle < end < maxAngle
  }

  /** The default bounds of `validate_angles`. */
  const ProcessingMinAngle := 3.0
  const ProcessingMaxAngle := 43.0

  /** `validate_angles`: needs `end_angle`, writes `angle_valid` for every row. */
  function ValidateAngles(t: Table, minAngle: real := ProcessingMinAngle, maxAngle: real := ProcessingMaxAngle): (r: Result<Table>)
    ensures r.Failure? <==> !t.hasEnd
    ensures r.Failure? ==> r.error == MissingColumn("end_angle")
    ensures r.Success? ==> |r.value.rows| == |t.rows| && r.value.hasAngleValid
    ensures r.Success? ==> r.value.(rows := t.rows, hasAngleValid := t.hasAngleValid) == t
    ensures r.Success? ==> forall i :: 0 <= i < |t.rows| ==>
              r.value.rows[i].angleValid == (minAngle < t.rows[i].end < maxAngle) &&
              r.value.rows[i] == t.rows[i].(angleValid := r.value.rows[i].angleValid)
  {
    if !t.hasEnd then Failure(MissingColumn("end_angle"))
    else Success(t.(rows := seq(|t.rows|, i requires 0 <= i < |t.rows| =>
                                 t.rows[i].(angleValid := AngleValid(t.rows[i].end, minAngle, maxAngle))),
                    hasAngleValid := true))
  }

  /** How many angle-invalid trials user `u` has. */
  function InvalidCount(rows: seq<Trial>, u: int): (n: nat)
    ensures n <= CountUser(rows, u)
  {
    if rows == [] then 0
    else
      var last := rows[|rows| - 1];
      InvalidCount(rows[..|rows| - 1], u) + (if last.user == u && !last.angleValid then 1 else 0)
  }

  /** The users of the angle-invalid rows, in row order (with repeats). */
  function InvalidUsers(rows: seq<Trial>): (r: seq<int>)
    ensures forall u :: u in r <==> InvalidCount(rows, u) > 0
  {
    if rows == [] then []
    else
      var p := rows[..|rows| - 1];
      var last := rows[|rows| - 1];
      if !last.angleValid then InvalidUsers(p) + [last.user] else InvalidUsers(p)
  }

  /** A table of angle-valid trials has no invalid users. */
  lemma {:induction false} NoInvalidUsers(rows: seq<Trial>)
    requires forall i :: 0 <= i < |rows| ==> rows[i].angleValid
    ensures InvalidUsers(rows) == []
  {
    if rows != [] {
      NoInvalidUsers(rows[..|rows| - 1]);
    }
  }

  /** Keeps, in order, the users of `us` with more than `maxInvalid` invalid trials. */
  function KeepOverThreshold(us: seq<int>, rows: seq<Trial>, maxInvalid: int): (r: seq<int>)
    ensures forall u :: u in r <==> u in us && InvalidCount(rows, u) > maxInvalid
    ensures StrictlyIncreasing(us) ==> StrictlyIncreasing(r)
  {
    if us == [] then []
    else
      var p := KeepOverThreshold(us[..|us| - 1], rows, maxInvalid);
      var u := us[|us| - 1];
      assert forall v :: v in us <==> v in us[..|us| - 1] || v == u;
      if InvalidCount(rows, u) > maxInvalid then
        assert StrictlyIncreasing(us) ==> forall i :: 0 <= i < |p| ==> p[i] < u by {
          if StrictlyIncreasing(us) {
            forall i | 0 <= i < |p| ensures p[i] < u {
              assert p[i] in us[..|us| - 1];
              var j :| 0 <= j < |us| - 1 && us[j] == p[i];
            }
          }
        }
        p + [u]
      else p
  }

  /**
   * `identify_bad_subjects`: the users, in the ascending order of the groupby,
   * with more than `maxInvalid` angle-invalid trials. A user with no invalid
   * trial is not a group of that groupby, so it never appears.
   */
  function IdentifyBadSubjects(t: Table, maxInvalid: int := 2): (r: Result<seq<int>>)
    ensures r.Failure? <==> !t.hasAngleValid
    ensures r.Failure? ==> r.error == MissingColumn("angle_valid")
    ensures r.Success? ==> StrictlyIncreasing(r.value)
    ensures r.Success? ==> forall u :: u in r.value <==> InvalidCount(t.rows, u) > maxInvalid && InvalidCount(t.rows, u) > 0
  {
    if !t.hasAngleValid then Failure(MissingColumn("angle_valid"))
    else Success(KeepOverThreshold(SortedUnique(InvalidUsers(t.rows)), t.rows, maxInvalid))
  }

  /** The rows whose user is not in `bad`, i.e. `df[~df['user_number'].isin(bad)]`. */
  function DropUsers(t: Table, bad: seq<int>): (r: Table)
    ensures r == t.(rows := r.rows)
    ensures forall x :: x in r.rows ==> x.user !in bad
    ensures forall i :: 0 <= i < |t.rows| && t.rows[i].user !in bad ==> t.rows[i] in r.rows
    ensures |r.rows| + CountUsersIn(t.rows, set u | u in bad) == |t.rows|
    ensures multiset(r.rows) <= multiset(t.rows)
  {
    KeepUsersNotInSpec(t.rows, set u | u in bad);
    t.(rows := KeepUsersNotIn(t.rows, set u | u in bad))
  }

  /**
   * Dropping users keeps the original order and every repeat: the kept rows
   * of a table split in two are the kept rows of the first part followed by
   * those of the second, and a single row is kept exactly when its user is
   * not dropped.
   */
  lemma DropUsersInOrder(t: Table, bad: seq<int>, a: seq<Trial>, b: seq<Trial>, x: Trial)
    requires t.rows == a + b
    ensures DropUsers(t, bad).rows == DropUsers(t.(rows := a), bad).rows + DropUsers(t.(rows := b), bad).rows
    ensures DropUsers(t.(rows := [x]), bad).rows == (if x.user in bad then [] else [x])
  {
    KeepUsersNotInConcat(a, b, (set u | u in bad), x);
  }

  /**
   * `exclude_subjects`: the trials of the users `identify_bad_subjects` names
   * are removed, all of them; every other trial is kept, in order.
   */
  function ExcludeSubjects(t: Table, maxInvalid: int := 2): (r: Result<(Table, seq<int>)>)
    ensures r.Failure? <==> !t.hasAngleValid
    ensures r.Success? ==> IdentifyBadSubjects(t, maxInvalid) == Success(r.value.1)
    ensures r.Success? ==> r.value.0 == DropUsers(t, r.value.1)
  {
    match IdentifyBadSubjects(t, maxInvalid)
    case Failure(e) => Failure(e)
    case Success(bad) => Success((DropUsers(t, bad), bad))
  }

  /** A kept trial's user has at most `maxInvalid` invalid trials; an excluded user keeps none. */
  lemma ExcludeSubjectsSpec(t: Table, maxInvalid: int)
    requires t.hasAngleValid
    ensures var r := ExcludeSubjects(t, maxInvalid).value;
      && (forall x :: x in r.0.rows ==> InvalidCount(t.rows, x.user) <= maxInvalid || InvalidCount(t.rows, x.user) == 0)
      && (forall i :: 0 <= i < |t.rows| && InvalidCount(t.rows, t.rows[i].user) > maxInvalid && InvalidCount(t.rows, t.rows[i].user) > 0
            ==> t.rows[i].user in r.1)
      && |r.0.rows| <= |t.rows|
  {
  }

  /** The rows recorded as sighted, in order. */
  function KeepSighted(rows: seq<Trial>): (r: seq<Trial>)
    ensures |r| <= |rows|
  {
    if rows == [] then []
    else
      var p := KeepSighted(rows[..|rows| - 1]);
      if rows[|rows| - 1].sightType == "sighted" then p + [rows[|rows| - 1]] else p
  }

  /** The sighted filter keeps row order and repeats: row by row, a row is kept exactly when it is sighted. */
  lemma {:induction false} KeepSightedConcat(a: seq<Trial>, b: seq<Trial>, x: Trial)
    ensures KeepSighted(a + b) == KeepSighted(a) + KeepSighted(b)
    ensures KeepSighted([x]) == (if x.sightType == "sighted" then [x] else [])
  {
    if b != [] {
      var n := |b| - 1;
      KeepSightedConcat(a, b[..n], x);
      assert (a + b)[..|a + b| - 1] == a + b[..n];
    } else {
      assert a + b == a;
    }
    assert [x][..0] == [];
  }

  lemma {:induction false} KeepSightedSpec(rows: seq<Trial>)
    ensures forall x :: x in KeepSighted(rows) <==> x in rows && x.sightType == "sighted"
    ensures multiset(KeepSighted(rows)) <= multiset(rows)
  {
    if rows != [] {
      var p := rows[..|rows| - 1];
      KeepSightedSpec(p);
      assert rows == p + [rows[|rows| - 1]];
    }
  }

  /**
   * The sighted filter of the standalone scripts: when the table has a
   * `sightType` column only its sighted trials are kept, otherwise the table
   * is used as it is. No face id is remapped.
   */
  function SightedOnly(t: Table): (r: Table)
    ensures r == t.(rows := r.rows)
    ensures !t.hasSightType ==> r == t
  {
    if t.hasSightType then t.(rows := KeepSighted(t.rows)) else t
  }

  /** With the column, the kept trials are exactly the sighted ones; without it, all trials are kept. */
  lemma SightedOnlySpec(t: Table)
    ensures t.hasSightType ==> forall x :: x in SightedOnly(t).rows <==> x in t.rows && x.sightType == "sighted"
    ensures multiset(SightedOnly(t).rows) <= multiset(t.rows)
  {
    KeepSightedSpec(t.rows);
  }

  /** With the column, the sighted filter keeps row order and repeats, as `KeepSightedConcat` states for the rows. */
  lemma SightedOnlyInOrder(t: Table, a: seq<Trial>, b: seq<Trial>, x: Trial)
    requires t.hasSightType && t.rows == a + b
    ensures SightedOnly(t).rows == SightedOnly(t.(rows := a)).rows + SightedOnly(t.(rows := b)).rows
    ensures SightedOnly(t.(rows := [x])).rows == (if x.sightType == "sighted" then [x] else [])
  {
    KeepSightedConcat(a, b, x);
  }
}
