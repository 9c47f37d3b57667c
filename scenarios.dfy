// Worked examples the project's own scripts check by hand: the edge cases
// of the angle rule, a subject excluded for three invalid trials, and the
// hand-calculated dummy data set with its D values and subject-level
// statistics.
module Scenarios {
  import opened Records
  import opened Processing
  import opened Balancing
  import opened Aggregation
  import opened Trials

  /** A trial of the angle tests: face ID001, tube 0, left face side, instructed to tilt right. */
  function TestTrial(user: int, raw: real): Trial {
    Trial(user, "ID001", 0, Left, Right, raw, 0.0, false, false, "")
  }

  /** The angle verdicts under (3, 40) after the end-angle rule. */
  function Verdicts(raws: seq<real>): (r: seq<bool>)
    ensures |r| == |raws|
  {
    var t := RawTable(seq(|raws|, i requires 0 <= i < |raws| => TestTrial(i, raws[i])), false);
    var checked := ValidateAngles(TransformAngles(t), 3.0, 40.0).value;
    seq(|raws|, i requires 0 <= i < |raws| => checked.rows[i].angleValid)
  }

  /** Both bounds are exclusive: 3 and 40 fail, values just inside pass, a negative angle fails. */
  lemma EdgeCases()
    ensures Verdicts([3.0, 3.0001, 39.9999, 40.0, -10.0]) == [false, true, true, false, false]
  {
  }

  /** Half of 10, 20, 30, 35, 39, 1, 2, 40, 45, 100 lie strictly between 3 and 40. */
  lemma HalfValid()
    ensures var v := Verdicts([10.0, 20.0, 30.0, 35.0, 39.0, 1.0, 2.0, 40.0, 45.0, 100.0]);
      v == [true, true, true, true, true, false, false, false, false, false]
  {
  }

  /** Under the (3, 43) defaults of the processing functions, 40 is valid. */
  lemma ProcessingDefaultsAdmit40()
    ensures AngleValid(EndAngle(Right, 40.0), ProcessingMinAngle, ProcessingMaxAngle)
  {
  }

  /** User 1 with three trials at 1 degree and user 2 with two at 10 degrees. */
  function SubjectTable(): Table {
    var rows := [TestTrial(1, 1.0), TestTrial(1, 1.0), TestTrial(1, 1.0), TestTrial(2, 10.0), TestTrial(2, 10.0)];
    ValidateAngles(TransformAngles(RawTable(rows, false)), 3.0, 40.0).value
  }

  /** User 1 has three angle-invalid trials, user 2 none. */
  lemma SubjectCounts()
    ensures InvalidCount(SubjectTable().rows, 1) == 3 && InvalidCount(SubjectTable().rows, 2) == 0
    ensures InvalidUsers(SubjectTable().rows) == [1, 1, 1]
  {
    var t := SubjectTable();
    assert !t.rows[0].angleValid && !t.rows[1].angleValid && !t.rows[2].angleValid;
    assert t.rows[3].angleValid && t.rows[4].angleValid;
    assert t.rows[..4][..3] == t.rows[..3] && t.rows[..3][..2] == t.rows[..2] && t.rows[..2][..1] == t.rows[..1];
    assert InvalidCount(t.rows[..1], 2) == 0 && InvalidCount(t.rows[..1], 1) == 1;
    assert InvalidCount(t.rows[..2], 2) == 0 && InvalidCount(t.rows[..2], 1) == 2;
    assert InvalidCount(t.rows[..3], 2) == 0 && InvalidCount(t.rows[..3], 1) == 3;
    assert InvalidCount(t.rows[..4], 2) == 0 && InvalidCount(t.rows[..4], 1) == 3;
    assert InvalidUsers(t.rows[..1]) == [1];
    assert InvalidUsers(t.rows[..2]) == [1, 1];
    assert InvalidUsers(t.rows[..3]) == [1, 1, 1];
    assert InvalidUsers(t.rows[..4]) == [1, 1, 1];
  }

  /** Three invalid trials exceed the limit of two: user 1 is excluded, user 2 is not. */
  lemma SubjectExclusion()
    ensures IdentifyBadSubjects(SubjectTable(), 2) == Success([1])
  {
    var t := SubjectTable();
    SubjectCounts();
    var us := SortedUnique(InvalidUsers(t.rows));
    assert us == [1] by {
      var ones := [1, 1, 1];
      assert ones[..2] == [1, 1] && ones[..2][..1] == [1] && [1][..0] == [];
      assert SortedUnique([1]) == [1];
      assert SortedUnique([1, 1]) == [1];
    }
    assert KeepOverThreshold(us, t.rows, 2) == [1] by {
      assert us[..0] == [];
    }
  }

  /** The marked table: user 1's trials have `subject_valid` false, user 2's true. */
  lemma SubjectMarks()
    ensures var m := MarkSubjects(SubjectTable(), 2);
      && m.Success?
      && !m.value.0.rows[0].subjectValid && !m.value.0.rows[1].subjectValid && !m.value.0.rows[2].subjectValid
      && m.value.0.rows[3].subjectValid && m.value.0.rows[4].subjectValid
  {
    SubjectCounts();
    var t := SubjectTable();
    MarkSubjectsSpec(t, 2);
    assert t.rows[0].user == 1 && t.rows[1].user == 1 && t.rows[2].user == 1;
    assert t.rows[3].user == 2 && t.rows[4].user == 2;
  }

  /** The subject-level D values 4 and 4.5: mean 4.25, sample variance 0.125. */
  lemma DummyStatistics()
    ensures Mean([5.0, 3.0]) == 4.0 && Mean([5.0, 4.0]) == 4.5
    ensures Mean([4.0, 4.5]) == 4.25 && SampleVariance([4.0, 4.5]) == 0.125
  {
    assert Sum([4.0, 4.5]) == 8.5 by {
      assert [4.0, 4.5][..1] == [4.0];
    }
    assert SquaredDeviations([4.0, 4.5], 4.25) == 0.125 by {
      assert [4.0, 4.5][..1] == [4.0];
    }
    assert Sum([5.0, 3.0]) == 8.0 by {
      assert [5.0, 3.0][..1] == [5.0];
    }
    assert Sum([5.0, 4.0]) == 9.0 by {
      assert [5.0, 4.0][..1] == [5.0];
    }
  }

  /** The D of each hand-calculated pair: |towards end angle| - |away end angle|. */
  lemma DummyDValues()
    ensures DValue(AbsoluteD, EndAngle(Left, -10.0), EndAngle(Right, 5.0)) == 5.0
    ensures DValue(AbsoluteD, EndAngle(Right, 15.0), EndAngle(Left, -12.0)) == 3.0
    ensures DValue(AbsoluteD, EndAngle(Left, -12.0), EndAngle(Right, 7.0)) == 5.0
    ensures DValue(AbsoluteD, EndAngle(Right, 18.0), EndAngle(Left, -14.0)) == 4.0
  {
  }

  /** The hand-calculated data set: two subjects, face ID015, two tubes, one towards and one away trial per tube. */
  function DummyTable(): Table {
    var rows := [
      Trial(1, "ID015", 0, Left, Left, -10.0, 0.0, false, false, ""),
      Trial(1, "ID015", 0, Left, Right, 5.0, 0.0, false, false, ""),
      Trial(1, "ID015", 1, Right, Right, 15.0, 0.0, false, false, ""),
      Trial(1, "ID015", 1, Right, Left, -12.0, 0.0, false, false, ""),
      Trial(2, "ID015", 0, Left, Left, -12.0, 0.0, false, false, ""),
      Trial(2, "ID015", 0, Left, Right, 7.0, 0.0, false, false, ""),
      Trial(2, "ID015", 1, Right, Right, 18.0, 0.0, false, false, ""),
      Trial(2, "ID015", 1, Right, Left, -14.0, 0.0, false, false, "")];
    ValidateAngles(TransformAngles(RawTable(rows, false)), 3.0, 40.0).value
  }

  /** After the end-angle rule every trial of the data set has an end angle between 3 and 40 and is valid. */
  lemma DummyRows()
    ensures DummyTable().rows == [
      Trial(1, "ID015", 0, Left, Left, -10.0, 10.0, true, false, ""),
      Trial(1, "ID015", 0, Left, Right, 5.0, 5.0, true, false, ""),
      Trial(1, "ID015", 1, Right, Right, 15.0, 15.0, true, false, ""),
      Trial(1, "ID015", 1, Right, Left, -12.0, 12.0, true, false, ""),
      Trial(2, "ID015", 0, Left, Left, -12.0, 12.0, true, false, ""),
      Trial(2, "ID015", 0, Left, Right, 7.0, 7.0, true, false, ""),
      Trial(2, "ID015", 1, Right, Right, 18.0, 18.0, true, false, ""),
      Trial(2, "ID015", 1, Right, Left, -14.0, 14.0, true, false, "")]
  {
  }

  /** A role played by row `i` alone has `i` as its only position. */
  lemma OnlyRole(rows: seq<Trial>, k: Key, side: Dir, tip: Dir, i: nat)
    requires PlaysRole(rows, i, k, side, tip)
    requires forall j: nat :: PlaysRole(rows, j, k, side, tip) ==> j == i
    ensures RolePositions(rows, k, side, tip) == [i]
  {
    RoleCount(rows, k, side, tip);
    RolePositionsSpec(rows, k, side, tip);
    assert i in RolePositions(rows, k, side, tip);
  }

  /** A position of the eight-row data set is one of its eight labels. */
  lemma EightLabels(j: nat)
    requires j < 8
    ensures j == 0 || j == 1 || j == 2 || j == 3 || j == 4 || j == 5 || j == 6 || j == 7
  {
  }

  /** User 1's tube 0 pairs on the left face side: rows 0 and 1 give D 5. */
  lemma DummyPairUser1Tube0()
    ensures PairFor(DummyTable().rows, Key(1, "ID015", 0), FaceLeft, AbsoluteD, true) == Some(Pair(Key(1, "ID015", 0), FaceLeft, 0, 1, 5.0))
  {
    DummyRows();
    var rows, k := DummyTable().rows, Key(1, "ID015", 0);
    forall j: nat | PlaysRole(rows, j, k, Left, Left) ensures j == 0 { EightLabels(j); }
    forall j: nat | PlaysRole(rows, j, k, Left, Right) ensures j == 1 { EightLabels(j); }
    OnlyRole(rows, k, Left, Left, 0);
    OnlyRole(rows, k, Left, Right, 1);
  }

  /** User 1's tube 1 pairs on the right face side: rows 2 and 3 give D 3. */
  lemma DummyPairUser1Tube1()
    ensures PairFor(DummyTable().rows, Key(1, "ID015", 1), FaceRight, AbsoluteD, true) == Some(Pair(Key(1, "ID015", 1), FaceRight, 2, 3, 3.0))
  {
    DummyRows();
    var rows, k := DummyTable().rows, Key(1, "ID015", 1);
    forall j: nat | PlaysRole(rows, j, k, Right, Right) ensures j == 2 { EightLabels(j); }
    forall j: nat | PlaysRole(rows, j, k, Right, Left) ensures j == 3 { EightLabels(j); }
    OnlyRole(rows, k, Right, Right, 2);
    OnlyRole(rows, k, Right, Left, 3);
  }

  /** User 2's tube 0: rows 4 and 5 give D 5. */
  lemma DummyPairUser2Tube0()
    ensures PairFor(DummyTable().rows, Key(2, "ID015", 0), FaceLeft, AbsoluteD, true) == Some(Pair(Key(2, "ID015", 0), FaceLeft, 4, 5, 5.0))
  {
    DummyRows();
    var rows, k := DummyTable().rows, Key(2, "ID015", 0);
    forall j: nat | PlaysRole(rows, j, k, Left, Left) ensures j == 4 { EightLabels(j); }
    forall j: nat | PlaysRole(rows, j, k, Left, Right) ensures j == 5 { EightLabels(j); }
    OnlyRole(rows, k, Left, Left, 4);
    OnlyRole(rows, k, Left, Right, 5);
  }

  /** User 2's tube 1: rows 6 and 7 give D 4. */
  lemma DummyPairUser2Tube1()
    ensures PairFor(DummyTable().rows, Key(2, "ID015", 1), FaceRight, AbsoluteD, true) == Some(Pair(Key(2, "ID015", 1), FaceRight, 6, 7, 4.0))
  {
    DummyRows();
    var rows, k := DummyTable().rows, Key(2, "ID015", 1);
    forall j: nat | PlaysRole(rows, j, k, Right, Right) ensures j == 6 { EightLabels(j); }
    forall j: nat | PlaysRole(rows, j, k, Right, Left) ensures j == 7 { EightLabels(j); }
    OnlyRole(rows, k, Right, Right, 6);
    OnlyRole(rows, k, Right, Left, 7);
  }

  /** The shape of the hand-calculated data set: users 1 and 2 hold rows 0-3 and 4-7, all on face ID015, tube 0 then tube 1 within each user. */
  ghost predicate TwoByTwoLayout(rows: seq<Trial>) {
    && |rows| == 8
    && (forall i :: 0 <= i < 8 ==> rows[i].user == (if i < 4 then 1 else 2))
    && (forall i :: 0 <= i < 8 ==> rows[i].face == "ID015")
    && (forall i :: 0 <= i < 8 ==> rows[i].tube == (if i < 2 || 4 <= i < 6 then 0 else 1))
  }

  lemma DummyLayout()
    ensures TwoByTwoLayout(DummyTable().rows)
  {
    DummyRows();
    var rows := DummyTable().rows;
    forall i | 0 <= i < 8
      ensures rows[i].user == (if i < 4 then 1 else 2)
      ensures rows[i].face == "ID015"
      ensures rows[i].tube == (if i < 2 || 4 <= i < 6 then 0 else 1)
    {
      EightLabels(i);
    }
  }

  /** The outer loop visits user 1, then user 2. */
  lemma {:induction false} LayoutUserOrder(rows: seq<Trial>)
    requires TwoByTwoLayout(rows)
    ensures UserOrder(rows) == [1, 2]
  {
    DistinctTwoBlocks(Users(rows), 1, 2, 4);
  }

  /** Each user's face loop visits ID015 alone. */
  lemma {:induction false} LayoutFaces(rows: seq<Trial>, u: int)
    requires TwoByTwoLayout(rows) && (u == 1 || u == 2)
    ensures Faces(rows, u) == ["ID015"]
  {
    var lo := if u == 1 then 0 else 4;
    FaceColumnBlock(rows, u, lo, lo + 4);
    DistinctConstant(FaceColumn(rows, u), "ID015");
  }

  /** Each user's tube loop on ID015 visits tube 0, then tube 1. */
  lemma {:induction false} LayoutTubes(rows: seq<Trial>, u: int)
    requires TwoByTwoLayout(rows) && (u == 1 || u == 2)
    ensures Tubes(rows, u, "ID015") == [0, 1]
  {
    var lo := if u == 1 then 0 else 4;
    TubeColumnBlock(rows, u, "ID015", lo, lo + 4);
    DistinctTwoBlocks(TubeColumn(rows, u, "ID015"), 0, 1, 2);
  }

  /** A face loop over one face yields that face's tube groups. */
  lemma FaceKeysOne(rows: seq<Trial>, u: int, fc: string)
    ensures FaceKeys(rows, u, [fc]) == TubeKeys(u, fc, Tubes(rows, u, fc))
  {
    assert [fc][..0] == [];
  }

  /** A tube loop over two tubes yields their two groups in order. */
  lemma TubeKeysTwo(u: int, fc: string, t0: int, t1: int)
    ensures TubeKeys(u, fc, [t0, t1]) == [Key(u, fc, t0), Key(u, fc, t1)]
  {
    assert [t0, t1][..1] == [t0] && [t0][..0] == [];
    assert TubeKeys(u, fc, [t0]) == [Key(u, fc, t0)];
  }

  /** A user loop over two users yields the first user's groups, then the second's. */
  lemma UserKeysTwo(rows: seq<Trial>, u1: int, u2: int)
    ensures UserKeys(rows, [u1, u2]) == FaceKeys(rows, u1, Faces(rows, u1)) + FaceKeys(rows, u2, Faces(rows, u2))
  {
    assert [u1, u2][..1] == [u1] && [u1][..0] == [];
    assert UserKeys(rows, [u1]) == FaceKeys(rows, u1, Faces(rows, u1));
  }

  /** One user's groups in a table of this shape: tube 0, then tube 1, on ID015. */
  lemma {:induction false} LayoutUserKeys(rows: seq<Trial>, u: int)
    requires TwoByTwoLayout(rows) && (u == 1 || u == 2)
    ensures FaceKeys(rows, u, Faces(rows, u)) == [Key(u, "ID015", 0), Key(u, "ID015", 1)]
  {
    LayoutFaces(rows, u);
    LayoutTubes(rows, u);
    FaceKeysOne(rows, u, "ID015");
    TubeKeysTwo(u, "ID015", 0, 1);
  }

  /** The four groups of a table of this shape, in the order the nested loops visit them. */
  lemma {:induction false} LayoutGroupKeys(rows: seq<Trial>)
    requires TwoByTwoLayout(rows)
    ensures GroupKeys(rows) == [Key(1, "ID015", 0), Key(1, "ID015", 1), Key(2, "ID015", 0), Key(2, "ID015", 1)]
  {
    LayoutUserOrder(rows);
    UserKeysTwo(rows, 1, 2);
    LayoutUserKeys(rows, 1);
    LayoutUserKeys(rows, 2);
  }

  lemma DummyGroupKeys()
    ensures GroupKeys(DummyTable().rows) == [Key(1, "ID015", 0), Key(1, "ID015", 1), Key(2, "ID015", 0), Key(2, "ID015", 1)]
  {
    DummyLayout();
    LayoutGroupKeys(DummyTable().rows);
  }

  /** User 1's tube 0 has no right-side trials, so its group forms its left pair alone. */
  lemma DummyGroupUser1Tube0()
    ensures GroupPairs(DummyTable().rows, Key(1, "ID015", 0), AbsoluteD, true) == [Pair(Key(1, "ID015", 0), FaceLeft, 0, 1, 5.0)]
  {
    DummyPairUser1Tube0();
    DummyRows();
    var rows, k := DummyTable().rows, Key(1, "ID015", 0);
    forall j: nat ensures !PlaysRole(rows, j, k, Right, Right) { if j < 8 { EightLabels(j); } }
    PairForMissing(rows, k, FaceRight, AbsoluteD, true);
  }

  /** User 1's tube 1 has no left-side trials, so its group forms its right pair alone. */
  lemma DummyGroupUser1Tube1()
    ensures GroupPairs(DummyTable().rows, Key(1, "ID015", 1), AbsoluteD, true) == [Pair(Key(1, "ID015", 1), FaceRight, 2, 3, 3.0)]
  {
    DummyPairUser1Tube1();
    DummyRows();
    var rows, k := DummyTable().rows, Key(1, "ID015", 1);
    forall j: nat ensures !PlaysRole(rows, j, k, Left, Left) { if j < 8 { EightLabels(j); } }
    PairForMissing(rows, k, FaceLeft, AbsoluteD, true);
  }

  /** User 2's tube 0 forms its left pair alone. */
  lemma DummyGroupUser2Tube0()
    ensures GroupPairs(DummyTable().rows, Key(2, "ID015", 0), AbsoluteD, true) == [Pair(Key(2, "ID015", 0), FaceLeft, 4, 5, 5.0)]
  {
    DummyPairUser2Tube0();
    DummyRows();
    var rows, k := DummyTable().rows, Key(2, "ID015", 0);
    forall j: nat ensures !PlaysRole(rows, j, k, Right, Right) { if j < 8 { EightLabels(j); } }
    PairForMissing(rows, k, FaceRight, AbsoluteD, true);
  }

  /** User 2's tube 1 forms its right pair alone. */
  lemma DummyGroupUser2Tube1()
    ensures GroupPairs(DummyTable().rows, Key(2, "ID015", 1), AbsoluteD, true) == [Pair(Key(2, "ID015", 1), FaceRight, 6, 7, 4.0)]
  {
    DummyPairUser2Tube1();
    DummyRows();
    var rows, k := DummyTable().rows, Key(2, "ID015", 1);
    forall j: nat ensures !PlaysRole(rows, j, k, Left, Left) { if j < 8 { EightLabels(j); } }
    PairForMissing(rows, k, FaceLeft, AbsoluteD, true);
  }

  /** The pairs over one group are that group's pairs. */
  lemma PairsOverOne(rows: seq<Trial>, k0: Key, f: DFormula, checkValid: bool)
    ensures PairsOver(rows, [k0], f, checkValid) == GroupPairs(rows, k0, f, checkValid)
  {
    assert [k0][..0] == [];
  }

  /** The pairs over two groups are the first group's, then the second's. */
  lemma PairsOverTwo(rows: seq<Trial>, k0: Key, k1: Key, f: DFormula, checkValid: bool)
    ensures PairsOver(rows, [k0, k1], f, checkValid) == GroupPairs(rows, k0, f, checkValid) + GroupPairs(rows, k1, f, checkValid)
  {
    assert [k0, k1][..1] == [k0];
    PairsOverOne(rows, k0, f, checkValid);
  }

  /** The pairs over four groups are those of each group in turn. */
  lemma PairsOverFour(rows: seq<Trial>, k0: Key, k1: Key, k2: Key, k3: Key, f: DFormula, checkValid: bool)
    ensures PairsOver(rows, [k0, k1, k2, k3], f, checkValid) ==
      GroupPairs(rows, k0, f, checkValid) + GroupPairs(rows, k1, f, checkValid) + GroupPairs(rows, k2, f, checkValid) + GroupPairs(rows, k3, f, checkValid)
  {
    assert [k0, k1, k2, k3][..3] == [k0, k1, k2];
    assert [k0, k1, k2][..2] == [k0, k1];
    PairsOverTwo(rows, k0, k1, f, checkValid);
  }

  /** The four pairs of the data set, one per tube. */
  function DummyPairs(): seq<Pair> {
    [Pair(Key(1, "ID015", 0), FaceLeft, 0, 1, 5.0), Pair(Key(1, "ID015", 1), FaceRight, 2, 3, 3.0),
     Pair(Key(2, "ID015", 0), FaceLeft, 4, 5, 5.0), Pair(Key(2, "ID015", 1), FaceRight, 6, 7, 4.0)]
  }

  /** Over four groups that each form one pair, the pairs are those four, in group order. */
  lemma PairsOverFourSingles(rows: seq<Trial>, f: DFormula, k0: Key, k1: Key, k2: Key, k3: Key, p0: Pair, p1: Pair, p2: Pair, p3: Pair)
    requires GroupPairs(rows, k0, f, true) == [p0] && GroupPairs(rows, k1, f, true) == [p1]
    requires GroupPairs(rows, k2, f, true) == [p2] && GroupPairs(rows, k3, f, true) == [p3]
    ensures PairsOver(rows, [k0, k1, k2, k3], f, true) == [p0, p1, p2, p3]
  {
    PairsOverFour(rows, k0, k1, k2, k3, f, true);
    FourSingletons(GroupPairs(rows, k0, f, true), GroupPairs(rows, k1, f, true), GroupPairs(rows, k2, f, true), GroupPairs(rows, k3, f, true), p0, p1, p2, p3);
  }

  lemma FourSingletons<T>(a: seq<T>, b: seq<T>, c: seq<T>, d: seq<T>, x0: T, x1: T, x2: T, x3: T)
    requires a == [x0] && b == [x1] && c == [x2] && d == [x3]
    ensures a + b + c + d == [x0, x1, x2, x3]
  {
    assert [x0] + [x1] + [x2] + [x3] == [x0, x1, x2, x3];
  }

  /** Balancing the data set forms exactly the four hand-calculated pairs, in group order. */
  lemma DummyBalance()
    ensures Balance(DummyTable().rows, AbsoluteD) == DummyPairs()
  {
    DummyGroupKeys();
    DummyGroupUser1Tube0();
    DummyGroupUser1Tube1();
    DummyGroupUser2Tube0();
    DummyGroupUser2Tube1();
    PairsOverFourSingles(DummyTable().rows, AbsoluteD, Key(1, "ID015", 0), Key(1, "ID015", 1), Key(2, "ID015", 0), Key(2, "ID015", 1),
      DummyPairs()[0], DummyPairs()[1], DummyPairs()[2], DummyPairs()[3]);
  }

  /** In two blocks of two observations, each key's values are its block's, in order. */
  lemma ValuesOfTwoBlocks<K(!new)>(a: K, b: K, x0: real, x1: real, y0: real, y1: real)
    requires a != b
    ensures ValuesOf([(a, x0), (a, x1), (b, y0), (b, y1)], a) == [x0, x1]
    ensures ValuesOf([(a, x0), (a, x1), (b, y0), (b, y1)], b) == [y0, y1]
  {
    var s1, s2, s3, s4 := [(a, x0)], [(a, x0), (a, x1)], [(a, x0), (a, x1), (b, y0)], [(a, x0), (a, x1), (b, y0), (b, y1)];
    assert s1[..0] == [] && s2[..1] == s1 && s3[..2] == s2 && s4[..3] == s3;
    assert ValuesOf(s1, a) == [x0] && ValuesOf(s1, b) == [];
    assert ValuesOf(s2, a) == [x0, x1] && ValuesOf(s2, b) == [];
    assert ValuesOf(s3, a) == [x0, x1] && ValuesOf(s3, b) == [y0];
  }

  /** The mean of two values is half their sum. */
  lemma MeanOfTwo(x: real, y: real)
    ensures Mean([x, y]) == (x + y) / 2.0
  {
    assert [x, y][..1] == [x] && [x][..0] == [];
    assert Sum([x]) == x;
    assert Sum([x, y]) == x + y;
  }

  /** Two blocks of two observations each average to the mean of each block, in block order. */
  lemma {:induction false} GroupMeansOfTwoBlocks<K(!new)>(obs: seq<(K, real)>, a: K, b: K, x0: real, x1: real, y0: real, y1: real)
    requires a != b
    requires obs == [(a, x0), (a, x1), (b, y0), (b, y1)]
    ensures GroupMeans(obs) == [(a, (x0 + x1) / 2.0), (b, (y0 + y1) / 2.0)]
  {
    DistinctTwoBlocks(KeysOf(obs), a, b, 2);
    ValuesOfTwoBlocks(a, b, x0, x1, y0, y1);
    MeanOfTwo(x0, x1);
    MeanOfTwo(y0, y1);
    var m := GroupMeans(obs);
    assert |m| == 2 && m[0].0 == a && m[1].0 == b;
    assert m[0].1 == (x0 + x1) / 2.0 && m[1].1 == (y0 + y1) / 2.0;
  }

  /** Two (user, face) blocks of two pairs each score the mean D of each block. */
  lemma {:induction false} ScoresOfTwoBlocks(ps: seq<Pair>, a: (int, string), b: (int, string), x0: real, x1: real, y0: real, y1: real)
    requires a != b
    requires ByUserFace(ps) == [(a, x0), (a, x1), (b, y0), (b, y1)]
    ensures SubjectScores(ps) == [SubjectScore(a.0, a.1, (x0 + x1) / 2.0), SubjectScore(b.0, b.1, (y0 + y1) / 2.0)]
  {
    GroupMeansOfTwoBlocks(ByUserFace(ps), a, b, x0, x1, y0, y1);
    var r := SubjectScores(ps);
    assert |r| == 2;
    assert r[0] == SubjectScore(a.0, a.1, (x0 + x1) / 2.0) && r[1] == SubjectScore(b.0, b.1, (y0 + y1) / 2.0);
  }

  /** Subject 1 averages D 5 and 3 to 4; subject 2 averages D 5 and 4 to 4.5. */
  lemma DummySubjectScores()
    ensures SubjectScores(DummyPairs()) == [SubjectScore(1, "ID015", 4.0), SubjectScore(2, "ID015", 4.5)]
  {
    var a, b := (1, "ID015"), (2, "ID015");
    assert ByUserFace(DummyPairs()) == [(a, 5.0), (a, 3.0), (b, 5.0), (b, 4.0)];
    ScoresOfTwoBlocks(DummyPairs(), a, b, 5.0, 3.0, 5.0, 4.0);
  }

  /** From the raw trials to the per-subject scores: 4 for subject 1 and 4.5 for subject 2. */
  lemma DummyPipeline()
    ensures SubjectScores(Balance(DummyTable().rows, AbsoluteD)) == [SubjectScore(1, "ID015", 4.0), SubjectScore(2, "ID015", 4.5)]
  {
    DummyBalance();
    DummySubjectScores();
  }
}
