// The investigation of how the statistics of face ID017 change with the
// subject-exclusion rule: the sighted trials are given end angles and the
// (3, 40) verdict, paired with the signed D, and compared under three
// rules: no exclusion, more than two angle-invalid trials, and more than
// two trials that are angle-invalid or left unpaired by balancing.
module Investigate {
  import opened Records
  import opened Processing
  import opened Balancing
  import opened Aggregation

  const MinAngle := 3.0
  const MaxAngle := 40.0
  const MaxInvalidTrials := 2
  /** The face whose statistics are compared. */
  const StudiedFace := "ID017"

  /**
   * The sighted filter, `calculate_end_angle` and the strict (3, 40) rule.
   * No face id is remapped here.
   */
  function Prepared(t: Table): (r: Table)
    ensures r.hasEnd && r.hasAngleValid && |r.rows| == |SightedOnly(t).rows|
    ensures forall i :: 0 <= i < |r.rows| ==>
              var x := SightedOnly(t).rows[i];
              && r.rows[i].end == EndAngle(x.tip, x.raw)
              && (r.rows[i].angleValid <==> MinAngle < r.rows[i].end < MaxAngle)
              && r.rows[i] == x.(end := r.rows[i].end, angleValid := r.rows[i].angleValid)
  {
    ValidateAngles(TransformAngles(SightedOnly(t)), MinAngle, MaxAngle).value
  }

  /** Method 2's rule: the subjects (ascending) with more than two angle-invalid trials. */
  function AngleOnlyExcluded(p: Table): (r: seq<int>)
    requires p.hasAngleValid
    ensures StrictlyIncreasing(r)
    ensures forall u :: u in r <==> InvalidCount(p.rows, u) > MaxInvalidTrials
  {
    IdentifyBadSubjects(p, MaxInvalidTrials).value
  }

  /**
   * `all_invalid_indices`: the angle-invalid labels together with the
   * angle-valid labels that balancing left unused.
   */
  function TotalInvalidPositions(rows: seq<Trial>, used: set<nat>): set<nat> {
    InvalidPositions(rows) + (ValidPositions(rows) - used)
  }

  /**
   * The two parts of the invalid set do not overlap, and since balancing
   * uses only angle-valid trials the union is every label the balancing
   * did not use: all rows but two per pair.
   */
  lemma TotalInvalidSpec(rows: seq<Trial>)
    ensures var used := UsedOf(Balance(rows, SignedD));
      && InvalidPositions(rows) !! (ValidPositions(rows) - used)
      && TotalInvalidPositions(rows, used) == AllPositions(|rows|) - used
      && |TotalInvalidPositions(rows, used)| == |rows| - 2 * |Balance(rows, SignedD)|
  {
    var used := UsedOf(Balance(rows, SignedD));
    UsedAreValid(rows);
    UnusedLabels(rows, used);
  }

  /** Balancing uses two angle-valid labels per pair. */
  lemma UsedAreValid(rows: seq<Trial>)
    ensures UsedOf(Balance(rows, SignedD)) <= ValidPositions(rows)
    ensures |UsedOf(Balance(rows, SignedD))| == 2 * |Balance(rows, SignedD)|
  {
    BalanceSpec(rows, SignedD);
  }

  lemma UnusedLabels(rows: seq<Trial>, used: set<nat>)
    requires used <= ValidPositions(rows)
    ensures InvalidPositions(rows) !! (ValidPositions(rows) - used)
    ensures TotalInvalidPositions(rows, used) == AllPositions(|rows|) - used
    ensures |TotalInvalidPositions(rows, used)| == |rows| - |used|
  {
    ValidInvalidPartition(rows);
    var all := AllPositions(|rows|);
    assert TotalInvalidPositions(rows, used) == all - used;
    assert all == (all - used) + used;
  }

  /** The size of `user`'s group among the rows whose label is in `s` (the `temp_invalid` rows). */
  function TotalInvalidCount(rows: seq<Trial>, s: set<nat>, u: int): (n: nat)
    ensures n <= CountUser(rows, u)
  {
    if rows == [] then 0
    else
      var n := |rows| - 1;
      TotalInvalidCount(rows[..n], s, u) + (if rows[n].user == u && n in s then 1 else 0)
  }

  /** The users of the rows whose label is in `s`, in row order, with repeats. */
  function TotalInvalidUsers(rows: seq<Trial>, s: set<nat>): (r: seq<int>)
    ensures forall u :: u in r <==> TotalInvalidCount(rows, s, u) > 0
  {
    if rows == [] then []
    else
      var n := |rows| - 1;
      var p := TotalInvalidUsers(rows[..n], s);
      if n in s then p + [rows[n].user] else p
  }

  /** Keeps, in order, the users of `us` with more than `maxInvalid` rows in `s`. */
  function KeepOverTotal(us: seq<int>, rows: seq<Trial>, s: set<nat>, maxInvalid: int): (r: seq<int>)
    ensures forall u :: u in r <==> u in us && TotalInvalidCount(rows, s, u) > maxInvalid
    ensures StrictlyIncreasing(us) ==> StrictlyIncreasing(r)
  {
    if us == [] then []
    else
      var p := KeepOverTotal(us[..|us| - 1], rows, s, maxInvalid);
      var u := us[|us| - 1];
      assert forall v :: v in us <==> v in us[..|us| - 1] || v == u;
      if TotalInvalidCount(rows, s, u) > maxInvalid then
        assert StrictlyIncreasing(us) ==> forall i :: 0 <= i < |p| ==> p[i] < u by {
          if StrictlyIncreasing(us) {
            forall i | 0 <= i < |p| ensures p[i] < u {
              assert p[i] in us[..|us| - 1];
              var j :| 0 <= j < |us| - 1 && us[j] == p[i];
            }
          }
        }
        p + [u]
      else p
  }

  /**
   * `invalid_per_subject[invalid_per_subject > 2].index`: the subjects, in
   * the ascending order of the groupby, with more than `maxInvalid` rows in
   * `s`; a subject with none is not a group and never appears.
   */
  function TotalExcluded(rows: seq<Trial>, s: set<nat>, maxInvalid: int): (r: seq<int>)
    ensures StrictlyIncreasing(r)
    ensures forall u :: u in r <==> TotalInvalidCount(rows, s, u) > maxInvalid && TotalInvalidCount(rows, s, u) > 0
  {
    KeepOverTotal(SortedUnique(TotalInvalidUsers(rows, s)), rows, s, maxInvalid)
  }

  /** Method 3's rule on the prepared table. */
  function TotalExcludedOf(p: Table): seq<int> {
    TotalExcluded(p.rows, TotalInvalidPositions(p.rows, UsedOf(Balance(p.rows, SignedD))), MaxInvalidTrials)
  }

  /** When `s` holds every angle-invalid label, a subject's count in `s` is at least its angle-invalid count. */
  lemma {:induction false} TotalCountCoversInvalid(rows: seq<Trial>, s: set<nat>, u: int)
    requires forall i :: 0 <= i < |rows| && !rows[i].angleValid ==> i in s
    ensures InvalidCount(rows, u) <= TotalInvalidCount(rows, s, u)
  {
    if rows != [] {
      var n := |rows| - 1;
      var p := rows[..n];
      assert forall i :: 0 <= i < |p| ==> p[i] == rows[i];
      TotalCountCoversInvalid(p, s, u);
    }
  }

  /**
   * Every subject the angle-only rule excludes is excluded by the total
   * rule too, so `additional_excluded` has exactly as many subjects as the
   * two lists differ in length.
   */
  lemma AngleOnlyWithinTotal(p: Table)
    requires p.hasAngleValid
    ensures forall u :: u in AngleOnlyExcluded(p) ==> u in TotalExcludedOf(p)
    ensures |Additional(AngleOnlyExcluded(p), TotalExcludedOf(p))| == |TotalExcludedOf(p)| - |AngleOnlyExcluded(p)|
  {
    var s := TotalInvalidPositions(p.rows, UsedOf(Balance(p.rows, SignedD)));
    var e2 := AngleOnlyExcluded(p);
    var e3 := TotalExcludedOf(p);
    forall u | u in e2 ensures u in e3 {
      TotalCountCoversInvalid(p.rows, s, u);
    }
    StrictlyIncreasingNoDup(e2);
    StrictlyIncreasingNoDup(e3);
    AdditionalSize(e2, e3);
  }

  /** Of two repeat-free lists, one inside the other, the difference has the difference of their lengths. */
  lemma AdditionalSize(e2: seq<int>, e3: seq<int>)
    requires NoDup(e2) && NoDup(e3)
    requires forall u :: u in e2 ==> u in e3
    ensures |Additional(e2, e3)| == |e3| - |e2|
  {
    SeqSetSize(e2);
    SeqSetSize(e3);
    var a := set u | u in e3;
    var b := set u | u in e2;
    assert Additional(e2, e3) == a - b;
    assert a == (a - b) + b;
  }

  /** `additional_excluded`: the subjects the total rule excludes and the angle-only rule keeps. */
  function Additional(angleOnly: seq<int>, total: seq<int>): set<int> {
    set u | u in total && u !in angleOnly
  }

  /** The users, in row order with repeats, of the studied-face rows whose user is in `removed`. */
  function StudiedUsersIn(rows: seq<Trial>, removed: set<int>): (r: seq<int>)
    ensures forall u :: u in r <==> u in removed && exists i :: 0 <= i < |rows| && rows[i].face == StudiedFace && rows[i].user == u
  {
    if rows == [] then []
    else
      var n := |rows| - 1;
      var p := StudiedUsersIn(rows[..n], removed);
      assert forall i :: 0 <= i < n ==> rows[..n][i] == rows[i];
      if rows[n].face == StudiedFace && rows[n].user in removed then p + [rows[n].user] else p
  }

  /** `id017_users_removed`: the distinct subjects with a studied-face trial among `removed`, in order of appearance. */
  function StudiedUsersRemoved(rows: seq<Trial>, removed: set<int>): (r: seq<int>)
    ensures NoDup(r)
    ensures forall u :: u in r <==> u in removed && exists i :: 0 <= i < |rows| && rows[i].face == StudiedFace && rows[i].user == u
  {
    Distinct(StudiedUsersIn(rows, removed))
  }

  /** The `D` values of the pairs of the studied face, in pair order. */
  function StudiedDs(ps: seq<Pair>): (r: seq<real>)
    ensures |r| <= |ps|
  {
    if ps == [] then []
    else
      var p := StudiedDs(ps[..|ps| - 1]);
      if ps[|ps| - 1].key.face == StudiedFace then p + [ps[|ps| - 1].d] else p
  }

  /** The studied-face D values keep pair order and repeats: pair by pair, a pair contributes its D exactly when it is of the studied face. */
  lemma {:induction false} StudiedDsConcat(a: seq<Pair>, b: seq<Pair>, x: Pair)
    ensures StudiedDs(a + b) == StudiedDs(a) + StudiedDs(b)
    ensures StudiedDs([x]) == (if x.key.face == StudiedFace then [x.d] else [])
  {
    if b != [] {
      var n := |b| - 1;
      StudiedDsConcat(a, b[..n], x);
      assert (a + b)[..|a + b| - 1] == a + b[..n];
    } else {
      assert a + b == a;
    }
    assert [x][..0] == [];
  }

  /** The positions of the studied-face pairs. */
  function StudiedPositions(ps: seq<Pair>): set<int> {
    set i | 0 <= i < |ps| && ps[i].key.face == StudiedFace
  }

  /** `StudiedDs` holds the D of every studied-face pair and of no other pair. */
  lemma StudiedDsSpec(ps: seq<Pair>)
    ensures |StudiedDs(ps)| == |StudiedPositions(ps)|
    ensures forall d :: d in StudiedDs(ps) <==> exists i :: 0 <= i < |ps| && ps[i].key.face == StudiedFace && ps[i].d == d
  {
    StudiedDsCount(ps);
    StudiedDsMembers(ps);
  }

  lemma {:induction false} StudiedDsCount(ps: seq<Pair>)
    ensures |StudiedDs(ps)| == |StudiedPositions(ps)|
  {
    if ps != [] {
      var n := |ps| - 1;
      var p := ps[..n];
      StudiedDsCount(p);
      var before := StudiedPositions(p);
      var all := StudiedPositions(ps);
      assert forall i :: 0 <= i < n ==> p[i] == ps[i];
      if ps[n].key.face == StudiedFace {
        assert all == before + {n};
      } else {
        assert all == before;
      }
    }
  }

  lemma {:induction false} StudiedDsMembers(ps: seq<Pair>)
    ensures forall d :: d in StudiedDs(ps) <==> exists i :: 0 <= i < |ps| && ps[i].key.face == StudiedFace && ps[i].d == d
  {
    if ps != [] {
      var n := |ps| - 1;
      var p := ps[..n];
      StudiedDsMembers(p);
      forall d ensures d in StudiedDs(ps) <==> exists i :: 0 <= i < |ps| && ps[i].key.face == StudiedFace && ps[i].d == d {
        if d in StudiedDs(p) {
          var i :| 0 <= i < |p| && p[i].key.face == StudiedFace && p[i].d == d;
          assert ps[i] == p[i];
        }
        if exists i :: 0 <= i < |ps| && ps[i].key.face == StudiedFace && ps[i].d == d {
          var i :| 0 <= i < |ps| && ps[i].key.face == StudiedFace && ps[i].d == d;
          if i < n {
            assert p[i] == ps[i];
          }
        }
      }
    }
  }

  /**
   * The count, mean, variance and t-test of the studied face's D values.
   * A result list with no pairs has no `face_id` column, and reading it
   * raises a `KeyError`.
   */
  function StudiedSummary(ps: seq<Pair>, ttest: seq<real> -> TTest): (r: Result<Summary>)
    ensures r.Failure? <==> ps == []
    ensures r.Failure? ==> r.error == MissingColumn("face_id")
    ensures r.Success? ==> r.value.n == |StudiedDs(ps)| && (r.value.mean.Some? <==> StudiedDs(ps) != [])
  {
    if ps == [] then Failure(MissingColumn("face_id")) else Success(Summarize(StudiedDs(ps), ttest))
  }

  /** One exclusion method's outcome: the subjects it excluded, its pairs and the studied face's statistics. */
  datatype MethodResult = MethodResult(excluded: seq<int>, pairs: seq<Pair>, studied: Summary)

  datatype Comparison = Comparison(
    noExclusion: MethodResult,
    angleOnly: MethodResult,
    total: MethodResult,
    additional: set<int>,
    studiedUsersRemoved: Option<seq<int>>)

  /** Method 1's pairs: the prepared trials balanced with the signed D. */
  function NoExclusionPairs(p: Table): seq<Pair> {
    Balance(p.rows, SignedD)
  }

  /** Method 2's pairs: the trials of the subjects the angle-only rule keeps. */
  function AngleOnlyPairs(p: Table): seq<Pair>
    requires p.hasAngleValid
  {
    Balance(DropUsers(p, AngleOnlyExcluded(p)).rows, SignedD)
  }

  /** Method 3's pairs: the trials of the subjects the total rule keeps. */
  function TotalPairs(p: Table): seq<Pair> {
    Balance(DropUsers(p, TotalExcludedOf(p)).rows, SignedD)
  }

  /**
   * The three methods in the script's order. The first one whose result
   * list is empty stops the script; otherwise each method's pairs are the
   * signed-D balancing of its kept trials, and method 3's pairs are formed
   * after the subjects over the total count are dropped.
   */
  method Compare(t: Table, ttest: seq<real> -> TTest) returns (r: Result<Comparison>)
    ensures r == Compared(Prepared(t), ttest)
  {
    var p := Prepared(t);
    r := CompareOn(p, ttest);
  }

  /** The outcome of the three methods on the prepared table `p`. */
  function Compared(p: Table, ttest: seq<real> -> TTest): (r: Result<Comparison>)
    requires p.hasAngleValid
    ensures r.Failure? <==> NoExclusionPairs(p) == [] || AngleOnlyPairs(p) == [] || TotalPairs(p) == []
    ensures r.Failure? ==> r.error == MissingColumn("face_id")
    ensures r.Success? ==>
      r.value.noExclusion == MethodResult([], NoExclusionPairs(p), StudiedSummary(NoExclusionPairs(p), ttest).value)
    ensures r.Success? ==>
      r.value.angleOnly == MethodResult(AngleOnlyExcluded(p), AngleOnlyPairs(p), StudiedSummary(AngleOnlyPairs(p), ttest).value)
    ensures r.Success? ==>
      r.value.total == MethodResult(TotalExcludedOf(p), TotalPairs(p), StudiedSummary(TotalPairs(p), ttest).value)
    ensures r.Success? ==> r.value.additional == Additional(AngleOnlyExcluded(p), TotalExcludedOf(p))
    ensures r.Success? ==> (r.value.additional == {} <==> r.value.studiedUsersRemoved == None)
    ensures r.Success? && r.value.additional != {} ==>
      r.value.studiedUsersRemoved == Some(StudiedUsersRemoved(p.rows, r.value.additional))
  {
    var b1, b2, b3 := NoExclusionPairs(p), AngleOnlyPairs(p), TotalPairs(p);
    if b1 == [] || b2 == [] || b3 == [] then Failure(MissingColumn("face_id"))
    else
      var additional := Additional(AngleOnlyExcluded(p), TotalExcludedOf(p));
      Success(Comparison(
        MethodResult([], b1, StudiedSummary(b1, ttest).value),
        MethodResult(AngleOnlyExcluded(p), b2, StudiedSummary(b2, ttest).value),
        MethodResult(TotalExcludedOf(p), b3, StudiedSummary(b3, ttest).value),
        additional,
        if |additional| > 0 then Some(StudiedUsersRemoved(p.rows, additional)) else None))
  }

  /** The script's steps on the prepared table, method by method. */
  method CompareOn(p: Table, ttest: seq<real> -> TTest) returns (r: Result<Comparison>)
    requires p.hasAngleValid
    ensures r == Compared(p, ttest)
  {
    // Method 1: no exclusion.
    var pairs1, _ := BalanceTrials(p.rows, SignedD);
    var s1 := StudiedSummary(pairs1, ttest);
    if s1.Failure? {
      return Failure(s1.error);
    }

    // Method 2: more than two angle-invalid trials.
    var excluded2, pairs2 := AngleOnlyMethod(p);
    var s2 := StudiedSummary(pairs2, ttest);
    if s2.Failure? {
      return Failure(s2.error);
    }

    // Method 3: more than two trials that are angle-invalid or unpaired.
    var excluded3, pairs3 := TotalMethod(p);
    var s3 := StudiedSummary(pairs3, ttest);
    if s3.Failure? {
      return Failure(s3.error);
    }

    var additional := Additional(excluded2, excluded3);
    var removed := if |additional| > 0 then Some(StudiedUsersRemoved(p.rows, additional)) else None;
    r := Success(Comparison(MethodResult([], pairs1, s1.value), MethodResult(excluded2, pairs2, s2.value),
                            MethodResult(excluded3, pairs3, s3.value), additional, removed));
  }

  /** Method 2: drop the subjects with more than two angle-invalid trials, then balance. */
  method AngleOnlyMethod(p: Table) returns (excluded: seq<int>, pairs: seq<Pair>)
    requires p.hasAngleValid
    ensures excluded == AngleOnlyExcluded(p)
    ensures pairs == AngleOnlyPairs(p)
  {
    excluded := IdentifyBadSubjects(p, MaxInvalidTrials).value;
    var kept := DropUsers(p, excluded);
    var used;
    pairs, used := BalanceTrials(kept.rows, SignedD);
  }

  /**
   * Method 3: balance once to find the unused trials, drop the subjects
   * with more than two angle-invalid or unused trials, then balance the
   * remaining trials again.
   */
  method TotalMethod(p: Table) returns (excluded: seq<int>, pairs: seq<Pair>)
    ensures excluded == TotalExcludedOf(p)
    ensures pairs == TotalPairs(p)
  {
    var _, initialUsed := BalanceTrials(p.rows, SignedD);
    var allInvalid := InvalidPositions(p.rows) + (ValidPositions(p.rows) - initialUsed);
    excluded := TotalExcluded(p.rows, allInvalid, MaxInvalidTrials);
    var kept := DropUsers(p, excluded);
    var used;
    pairs, used := BalanceTrials(kept.rows, SignedD);
  }

  /** Dropping the users of a longer list keeps only trials that dropping the shorter one keeps. */
  lemma DropMoreKeepsFewer(p: Table, fewer: seq<int>, more: seq<int>)
    requires forall u :: u in fewer ==> u in more
    ensures forall x :: x in DropUsers(p, more).rows ==> x.user !in more && x in DropUsers(p, fewer).rows
  {
    forall x | x in DropUsers(p, more).rows ensures x in DropUsers(p, fewer).rows {
      assert x in multiset(DropUsers(p, more).rows);
      var j :| 0 <= j < |p.rows| && p.rows[j] == x;
    }
  }

  /**
   * Method 3 keeps only subjects with at most two total-invalid trials, and
   * every kept trial's subject has at most two angle-invalid trials, so the
   * trials method 3 keeps are among those method 2 keeps.
   */
  lemma TotalKeepsFewer(p: Table)
    requires p.hasAngleValid
    ensures var s := TotalInvalidPositions(p.rows, UsedOf(Balance(p.rows, SignedD)));
      forall x :: x in DropUsers(p, TotalExcludedOf(p)).rows ==>
        && TotalInvalidCount(p.rows, s, x.user) <= MaxInvalidTrials
        && InvalidCount(p.rows, x.user) <= MaxInvalidTrials
        && x in DropUsers(p, AngleOnlyExcluded(p)).rows
  {
    var s := TotalInvalidPositions(p.rows, UsedOf(Balance(p.rows, SignedD)));
    assert forall i :: 0 <= i < |p.rows| && !p.rows[i].angleValid ==> i in InvalidPositions(p.rows);
    CoveringSetKeepsFewer(p, s);
  }

  /** The same for any label set `s` that holds every angle-invalid label. */
  lemma CoveringSetKeepsFewer(p: Table, s: set<nat>)
    requires p.hasAngleValid
    requires forall i :: 0 <= i < |p.rows| && !p.rows[i].angleValid ==> i in s
    ensures forall x :: x in DropUsers(p, TotalExcluded(p.rows, s, MaxInvalidTrials)).rows ==>
        && TotalInvalidCount(p.rows, s, x.user) <= MaxInvalidTrials
        && InvalidCount(p.rows, x.user) <= MaxInvalidTrials
        && x in DropUsers(p, AngleOnlyExcluded(p)).rows
  {
    var e2 := AngleOnlyExcluded(p);
    var e3 := TotalExcluded(p.rows, s, MaxInvalidTrials);
    forall u | u in e2 ensures u in e3 {
      TotalCountCoversInvalid(p.rows, s, u);
    }
    DropMoreKeepsFewer(p, e2, e3);
    forall x | x in DropUsers(p, e3).rows
      ensures TotalInvalidCount(p.rows, s, x.user) <= MaxInvalidTrials && InvalidCount(p.rows, x.user) <= MaxInvalidTrials
    {
      TotalCountCoversInvalid(p.rows, s, x.user);
    }
  }
}
