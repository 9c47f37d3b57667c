// The pairing engine (`balance_trials`): within every (user, face, tube)
// group, one FaceLeft and one FaceRight towards/away pair, formed only when
// exactly one trial fills each role, and kept only when both are angle-valid.
// The same loop is copied into both analyze_v3 scripts and into
// `run_balancing`; the only difference between the copies is the D formula,
// which is a parameter here.
module Balancing {
  import opened Records

  /** The grouping key `(user_number, face_id, tubeTypeIndex)`. */
  datatype Key = Key(user: int, face: string, tube: int)

  function KeyOf(t: Trial): Key {
    Key(t.user, t.face, t.tube)
  }

  datatype PairType = FaceLeft | FaceRight

  /** The `faceSide` both trials of a pair share. */
  function SideOf(pt: PairType): Dir {
    match pt
    case FaceLeft => Left
    case FaceRight => Right
  }

  /** The `tip_direction` of the towards trial: the same side as the face. */
  function TowardsTip(pt: PairType): Dir {
    SideOf(pt)
  }

  /** The `tip_direction` of the away trial: the side opposite the face. */
  function AwayTip(pt: PairType): Dir {
    match pt
    case FaceLeft => Right
    case FaceRight => Left
  }

  /**
   * The two D formulas found in the repository: `abs(abs(t) - abs(a))` in
   * processing.py, and the signed `abs(t) - abs(a)` in the analysis scripts.
   */
  datatype DFormula = AbsoluteD | SignedD

  function Abs(x: real): (r: real)
    ensures r >= 0.0 && (r == x || r == -x)
  {
    if x < 0.0 then -x else x
  }

  function DValue(f: DFormula, endTowards: real, endAway: real): (d: real)
    ensures f == SignedD ==> d + Abs(endAway) == Abs(endTowards)
    ensures f == AbsoluteD ==> d >= 0.0 && (d == Abs(endTowards) - Abs(endAway) || d == Abs(endAway) - Abs(endTowards))
  {
    match f
    case AbsoluteD => Abs(Abs(endTowards) - Abs(endAway))
    case SignedD => Abs(endTowards) - Abs(endAway)
  }

  /** The absolute formula is the magnitude of the signed one; they agree when towards is at least away. */
  lemma DFormulasRelated(t: real, a: real)
    ensures DValue(AbsoluteD, t, a) == Abs(DValue(SignedD, t, a))
    ensures Abs(t) >= Abs(a) ==> DValue(AbsoluteD, t, a) == DValue(SignedD, t, a)
    ensures Abs(t) < Abs(a) ==> DValue(SignedD, t, a) < 0.0 < DValue(AbsoluteD, t, a)
  {
  }

  /**
   * A formed pair: its group and side, the labels (positions) of its towards
   * and away trials, and its D value.
   */
  datatype Pair = Pair(key: Key, pairType: PairType, towards: nat, away: nat, d: real)

  ghost predicate PlaysRole(rows: seq<Trial>, i: nat, k: Key, side: Dir, tip: Dir) {
    i < |rows| && KeyOf(rows[i]) == k && rows[i].faceSide == side && rows[i].tip == tip
  }

  /**
   * The labels of the rows of group `k` with the given `faceSide` and
   * `tip_direction`, in row order: `tube_df[(faceSide == side) & (tip_direction == tip)]`.
   */
  function RolePositions(rows: seq<Trial>, k: Key, side: Dir, tip: Dir): (r: seq<nat>)
    ensures forall a :: 0 <= a < |r| ==> r[a] < |rows|
  {
    if rows == [] then []
    else
      var n := |rows| - 1;
      var last := rows[n];
      RolePositions(rows[..n], k, side, tip) + (if KeyOf(last) == k && last.faceSide == side && last.tip == tip then [n] else [])
  }

  /** The role positions are exactly the rows playing the role, in ascending order. */
  lemma {:induction false} RolePositionsSpec(rows: seq<Trial>, k: Key, side: Dir, tip: Dir)
    ensures forall i: nat :: i in RolePositions(rows, k, side, tip) <==> PlaysRole(rows, i, k, side, tip)
    ensures forall a, b :: 0 <= a < b < |RolePositions(rows, k, side, tip)| ==>
              RolePositions(rows, k, side, tip)[a] < RolePositions(rows, k, side, tip)[b]
  {
    if rows != [] {
      var n := |rows| - 1;
      var p := rows[..n];
      RolePositionsSpec(p, k, side, tip);
      var rp := RolePositions(p, k, side, tip);
      var r := RolePositions(rows, k, side, tip);
      assert forall i :: 0 <= i < n ==> p[i] == rows[i];
      assert forall i: nat :: PlaysRole(p, i, k, side, tip) <==> i < n && PlaysRole(rows, i, k, side, tip);
      assert forall a :: 0 <= a < |rp| ==> r[a] == rp[a] < n;
    }
  }

  /** A role position count of one means exactly one row plays that role. */
  lemma {:induction false} SingleRole(rows: seq<Trial>, k: Key, side: Dir, tip: Dir)
    requires |RolePositions(rows, k, side, tip)| == 1
    ensures forall i: nat :: PlaysRole(rows, i, k, side, tip) <==> i == RolePositions(rows, k, side, tip)[0]
  {
    RolePositionsSpec(rows, k, side, tip);
    var r := RolePositions(rows, k, side, tip);
    assert r[0] in r;
  }

  /**
   * The pair of group `k` on side `pt`: it forms only when exactly one
   * towards and exactly one away trial exist and, when `checkValid`, both
   * are angle-valid; otherwise there is no pair and no error.
   */
  function PairFor(rows: seq<Trial>, k: Key, pt: PairType, f: DFormula, checkValid: bool): (r: Option<Pair>)
    ensures r.Some? ==> r.value.key == k && r.value.pairType == pt
  {
    var ts := RolePositions(rows, k, SideOf(pt), TowardsTip(pt));
    var aw := RolePositions(rows, k, SideOf(pt), AwayTip(pt));
    if |ts| == 1 && |aw| == 1 && (!checkValid || (rows[ts[0]].angleValid && rows[aw[0]].angleValid)) then
      Some(Pair(k, pt, ts[0], aw[0], DValue(f, rows[ts[0]].end, rows[aw[0]].end)))
    else None
  }

  /** A formed pair is the only towards trial and the only away trial of its slot, valid when checked, with its D. */
  lemma PairForSound(rows: seq<Trial>, k: Key, pt: PairType, f: DFormula, checkValid: bool)
    requires PairFor(rows, k, pt, f, checkValid).Some?
    ensures var p := PairFor(rows, k, pt, f, checkValid).value;
      && PlaysRole(rows, p.towards, k, SideOf(pt), TowardsTip(pt))
      && PlaysRole(rows, p.away, k, SideOf(pt), AwayTip(pt))
      && (forall i: nat :: PlaysRole(rows, i, k, SideOf(pt), TowardsTip(pt)) ==> i == p.towards)
      && (forall i: nat :: PlaysRole(rows, i, k, SideOf(pt), AwayTip(pt)) ==> i == p.away)
      && (checkValid ==> rows[p.towards].angleValid && rows[p.away].angleValid)
      && p.d == DValue(f, rows[p.towards].end, rows[p.away].end)
  {
    SingleRole(rows, k, SideOf(pt), TowardsTip(pt));
    SingleRole(rows, k, SideOf(pt), AwayTip(pt));
  }

  /** A formed pair's labels are rows of the table and its D is the formula applied to their end angles. */
  lemma PairForD(rows: seq<Trial>, k: Key, pt: PairType, f: DFormula, checkValid: bool)
    requires PairFor(rows, k, pt, f, checkValid).Some?
    ensures var p := PairFor(rows, k, pt, f, checkValid).value;
      p.towards < |rows| && p.away < |rows| && p.d == DValue(f, rows[p.towards].end, rows[p.away].end)
  {
  }

  /** Every pair over `ks` has labels inside the table and the formula's D of their end angles. */
  lemma {:induction false} PairsOverD(rows: seq<Trial>, ks: seq<Key>, f: DFormula, checkValid: bool)
    ensures forall p :: p in PairsOver(rows, ks, f, checkValid) ==>
              p.towards < |rows| && p.away < |rows| && p.d == DValue(f, rows[p.towards].end, rows[p.away].end)
  {
    if ks != [] {
      var init, k := ks[..|ks| - 1], ks[|ks| - 1];
      PairsOverD(rows, init, f, checkValid);
      var left, right := PairFor(rows, k, FaceLeft, f, checkValid), PairFor(rows, k, FaceRight, f, checkValid);
      if left.Some? {
        PairForD(rows, k, FaceLeft, f, checkValid);
      }
      if right.Some? {
        PairForD(rows, k, FaceRight, f, checkValid);
      }
      var done := PairsOver(rows, init, f, checkValid);
      assert PairsOver(rows, ks, f, checkValid) == done + (OptSeq(left) + OptSeq(right));
      forall p | p in done + (OptSeq(left) + OptSeq(right))
        ensures p.towards < |rows| && p.away < |rows| && p.d == DValue(f, rows[p.towards].end, rows[p.away].end)
      {
        if p !in done && p in OptSeq(left) {
          assert p == left.value;
        } else if p !in done {
          assert p == right.value;
        }
      }
    }
  }

  /** No pair forms exactly when a role is empty or duplicated, or (when checked) a trial is invalid. */
  lemma PairForMissing(rows: seq<Trial>, k: Key, pt: PairType, f: DFormula, checkValid: bool)
    ensures PairFor(rows, k, pt, f, checkValid).None? <==>
      || (forall i: nat :: !PlaysRole(rows, i, k, SideOf(pt), TowardsTip(pt)))
      || (forall i: nat :: !PlaysRole(rows, i, k, SideOf(pt), AwayTip(pt)))
      || (exists i: nat, j: nat :: i != j && PlaysRole(rows, i, k, SideOf(pt), TowardsTip(pt)) && PlaysRole(rows, j, k, SideOf(pt), TowardsTip(pt)))
      || (exists i: nat, j: nat :: i != j && PlaysRole(rows, i, k, SideOf(pt), AwayTip(pt)) && PlaysRole(rows, j, k, SideOf(pt), AwayTip(pt)))
      || (checkValid && exists i: nat :: (PlaysRole(rows, i, k, SideOf(pt), TowardsTip(pt)) || PlaysRole(rows, i, k, SideOf(pt), AwayTip(pt))) && !rows[i].angleValid)
  {
    var ts := RolePositions(rows, k, SideOf(pt), TowardsTip(pt));
    var aw := RolePositions(rows, k, SideOf(pt), AwayTip(pt));
    RoleCount(rows, k, SideOf(pt), TowardsTip(pt));
    RoleCount(rows, k, SideOf(pt), AwayTip(pt));
    if |ts| == 1 && |aw| == 1 {
      SingleRole(rows, k, SideOf(pt), TowardsTip(pt));
      SingleRole(rows, k, SideOf(pt), AwayTip(pt));
    }
  }

  /** A role is empty, single or duplicated exactly as its position list has length 0, 1 or more. */
  lemma RoleCount(rows: seq<Trial>, k: Key, side: Dir, tip: Dir)
    ensures var r := RolePositions(rows, k, side, tip);
      && (|r| == 0 <==> forall i: nat :: !PlaysRole(rows, i, k, side, tip))
      && (|r| >= 2 <==> exists i: nat, j: nat :: i != j && PlaysRole(rows, i, k, side, tip) && PlaysRole(rows, j, k, side, tip))
  {
    RolePositionsSpec(rows, k, side, tip);
    var r := RolePositions(rows, k, side, tip);
    if |r| > 0 {
      assert r[0] in r;
    }
    if |r| >= 2 {
      assert r[0] in r && r[1] in r;
    }
    if exists i: nat, j: nat :: i != j && PlaysRole(rows, i, k, side, tip) && PlaysRole(rows, j, k, side, tip) {
      var i: nat, j: nat :| i != j && PlaysRole(rows, i, k, side, tip) && PlaysRole(rows, j, k, side, tip);
      assert i in r && j in r;
    }
  }

  function OptSeq(o: Option<Pair>): seq<Pair> {
    if o.Some? then [o.value] else []
  }

  /** What one group contributes: its FaceLeft pair, then its FaceRight pair. */
  function GroupPairs(rows: seq<Trial>, k: Key, f: DFormula, checkValid: bool): seq<Pair> {
    OptSeq(PairFor(rows, k, FaceLeft, f, checkValid)) + OptSeq(PairFor(rows, k, FaceRight, f, checkValid))
  }

  /** Two pairs that share neither trial. */
  ghost predicate Disjoint(p: Pair, q: Pair) {
    p.towards != q.towards && p.towards != q.away && p.away != q.towards && p.away != q.away
  }

  /** No trial lies in two pairs, and no pair uses one trial twice. */
  ghost predicate TrialsUsedOnce(ps: seq<Pair>) {
    && (forall i :: 0 <= i < |ps| ==> ps[i].towards != ps[i].away)
    && (forall i, j :: 0 <= i < j < |ps| ==> Disjoint(ps[i], ps[j]))
  }

  /** The pairs of the groups `ks`, group after group. */
  function PairsOver(rows: seq<Trial>, ks: seq<Key>, f: DFormula, checkValid: bool): seq<Pair> {
    if ks == [] then []
    else PairsOver(rows, ks[..|ks| - 1], f, checkValid) + GroupPairs(rows, ks[|ks| - 1], f, checkValid)
  }

  /** The pairs over `ks` are exactly the pairs that form in the slots of the groups `ks`. */
  lemma {:induction false} PairsOverMembers(rows: seq<Trial>, ks: seq<Key>, f: DFormula, checkValid: bool)
    ensures forall p :: p in PairsOver(rows, ks, f, checkValid) ==> p.key in ks && PairFor(rows, p.key, p.pairType, f, checkValid) == Some(p)
    ensures forall k, pt :: k in ks && PairFor(rows, k, pt, f, checkValid).Some? ==> PairFor(rows, k, pt, f, checkValid).value in PairsOver(rows, ks, f, checkValid)
  {
    if ks != [] {
      var init := ks[..|ks| - 1];
      var k := ks[|ks| - 1];
      assert forall x :: x in ks <==> x in init || x == k;
      PairsOverMembers(rows, init, f, checkValid);
      GroupTrialsUsedOnce(rows, k, f, checkValid);
      forall pt | PairFor(rows, k, pt, f, checkValid).Some?
        ensures PairFor(rows, k, pt, f, checkValid).value in GroupPairs(rows, k, f, checkValid)
      {
      }
    }
  }

  /** Over distinct groups, no trial is used by two pairs. */
  lemma {:induction false} PairsOverUseTrialsOnce(rows: seq<Trial>, ks: seq<Key>, f: DFormula, checkValid: bool)
    requires NoDup(ks)
    ensures TrialsUsedOnce(PairsOver(rows, ks, f, checkValid))
  {
    if ks != [] {
      var init := ks[..|ks| - 1];
      var k := ks[|ks| - 1];
      assert NoDup(init) && k !in init;
      PairsOverUseTrialsOnce(rows, init, f, checkValid);
      PairsOverMembers(rows, init, f, checkValid);
      var before := PairsOver(rows, init, f, checkValid);
      var g := GroupPairs(rows, k, f, checkValid);
      GroupTrialsUsedOnce(rows, k, f, checkValid);
      forall p, q | p in before && q in g ensures Disjoint(p, q) {
        PairsOfDifferentSlotsDisjoint(rows, f, checkValid, p, q);
      }
      ConcatTrialsUsedOnce(before, g);
    }
  }

  lemma GroupTrialsUsedOnce(rows: seq<Trial>, k: Key, f: DFormula, checkValid: bool)
    ensures TrialsUsedOnce(GroupPairs(rows, k, f, checkValid))
    ensures forall q :: q in GroupPairs(rows, k, f, checkValid) ==> q.key == k && PairFor(rows, k, q.pairType, f, checkValid) == Some(q)
  {
    var l := PairFor(rows, k, FaceLeft, f, checkValid);
    var r := PairFor(rows, k, FaceRight, f, checkValid);
    var g := GroupPairs(rows, k, f, checkValid);
    if l.Some? {
      PairsOfDifferentSlotsDisjoint(rows, f, checkValid, l.value, l.value);
    }
    if r.Some? {
      PairsOfDifferentSlotsDisjoint(rows, f, checkValid, r.value, r.value);
    }
    if l.Some? && r.Some? {
      PairsOfDifferentSlotsDisjoint(rows, f, checkValid, l.value, r.value);
      assert g == [l.value, r.value];
    }
  }

  /**
   * A pair never uses one trial twice, and pairs of two different (group,
   * side) slots never share a trial: a row plays exactly one role.
   */
  lemma PairsOfDifferentSlotsDisjoint(rows: seq<Trial>, f: DFormula, checkValid: bool, p: Pair, q: Pair)
    requires PairFor(rows, p.key, p.pairType, f, checkValid) == Some(p)
    requires PairFor(rows, q.key, q.pairType, f, checkValid) == Some(q)
    ensures p.towards != p.away
    ensures p.key != q.key || p.pairType != q.pairType ==> Disjoint(p, q)
  {
    PairForSound(rows, p.key, p.pairType, f, checkValid);
    PairForSound(rows, q.key, q.pairType, f, checkValid);
  }

  lemma ConcatTrialsUsedOnce(a: seq<Pair>, b: seq<Pair>)
    requires TrialsUsedOnce(a) && TrialsUsedOnce(b)
    requires forall p, q :: p in a && q in b ==> Disjoint(p, q)
    ensures TrialsUsedOnce(a + b)
  {
    var c := a + b;
    forall i, j | 0 <= i < j < |c| ensures Disjoint(c[i], c[j]) {
      if j < |a| {
        assert c[i] == a[i] && c[j] == a[j];
      } else if i >= |a| {
        assert c[i] == b[i - |a|] && c[j] == b[j - |a|];
      } else {
        assert c[i] == a[i] && c[j] == b[j - |a|];
        assert a[i] in a && b[j - |a|] in b;
      }
    }
    forall i | 0 <= i < |c| ensures c[i].towards != c[i].away {
      if i < |a| { assert c[i] == a[i]; } else { assert c[i] == b[i - |a|]; }
    }
  }

  lemma PairsOverAppend(rows: seq<Trial>, ks: seq<Key>, k: Key, f: DFormula, checkValid: bool)
    ensures PairsOver(rows, ks + [k], f, checkValid) == PairsOver(rows, ks, f, checkValid) + GroupPairs(rows, k, f, checkValid)
  {
    assert (ks + [k])[..|ks|] == ks;
  }

  // ---- The group keys in the order of the three nested `unique()` loops ----

  /** `user_df['face_id']` for user `u`, in row order. */
  function FaceColumn(rows: seq<Trial>, u: int): seq<string> {
    if rows == [] then []
    else
      var last := rows[|rows| - 1];
      FaceColumn(rows[..|rows| - 1], u) + (if last.user == u then [last.face] else [])
  }

  lemma {:induction false} FaceColumnMembers(rows: seq<Trial>, u: int)
    ensures forall fc :: fc in FaceColumn(rows, u) <==> exists i :: 0 <= i < |rows| && rows[i].user == u && rows[i].face == fc
  {
    if rows != [] {
      var p := rows[..|rows| - 1];
      FaceColumnMembers(p, u);
      assert forall i :: 0 <= i < |p| ==> p[i] == rows[i];
    }
  }

  /** When the rows of user `u` are exactly those at `lo` up to `hi`, the face column of `u` lists their faces in row order. */
  lemma {:induction false} FaceColumnBlock(rows: seq<Trial>, u: int, lo: nat, hi: nat)
    requires lo <= hi <= |rows|
    requires forall i :: 0 <= i < |rows| ==> (rows[i].user == u <==> lo <= i < hi)
    ensures |FaceColumn(rows, u)| == hi - lo
    ensures forall j :: 0 <= j < hi - lo ==> FaceColumn(rows, u)[j] == rows[lo + j].face
  {
    if rows != [] {
      var n := |rows| - 1;
      var p := rows[..n];
      assert forall i :: 0 <= i < n ==> p[i] == rows[i];
      if rows[n].user == u {
        FaceColumnBlock(p, u, lo, n);
        assert FaceColumn(rows, u) == FaceColumn(p, u) + [rows[n].face];
      } else if hi <= n {
        FaceColumnBlock(p, u, lo, hi);
      } else {
        FaceColumnBlock(p, u, n, n);
      }
    }
  }

  /** `face_df['tubeTypeIndex']` for user `u` and face `fc`, in row order. */
  function TubeColumn(rows: seq<Trial>, u: int, fc: string): seq<int> {
    if rows == [] then []
    else
      var last := rows[|rows| - 1];
      TubeColumn(rows[..|rows| - 1], u, fc) + (if last.user == u && last.face == fc then [last.tube] else [])
  }

  lemma {:induction false} TubeColumnMembers(rows: seq<Trial>, u: int, fc: string)
    ensures forall t :: t in TubeColumn(rows, u, fc) <==> exists i :: 0 <= i < |rows| && KeyOf(rows[i]) == Key(u, fc, t)
  {
    if rows != [] {
      var p := rows[..|rows| - 1];
      TubeColumnMembers(p, u, fc);
      assert forall i :: 0 <= i < |p| ==> p[i] == rows[i];
    }
  }

  /** When the rows of user `u` and face `fc` are exactly those at `lo` up to `hi`, their tube column lists their tubes in row order. */
  lemma {:induction false} TubeColumnBlock(rows: seq<Trial>, u: int, fc: string, lo: nat, hi: nat)
    requires lo <= hi <= |rows|
    requires forall i :: 0 <= i < |rows| ==> (rows[i].user == u && rows[i].face == fc <==> lo <= i < hi)
    ensures |TubeColumn(rows, u, fc)| == hi - lo
    ensures forall j :: 0 <= j < hi - lo ==> TubeColumn(rows, u, fc)[j] == rows[lo + j].tube
  {
    if rows != [] {
      var n := |rows| - 1;
      var p := rows[..n];
      assert forall i :: 0 <= i < n ==> p[i] == rows[i];
      if rows[n].user == u && rows[n].face == fc {
        TubeColumnBlock(p, u, fc, lo, n);
        assert TubeColumn(rows, u, fc) == TubeColumn(p, u, fc) + [rows[n].tube];
      } else if hi <= n {
        TubeColumnBlock(p, u, fc, lo, hi);
      } else {
        TubeColumnBlock(p, u, fc, n, n);
      }
    }
  }

  function UserOrder(rows: seq<Trial>): seq<int> {
    Distinct(Users(rows))
  }

  function Faces(rows: seq<Trial>, u: int): seq<string> {
    Distinct(FaceColumn(rows, u))
  }

  function Tubes(rows: seq<Trial>, u: int, fc: string): seq<int> {
    Distinct(TubeColumn(rows, u, fc))
  }

  function TubeKeys(u: int, fc: string, ts: seq<int>): (r: seq<Key>)
    ensures forall k :: k in r <==> k.user == u && k.face == fc && k.tube in ts
    ensures NoDup(ts) ==> NoDup(r)
  {
    if ts == [] then []
    else
      var init := ts[..|ts| - 1];
      var t := ts[|ts| - 1];
      assert forall x :: x in ts <==> x in init || x == t;
      var before := TubeKeys(u, fc, init);
      assert NoDup(ts) ==> NoDup(before + [Key(u, fc, t)]) by {
        if NoDup(ts) {
          assert t !in init;
          NoDupConcat(before, [Key(u, fc, t)]);
        }
      }
      before + [Key(u, fc, t)]
  }

  function FaceKeys(rows: seq<Trial>, u: int, fs: seq<string>): seq<Key> {
    if fs == [] then []
    else FaceKeys(rows, u, fs[..|fs| - 1]) + TubeKeys(u, fs[|fs| - 1], Tubes(rows, u, fs[|fs| - 1]))
  }

  lemma {:induction false} FaceKeysMembers(rows: seq<Trial>, u: int, fs: seq<string>)
    ensures forall k :: k in FaceKeys(rows, u, fs) <==> k.user == u && k.face in fs && k.tube in Tubes(rows, u, k.face)
    ensures NoDup(fs) ==> NoDup(FaceKeys(rows, u, fs))
  {
    if fs != [] {
      var init := fs[..|fs| - 1];
      var fc := fs[|fs| - 1];
      assert forall x :: x in fs <==> x in init || x == fc;
      FaceKeysMembers(rows, u, init);
      var before := FaceKeys(rows, u, init);
      var g := TubeKeys(u, fc, Tubes(rows, u, fc));
      if NoDup(fs) {
        assert fc !in init;
        NoDupConcat(before, g);
      }
    }
  }

  function UserKeys(rows: seq<Trial>, us: seq<int>): (r: seq<Key>)
    ensures forall k :: k in r <==> k.user in us && k.face in Faces(rows, k.user) && k.tube in Tubes(rows, k.user, k.face)
    ensures NoDup(us) ==> NoDup(r)
  {
    if us == [] then []
    else
      var init := us[..|us| - 1];
      var u := us[|us| - 1];
      assert forall x :: x in us <==> x in init || x == u;
      var before := UserKeys(rows, init);
      var g := FaceKeys(rows, u, Faces(rows, u));
      FaceKeysMembers(rows, u, Faces(rows, u));
      assert NoDup(us) ==> NoDup(before + g) by {
        if NoDup(us) {
          assert u !in init;
          NoDupConcat(before, g);
        }
      }
      before + g
  }

  /** Every (user, face, tube) group of the table, once, in the order the nested loops visit them. */
  function GroupKeys(rows: seq<Trial>): (r: seq<Key>)
    ensures NoDup(r)
    ensures forall k :: k in r <==> exists i :: 0 <= i < |rows| && KeyOf(rows[i]) == k
  {
    var r := UserKeys(rows, UserOrder(rows));
    forall k ensures k in r <==> exists i :: 0 <= i < |rows| && KeyOf(rows[i]) == k {
      KeyHasRow(rows, k);
    }
    r
  }

  lemma KeyHasRow(rows: seq<Trial>, k: Key)
    ensures k.user in UserOrder(rows) && k.face in Faces(rows, k.user) && k.tube in Tubes(rows, k.user, k.face)
            <==> exists i :: 0 <= i < |rows| && KeyOf(rows[i]) == k
  {
    if exists i :: 0 <= i < |rows| && KeyOf(rows[i]) == k {
      var i :| 0 <= i < |rows| && KeyOf(rows[i]) == k;
      assert rows[i].user == k.user && rows[i].face == k.face;
    }
    UserInColumn(rows, k.user);
    FaceColumnMembers(rows, k.user);
    TubeColumnMembers(rows, k.user, k.face);
  }

  /** The pairs `balance_trials` forms. */
  function Balance(rows: seq<Trial>, f: DFormula): seq<Pair> {
    PairsOver(rows, GroupKeys(rows), f, true)
  }

  /** `used_indices`: the labels of both trials of every pair. */
  function UsedOf(ps: seq<Pair>): set<nat> {
    if ps == [] then {}
    else UsedOf(ps[..|ps| - 1]) + {ps[|ps| - 1].towards, ps[|ps| - 1].away}
  }

  /** A label is used exactly when it is the towards or the away trial of some pair. */
  lemma {:induction false} UsedOfMembers(ps: seq<Pair>)
    ensures forall x :: x in UsedOf(ps) <==> exists i :: 0 <= i < |ps| && (ps[i].towards == x || ps[i].away == x)
  {
    if ps != [] {
      var init := ps[..|ps| - 1];
      UsedOfMembers(init);
      assert forall i :: 0 <= i < |init| ==> init[i] == ps[i];
    }
  }

  /** Each pair adds exactly its two labels, so the used set has two labels per pair. */
  lemma {:induction false} UsedOfSize(ps: seq<Pair>)
    requires TrialsUsedOnce(ps)
    ensures |UsedOf(ps)| == 2 * |ps|
  {
    if ps != [] {
      var init := ps[..|ps| - 1];
      var last := ps[|ps| - 1];
      assert TrialsUsedOnce(init) by {
        assert forall i :: 0 <= i < |init| ==> init[i] == ps[i];
      }
      UsedOfSize(init);
      UsedOfMembers(init);
      assert last.towards !in UsedOf(init) && last.away !in UsedOf(init) by {
        forall i | 0 <= i < |init| ensures init[i].towards != last.towards && init[i].away != last.towards
          && init[i].towards != last.away && init[i].away != last.away
        {
          assert Disjoint(ps[i], ps[|ps| - 1]);
        }
      }
    }
  }

  /**
   * What `balance_trials` promises: every pair is the unique towards/away
   * match of its slot with both trials angle-valid; every such match is a
   * pair; no trial is in two pairs, so `used_indices` holds exactly two
   * labels per pair, all of angle-valid trials.
   */
  lemma {:induction false} BalanceSpec(rows: seq<Trial>, f: DFormula)
    ensures forall p :: p in Balance(rows, f) ==> PairFor(rows, p.key, p.pairType, f, true) == Some(p)
    ensures forall k, pt :: PairFor(rows, k, pt, f, true).Some? ==> PairFor(rows, k, pt, f, true).value in Balance(rows, f)
    ensures TrialsUsedOnce(Balance(rows, f))
    ensures |UsedOf(Balance(rows, f))| == 2 * |Balance(rows, f)|
    ensures UsedOf(Balance(rows, f)) <= ValidPositions(rows)
    ensures |UsedOf(Balance(rows, f))| <= CountValid(rows)
  {
    var ps := Balance(rows, f);
    forall k, pt | PairFor(rows, k, pt, f, true).Some? ensures k in GroupKeys(rows) {
      PairForSound(rows, k, pt, f, true);
      var p := PairFor(rows, k, pt, f, true).value;
      assert KeyOf(rows[p.towards]) == k;
    }
    PairsOverMembers(rows, GroupKeys(rows), f, true);
    PairsOverUseTrialsOnce(rows, GroupKeys(rows), f, true);
    UsedOfSize(ps);
    UsedOfMembers(ps);
    forall x | x in UsedOf(ps) ensures x in ValidPositions(rows) {
      var i :| 0 <= i < |ps| && (ps[i].towards == x || ps[i].away == x);
      assert ps[i] in ps;
      PairForSound(rows, ps[i].key, ps[i].pairType, f, true);
    }
    CountValidIsSetSize(rows);
    SubsetSize(UsedOf(ps), ValidPositions(rows));
  }

  /**
   * Over the keys of all rows, the pairs formed (checked or not) are exactly
   * the formed slot pairs, so the list is empty exactly when no slot forms a pair.
   */
  lemma AllSlotPairs(rows: seq<Trial>, f: DFormula, checkValid: bool)
    ensures forall p :: p in PairsOver(rows, GroupKeys(rows), f, checkValid) ==> PairFor(rows, p.key, p.pairType, f, checkValid) == Some(p)
    ensures forall k, pt :: PairFor(rows, k, pt, f, checkValid).Some? ==>
              PairFor(rows, k, pt, f, checkValid).value in PairsOver(rows, GroupKeys(rows), f, checkValid)
    ensures PairsOver(rows, GroupKeys(rows), f, checkValid) != [] <==> exists k, pt :: PairFor(rows, k, pt, f, checkValid).Some?
  {
    var ps := PairsOver(rows, GroupKeys(rows), f, checkValid);
    forall k, pt | PairFor(rows, k, pt, f, checkValid).Some? ensures k in GroupKeys(rows) {
      PairForSound(rows, k, pt, f, checkValid);
      var p := PairFor(rows, k, pt, f, checkValid).value;
      assert KeyOf(rows[p.towards]) == k;
    }
    PairsOverMembers(rows, GroupKeys(rows), f, checkValid);
    if ps != [] {
      assert ps[0] in ps;
    }
  }

  /**
   * `balance_trials` on a table whose columns may be missing: the loop reads
   * `angle_valid` only once a slot has one towards and one away trial, and
   * `end_angle` only once both of those are valid, so a missing column is a
   * `KeyError` only when the loop gets that far.
   */
  function BalanceTable(t: Table, f: DFormula): (r: Result<seq<Pair>>)
    ensures r.Failure? ==> r.error == MissingColumn("angle_valid") || r.error == MissingColumn("end_angle")
    ensures r.Success? ==> r.value == Balance(t.rows, f)
  {
    if !t.hasAngleValid && PairsOver(t.rows, GroupKeys(t.rows), f, false) != [] then Failure(MissingColumn("angle_valid"))
    else if t.hasAngleValid && !t.hasEnd && Balance(t.rows, f) != [] then Failure(MissingColumn("end_angle"))
    else if !t.hasAngleValid then
      assert Balance(t.rows, f) == [] by {
        AllSlotPairs(t.rows, f, false);
        AllSlotPairs(t.rows, f, true);
        forall k, pt ensures PairFor(t.rows, k, pt, f, true).None? {
          assert PairFor(t.rows, k, pt, f, false).None?;
        }
      }
      Success([])
    else Success(Balance(t.rows, f))
  }

  /** Which column is missing decides the error, and it is raised exactly when some slot reaches the read of it. */
  lemma BalanceTableErrors(t: Table, f: DFormula)
    ensures !t.hasAngleValid ==>
              (BalanceTable(t, f) == Failure(MissingColumn("angle_valid")) <==> exists k, pt :: PairFor(t.rows, k, pt, f, false).Some?)
    ensures t.hasAngleValid && !t.hasEnd ==>
              (BalanceTable(t, f) == Failure(MissingColumn("end_angle")) <==> exists k, pt :: PairFor(t.rows, k, pt, f, true).Some?)
    ensures t.hasAngleValid && t.hasEnd ==> BalanceTable(t, f).Success?
  {
    AllSlotPairs(t.rows, f, false);
    AllSlotPairs(t.rows, f, true);
  }

  /** The same pairs with each D replaced by its magnitude. */
  function WithAbsoluteD(ps: seq<Pair>): (r: seq<Pair>)
    ensures |r| == |ps| && forall i :: 0 <= i < |ps| ==> r[i] == ps[i].(d := Abs(ps[i].d))
  {
    seq(|ps|, i requires 0 <= i < |ps| => ps[i].(d := Abs(ps[i].d)))
  }

  lemma WithAbsoluteDConcat(a: seq<Pair>, b: seq<Pair>)
    ensures WithAbsoluteD(a + b) == WithAbsoluteD(a) + WithAbsoluteD(b)
  {
  }

  /** One slot under both formulas: the same pair or none, D of the absolute variant the magnitude of the signed one. */
  lemma SlotFormulas(rows: seq<Trial>, k: Key, pt: PairType, checkValid: bool)
    ensures OptSeq(PairFor(rows, k, pt, AbsoluteD, checkValid)) == WithAbsoluteD(OptSeq(PairFor(rows, k, pt, SignedD, checkValid)))
  {
    var ts := RolePositions(rows, k, SideOf(pt), TowardsTip(pt));
    var aw := RolePositions(rows, k, SideOf(pt), AwayTip(pt));
    if |ts| == 1 && |aw| == 1 {
      DFormulasRelated(rows[ts[0]].end, rows[aw[0]].end);
    }
  }

  lemma GroupFormulas(rows: seq<Trial>, k: Key, checkValid: bool)
    ensures GroupPairs(rows, k, AbsoluteD, checkValid) == WithAbsoluteD(GroupPairs(rows, k, SignedD, checkValid))
  {
    SlotFormulas(rows, k, FaceLeft, checkValid);
    SlotFormulas(rows, k, FaceRight, checkValid);
    WithAbsoluteDConcat(OptSeq(PairFor(rows, k, FaceLeft, SignedD, checkValid)), OptSeq(PairFor(rows, k, FaceRight, SignedD, checkValid)));
  }

  /**
   * The absolute and the signed variants of the pairing loop form the same
   * pairs from the same trials in the same order; only the sign of D differs.
   */
  lemma {:induction false} FormulasPairAlike(rows: seq<Trial>, ks: seq<Key>, checkValid: bool)
    ensures PairsOver(rows, ks, AbsoluteD, checkValid) == WithAbsoluteD(PairsOver(rows, ks, SignedD, checkValid))
  {
    if ks != [] {
      var init := ks[..|ks| - 1];
      var k := ks[|ks| - 1];
      FormulasPairAlike(rows, init, checkValid);
      GroupFormulas(rows, k, checkValid);
      WithAbsoluteDConcat(PairsOver(rows, init, SignedD, checkValid), GroupPairs(rows, k, SignedD, checkValid));
    }
  }

  /** `balance_trials` with either D formula: the same pairs, D of the absolute variant the magnitude of the signed one. */
  lemma BalanceFormulas(rows: seq<Trial>)
    ensures Balance(rows, AbsoluteD) == WithAbsoluteD(Balance(rows, SignedD))
  {
    FormulasPairAlike(rows, GroupKeys(rows), true);
  }

  /** With the signed formula every D is the towards magnitude minus the away magnitude, so it can be negative. */
  lemma SignedBalanceD(rows: seq<Trial>)
    ensures forall p :: p in Balance(rows, SignedD) ==>
              p.towards < |rows| && p.away < |rows| && p.d == Abs(rows[p.towards].end) - Abs(rows[p.away].end)
  {
    PairsOverD(rows, GroupKeys(rows), SignedD, true);
  }

  lemma SubsetSize(a: set<nat>, b: set<nat>)
    requires a <= b
    ensures |a| <= |b|
  {
    assert b == a + (b - a);
  }

  lemma UsedOfAppend(ps: seq<Pair>, p: Pair)
    ensures UsedOf(ps + [p]) == UsedOf(ps) + {p.towards, p.away}
  {
    assert (ps + [p])[..|ps|] == ps;
  }

  /**
   * One of the two pair blocks of the loop body: select the towards and the
   * away trials of the slot and form the pair when each is unique and both
   * are angle-valid.
   */
  method TryPair(rows: seq<Trial>, k: Key, pt: PairType, f: DFormula) returns (o: Option<Pair>)
    ensures o == PairFor(rows, k, pt, f, true)
  {
    var towards := RolePositions(rows, k, SideOf(pt), TowardsTip(pt));
    var away := RolePositions(rows, k, SideOf(pt), AwayTip(pt));
    o := None;
    if |towards| == 1 && |away| == 1 {
      var t, a := rows[towards[0]], rows[away[0]];
      if t.angleValid && a.angleValid {
        o := Some(Pair(k, pt, towards[0], away[0], DValue(f, t.end, a.end)));
      }
    }
  }

  /** The body of the innermost loop: try the FaceLeft pair, then the FaceRight pair, of group `k`. */
  method AddGroupPairs(rows: seq<Trial>, k: Key, f: DFormula, pairs: seq<Pair>, used: set<nat>)
    returns (pairs': seq<Pair>, used': set<nat>)
    requires used == UsedOf(pairs)
    ensures pairs' == pairs + GroupPairs(rows, k, f, true)
    ensures used' == UsedOf(pairs')
  {
    var left := TryPair(rows, k, FaceLeft, f);
    var right := TryPair(rows, k, FaceRight, f);
    var mid := pairs + OptSeq(left);
    var midUsed := used;
    if left.Some? {
      UsedOfAppend(pairs, left.value);
      midUsed := used + {left.value.towards, left.value.away};
    }
    assert left.None? ==> mid == pairs;
    pairs' := mid + OptSeq(right);
    used' := midUsed;
    if right.Some? {
      UsedOfAppend(mid, right.value);
      used' := midUsed + {right.value.towards, right.value.away};
    }
    assert right.None? ==> pairs' == mid;
    assert pairs' == pairs + (OptSeq(left) + OptSeq(right));
  }

  lemma AppendAssoc<T>(a: seq<T>, b: seq<T>, c: seq<T>)
    ensures (a + b) + c == a + (b + c)
  {
  }

  lemma {:induction false} PairsOverConcat(rows: seq<Trial>, a: seq<Key>, b: seq<Key>, f: DFormula, checkValid: bool)
    ensures PairsOver(rows, a + b, f, checkValid) == PairsOver(rows, a, f, checkValid) + PairsOver(rows, b, f, checkValid)
  {
    if b != [] {
      var init, last := b[..|b| - 1], b[|b| - 1];
      PairsOverConcat(rows, a, init, f, checkValid);
      assert (a + b)[..|a + b| - 1] == a + init;
      assert (a + b)[|a + b| - 1] == last;
      var pa, pi, g := PairsOver(rows, a, f, checkValid), PairsOver(rows, init, f, checkValid), GroupPairs(rows, last, f, checkValid);
      calc {
        PairsOver(rows, a + b, f, checkValid);
        PairsOver(rows, a + init, f, checkValid) + g;
        (pa + pi) + g;
        { AppendAssoc(pa, pi, g); }
        pa + (pi + g);
      }
    } else {
      assert a + b == a;
    }
  }

  /** The innermost loop of `balance_trials`: the tubes of user `u` and face `fc`. */
  method PairTubes(rows: seq<Trial>, u: int, fc: string, f: DFormula, pairs: seq<Pair>, used: set<nat>)
    returns (pairs': seq<Pair>, used': set<nat>)
    requires used == UsedOf(pairs)
    ensures pairs' == pairs + PairsOver(rows, TubeKeys(u, fc, Tubes(rows, u, fc)), f, true)
    ensures used' == UsedOf(pairs')
  {
    var tubes := Tubes(rows, u, fc);
    pairs', used' := pairs, used;
    var l := 0;
    while l < |tubes|
      invariant 0 <= l <= |tubes|
      invariant pairs' == pairs + PairsOver(rows, TubeKeys(u, fc, tubes[..l]), f, true)
      invariant used' == UsedOf(pairs')
    {
      pairs', used' := PairTube(rows, u, fc, tubes, l, f, pairs, pairs', used');
      l := l + 1;
    }
    assert tubes[..l] == tubes;
  }

  /** The body of the tube loop: the group of tube `tubes[l]`. */
  method PairTube(rows: seq<Trial>, u: int, fc: string, tubes: seq<int>, l: nat, f: DFormula, pairs: seq<Pair>, acc: seq<Pair>, used: set<nat>)
    returns (pairs': seq<Pair>, used': set<nat>)
    requires l < |tubes|
    requires acc == pairs + PairsOver(rows, TubeKeys(u, fc, tubes[..l]), f, true)
    requires used == UsedOf(acc)
    ensures pairs' == pairs + PairsOver(rows, TubeKeys(u, fc, tubes[..l + 1]), f, true)
    ensures used' == UsedOf(pairs')
  {
    pairs', used' := AddGroupPairs(rows, Key(u, fc, tubes[l]), f, acc, used);
    TubeLoopStep(rows, u, fc, tubes, l, f, pairs, acc);
  }

  /** The middle loop of `balance_trials`: the faces of user `u`. */
  method PairFaces(rows: seq<Trial>, u: int, f: DFormula, pairs: seq<Pair>, used: set<nat>)
    returns (pairs': seq<Pair>, used': set<nat>)
    requires used == UsedOf(pairs)
    ensures pairs' == pairs + PairsOver(rows, FaceKeys(rows, u, Faces(rows, u)), f, true)
    ensures used' == UsedOf(pairs')
  {
    var faces := Faces(rows, u);
    pairs', used' := pairs, used;
    var j := 0;
    while j < |faces|
      invariant 0 <= j <= |faces|
      invariant pairs' == pairs + PairsOver(rows, FaceKeys(rows, u, faces[..j]), f, true)
      invariant used' == UsedOf(pairs')
    {
      ghost var acc := pairs';
      pairs', used' := PairTubes(rows, u, faces[j], f, pairs', used');
      FaceLoopStep(rows, u, faces, j, f, pairs, acc);
      j := j + 1;
    }
    assert faces[..j] == faces;
  }

  /**
   * `balance_trials`: the three nested loops over users, faces and tubes, each
   * group trying a FaceLeft and then a FaceRight pair, appending to the pair
   * list and adding both labels to `used_indices`.
   */
  method BalanceTrials(rows: seq<Trial>, f: DFormula) returns (pairs: seq<Pair>, used: set<nat>)
    ensures pairs == Balance(rows, f)
    ensures used == UsedOf(pairs)
  {
    pairs, used := [], {};
    var users := UserOrder(rows);
    var i := 0;
    while i < |users|
      invariant 0 <= i <= |users|
      invariant pairs == PairsOver(rows, UserKeys(rows, users[..i]), f, true)
      invariant used == UsedOf(pairs)
    {
      ghost var acc := pairs;
      pairs, used := PairFaces(rows, users[i], f, pairs, used);
      UserLoopStep(rows, users, i, f, acc);
      i := i + 1;
    }
    assert users[..i] == users;
  }

  /** One iteration of the tube loop extends the pairs by the next tube's group. */
  lemma TubeLoopStep(rows: seq<Trial>, u: int, fc: string, tubes: seq<int>, l: nat, f: DFormula, pairs: seq<Pair>, acc: seq<Pair>)
    requires l < |tubes|
    requires acc == pairs + PairsOver(rows, TubeKeys(u, fc, tubes[..l]), f, true)
    ensures acc + GroupPairs(rows, Key(u, fc, tubes[l]), f, true) == pairs + PairsOver(rows, TubeKeys(u, fc, tubes[..l + 1]), f, true)
  {
    var keys := TubeKeys(u, fc, tubes[..l]);
    var k := Key(u, fc, tubes[l]);
    TubeKeysStep(u, fc, tubes, l);
    PairsOverAppend(rows, keys, k, f, true);
    AppendAssoc(pairs, PairsOver(rows, keys, f, true), GroupPairs(rows, k, f, true));
  }

  /** One iteration of the face loop extends the pairs by the next face's tubes. */
  lemma FaceLoopStep(rows: seq<Trial>, u: int, faces: seq<string>, j: nat, f: DFormula, pairs: seq<Pair>, acc: seq<Pair>)
    requires j < |faces|
    requires acc == pairs + PairsOver(rows, FaceKeys(rows, u, faces[..j]), f, true)
    ensures acc + PairsOver(rows, TubeKeys(u, faces[j], Tubes(rows, u, faces[j])), f, true) ==
            pairs + PairsOver(rows, FaceKeys(rows, u, faces[..j + 1]), f, true)
  {
    var before := FaceKeys(rows, u, faces[..j]);
    var g := TubeKeys(u, faces[j], Tubes(rows, u, faces[j]));
    FaceKeysStep(rows, u, faces, j);
    PairsOverConcat(rows, before, g, f, true);
    AppendAssoc(pairs, PairsOver(rows, before, f, true), PairsOver(rows, g, f, true));
  }

  /** One iteration of the user loop extends the pairs by the next user's faces. */
  lemma UserLoopStep(rows: seq<Trial>, users: seq<int>, i: nat, f: DFormula, acc: seq<Pair>)
    requires i < |users|
    requires acc == PairsOver(rows, UserKeys(rows, users[..i]), f, true)
    ensures acc + PairsOver(rows, FaceKeys(rows, users[i], Faces(rows, users[i])), f, true) ==
            PairsOver(rows, UserKeys(rows, users[..i + 1]), f, true)
  {
    UserKeysStep(rows, users, i);
    PairsOverConcat(rows, UserKeys(rows, users[..i]), FaceKeys(rows, users[i], Faces(rows, users[i])), f, true);
  }

  lemma TubeKeysStep(u: int, fc: string, ts: seq<int>, l: nat)
    requires l < |ts|
    ensures TubeKeys(u, fc, ts[..l + 1]) == TubeKeys(u, fc, ts[..l]) + [Key(u, fc, ts[l])]
  {
    assert ts[..l + 1][..l] == ts[..l];
  }

  lemma FaceKeysStep(rows: seq<Trial>, u: int, fs: seq<string>, j: nat)
    requires j < |fs|
    ensures FaceKeys(rows, u, fs[..j + 1]) == FaceKeys(rows, u, fs[..j]) + TubeKeys(u, fs[j], Tubes(rows, u, fs[j]))
  {
    assert fs[..j + 1][..j] == fs[..j];
  }

  lemma UserKeysStep(rows: seq<Trial>, us: seq<int>, i: nat)
    requires i < |us|
    ensures UserKeys(rows, us[..i + 1]) == UserKeys(rows, us[..i]) + FaceKeys(rows, us[i], Faces(rows, us[i]))
  {
    assert us[..i + 1][..i] == us[..i];
  }
}
