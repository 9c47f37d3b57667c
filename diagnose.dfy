// The diagnosis of trials that balancing left unpaired: for a trial at a
// given position, the role its partner must have (same face side, the
// other tip direction) and what a search for that partner in the trial's
// group finds.
module Diagnose {
  import opened Records
  import opened Processing
  import opened Balancing
  import Investigate

  /** The positions the script looks at. */
  const DiagnosedPositions: seq<nat> := [0, 1, 11, 21, 46]

  /** The other tip direction. */
  function Flip(d: Dir): Dir {
    match d
    case Left => Right
    case Right => Left
    case OtherDir => OtherDir
  }

  /**
   * The if/elif chain: for each of the four (face side, tip direction)
   * combinations, the partner keeps the face side and flips the tip; any
   * other combination matches no branch.
   */
  function PartnerRole(side: Dir, tip: Dir): (r: Option<(Dir, Dir)>)
    ensures r.Some? <==> side != OtherDir && tip != OtherDir
    ensures r.Some? ==> r.value == (side, Flip(tip)) && Flip(tip) != tip
  {
    match (side, tip)
    case (Left, Left) => Some((Left, Right))
    case (Left, Right) => Some((Left, Left))
    case (Right, Right) => Some((Right, Left))
    case (Right, Left) => Some((Right, Right))
    case _ => None
  }

  /** The partner of the partner is the trial's own role. */
  lemma PartnerInvolution(side: Dir, tip: Dir)
    requires PartnerRole(side, tip).Some?
    ensures PartnerRole(PartnerRole(side, tip).value.0, PartnerRole(side, tip).value.1) == Some((side, tip))
  {
  }

  /** A towards trial's partner is the away role of its side, and an away trial's partner the towards role. */
  lemma PartnerIsOtherRole(pt: PairType)
    ensures PartnerRole(SideOf(pt), TowardsTip(pt)) == Some((SideOf(pt), AwayTip(pt)))
    ensures PartnerRole(SideOf(pt), AwayTip(pt)) == Some((SideOf(pt), TowardsTip(pt)))
  {
  }

  /** What the search for the partner finds. */
  datatype Verdict = NotFound | Multiple(count: nat) | Found(partner: nat, partnerValid: bool)

  /** The partner search over the trial's user, face and tube and the partner role, classified by its size. */
  function Classify(rows: seq<Trial>, k: Key, side: Dir, tip: Dir): (v: Verdict)
    ensures v.Multiple? ==> v.count == |RolePositions(rows, k, side, tip)| > 1
    ensures v.Found? ==> v.partner < |rows| && v.partnerValid == rows[v.partner].angleValid
  {
    var ps := RolePositions(rows, k, side, tip);
    if |ps| == 0 then NotFound
    else if |ps| > 1 then Multiple(|ps|)
    else Found(ps[0], rows[ps[0]].angleValid)
  }

  /** No candidate, two or more, or exactly one, which is then the only trial of that role in the group. */
  lemma ClassifySpec(rows: seq<Trial>, k: Key, side: Dir, tip: Dir)
    ensures Classify(rows, k, side, tip) == NotFound <==> forall i: nat :: !PlaysRole(rows, i, k, side, tip)
    ensures Classify(rows, k, side, tip).Multiple? <==>
              exists i: nat, j: nat :: i != j && PlaysRole(rows, i, k, side, tip) && PlaysRole(rows, j, k, side, tip)
    ensures Classify(rows, k, side, tip).Found? ==>
              forall i: nat :: PlaysRole(rows, i, k, side, tip) <==> i == Classify(rows, k, side, tip).partner
  {
    RoleCount(rows, k, side, tip);
    if |RolePositions(rows, k, side, tip)| == 1 {
      SingleRole(rows, k, side, tip);
    }
  }

  /** One diagnosed trial: its position, the partner role searched for, and the verdict. */
  datatype Diagnosis = Diagnosis(position: nat, partnerSide: Dir, partnerTip: Dir, verdict: Verdict)

  /**
   * One iteration of the loop. `iloc` past the end raises `IndexError`. A
   * trial outside the four combinations assigns no partner role, so the
   * role of an earlier iteration (`previous`) is searched for again, and on
   * the first iteration `pair_type` is unbound.
   */
  function DiagnoseAt(rows: seq<Trial>, position: nat, previous: Option<(Dir, Dir)>): (r: Result<Diagnosis>)
    ensures position >= |rows| ==> r == Failure(IndexOutOfRange(position))
    ensures position < |rows| && PartnerRole(rows[position].faceSide, rows[position].tip).None? && previous.None? ==>
              r == Failure(UnboundName("pair_type"))
    ensures r.Success? ==> position < |rows| && r.value.position == position
    ensures r.Success? && PartnerRole(rows[position].faceSide, rows[position].tip).Some? ==>
              (r.value.partnerSide, r.value.partnerTip) == PartnerRole(rows[position].faceSide, rows[position].tip).value
    ensures r.Success? && PartnerRole(rows[position].faceSide, rows[position].tip).None? ==>
              Some((r.value.partnerSide, r.value.partnerTip)) == previous
    ensures r.Success? ==> r.value.verdict == Classify(rows, KeyOf(rows[position]), r.value.partnerSide, r.value.partnerTip)
  {
    if position >= |rows| then Failure(IndexOutOfRange(position))
    else
      var trial := rows[position];
      var role := if PartnerRole(trial.faceSide, trial.tip).Some? then PartnerRole(trial.faceSide, trial.tip) else previous;
      if role.None? then Failure(UnboundName("pair_type"))
      else Success(Diagnosis(position, role.value.0, role.value.1, Classify(rows, KeyOf(trial), role.value.0, role.value.1)))
  }

  /** The loop: each iteration diagnoses one position, carrying the last partner role forward; the first failure stops it. */
  function DiagnoseAll(rows: seq<Trial>, positions: seq<nat>, previous: Option<(Dir, Dir)>): (r: Result<seq<Diagnosis>>)
    ensures r.Success? ==> |r.value| == |positions|
    ensures r.Success? ==> forall i :: 0 <= i < |positions| ==> r.value[i].position == positions[i] < |rows|
    ensures (exists i :: 0 <= i < |positions| && positions[i] >= |rows|) ==> r.Failure?
    ensures r.Success? ==> forall i :: 0 <= i < |positions| ==>
              r.value[i].verdict == Classify(rows, KeyOf(rows[positions[i]]), r.value[i].partnerSide, r.value[i].partnerTip)
    ensures r.Success? ==> forall i :: 0 <= i < |positions| && PartnerRole(rows[positions[i]].faceSide, rows[positions[i]].tip).Some? ==>
              (r.value[i].partnerSide, r.value[i].partnerTip) == PartnerRole(rows[positions[i]].faceSide, rows[positions[i]].tip).value
    ensures r.Success? ==> forall i :: 0 < i < |positions| && PartnerRole(rows[positions[i]].faceSide, rows[positions[i]].tip).None? ==>
              (r.value[i].partnerSide, r.value[i].partnerTip) == (r.value[i - 1].partnerSide, r.value[i - 1].partnerTip)
    ensures r.Success? && |positions| > 0 && PartnerRole(rows[positions[0]].faceSide, rows[positions[0]].tip).None? ==>
              Some((r.value[0].partnerSide, r.value[0].partnerTip)) == previous
    decreases |positions|
  {
    if positions == [] then Success([])
    else
      match DiagnoseAt(rows, positions[0], previous)
      case Failure(e) => Failure(e)
      case Success(d) =>
        match DiagnoseAll(rows, positions[1..], Some((d.partnerSide, d.partnerTip)))
        case Failure(e) => Failure(e)
        case Success(ds) => Success([d] + ds)
  }

  /** The script: the sighted trials with the end angle and the (3, 40) verdict, diagnosed at the fixed positions. */
  function DiagnoseScript(t: Table): Result<seq<Diagnosis>> {
    DiagnoseAll(Investigate.Prepared(t).rows, DiagnosedPositions, None)
  }

  /**
   * The closing advice holds: an angle-valid trial that balancing left
   * unpaired and that is the only trial of its role has a partner search
   * that finds nothing, finds several trials, or finds one that is not
   * angle-valid.
   */
  lemma UnpairedValidTrialExplained(rows: seq<Trial>, i: nat, pt: PairType, f: DFormula)
    requires i < |rows| && rows[i].angleValid
    requires rows[i].faceSide == SideOf(pt) && (rows[i].tip == TowardsTip(pt) || rows[i].tip == AwayTip(pt))
    requires |RolePositions(rows, KeyOf(rows[i]), rows[i].faceSide, rows[i].tip)| == 1
    requires i !in UsedOf(Balance(rows, f))
    ensures var role := PartnerRole(rows[i].faceSide, rows[i].tip).value;
      var v := Classify(rows, KeyOf(rows[i]), role.0, role.1);
      v == NotFound || v.Multiple? || (v.Found? && !v.partnerValid)
  {
    var k := KeyOf(rows[i]);
    var role := PartnerRole(rows[i].faceSide, rows[i].tip).value;
    var v := Classify(rows, k, role.0, role.1);
    PartnerIsOtherRole(pt);
    if v.Found? && v.partnerValid {
      var ts := RolePositions(rows, k, SideOf(pt), TowardsTip(pt));
      var aw := RolePositions(rows, k, SideOf(pt), AwayTip(pt));
      assert |ts| == 1 && |aw| == 1;
      SingleRole(rows, k, SideOf(pt), TowardsTip(pt));
      SingleRole(rows, k, SideOf(pt), AwayTip(pt));
      assert PlaysRole(rows, i, k, rows[i].faceSide, rows[i].tip);
      assert rows[ts[0]].angleValid && rows[aw[0]].angleValid;
      PairedTrialsUsed(rows, k, pt, f);
      assert false;
    }
  }

  /** Both trials of a formed slot pair are in `used_indices`. */
  lemma PairedTrialsUsed(rows: seq<Trial>, k: Key, pt: PairType, f: DFormula)
    requires PairFor(rows, k, pt, f, true).Some?
    ensures PairFor(rows, k, pt, f, true).value.towards in UsedOf(Balance(rows, f))
    ensures PairFor(rows, k, pt, f, true).value.away in UsedOf(Balance(rows, f))
  {
    var p := PairFor(rows, k, pt, f, true).value;
    BalanceSpec(rows, f);
    UsedOfMembers(Balance(rows, f));
    var j :| 0 <= j < |Balance(rows, f)| && Balance(rows, f)[j] == p;
  }
}
