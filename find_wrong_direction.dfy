// Trials tilted against the instruction: with the end-angle rule a trial
// tilted the other way has a negative end angle. The listing script shows
// the first five of them, or says that there are none.
module WrongDirection {
  import opened Records
  import opened Processing

  /** The most rows the listing shows. */
  const ShownLimit := 5

  /** The sighted trials (when the column exists) with `end_angle` written. */
  function WithEndAngles(t: Table): (r: Table)
    ensures r.hasEnd && |r.rows| == |SightedOnly(t).rows|
  {
    TransformAngles(SightedOnly(t))
  }

  /** `df[df['end_angle'] < 0]`: the wrong-direction trials, in order. */
  function WrongRows(rows: seq<Trial>): (r: seq<Trial>)
    ensures |r| <= |rows|
  {
    if rows == [] then []
    else
      var p := WrongRows(rows[..|rows| - 1]);
      if rows[|rows| - 1].end < 0.0 then p + [rows[|rows| - 1]] else p
  }

  /** The selection keeps table order and repeats: row by row, a row is kept exactly when its end angle is negative. */
  lemma {:induction false} WrongRowsConcat(a: seq<Trial>, b: seq<Trial>, x: Trial)
    ensures WrongRows(a + b) == WrongRows(a) + WrongRows(b)
    ensures WrongRows([x]) == (if x.end < 0.0 then [x] else [])
  {
    if b != [] {
      var n := |b| - 1;
      WrongRowsConcat(a, b[..n], x);
      assert (a + b)[..|a + b| - 1] == a + b[..n];
    } else {
      assert a + b == a;
    }
    assert [x][..0] == [];
  }

  /** The selection keeps exactly the trials with a negative end angle, none twice. */
  lemma {:induction false} WrongRowsSpec(rows: seq<Trial>)
    ensures forall x :: x in WrongRows(rows) <==> x in rows && x.end < 0.0
    ensures multiset(WrongRows(rows)) <= multiset(rows)
  {
    if rows != [] {
      var p := rows[..|rows| - 1];
      WrongRowsSpec(p);
      assert rows == p + [rows[|rows| - 1]];
    }
  }

  /** The direction the subject actually tilted, read off the raw angle as the explanation prints it. */
  function TiltOf(raw: real): Dir {
    if raw < 0.0 then Left else Right
  }

  /**
   * Under the end-angle rule, a trial instructed to tilt left has a negative
   * end angle exactly when its raw angle is positive, one instructed to tilt
   * right exactly when its raw angle is negative; either way it tilted the
   * other way.
   */
  lemma WrongDirectionMeaning(tip: Dir, raw: real)
    ensures tip == Left ==> (EndAngle(tip, raw) < 0.0 <==> raw > 0.0)
    ensures tip == Right ==> (EndAngle(tip, raw) < 0.0 <==> raw < 0.0)
    ensures tip != OtherDir && EndAngle(tip, raw) < 0.0 ==> TiltOf(raw) != tip
  {
  }

  /** A wrong-direction trial fails the angle rule for every lower bound of 0 or more. */
  lemma WrongDirectionIsInvalid(end: real, minAngle: real, maxAngle: real)
    requires end < 0.0 && minAngle >= 0.0
    ensures !AngleValid(end, minAngle, maxAngle)
  {
  }

  /** What the listing prints: the first rows of the selection, or that there are none. */
  datatype Listing = Shown(total: nat, rows: seq<Trial>) | NoneFound

  /** `wrong_direction.head(5)` when the selection is not empty. */
  function ListWrong(t: Table): (r: Listing)
    ensures var w := WrongRows(WithEndAngles(t).rows);
      && (r.NoneFound? <==> w == [])
      && (r.Shown? ==> r.total == |w| && |r.rows| == (if |w| < ShownLimit then |w| else ShownLimit) && r.rows == w[..|r.rows|])
  {
    var w := WrongRows(WithEndAngles(t).rows);
    if w == [] then NoneFound
    else Shown(|w|, w[..if |w| < ShownLimit then |w| else ShownLimit])
  }

  /** Every listed trial is a sighted trial (when that column exists) tilted against its instruction. */
  lemma ListedAreWrong(t: Table)
    ensures ListWrong(t).Shown? ==> forall x :: x in ListWrong(t).rows ==>
              && x.end < 0.0
              && x.end == EndAngle(x.tip, x.raw)
              && (t.hasSightType ==> x.sightType == "sighted")
              && (x.tip != OtherDir ==> TiltOf(x.raw) != x.tip)
  {
    var s := SightedOnly(t);
    var e := WithEndAngles(t);
    var w := WrongRows(e.rows);
    WrongRowsSpec(e.rows);
    SightedOnlySpec(t);
    if ListWrong(t).Shown? {
      forall x | x in ListWrong(t).rows
        ensures x.end < 0.0 && x.end == EndAngle(x.tip, x.raw)
        ensures t.hasSightType ==> x.sightType == "sighted"
        ensures x.tip != OtherDir ==> TiltOf(x.raw) != x.tip
      {
        assert x in w;
        var i :| 0 <= i < |e.rows| && e.rows[i] == x;
        assert s.rows[i] in s.rows;
        WrongDirectionMeaning(x.tip, x.raw);
      }
    }
  }
}
