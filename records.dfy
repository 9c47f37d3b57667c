// The trial record, the table that holds trials, and the small sequence
// utilities (distinct values in first-appearance order, sorted distinct
// integers, counting) that the pandas expressions of the pipeline rely on.
module Records {

  datatype Option<T> = None | Some(value: T)

  /** Errors the Python code raises (or would raise) on the paths modelled. */
  datatype Error =
    | MissingColumn(column: string)   // pandas KeyError, or the explicit ValueError naming a column
    | BadArgument                     // ValueError("Data must be a file path or pandas DataFrame")
    | MissingAttribute(name: string)  // AttributeError: a method the object does not have
    | UnboundName(name: string)       // NameError: a local read before any assignment
    | IndexOutOfRange(index: int)     // IndexError from a positional `iloc` lookup
    | DivisionByZero                  // ZeroDivisionError

  datatype Result<T> = Success(value: T) | Failure(error: Error)

  /** The value of a `faceSide` or `tip_direction` cell: 'left', 'right', or anything else. */
  datatype Dir = Left | Right | OtherDir

  /**
   * One row of the trial table. `end`, `angleValid` and `subjectValid` are
   * the derived columns; their values mean something only when the table
   * says the column exists.
   */
  datatype Trial = Trial(
    user: int,          // user_number
    face: string,       // face_id
    tube: int,          // tubeTypeIndex
    faceSide: Dir,      // faceSide
    tip: Dir,           // tip_direction
    raw: real,          // raw_angle
    end: real,          // end_angle
    angleValid: bool,   // angle_valid
    subjectValid: bool, // subject_valid
    sightType: string   // sightType
  )

  /**
   * A DataFrame of trials: its rows, in index order, and which of the
   * optional columns exist. A row's label is its position in `rows`.
   */
  datatype Table = Table(
    rows: seq<Trial>,
    hasEnd: bool,
    hasAngleValid: bool,
    hasSubjectValid: bool,
    hasSightType: bool
  )

  /** A table read from the recorded columns only, before any derived column exists. */
  function RawTable(rows: seq<Trial>, hasSightType: bool): (t: Table)
    ensures t.rows == rows && !t.hasEnd && !t.hasAngleValid && !t.hasSubjectValid
  {
    Table(rows, false, false, false, hasSightType)
  }

  ghost predicate NoDup<T>(s: seq<T>) {
    forall i, j :: 0 <= i < j < |s| ==> s[i] != s[j]
  }

  lemma NoDupConcat<T>(a: seq<T>, b: seq<T>)
    requires NoDup(a) && NoDup(b)
    requires forall x :: x in a ==> x !in b
    ensures NoDup(a + b)
  {
    forall i, j | 0 <= i < j < |a + b| ensures (a + b)[i] != (a + b)[j] {
      if j < |a| {
      } else if i >= |a| {
        assert (a + b)[i] == b[i - |a|] && (a + b)[j] == b[j - |a|];
      } else {
        assert (a + b)[i] == a[i] && (a + b)[j] == b[j - |a|];
        assert a[i] in a && b[j - |a|] in b;
      }
    }
  }

  /** pandas `Series.unique()`: each value once, in order of first appearance. */
  function Distinct<T(==,!new)>(s: seq<T>): (r: seq<T>)
    ensures forall x :: x in r <==> x in s
    ensures NoDup(r)
    ensures |r| <= |s|
  {
    if |s| == 0 then []
    else
      var d := Distinct(s[..|s| - 1]);
      var x := s[|s| - 1];
      assert forall y :: y in s <==> y in s[..|s| - 1] || y == x;
      if x in d then d else d + [x]
  }

  /** A column holding one value throughout has that value as its only distinct entry. */
  lemma {:induction false} DistinctConstant<T(!new)>(s: seq<T>, x: T)
    requires s != [] && forall i :: 0 <= i < |s| ==> s[i] == x
    ensures Distinct(s) == [x]
  {
    var n := |s| - 1;
    if n == 0 {
      assert s[..0] == [];
    } else {
      DistinctConstant(s[..n], x);
    }
  }

  /** A block of `x` followed by a block of `y` has the distinct entries `x`, `y`, in first-appearance order. */
  lemma {:induction false} DistinctTwoBlocks<T(!new)>(s: seq<T>, x: T, y: T, m: nat)
    requires 0 < m < |s| && x != y
    requires forall i :: 0 <= i < m ==> s[i] == x
    requires forall i :: m <= i < |s| ==> s[i] == y
    ensures Distinct(s) == [x, y]
  {
    var n := |s| - 1;
    if n == m {
      DistinctConstant(s[..n], x);
    } else {
      DistinctTwoBlocks(s[..n], x, y, m);
    }
  }

  ghost predicate StrictlyIncreasing(s: seq<int>) {
    forall i, j :: 0 <= i < j < |s| ==> s[i] < s[j]
  }

  /** Inserts `x` into a strictly increasing sequence, unless it is already there. */
  function InsertSorted(x: int, s: seq<int>): (r: seq<int>)
    requires StrictlyIncreasing(s)
    ensures StrictlyIncreasing(r)
    ensures forall y :: y in r <==> y == x || y in s
  {
    if s == [] then [x]
    else if x < s[0] then [x] + s
    else if x == s[0] then s
    else
      var rest := InsertSorted(x, s[1..]);
      assert forall y :: y in s <==> y == s[0] || y in s[1..];
      assert forall i :: 0 <= i < |rest| ==> rest[i] in rest && s[0] < rest[i];
      [s[0]] + rest
  }

  /** `sorted(series.unique())`, also the key order of a pandas groupby on an integer column. */
  function SortedUnique(s: seq<int>): (r: seq<int>)
    ensures StrictlyIncreasing(r)
    ensures forall x :: x in r <==> x in s
  {
    if s == [] then []
    else
      assert forall y :: y in s <==> y in s[..|s| - 1] || y == s[|s| - 1];
      InsertSorted(s[|s| - 1], SortedUnique(s[..|s| - 1]))
  }

  lemma {:induction false} StrictlyIncreasingNoDup(s: seq<int>)
    requires StrictlyIncreasing(s)
    ensures NoDup(s)
  {
  }

  /** The `user_number` column. */
  function Users(rows: seq<Trial>): (r: seq<int>)
    ensures |r| == |rows|
    ensures forall i :: 0 <= i < |rows| ==> r[i] == rows[i].user
  {
    seq(|rows|, i requires 0 <= i < |rows| => rows[i].user)
  }

  /** Some row belongs to user `u`. */
  lemma UserInColumn(rows: seq<Trial>, u: int)
    ensures u in Users(rows) <==> exists i :: 0 <= i < |rows| && rows[i].user == u
  {
    if u in Users(rows) {
      var i :| 0 <= i < |rows| && Users(rows)[i] == u;
    }
  }

  /** The number of rows with `angle_valid` true: `df['angle_valid'].sum()`. */
  function CountValid(rows: seq<Trial>): (n: nat)
    ensures n <= |rows|
  {
    if rows == [] then 0
    else CountValid(rows[..|rows| - 1]) + (if rows[|rows| - 1].angleValid then 1 else 0)
  }

  /** The positions of the angle-valid rows, `set(df[df['angle_valid']].index)`. */
  function ValidPositions(rows: seq<Trial>): set<nat> {
    set i: nat | i < |rows| && rows[i].angleValid
  }

  /** The positions of the angle-invalid rows, `set(df[~df['angle_valid']].index)`. */
  function InvalidPositions(rows: seq<Trial>): set<nat> {
    set i: nat | i < |rows| && !rows[i].angleValid
  }

  /** The labels of a table of `n` rows, `set(df.index)`. */
  function AllPositions(n: nat): (r: set<nat>)
    ensures forall i: nat :: i in r <==> i < n
    ensures |r| == n
  {
    if n == 0 then {} else AllPositions(n - 1) + {n - 1}
  }

  /** The number of valid rows is the size of the set of their labels. */
  lemma CountValidIsSetSize(rows: seq<Trial>)
    ensures |ValidPositions(rows)| == CountValid(rows)
    ensures |InvalidPositions(rows)| == |rows| - CountValid(rows)
  {
    ValidCountIsSetSize(rows);
    ValidInvalidPartition(rows);
  }

  lemma {:induction false} ValidCountIsSetSize(rows: seq<Trial>)
    ensures |ValidPositions(rows)| == CountValid(rows)
  {
    if rows != [] {
      var p := rows[..|rows| - 1];
      var n := |rows| - 1;
      ValidCountIsSetSize(p);
      assert forall i :: 0 <= i < n ==> p[i] == rows[i];
      if rows[n].angleValid {
        assert ValidPositions(rows) == ValidPositions(p) + {n};
      } else {
        assert ValidPositions(rows) == ValidPositions(p);
      }
    }
  }

  /** Valid and invalid labels split the table. */
  lemma ValidInvalidPartition(rows: seq<Trial>)
    ensures ValidPositions(rows) !! InvalidPositions(rows)
    ensures ValidPositions(rows) + InvalidPositions(rows) == AllPositions(|rows|)
  {
  }

  /** `grouped.size()` on rows of one user: how many rows of `rows` belong to `u`. */
  function CountUser(rows: seq<Trial>, u: int): (n: nat)
    ensures n <= |rows|
  {
    if rows == [] then 0
    else CountUser(rows[..|rows| - 1], u) + (if rows[|rows| - 1].user == u then 1 else 0)
  }

  lemma {:induction false} CountUserPositive(rows: seq<Trial>, u: int)
    ensures CountUser(rows, u) > 0 <==> exists i :: 0 <= i < |rows| && rows[i].user == u
  {
    if rows != [] {
      var p := rows[..|rows| - 1];
      CountUserPositive(p, u);
      assert forall i :: 0 <= i < |p| ==> p[i] == rows[i];
      if CountUser(p, u) > 0 {
        var i :| 0 <= i < |p| && p[i].user == u;
        assert rows[i].user == u;
      }
    }
  }

  function KeepUsersNotIn(rows: seq<Trial>, excluded: set<int>): (r: seq<Trial>)
    ensures |r| <= |rows|
  {
    if rows == [] then []
    else
      var p := KeepUsersNotIn(rows[..|rows| - 1], excluded);
      if rows[|rows| - 1].user in excluded then p else p + [rows[|rows| - 1]]
  }

  /** The filter keeps row order and repeats: it works row by row, keeping a row exactly when its user is not excluded. */
  lemma {:induction false} KeepUsersNotInConcat(a: seq<Trial>, b: seq<Trial>, excluded: set<int>, x: Trial)
    ensures KeepUsersNotIn(a + b, excluded) == KeepUsersNotIn(a, excluded) + KeepUsersNotIn(b, excluded)
    ensures KeepUsersNotIn([x], excluded) == (if x.user !in excluded then [x] else [])
  {
    if b != [] {
      var n := |b| - 1;
      KeepUsersNotInConcat(a, b[..n], excluded, x);
      assert (a + b)[..|a + b| - 1] == a + b[..n];
    } else {
      assert a + b == a;
    }
    assert [x][..0] == [];
  }

  /** Excluding no user keeps every row. */
  lemma {:induction false} KeepUsersNotInNone(rows: seq<Trial>)
    ensures KeepUsersNotIn(rows, {}) == rows
  {
    if rows != [] {
      KeepUsersNotInNone(rows[..|rows| - 1]);
      assert rows == rows[..|rows| - 1] + [rows[|rows| - 1]];
    }
  }

  /** The number of rows whose user is in `s`: `len(df[df['user_number'].isin(s)])`. */
  function CountUsersIn(rows: seq<Trial>, s: set<int>): (n: nat)
    ensures n <= |rows|
  {
    if rows == [] then 0
    else CountUsersIn(rows[..|rows| - 1], s) + (if rows[|rows| - 1].user in s then 1 else 0)
  }

  /** Keeps the trials of users outside `excluded`, in order; removed plus kept is all. */
  lemma {:induction false} KeepUsersNotInSpec(rows: seq<Trial>, excluded: set<int>)
    ensures forall t :: t in KeepUsersNotIn(rows, excluded) ==> t.user !in excluded
    ensures forall i :: 0 <= i < |rows| && rows[i].user !in excluded ==> rows[i] in KeepUsersNotIn(rows, excluded)
    ensures |KeepUsersNotIn(rows, excluded)| + CountUsersIn(rows, excluded) == |rows|
    ensures multiset(KeepUsersNotIn(rows, excluded)) <= multiset(rows)
  {
    if rows != [] {
      var p := rows[..|rows| - 1];
      KeepUsersNotInSpec(p, excluded);
      assert rows == p + [rows[|rows| - 1]];
      forall i | 0 <= i < |rows| && rows[i].user !in excluded
        ensures rows[i] in KeepUsersNotIn(rows, excluded)
      {
        if i < |p| {
          assert p[i] == rows[i];
        }
      }
    }
  }

  /** How often `x` occurs in `s`: the size of its group in a `groupby(...).size()`. */
  function Occurrences<T(==,!new)>(s: seq<T>, x: T): (n: nat)
    ensures n <= |s|
    ensures n > 0 <==> x in s
  {
    if s == [] then 0
    else
      assert forall y :: y in s <==> y in s[..|s| - 1] || y == s[|s| - 1];
      Occurrences(s[..|s| - 1], x) + (if s[|s| - 1] == x then 1 else 0)
  }

  /** The group sizes of the keys `ks`, added up. */
  function SumOccurrences<T(==,!new)>(s: seq<T>, ks: seq<T>): nat {
    if ks == [] then 0 else SumOccurrences(s, ks[..|ks| - 1]) + Occurrences(s, ks[|ks| - 1])
  }

  lemma {:induction false} OccurrencesOnce<T(!new)>(ks: seq<T>, x: T)
    requires NoDup(ks) && x in ks
    ensures Occurrences(ks, x) == 1
  {
    var init := ks[..|ks| - 1];
    if ks[|ks| - 1] != x {
      assert x in init;
      assert NoDup(init);
      OccurrencesOnce(init, x);
    } else {
      assert x !in init;
    }
  }

  lemma {:induction false} SumOccurrencesAppend<T(!new)>(s: seq<T>, y: T, ks: seq<T>)
    ensures SumOccurrences(s + [y], ks) == SumOccurrences(s, ks) + Occurrences(ks, y)
  {
    if ks != [] {
      SumOccurrencesAppend(s, y, ks[..|ks| - 1]);
      assert (s + [y])[..|s + [y]| - 1] == s;
    }
  }

  /**
   * The sizes of the groups of `s` add up to `|s|` when every value of `s`
   * is a key once: no row is lost or counted twice by a groupby.
   */
  lemma {:induction false} GroupSizesAddUp<T(!new)>(s: seq<T>, ks: seq<T>)
    requires NoDup(ks)
    requires forall x :: x in s ==> x in ks
    ensures SumOccurrences(s, ks) == |s|
  {
    if s == [] {
      SumOccurrencesEmpty(ks);
    } else {
      var init := s[..|s| - 1];
      var y := s[|s| - 1];
      assert s == init + [y];
      GroupSizesAddUp(init, ks);
      SumOccurrencesAppend(init, y, ks);
      OccurrencesOnce(ks, y);
    }
  }

  lemma {:induction false} SumOccurrencesEmpty<T(!new)>(ks: seq<T>)
    ensures SumOccurrences([], ks) == 0
  {
    if ks != [] {
      SumOccurrencesEmpty(ks[..|ks| - 1]);
    }
  }

  /** A sequence has at least as many elements as values, exactly as many when no value repeats. */
  lemma {:induction false} SeqSetSize<T(!new)>(s: seq<T>)
    ensures |set x | x in s| <= |s|
    ensures NoDup(s) ==> |set x | x in s| == |s|
  {
    if s != [] {
      var p := s[..|s| - 1];
      SeqSetSize(p);
      assert (set x | x in s) == (set x | x in p) + {s[|s| - 1]};
      if NoDup(s) {
        assert NoDup(p);
        assert s[|s| - 1] !in p;
      }
    }
  }

  /** A repeat-free sequence whose values all occur in `b` is no longer than `b`. */
  lemma NoDupSubsetLength<T(!new)>(a: seq<T>, b: seq<T>)
    requires NoDup(a)
    requires forall x :: x in a ==> x in b
    ensures |a| <= |b|
  {
    SeqSetSize(a);
    SeqSetSize(b);
    assert (set x | x in a) <= (set x | x in b);
    SubsetCard(set x | x in a, set x | x in b);
  }

  lemma SubsetCard<T>(a: set<T>, b: set<T>)
    requires a <= b
    ensures |a| <= |b|
  {
    assert b == a + (b - a);
  }
}
