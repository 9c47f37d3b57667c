// The per-user ranking of wrong-direction trials: the share of such
// trials, a count per user who has any, the user's total for context, the
// percentage, and the top twenty by count and by percentage.
module UsersWrongDirection {
  import opened Records
  import opened Processing
  import opened Aggregation
  import opened WrongDirection

  /** The most rows each ranking shows. */
  const TopLimit := 20

  /** `100 * len(wrong_direction) / len(df)`: dividing by the number of trials fails when there are none. */
  function WrongShare(rows: seq<Trial>): (r: Result<real>)
    ensures r.Failure? <==> rows == []
    ensures r.Failure? ==> r.error == DivisionByZero
    ensures r.Success? ==> r.value == Percent(|WrongRows(rows)|, |rows|) && 0.0 <= r.value <= 100.0
  {
    if rows == [] then Failure(DivisionByZero)
    else
      PercentBounds(|WrongRows(rows)|, |rows|);
      Success(Percent(|WrongRows(rows)|, |rows|))
  }

  /** A row of `user_stats`: the user, the wrong-direction count, the total trials and the percentage. */
  datatype UserStat = UserStat(user: int, wrongCount: nat, totalTrials: nat, wrongPct: real)

  /** A user's count over the wrong-direction trials never exceeds the user's count over all trials. */
  lemma {:induction false} WrongCountBelowTotal(rows: seq<Trial>, u: int)
    ensures CountUser(WrongRows(rows), u) <= CountUser(rows, u)
  {
    if rows != [] {
      var p := rows[..|rows| - 1];
      WrongCountBelowTotal(p, u);
      var last := rows[|rows| - 1];
      if last.end < 0.0 {
        var w := WrongRows(p) + [last];
        assert w[..|w| - 1] == WrongRows(p);
      }
    }
  }

  /** `CountUser` is the size of the user's group in the `user_number` column. */
  lemma {:induction false} CountUserIsOccurrences(rows: seq<Trial>, u: int)
    ensures CountUser(rows, u) == Occurrences(Users(rows), u)
  {
    if rows != [] {
      var p := rows[..|rows| - 1];
      CountUserIsOccurrences(p, u);
      assert Users(rows)[..|rows| - 1] == Users(p);
    }
  }

  /** The `user_number` column of a table of user rows. */
  function StatUsers(r: seq<UserStat>): (us: seq<int>)
    ensures |us| == |r| && forall i :: 0 <= i < |r| ==> us[i] == r[i].user
  {
    seq(|r|, i requires 0 <= i < |r| => r[i].user)
  }

  /**
   * `user_wrong_counts` merged with `user_total_counts`: one row per user
   * with a wrong-direction trial, in the ascending order of the groupby.
   */
  function UserStats(rows: seq<Trial>): (r: seq<UserStat>)
    ensures StatUsers(r) == SortedUnique(Users(WrongRows(rows)))
  {
    var w := WrongRows(rows);
    var us := SortedUnique(Users(w));
    seq(|us|, i requires 0 <= i < |us| =>
      UserStat(us[i], CountUser(w, us[i]), CountUser(rows, us[i]), Percent(CountUser(w, us[i]), CountUser(rows, us[i]))))
  }

  /**
   * The users listed are exactly those with a wrong-direction trial; each
   * has total >= wrong >= 1, so the percentage lies in (0, 100]; and the
   * counts add up to the number of wrong-direction trials.
   */
  lemma UserStatsSpec(rows: seq<Trial>)
    ensures var w := WrongRows(rows);
      && (forall u :: u in StatUsers(UserStats(rows)) <==> exists j :: 0 <= j < |w| && w[j].user == u)
      && (forall i :: 0 <= i < |UserStats(rows)| ==>
            var s := UserStats(rows)[i];
            && s.wrongCount == CountUser(w, s.user)
            && s.totalTrials == CountUser(rows, s.user)
            && 1 <= s.wrongCount <= s.totalTrials
            && 0.0 < s.wrongPct <= 100.0)
  {
    var w := WrongRows(rows);
    var us := SortedUnique(Users(w));
    var r := UserStats(rows);
    forall u ensures u in StatUsers(r) <==> exists j :: 0 <= j < |w| && w[j].user == u {
      UserInColumn(w, u);
    }
    forall i | 0 <= i < |r|
      ensures 1 <= r[i].wrongCount <= r[i].totalTrials && 0.0 < r[i].wrongPct <= 100.0
    {
      var u := us[i];
      assert u in us;
      UserInColumn(w, u);
      CountUserPositive(w, u);
      WrongCountBelowTotal(rows, u);
      PercentBounds(CountUser(w, u), CountUser(rows, u));
    }
  }

  /** No wrong-direction trial is lost or counted twice by the per-user counts. */
  lemma WrongCountsAddUp(rows: seq<Trial>)
    ensures var w := WrongRows(rows);
      SumOccurrences(Users(w), SortedUnique(Users(w))) == |w|
  {
    var w := WrongRows(rows);
    var us := SortedUnique(Users(w));
    StrictlyIncreasingNoDup(us);
    GroupSizesAddUp(Users(w), us);
  }

  /** The two orderings: by the wrong-direction count or by the percentage. */
  datatype SortKey = ByCount | ByPercent

  function KeyValue(s: UserStat, key: SortKey): real {
    match key
    case ByCount => s.wrongCount as real
    case ByPercent => s.wrongPct
  }

  ghost predicate SortedDesc(s: seq<UserStat>, key: SortKey) {
    forall i, j :: 0 <= i < j < |s| ==> KeyValue(s[i], key) >= KeyValue(s[j], key)
  }

  /** Puts `x` before the first row whose key is not larger, so earlier rows stay ahead of equal ones. */
  function InsertDesc(x: UserStat, s: seq<UserStat>, key: SortKey): (r: seq<UserStat>)
    ensures multiset(r) == multiset(s) + multiset{x}
  {
    if s == [] || KeyValue(s[0], key) <= KeyValue(x, key) then [x] + s
    else
      assert s == [s[0]] + s[1..];
      [s[0]] + InsertDesc(x, s[1..], key)
  }

  /** Every row of `s` has a key of at most `v`. */
  ghost predicate KeysAtMost(s: seq<UserStat>, key: SortKey, v: real) {
    forall i :: 0 <= i < |s| ==> KeyValue(s[i], key) <= v
  }

  /** A sorted sequence stays sorted with a row in front whose key is no smaller than any of its own. */
  lemma SortedCons(y: UserStat, s: seq<UserStat>, key: SortKey)
    requires SortedDesc(s, key) && KeysAtMost(s, key, KeyValue(y, key))
    ensures SortedDesc([y] + s, key)
  {
    var r := [y] + s;
    forall i, j | 0 <= i < j < |r| ensures KeyValue(r[i], key) >= KeyValue(r[j], key) {
      assert r[j] == s[j - 1];
      if i > 0 {
        assert r[i] == s[i - 1];
      }
    }
  }

  /** The tail of a sorted sequence is sorted and bounded by its head. */
  lemma SortedTail(s: seq<UserStat>, key: SortKey)
    requires s != [] && SortedDesc(s, key)
    ensures SortedDesc(s[1..], key) && KeysAtMost(s[1..], key, KeyValue(s[0], key))
  {
    var tail := s[1..];
    forall i, j | 0 <= i < j < |tail| ensures KeyValue(tail[i], key) >= KeyValue(tail[j], key) {
      assert tail[i] == s[i + 1] && tail[j] == s[j + 1];
    }
    forall i | 0 <= i < |tail| ensures KeyValue(tail[i], key) <= KeyValue(s[0], key) {
      assert tail[i] == s[i + 1];
    }
  }

  /** Inserting into a sorted sequence keeps it sorted. */
  lemma {:induction false} InsertDescSorted(x: UserStat, s: seq<UserStat>, key: SortKey)
    requires SortedDesc(s, key)
    ensures SortedDesc(InsertDesc(x, s, key), key)
  {
    if s == [] {
    } else if KeyValue(s[0], key) <= KeyValue(x, key) {
      SortedTail(s, key);
      forall i | 0 <= i < |s| ensures KeyValue(s[i], key) <= KeyValue(x, key) {
        if i > 0 {
          assert s[i] == s[1..][i - 1];
        }
      }
      SortedCons(x, s, key);
    } else {
      var tail := s[1..];
      SortedTail(s, key);
      InsertDescSorted(x, tail, key);
      var rest := InsertDesc(x, tail, key);
      forall i | 0 <= i < |rest| ensures KeyValue(rest[i], key) <= KeyValue(s[0], key) {
        assert rest[i] in multiset(tail) + multiset{x};
        if rest[i] != x {
          assert rest[i] in tail;
          var j :| 0 <= j < |tail| && tail[j] == rest[i];
        }
      }
      SortedCons(s[0], rest, key);
    }
  }

  /** `sort_values(key, ascending=False)`. */
  function SortDesc(s: seq<UserStat>, key: SortKey): (r: seq<UserStat>)
    ensures SortedDesc(r, key)
    ensures multiset(r) == multiset(s)
  {
    if s == [] then []
    else
      assert s == [s[0]] + s[1..];
      InsertDescSorted(s[0], SortDesc(s[1..], key), key);
      InsertDesc(s[0], SortDesc(s[1..], key), key)
  }

  /** A row whose key is no smaller than the first row's goes in front. */
  lemma InsertAhead(x: UserStat, s: seq<UserStat>, key: SortKey)
    requires KeysAtMost(s, key, KeyValue(x, key))
    ensures InsertDesc(x, s, key) == [x] + s
  {
  }

  /** Sorting rows that are already in order changes nothing, so the second sort by count repeats the first. */
  lemma {:induction false} SortSortedIsIdentity(s: seq<UserStat>, key: SortKey)
    requires SortedDesc(s, key)
    ensures SortDesc(s, key) == s
  {
    if s != [] {
      var tail := s[1..];
      SortedTail(s, key);
      SortSortedIsIdentity(tail, key);
      InsertAhead(s[0], tail, key);
      assert s == [s[0]] + tail;
    }
  }

  /** `head(20)`. */
  function Top(s: seq<UserStat>): (r: seq<UserStat>)
    ensures |r| == (if |s| < TopLimit then |s| else TopLimit) && r == s[..|r|]
  {
    s[..if |s| < TopLimit then |s| else TopLimit]
  }

  /** The two rankings the script prints, and the share of wrong-direction trials. */
  datatype Ranking = Ranking(wrongTotal: nat, trials: nat, share: real, byCount: seq<UserStat>, byPercent: seq<UserStat>)

  /**
   * The script: the share, then the counts sorted by count (sorted again
   * after the merge, which changes nothing) and by percentage, top twenty
   * each. With no trials the share divides by zero.
   */
  function Rank(t: Table): (r: Result<Ranking>)
    ensures var rows := WithEndAngles(t).rows;
      && (r.Failure? <==> rows == [])
      && (r.Failure? ==> r.error == DivisionByZero)
      && (r.Success? ==>
            && r.value.wrongTotal == |WrongRows(rows)| && r.value.trials == |rows|
            && r.value.byCount == Top(SortDesc(UserStats(rows), ByCount))
            && r.value.byPercent == Top(SortDesc(SortDesc(UserStats(rows), ByCount), ByPercent)))
  {
    var rows := WithEndAngles(t).rows;
    match WrongShare(rows)
    case Failure(e) => Failure(e)
    case Success(share) =>
      var byCount := SortDesc(UserStats(rows), ByCount);
      SortSortedIsIdentity(byCount, ByCount);
      var merged := SortDesc(byCount, ByCount);
      Success(Ranking(|WrongRows(rows)|, |rows|, share, Top(merged), Top(SortDesc(merged, ByPercent))))
  }

  /** A prefix of a sorted sequence is sorted, and its rows are rows of the sequence. */
  lemma TopOfSorted(s: seq<UserStat>, key: SortKey)
    requires SortedDesc(s, key)
    ensures SortedDesc(Top(s), key) && forall x :: x in Top(s) ==> x in s
  {
    var r := Top(s);
    forall i, j | 0 <= i < j < |r| ensures KeyValue(r[i], key) >= KeyValue(r[j], key) {
      assert r[i] == s[i] && r[j] == s[j];
    }
    forall x | x in r ensures x in s {
      var i :| 0 <= i < |r| && r[i] == x;
      assert s[i] == x;
    }
  }

  /** Sorting keeps the rows it was given. */
  lemma SortDescMembers(s: seq<UserStat>, key: SortKey)
    ensures forall x :: x in SortDesc(s, key) ==> x in s
  {
    forall x | x in SortDesc(s, key) ensures x in s {
      assert x in multiset(SortDesc(s, key));
    }
  }

  /** Each ranking is in descending order of its key and lists only users from the counts. */
  lemma RankingsOrdered(t: Table)
    requires Rank(t).Success?
    ensures SortedDesc(Rank(t).value.byCount, ByCount)
    ensures SortedDesc(Rank(t).value.byPercent, ByPercent)
    ensures forall s :: s in Rank(t).value.byCount ==> s in UserStats(WithEndAngles(t).rows)
    ensures forall s :: s in Rank(t).value.byPercent ==> s in UserStats(WithEndAngles(t).rows)
  {
    var stats := UserStats(WithEndAngles(t).rows);
    var c := SortDesc(stats, ByCount);
    var m := SortDesc(c, ByCount);
    var p := SortDesc(m, ByPercent);
    assert Rank(t).value.byCount == Top(c);
    assert Rank(t).value.byPercent == Top(p);
    TopOfSorted(c, ByCount);
    TopOfSorted(p, ByPercent);
    SortDescMembers(stats, ByCount);
    SortDescMembers(c, ByCount);
    SortDescMembers(m, ByPercent);
  }
}
