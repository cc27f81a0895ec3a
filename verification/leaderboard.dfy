/** The leaderboard: every account except the administrator, ranked by
    points from high to low (ties keep their list order), top ten shown. */
module Leaderboard {
  import opened Types

  const TOP: nat := 10

  predicate SortedDesc(s: seq<User>)
  {
    forall i, j :: 0 <= i < j < |s| ==> s[i].points >= s[j].points
  }

  /** The accounts that may be ranked: all but the administrator, in list order. */
  function Contenders(users: seq<User>): (r: seq<User>)
    ensures multiset(r) <= multiset(users)
    ensures forall k :: 0 <= k < |r| ==> r[k].username != ADMIN_NAME
    ensures forall u :: u in users && u.username != ADMIN_NAME ==> u in r
    ensures forall u :: multiset(r)[u] == if u.username == ADMIN_NAME then 0 else multiset(users)[u]
  {
    if |users| == 0 then []
    else
      var rest := Contenders(users[1..]);
      assert users == [users[0]] + users[1..];
      if users[0].username != ADMIN_NAME then
        var r := [users[0]] + rest;
        assert forall k :: 0 < k < |r| ==> r[k] == rest[k - 1];
        r
      else rest
  }

  /** Places `x` before the first entry it ties with or beats. */
  function Insert(x: User, s: seq<User>): (r: seq<User>)
    ensures multiset(r) == multiset(s) + multiset{x}
    ensures |r| == |s| + 1
    ensures r[0] == x || (|s| > 0 && r[0] == s[0])
  {
    if |s| == 0 || x.points >= s[0].points then [x] + s
    else
      assert s == [s[0]] + s[1..];
      [s[0]] + Insert(x, s[1..])
  }

  lemma {:induction false} InsertKeepsSorted(x: User, s: seq<User>)
    requires SortedDesc(s)
    ensures SortedDesc(Insert(x, s))
  {
    if |s| > 0 && x.points < s[0].points {
      var rest := Insert(x, s[1..]);
      InsertKeepsSorted(x, s[1..]);
      var r := [s[0]] + rest;
      assert r == Insert(x, s);
      assert rest[0].points <= s[0].points;
      forall i, j | 0 <= i < j < |r| ensures r[i].points >= r[j].points {
        if i == 0 {
          assert r[j] == rest[j - 1];
          assert rest[0].points >= rest[j - 1].points;
        } else {
          assert r[i] == rest[i - 1] && r[j] == rest[j - 1];
        }
      }
    }
  }

  /** Insertion sort, descending by points. */
  function SortByPointsDesc(s: seq<User>): (r: seq<User>)
    ensures multiset(r) == multiset(s)
    ensures SortedDesc(r)
  {
    if |s| == 0 then []
    else
      assert s == [s[0]] + s[1..];
      InsertKeepsSorted(s[0], SortByPointsDesc(s[1..]));
      Insert(s[0], SortByPointsDesc(s[1..]))
  }

  lemma PrefixIsSubMultiset(s: seq<User>, n: nat)
    requires n <= |s|
    ensures multiset(s[..n]) <= multiset(s)
  {
    assert s == s[..n] + s[n..];
  }

  lemma PrefixSorted(s: seq<User>, n: nat)
    requires SortedDesc(s) && n <= |s|
    ensures SortedDesc(s[..n])
  {
    forall i, j | 0 <= i < j < n ensures s[..n][i].points >= s[..n][j].points {
      assert s[..n][i] == s[i] && s[..n][j] == s[j];
    }
  }

  /** In a ranking, whoever falls outside a prefix has no more points than
      anyone inside it. */
  lemma PrefixDominates(s: seq<User>, n: nat, v: User)
    requires SortedDesc(s) && n <= |s| && v in s && v !in s[..n]
    ensures forall k :: 0 <= k < n ==> s[k].points >= v.points
  {
    var j :| 0 <= j < |s| && s[j] == v;
    if j < n {
      assert false;
    }
  }

  /** The ranking the leaderboard shows. */
  function TopUsers(users: seq<User>): (r: seq<User>)
    ensures |r| <= TOP
    ensures SortedDesc(r)
  {
    var sorted := SortByPointsDesc(Contenders(users));
    var n := if |sorted| < TOP then |sorted| else TOP;
    PrefixSorted(sorted, n);
    sorted[..n]
  }

  /** Every listed account comes from the list, and the administrator is never listed. */
  lemma TopUsersFromInput(users: seq<User>)
    ensures multiset(TopUsers(users)) <= multiset(users)
    ensures forall k :: 0 <= k < |TopUsers(users)| ==> TopUsers(users)[k].username != ADMIN_NAME
  {
    var contenders := Contenders(users);
    var sorted := SortByPointsDesc(contenders);
    var r := TopUsers(users);
    PrefixIsSubMultiset(sorted, |r|);
    forall k | 0 <= k < |r| ensures r[k].username != ADMIN_NAME {
      assert r[k] in multiset(r);
      assert r[k] in contenders;
    }
  }

  /** An account left off the board has no more points than anyone on it,
      and is left off only when the board is full. */
  lemma TopUsersLeftOutRankLower(users: seq<User>, u: User)
    requires u in users && u.username != ADMIN_NAME && u !in TopUsers(users)
    ensures |TopUsers(users)| == TOP
    ensures forall k :: 0 <= k < |TopUsers(users)| ==> TopUsers(users)[k].points >= u.points
  {
    var sorted := SortByPointsDesc(Contenders(users));
    var r := TopUsers(users);
    assert u in multiset(sorted);
    PrefixDominates(sorted, |r|, u);
    if |r| < TOP {
      assert false;
    }
  }

  /** With fewer than ten ranked accounts the leaderboard lists them all. */
  lemma FewContendersAllListed(users: seq<User>)
    requires |Contenders(users)| < TOP
    ensures multiset(TopUsers(users)) == multiset(Contenders(users))
  {
    var sorted := SortByPointsDesc(Contenders(users));
    assert |sorted| == |Contenders(users)| by {
      assert |multiset(sorted)| == |multiset(Contenders(users))|;
    }
    assert sorted[..|sorted|] == sorted;
  }
}
