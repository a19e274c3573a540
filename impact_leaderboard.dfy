/** The leaderboard query of the impact service: keep the verified records,
    group them by user summing the hours, sort the groups by total in
    descending order and keep the first ten. */
module ImpactLeaderboard {
  import opened Common
  import opened ImpactLedger

  /** How many groups the leaderboard keeps. */
  const LeaderboardSize: nat := 10

  /** One group of the aggregation: a user and the sum of their hours. */
  datatype Entry = Entry(user: UserId, totalHours: nat)

  function Users(gs: seq<Entry>): set<UserId> {
    set e | e in gs :: e.user
  }

  ghost predicate DistinctUsers(gs: seq<Entry>) {
    forall i, j :: 0 <= i < j < |gs| ==> gs[i].user != gs[j].user
  }

  ghost predicate SortedDesc(gs: seq<Entry>) {
    forall i, j :: 0 <= i < j < |gs| ==> gs[i].totalHours >= gs[j].totalHours
  }

  /** The users who own at least one verified record. */
  function VerifiedUsers(log: seq<Impact>): set<UserId> {
    set r | r in log && r.status == Verified :: r.user
  }

  /** The owners of a list of records. */
  function Owners(rs: seq<Impact>): set<UserId> {
    set r | r in rs :: r.user
  }

  /** The sum of the totals of `u`'s groups. */
  function GroupTotal(gs: seq<Entry>, u: UserId): nat {
    if gs == [] then 0
    else (if gs[0].user == u then gs[0].totalHours else 0) + GroupTotal(gs[1..], u)
  }

  /** The hours of `u`'s records in `rs`, whatever their status. */
  function UserHours(rs: seq<Impact>, u: UserId): nat {
    if rs == [] then 0
    else (if rs[0].user == u then rs[0].hours else 0) + UserHours(rs[1..], u)
  }

  /** In a list of groups with distinct users, a group's total is the user's
      group total. */
  lemma {:induction false} GroupTotalOfMember(gs: seq<Entry>, i: nat)
    requires DistinctUsers(gs) && i < |gs|
    ensures GroupTotal(gs, gs[i].user) == gs[i].totalHours
  {
    if i == 0 {
      GroupTotalOfAbsent(gs[1..], gs[0].user);
    } else {
      GroupTotalOfMember(gs[1..], i - 1);
    }
  }

  /** A user without a group has a zero total. */
  lemma {:induction false} GroupTotalOfAbsent(gs: seq<Entry>, u: UserId)
    requires forall e :: e in gs ==> e.user != u
    ensures GroupTotal(gs, u) == 0
  {
    if gs != [] {
      GroupTotalOfAbsent(gs[1..], u);
    }
  }

  lemma UsersCons(x: Entry, s: seq<Entry>)
    ensures Users([x] + s) == {x.user} + Users(s)
  {
    assert forall e :: e in [x] + s <==> e == x || e in s;
  }

  /** The first group's user has no other group, and the rest are distinct. */
  lemma HeadUnique(s: seq<Entry>)
    requires s != []
    ensures DistinctUsers(s) ==> s[0].user !in Users(s[1..]) && DistinctUsers(s[1..])
  {
    if DistinctUsers(s) {
      forall e | e in s[1..] ensures e.user != s[0].user {
        var k :| 0 <= k < |s[1..]| && s[1..][k] == e;
        assert s[k + 1] == e;
      }
      forall i, j | 0 <= i < j < |s[1..]| ensures s[1..][i].user != s[1..][j].user {
        assert s[1..][i] == s[i + 1] && s[1..][j] == s[j + 1];
      }
    }
  }

  /** Putting a group of a new user in front keeps the users distinct. */
  lemma ConsDistinct(x: Entry, s: seq<Entry>)
    ensures DistinctUsers(s) && x.user !in Users(s) ==> DistinctUsers([x] + s)
  {
    if DistinctUsers(s) && x.user !in Users(s) {
      var r := [x] + s;
      forall i, j | 0 <= i < j < |r| ensures r[i].user != r[j].user {
        assert r[j] == s[j - 1];
        if i > 0 { assert r[i] == s[i - 1]; }
      }
    }
  }

  /** A user's group total over a list with a group in front. */
  lemma GroupTotalCons(x: Entry, s: seq<Entry>)
    ensures forall y :: GroupTotal([x] + s, y) == (if x.user == y then x.totalHours else 0) + GroupTotal(s, y)
  {
    assert ([x] + s)[1..] == s;
  }

  /** One `$sum` step: add `h` hours to `u`'s group, opening a group at the
      end when `u` has none yet. */
  function AddToGroup(gs: seq<Entry>, u: UserId, h: nat): (r: seq<Entry>)
    ensures Users(r) == Users(gs) + {u}
    ensures DistinctUsers(gs) ==> DistinctUsers(r)
    ensures forall x :: GroupTotal(r, x) == GroupTotal(gs, x) + (if x == u then h else 0)
  {
    if gs == [] then
      assert Users([Entry(u, h)]) == {u} by {
        assert Users([]) == {};
        UsersCons(Entry(u, h), []);
        assert [Entry(u, h)] == [Entry(u, h)] + [];
      }
      assert [Entry(u, h)][1..] == [];
      [Entry(u, h)]
    else
      var g, tail := gs[0], gs[1..];
      assert gs == [g] + tail;
      if g.user == u then
        var x := g.(totalHours := g.totalHours + h);
        assert Users([x] + tail) == Users(gs) by {
          UsersCons(g, tail);
          UsersCons(x, tail);
        }
        assert DistinctUsers(gs) ==> DistinctUsers([x] + tail) by {
          HeadUnique(gs);
          ConsDistinct(x, tail);
        }
        assert forall y :: GroupTotal([x] + tail, y) == GroupTotal(gs, y) + (if y == u then h else 0) by {
          GroupTotalCons(g, tail);
          GroupTotalCons(x, tail);
        }
        [x] + tail
      else
        var rest := AddToGroup(tail, u, h);
        assert Users([g] + rest) == Users(gs) + {u} by {
          UsersCons(g, tail);
          UsersCons(g, rest);
        }
        assert DistinctUsers(gs) ==> DistinctUsers([g] + rest) by {
          HeadUnique(gs);
          ConsDistinct(g, rest);
        }
        assert forall y :: GroupTotal([g] + rest, y) == GroupTotal(gs, y) + (if y == u then h else 0) by {
          GroupTotalCons(g, tail);
          GroupTotalCons(g, rest);
        }
        [g] + rest
  }

  /** The `$group` stage folded over `rs` onto the groups `acc`. */
  function GroupFrom(rs: seq<Impact>, acc: seq<Entry>): (r: seq<Entry>)
    ensures Users(r) == Users(acc) + Owners(rs)
    ensures DistinctUsers(acc) ==> DistinctUsers(r)
    ensures forall x :: GroupTotal(r, x) == GroupTotal(acc, x) + UserHours(rs, x)
  {
    if rs == [] then acc
    else
      assert rs == [rs[0]] + rs[1..];
      assert Owners(rs) == {rs[0].user} + Owners(rs[1..]);
      GroupFrom(rs[1..], AddToGroup(acc, rs[0].user, rs[0].hours))
  }

  /** The `$match` stage: a record that passes adds its hours to its owner's
      points, and a record that fails adds to nobody's. */
  function IsVerified(r: Impact): (b: bool)
    ensures b ==> Contribution(r, r.user) == r.hours
    ensures !b ==> forall u :: Contribution(r, u) == 0
  {
    r.status == Verified
  }

  /** Hours of the verified records only are `u`'s verified hours. */
  lemma {:induction false} UserHoursOfVerified(log: seq<Impact>, u: UserId)
    ensures UserHours(Filter(IsVerified, log), u) == VerifiedHours(log, u)
  {
    if log != [] {
      UserHoursOfVerified(log[1..], u);
      var tail := Filter(IsVerified, log[1..]);
      if IsVerified(log[0]) {
        assert Filter(IsVerified, log) == [log[0]] + tail;
        assert ([log[0]] + tail)[1..] == tail;
      }
    }
  }

  /** Each group folded from the verified records holds its user's
      verified hours. */
  lemma GroupFromVerifiedTotals(log: seq<Impact>)
    ensures var g := GroupFrom(Filter(IsVerified, log), []);
            forall e :: e in g ==> e.totalHours == VerifiedHours(log, e.user)
  {
    var g := GroupFrom(Filter(IsVerified, log), []);
    forall e | e in g ensures e.totalHours == VerifiedHours(log, e.user) {
      var i :| 0 <= i < |g| && g[i] == e;
      GroupTotalOfMember(g, i);
      UserHoursOfVerified(log, e.user);
    }
  }

  /** `$match` on verified records followed by `$group` by user: one group
      per user with a verified record, holding that user's verified hours. */
  function Group(log: seq<Impact>): (r: seq<Entry>)
    ensures DistinctUsers(r)
    ensures Users(r) == VerifiedUsers(log)
    ensures forall e :: e in r ==> e.totalHours == VerifiedHours(log, e.user)
  {
    var vs := Filter(IsVerified, log);
    assert Users([]) == {};
    FilterMembers(IsVerified, log);
    assert Owners(vs) == VerifiedUsers(log);
    GroupFromVerifiedTotals(log);
    GroupFrom(vs, [])
  }

  /** A group no smaller than the head of a sorted list can go in front. */
  lemma ConsSorted(x: Entry, s: seq<Entry>)
    requires s != [] ==> x.totalHours >= s[0].totalHours
    ensures SortedDesc(s) ==> SortedDesc([x] + s)
  {
    if SortedDesc(s) {
      var r := [x] + s;
      forall i, j | 0 <= i < j < |r| ensures r[i].totalHours >= r[j].totalHours {
        assert r[j] == s[j - 1];
        if i > 0 { assert r[i] == s[i - 1]; }
      }
    }
  }

  /** The groups after the head of a sorted list are sorted and no larger. */
  lemma SortedTail(s: seq<Entry>)
    requires s != []
    ensures SortedDesc(s) ==> SortedDesc(s[1..])
    ensures SortedDesc(s) ==> forall x :: x in s[1..] ==> x.totalHours <= s[0].totalHours
  {
    if SortedDesc(s) {
      forall i, j | 0 <= i < j < |s[1..]| ensures s[1..][i].totalHours >= s[1..][j].totalHours {
        assert s[1..][i] == s[i + 1] && s[1..][j] == s[j + 1];
      }
      forall x | x in s[1..] ensures x.totalHours <= s[0].totalHours {
        var k :| 0 <= k < |s[1..]| && s[1..][k] == x;
        assert s[k + 1] == x;
      }
    }
  }

  /** Rearranging groups keeps the set of users. */
  lemma UsersOfPermutation(a: seq<Entry>, b: seq<Entry>)
    requires multiset(a) == multiset(b)
    ensures Users(a) == Users(b)
  {
    forall e | e in a ensures e in b { assert e in multiset(a); }
    forall e | e in b ensures e in a { assert e in multiset(b); }
  }

  /** Insert `e` into a list sorted by descending total, after the groups
      with a larger total. */
  function Insert(e: Entry, s: seq<Entry>): (r: seq<Entry>)
    ensures |r| == |s| + 1
    ensures multiset(r) == multiset(s) + multiset{e}
  {
    if s == [] || e.totalHours >= s[0].totalHours then
      [e] + s
    else
      assert s == [s[0]] + s[1..];
      [s[0]] + Insert(e, s[1..])
  }

  /** Inserting adds exactly the inserted group's user. */
  lemma InsertUsers(e: Entry, s: seq<Entry>)
    ensures Users(Insert(e, s)) == Users(s) + {e.user}
  {
    assert multiset([e] + s) == multiset(s) + multiset{e};
    UsersOfPermutation(Insert(e, s), [e] + s);
    UsersCons(e, s);
  }

  /** Inserting into a sorted list gives a sorted list. */
  lemma {:induction false} InsertSorted(e: Entry, s: seq<Entry>)
    requires SortedDesc(s)
    ensures SortedDesc(Insert(e, s))
  {
    if s == [] || e.totalHours >= s[0].totalHours {
      ConsSorted(e, s);
    } else {
      SortedTail(s);
      InsertSorted(e, s[1..]);
      var rest := Insert(e, s[1..]);
      assert rest[0] in multiset(rest);
      ConsSorted(s[0], rest);
    }
  }

  /** Inserting the group of a user who has none keeps the users distinct. */
  lemma {:induction false} InsertDistinct(e: Entry, s: seq<Entry>)
    requires DistinctUsers(s) && e.user !in Users(s)
    ensures DistinctUsers(Insert(e, s))
  {
    if s == [] || e.totalHours >= s[0].totalHours {
      ConsDistinct(e, s);
    } else {
      assert s == [s[0]] + s[1..];
      HeadUnique(s);
      UsersCons(s[0], s[1..]);
      InsertDistinct(e, s[1..]);
      var rest := Insert(e, s[1..]);
      InsertUsers(e, s[1..]);
      ConsDistinct(s[0], rest);
    }
  }

  /** `$sort: { totalHours: -1 }`: a rearrangement of the groups. The order
      among equal totals is not specified by the store; this insertion sort
      fixes one. */
  function SortDesc(s: seq<Entry>): (r: seq<Entry>)
    ensures |r| == |s|
    ensures multiset(r) == multiset(s)
  {
    if s == [] then []
    else
      assert s == [s[0]] + s[1..];
      Insert(s[0], SortDesc(s[1..]))
  }

  /** The sort's result is in non-increasing order of total and, when the
      input's users are distinct, so are the result's. */
  lemma {:induction false} SortDescCorrect(s: seq<Entry>)
    ensures SortedDesc(SortDesc(s))
    ensures DistinctUsers(s) ==> DistinctUsers(SortDesc(s))
  {
    if s != [] {
      SortDescCorrect(s[1..]);
      var rest := SortDesc(s[1..]);
      InsertSorted(s[0], rest);
      if DistinctUsers(s) {
        assert s == [s[0]] + s[1..];
        HeadUnique(s);
        UsersOfPermutation(rest, s[1..]);
        InsertDistinct(s[0], rest);
      }
    }
  }

  /** The first `LeaderboardSize` groups, or all of them when there are fewer. */
  function Top(s: seq<Entry>): (r: seq<Entry>)
    ensures |r| == if |s| <= LeaderboardSize then |s| else LeaderboardSize
    ensures r == s[..|r|]
  {
    if |s| <= LeaderboardSize then s else s[..LeaderboardSize]
  }

  /** Keeping a prefix keeps the order, the distinct users, and no group left
      out outranks the last one kept. */
  lemma TopOfSorted(s: seq<Entry>)
    requires SortedDesc(s) && DistinctUsers(s)
    ensures SortedDesc(Top(s)) && DistinctUsers(Top(s))
    ensures Users(Top(s)) <= Users(s)
    ensures forall e :: e in s && e.user !in Users(Top(s)) ==>
              |Top(s)| == LeaderboardSize && e.totalHours <= Top(s)[|Top(s)| - 1].totalHours
  {
    var r := Top(s);
    forall u | u in Users(r) ensures u in Users(s) {
      var e :| e in r && e.user == u;
      assert e in s;
    }
    forall e | e in s && e.user !in Users(r)
      ensures |r| == LeaderboardSize && e.totalHours <= r[|r| - 1].totalHours
    {
      var j :| 0 <= j < |s| && s[j] == e;
      assert j >= |r|;
    }
  }

  /** The sorted groups: each user with a verified record once, with their
      verified hours, best first. */
  lemma SortedGroupsCorrect(log: seq<Impact>)
    ensures var s := SortDesc(Group(log));
            && SortedDesc(s) && DistinctUsers(s) && Users(s) == VerifiedUsers(log)
            && forall e :: e in s ==> e.totalHours == VerifiedHours(log, e.user)
  {
    var s := SortDesc(Group(log));
    SortDescCorrect(Group(log));
    UsersOfPermutation(s, Group(log));
    forall e | e in s ensures e in Group(log) {
      assert e in multiset(s);
    }
  }

  /** A user with a positive verified total owns a verified record. */
  lemma {:induction false} VerifiedHoursPositive(log: seq<Impact>, u: UserId)
    requires VerifiedHours(log, u) > 0
    ensures u in VerifiedUsers(log)
  {
    if Contribution(log[0], u) > 0 {
      assert log[0] in log;
    } else {
      VerifiedHoursPositive(log[1..], u);
      var r :| r in log[1..] && r.status == Verified && r.user == u;
      assert r in log;
    }
  }

  /** The leaderboard query: the ten best groups. */
  function GetLeaderboard(log: seq<Impact>): (r: seq<Entry>)
    ensures |r| <= LeaderboardSize
  {
    Top(SortDesc(Group(log)))
  }

  /** The leaderboard lists users who have verified records, each once, each
      with their verified hours, best first. */
  lemma LeaderboardEntriesCorrect(log: seq<Impact>)
    ensures var r := GetLeaderboard(log);
            && DistinctUsers(r) && SortedDesc(r)
            && Users(r) <= VerifiedUsers(log)
            && forall i :: 0 <= i < |r| ==> r[i].totalHours == VerifiedHours(log, r[i].user)
  {
    var s := SortDesc(Group(log));
    SortedGroupsCorrect(log);
    TopOfSorted(s);
    var r := Top(s);
    forall i | 0 <= i < |r| ensures r[i].totalHours == VerifiedHours(log, r[i].user) {
      assert r[i] == s[i];
    }
  }

  /** A user with verified hours is left off the leaderboard only when all
      ten places are taken, and then by users with at least as many hours. */
  lemma LeaderboardOmitsOnlyLower(log: seq<Impact>, u: UserId)
    requires u !in Users(GetLeaderboard(log))
    ensures var r := GetLeaderboard(log);
            (u in VerifiedUsers(log) || VerifiedHours(log, u) > 0) ==>
              |r| == LeaderboardSize && VerifiedHours(log, u) <= r[|r| - 1].totalHours
  {
    var s := SortDesc(Group(log));
    SortedGroupsCorrect(log);
    TopOfSorted(s);
    if VerifiedHours(log, u) > 0 {
      VerifiedHoursPositive(log, u);
    }
    if u in VerifiedUsers(log) {
      var e :| e in s && e.user == u;
    }
  }

  /** Of two users on the leaderboard, the one with more verified hours is
      listed first. */
  lemma HigherTotalRanksFirst(log: seq<Impact>, i: nat, j: nat)
    requires i < |GetLeaderboard(log)| && j < |GetLeaderboard(log)|
    requires VerifiedHours(log, GetLeaderboard(log)[i].user) > VerifiedHours(log, GetLeaderboard(log)[j].user)
    ensures i < j
  {
    LeaderboardEntriesCorrect(log);
  }
}
