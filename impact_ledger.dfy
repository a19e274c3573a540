/** The impact ledger of the impact service: volunteers log hours against an
    event, anyone signed in verifies a log, and a user's points and milestone
    certificate are computed from the verified hours. */
module ImpactLedger {
  import opened Common

  /** A record's identifier: its position in the ledger, in creation order. */
  type ImpactId = nat

  datatype Status = Pending | Verified

  /** One claimed stint of volunteering at the event `event` of the event
      store. Hours are whole numbers here. */
  datatype Impact = Impact(user: UserId, event: EventId, hours: nat, status: Status, verifiedBy: Option<UserId>)

  /** The hour totals that earn a certificate. */
  const Milestones: seq<nat> := [20, 50, 100]

  /** Points awarded per verified hour. */
  const PointsPerHour: nat := 5

  /** A verifier is recorded exactly when the record is verified. */
  ghost predicate WellFormed(r: Impact) {
    r.status == Verified <==> r.verifiedBy.Some?
  }

  /** What may change between two states of the ledger: records are only
      added, never removed; a record's user, event and hours never change;
      and a verified record stays verified. */
  ghost predicate Evolves(before: seq<Impact>, after: seq<Impact>) {
    && |before| <= |after|
    && forall i :: 0 <= i < |before| ==>
         && after[i].user == before[i].user
         && after[i].event == before[i].event
         && after[i].hours == before[i].hours
         && (before[i].status == Verified ==> after[i].status == Verified)
  }

  /** The store of impact records. */
  class Ledger {
    var records: seq<Impact>

    ghost predicate Valid()
      reads this
    {
      forall i :: 0 <= i < |records| ==> WellFormed(records[i])
    }

    constructor ()
      ensures Valid() && records == []
    {
      records := [];
    }

    /** Stores a new pending record for `user` at `event` and returns it with
        its identifier; the records already stored are left as they were. */
    method LogVolunteerHours(user: UserId, event: EventId, hours: nat) returns (id: ImpactId, created: Impact)
      requires Valid()
      modifies this
      ensures Valid()
      ensures created.user == user && created.event == event && created.hours == hours
      ensures created.status == Pending && created.verifiedBy == None
      ensures id == |old(records)| && records == old(records) + [created]
      ensures Evolves(old(records), records)
    {
      created := Impact(user, event, hours, Pending, None);
      id := |records|;
      records := records + [created];
    }

    /** Marks record `id` verified by `verifier`. An unknown identifier is
        refused with NotFound and changes nothing. An already verified record
        is accepted again and takes the latest verifier. */
    method VerifyHours(id: ImpactId, verifier: UserId) returns (r: Result<Impact>)
      requires Valid()
      modifies this
      ensures Valid()
      ensures id >= |old(records)| ==> r == Err(NotFound) && records == old(records)
      ensures id < |old(records)| ==>
                && r.Ok?
                && r.value.status == Verified && r.value.verifiedBy == Some(verifier)
                && r.value.user == old(records)[id].user
                && r.value.event == old(records)[id].event
                && r.value.hours == old(records)[id].hours
                && records == old(records)[id := r.value]
      ensures Evolves(old(records), records)
    {
      if id >= |records| {
        return Err(NotFound);
      }
      var impact := records[id].(status := Verified, verifiedBy := Some(verifier));
      records := records[id := impact];
      r := Ok(impact);
    }
  }

  /** What record `r` adds to `u`'s verified total. */
  function Contribution(r: Impact, u: UserId): nat {
    if r.user == u && r.status == Verified then r.hours else 0
  }

  /** Reference definition: the sum of hours over `u`'s verified records. */
  function VerifiedHours(log: seq<Impact>, u: UserId): nat {
    if log == [] then 0 else Contribution(log[0], u) + VerifiedHours(log[1..], u)
  }

  /** The query for `u`'s verified records: exactly those records, each as
      often as stored, in ledger order. */
  function FindVerified(log: seq<Impact>, u: UserId): (r: seq<Impact>)
    ensures IsSubsequence(r, log)
    ensures forall x :: multiset(r)[x] == if x.user == u && x.status == Verified then multiset(log)[x] else 0
  {
    var p := (r: Impact) => r.user == u && r.status == Verified;
    FilterIsSubsequence(p, log);
    FilterCount(p, log);
    Filter(p, log)
  }

  /** Reference definition: the total of the hours of a list of records. */
  function Hours(rs: seq<Impact>): nat {
    if rs == [] then 0 else rs[0].hours + Hours(rs[1..])
  }

  /** The `reduce` that adds up the hours of a list of records onto `acc`:
      the starting value plus the total of the hours. */
  function SumHours(rs: seq<Impact>, acc: nat): (r: nat)
    ensures r == acc + Hours(rs)
  {
    if rs == [] then acc else SumHours(rs[1..], acc + rs[0].hours)
  }

  /** The reply of the points query; `certificate` is the file name of the
      issued certificate, if one is issued. */
  datatype PointsSummary = PointsSummary(totalHours: nat, points: nat, certificate: Option<string>)

  /** The certificate issuer names the artifact after the user. Drawing and
      writing the image are not modelled. */
  function CertificateName(u: UserId): (name: string)
    ensures |name| > |u| && name[..|u|] == u
  {
    u + "_certificate.png"
  }

  /** Two users never share a certificate file name. */
  lemma CertificateNameInjective(u: UserId, v: UserId)
    requires CertificateName(u) == CertificateName(v)
    ensures u == v
  {
    var a, b := CertificateName(u), CertificateName(v);
    assert |a| == |u| + 16 && |b| == |v| + 16;
    assert a[..|u|] == u && b[..|v|] == v;
  }

  /** The query's answer on a non-empty ledger, by its first record. */
  lemma FindVerifiedCons(log: seq<Impact>, u: UserId)
    requires log != []
    ensures FindVerified(log, u) ==
              if log[0].user == u && log[0].status == Verified then [log[0]] + FindVerified(log[1..], u)
              else FindVerified(log[1..], u)
  {
  }

  /** Summing `u`'s verified records with the fold gives the reference
      total, whatever the starting accumulator. */
  lemma {:induction false} SumOfFoundIsVerifiedHours(log: seq<Impact>, u: UserId, acc: nat)
    ensures SumHours(FindVerified(log, u), acc) == acc + VerifiedHours(log, u)
  {
    if log != [] {
      var tail := FindVerified(log[1..], u);
      FindVerifiedCons(log, u);
      if log[0].user == u && log[0].status == Verified {
        assert ([log[0]] + tail)[1..] == tail;
        SumOfFoundIsVerifiedHours(log[1..], u, acc + log[0].hours);
      } else {
        SumOfFoundIsVerifiedHours(log[1..], u, acc);
      }
    }
  }

  /** The points query: the total of `u`'s verified hours, five points per
      hour, and a certificate exactly when the total equals a milestone. */
  function GetUserPoints(log: seq<Impact>, u: UserId): (r: PointsSummary)
    ensures r.totalHours == VerifiedHours(log, u)
    ensures r.points == PointsPerHour * r.totalHours
    ensures r.certificate.Some? <==> r.totalHours == 20 || r.totalHours == 50 || r.totalHours == 100
    ensures r.certificate.Some? ==> r.certificate.value == CertificateName(u)
  {
    SumOfFoundIsVerifiedHours(log, u, 0);
    var totalHours := SumHours(FindVerified(log, u), 0);
    var points := totalHours * PointsPerHour;
    if totalHours in Milestones then PointsSummary(totalHours, points, Some(CertificateName(u)))
    else PointsSummary(totalHours, points, None)
  }

  /** The milestone test is equality, not a threshold: one hour either side
      of a milestone earns nothing. */
  lemma MilestoneIsExact(log: seq<Impact>, u: UserId)
    requires VerifiedHours(log, u) in {19, 21, 49, 51, 99, 101}
    ensures GetUserPoints(log, u).certificate == None
  {
  }

  /** The verified total of a concatenation is the sum of the parts. */
  lemma {:induction false} VerifiedHoursAppend(a: seq<Impact>, b: seq<Impact>, u: UserId)
    ensures VerifiedHours(a + b, u) == VerifiedHours(a, u) + VerifiedHours(b, u)
  {
    if a == [] {
      assert a + b == b;
    } else {
      assert (a + b)[1..] == a[1..] + b;
      VerifiedHoursAppend(a[1..], b, u);
    }
  }

  /** Replacing record `i` by `x` changes everyone's verified total by the
      difference of what the two records contribute. */
  lemma {:induction false} VerifiedHoursUpdate(log: seq<Impact>, i: nat, x: Impact, u: UserId)
    requires i < |log|
    ensures VerifiedHours(log[i := x], u) + Contribution(log[i], u) == VerifiedHours(log, u) + Contribution(x, u)
  {
    if i > 0 {
      assert log[i := x][1..] == log[1..][i - 1 := x];
      VerifiedHoursUpdate(log[1..], i - 1, x, u);
    } else {
      assert log[i := x][1..] == log[1..];
    }
  }

  /** Logging hours earns nothing until they are verified: a pending record
      leaves every user's points as they were. */
  lemma LoggingKeepsPoints(log: seq<Impact>, r: Impact, u: UserId)
    requires r.status == Pending
    ensures GetUserPoints(log + [r], u) == GetUserPoints(log, u)
  {
    VerifiedHoursAppend(log, [r], u);
    assert [r][1..] == [];
  }

  /** Verifying a pending record adds its hours to its owner's total and to
      nobody else's; verifying it again changes no total. */
  lemma VerifyingCreditsOwner(log: seq<Impact>, i: nat, verifier: UserId, u: UserId)
    requires i < |log|
    ensures var after := log[i := log[i].(status := Verified, verifiedBy := Some(verifier))];
            VerifiedHours(after, u) ==
              VerifiedHours(log, u) + (if u == log[i].user && log[i].status == Pending then log[i].hours else 0)
  {
    VerifiedHoursUpdate(log, i, log[i].(status := Verified, verifiedBy := Some(verifier)), u);
  }

  /** Logging twenty hours, verifying them and asking for the points earns
      100 points and the twenty-hour certificate. */
  method LogVerifyAndScore(user: UserId, event: EventId, verifier: UserId) returns (summary: PointsSummary)
    ensures summary == PointsSummary(20, 100, Some(CertificateName(user)))
  {
    var ledger := new Ledger();
    var id, _ := ledger.LogVolunteerHours(user, event, 20);
    var _ := ledger.VerifyHours(id, verifier);
    assert ledger.records == [Impact(user, event, 20, Verified, Some(verifier))];
    assert VerifiedHours(ledger.records[1..], user) == 0;
    summary := GetUserPoints(ledger.records, user);
  }

  /** Two ten-hour logs, both verified, reach the twenty-hour milestone. */
  method LogTwiceVerifyBothAndScore(user: UserId, event: EventId, verifier: UserId) returns (summary: PointsSummary)
    ensures summary == PointsSummary(20, 100, Some(CertificateName(user)))
  {
    var ledger := new Ledger();
    var first, _ := ledger.LogVolunteerHours(user, event, 10);
    var second, _ := ledger.LogVolunteerHours(user, event, 10);
    var _ := ledger.VerifyHours(first, verifier);
    var _ := ledger.VerifyHours(second, verifier);
    var done := Impact(user, event, 10, Verified, Some(verifier));
    assert ledger.records == [done, done];
    assert ledger.records[1..] == [done] && [done][1..] == [];
    assert VerifiedHours([done], user) == 10;
    summary := GetUserPoints(ledger.records, user);
  }
}
