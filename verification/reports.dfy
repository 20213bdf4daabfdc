/** The report handlers (backend/controllers/reports.js): a signed-in account
    saves diagnostic reports, reads and deletes its own, and reads
    statistics over them. The account is named by the token's username. */
module Reports {
  import opened Common
  import opened UserModel
  import opened ReportModel

  const UserNotFound := "User not found"
  const ReportNotFound := "Report not found"
  const ServerError: nat := 500

  /** A number in the body is falsy when it is absent or zero. */
  predicate GivenReal(o: Option<real>) {
    o.Some? && o.value != 0.0
  }

  /** The JSON body of `createReport`; an absent key is `None`. */
  datatype ReportBody = ReportBody(
    patientName: Option<string>,
    age: Option<int>,
    gender: Option<string>,
    scanType: Option<string>,
    clinicalNotes: Option<string>,
    diagnosis: Option<string>,
    confidence: Option<real>,
    status: Option<string>,
    riskLevel: Option<string>,
    details: Option<string>,
    recommendations: Option<seq<string>>,
    imageUrl: Option<string>)

  /** The eight required fields are all truthy. */
  predicate Complete(b: ReportBody) {
    && Given(b.patientName) && GivenNum(b.age) && Given(b.gender) && Given(b.scanType)
    && Given(b.diagnosis) && GivenReal(b.confidence) && Given(b.status) && Given(b.riskLevel)
  }

  /** The object handed to `Report.create` for the account `owner`. */
  function DocOf(b: ReportBody, owner: nat): ReportDoc {
    ReportDoc(owner, b.patientName, b.age, b.gender, b.scanType, b.clinicalNotes, b.diagnosis,
              b.confidence, b.status, b.riskLevel, b.details, b.recommendations, b.imageUrl)
  }

  /** `createReport`: checks the body, finds the account, counts one more use
      of the platform and saves the account, then creates the report. The
      use is counted before the schema has seen the report, so a report the
      schema refuses (a value outside an enum, a confidence above 100) still
      counts as a use. */
  method CreateReport(users: UserStore, store: ReportStore, username: string, body: ReportBody)
    returns (reply: Reply<Report>)
    requires users.Valid() && store.Valid()
    modifies users, store
    ensures users.Valid() && store.Valid()
    ensures !Complete(body) ==>
      reply == Refused(400, "All required fields must be provided") &&
      users.users == old(users.users) && store.reports == old(store.reports)
    ensures Complete(body) && IndexOfUsername(old(users.users), username, false).None? ==>
      reply == Refused(404, UserNotFound) &&
      users.users == old(users.users) && store.reports == old(store.reports)
    ensures Complete(body) && IndexOfUsername(old(users.users), username, false).Some? ==>
      var k := IndexOfUsername(old(users.users), username, false).value;
      var u := old(users.users)[k];
      && users.users == old(users.users)[k := u.(platformUsageCount := u.platformUsageCount + 1)]
      && (reply.Ok? <==> CastReport(DocOf(body, u.id), old(store.nextId)).Some?)
      && (reply.Ok? ==> reply.value.userId == u.id && store.reports == old(store.reports) + [reply.value])
      && (reply.Ok? ==> reply.value == CastReport(DocOf(body, u.id), old(store.nextId)).value)
      && (reply.Refused? ==> reply.code == ServerError && store.reports == old(store.reports))
  {
    if !Given(body.patientName) || !GivenNum(body.age) || !Given(body.gender) ||
       !Given(body.scanType) || !Given(body.diagnosis) || !GivenReal(body.confidence) ||
       !Given(body.status) || !Given(body.riskLevel) {
      return Refused(400, "All required fields must be provided");
    }
    var k := IndexOfUsername(users.users, username, false);
    if k.None? {
      return Refused(404, UserNotFound);
    }
    var u := users.users[k.value];
    CountUse(users, k.value);
    var doc := DocOf(body, u.id);
    CastReportSpec(doc, store.nextId);
    var created := store.Create(doc);
    if created.None? {
      return Refused(ServerError, "");
    }
    reply := Ok(created.value);
  }

  /** One more use of the platform for the account at position `k`, saved.
      The account was stored, so it passes its validators and its trimmed
      paths stay as they are: the save succeeds. */
  method CountUse(users: UserStore, k: nat)
    requires users.Valid() && k < |users.users|
    modifies users
    ensures users.Valid()
    ensures users.users ==
      old(users.users)[k := old(users.users)[k].(platformUsageCount := old(users.users)[k].platformUsageCount + 1)]
  {
    var u := users.users[k];
    var bumped := u.(platformUsageCount := u.platformUsageCount + 1);
    UniqueCodesSameCodes(users.users, k, bumped);
    TrimPathsOfTrimmed(bumped);
    var saved := users.Save(k, bumped);
  }

  /** The account behind the token's username, found without collation. */
  function Account(users: seq<User>, username: string): Option<User> {
    FindByUsername(users, username, false)
  }

  function Owned(owner: nat): Report -> bool {
    (r: Report) => r.userId == owner
  }

  /** `getUserReports`: the account's reports, newest first. */
  function GetUserReports(users: seq<User>, reports: seq<Report>, username: string): (reply: Reply<seq<Report>>)
    ensures reply.Refused? <==> Account(users, username).None?
    ensures reply.Refused? ==> reply == Refused(404, UserNotFound)
  {
    var me := Account(users, username);
    if me.None? then Refused(404, UserNotFound)
    else Ok(Reverse(Filter(reports, Owned(me.value.id))))
  }

  /** The caller receives every one of its reports and no other, sorted by
      creation time, newest first. */
  lemma GetUserReportsSpec(users: seq<User>, reports: seq<Report>, username: string, r: Report)
    requires IdsAscending(reports) && Account(users, username).Some?
    ensures var v := GetUserReports(users, reports, username).value;
      && (r in v <==> r in reports && r.userId == Account(users, username).value.id)
      && (forall i, j :: 0 <= i < j < |v| ==> v[i].id > v[j].id)
  {
    var owner := Account(users, username).value.id;
    var mine := Filter(reports, Owned(owner));
    FilterMember(reports, Owned(owner), r);
    FilterKeepsOrder(reports, Owned(owner), (a: Report, b: Report) => a.id < b.id);
    var v := Reverse(mine);
    assert r in v <==> r in mine by {
      if r in mine {
        var k :| 0 <= k < |mine| && mine[k] == r;
        assert v[|mine| - 1 - k] == r;
      }
    }
  }

  /** `getReport`: a report is shown only to the account that owns it. */
  function GetReport(users: seq<User>, reports: seq<Report>, username: string, id: nat): (reply: Reply<Report>)
    ensures Account(users, username).None? ==> reply == Refused(404, UserNotFound)
    ensures Account(users, username).Some? ==>
      (reply.Ok? <==> exists r :: r in reports && r.id == id && r.userId == Account(users, username).value.id)
    ensures reply.Refused? && Account(users, username).Some? ==> reply == Refused(404, ReportNotFound)
    ensures reply.Ok? ==>
      reply.value in reports && reply.value.id == id && reply.value.userId == Account(users, username).value.id
  {
    var me := Account(users, username);
    if me.None? then Refused(404, UserNotFound)
    else
      var k := IndexOfOwned(reports, id, me.value.id);
      if k.None? then Refused(404, ReportNotFound) else Ok(reports[k.value])
  }

  function OtherThan(id: nat): Report -> bool {
    (r: Report) => r.id != id
  }

  /** `deleteReport`: the account's own report with that id is removed, and
      nothing else; a report of another account is "not found". */
  method DeleteReport(users: seq<User>, store: ReportStore, username: string, id: nat) returns (reply: Reply<string>)
    requires store.Valid()
    modifies store
    ensures store.Valid()
    ensures reply.Refused? ==> store.reports == old(store.reports)
    ensures Account(users, username).None? ==> reply == Refused(404, UserNotFound)
    ensures Account(users, username).Some? ==>
      var owner := Account(users, username).value.id;
      && (reply.Ok? <==> exists r :: r in old(store.reports) && r.id == id && r.userId == owner)
      && (reply.Refused? ==> reply == Refused(404, ReportNotFound))
    ensures reply.Ok? ==>
      store.reports == Filter(old(store.reports), OtherThan(id)) &&
      |store.reports| == |old(store.reports)| - 1
  {
    var me := Account(users, username);
    if me.None? {
      return Refused(404, UserNotFound);
    }
    var k := IndexOfOwned(store.reports, id, me.value.id);
    if k.None? {
      return Refused(404, ReportNotFound);
    }
    FilterDropsOne(store.reports, k.value, OtherThan(id));
    store.Remove(k.value);
    reply := Ok("Report deleted successfully");
  }

  // ------------------------------------------------------------ statistics

  datatype Stats = Stats(
    totalReports: nat,
    averageAccuracy: real,
    uniquePatients: nat,
    platformUsage: int,
    normalCount: nat,
    abnormalCount: nat,
    criticalCount: nat)

  /** `reports.reduce((sum, r) => sum + r.confidence, 0)`. */
  function SumConfidence(rs: seq<Report>): real {
    if rs == [] then 0.0 else SumConfidence(rs[..|rs| - 1]) + rs[|rs| - 1].confidence
  }

  /** `new Set(reports.map(r => r.patientName.toLowerCase()))`. */
  function PatientKeys(rs: seq<Report>): set<string> {
    if rs == [] then {} else PatientKeys(rs[..|rs| - 1]) + {Lower(rs[|rs| - 1].patientName)}
  }

  function HasStatus(s: ReportStatus): Report -> bool {
    (r: Report) => r.status == s
  }

  /** `Math.round(x * 10) / 10`: `Math.round` rounds halves up. */
  function RoundTenth(x: real): real {
    ((x * 10.0 + 0.5).Floor as real) / 10.0
  }

  /** The mean confidence, 0 for no reports. */
  function Average(rs: seq<Report>): real {
    if |rs| > 0 then SumConfidence(rs) / (|rs| as real) else 0.0
  }

  /** The statistics over the reports `mine` of an account whose usage
      counter is `usage`. */
  function StatsOf(mine: seq<Report>, usage: int): Stats {
    var total := |mine|;
    Stats(total, RoundTenth(Average(mine)), |PatientKeys(mine)|, usage,
          |Filter(mine, HasStatus(Normal))|, |Filter(mine, HasStatus(Abnormal))|,
          |Filter(mine, HasStatus(Critical))|)
  }

  /** `getUserStats`. */
  function GetUserStats(users: seq<User>, reports: seq<Report>, username: string): (reply: Reply<Stats>)
    ensures reply.Refused? <==> Account(users, username).None?
    ensures reply.Refused? ==> reply == Refused(404, UserNotFound)
  {
    var me := Account(users, username);
    if me.None? then Refused(404, UserNotFound)
    else StatsFor(reports, me.value)
  }

  function StatsFor(reports: seq<Report>, me: User): Reply<Stats> {
    Ok(StatsOf(Filter(reports, Owned(me.id)), me.platformUsageCount))
  }

  /** There are never more distinct patients than reports, and at least one
      when there is a report. */
  lemma {:induction false} PatientKeysBound(rs: seq<Report>)
    ensures |PatientKeys(rs)| <= |rs|
    ensures |rs| > 0 ==> |PatientKeys(rs)| >= 1
  {
    if rs != [] {
      PatientKeysBound(rs[..|rs| - 1]);
    }
  }

  /** Every report has exactly one of the three statuses. */
  lemma {:induction false} StatusCountsSum(rs: seq<Report>)
    ensures |Filter(rs, HasStatus(Normal))| + |Filter(rs, HasStatus(Abnormal))| +
            |Filter(rs, HasStatus(Critical))| == |rs|
  {
    if rs != [] {
      StatusCountsSum(rs[..|rs| - 1]);
    }
  }

  /** The confidences of valid reports add up to at most 100 per report. */
  lemma {:induction false} SumConfidenceBounds(rs: seq<Report>)
    requires forall i :: 0 <= i < |rs| ==> ValidReport(rs[i])
    ensures 0.0 <= SumConfidence(rs) <= 100.0 * (|rs| as real)
  {
    if rs != [] {
      SumConfidenceBounds(rs[..|rs| - 1]);
      assert ValidReport(rs[|rs| - 1]);
    }
  }

  /** Rounding to a tenth keeps a value of [0, 100] inside [0, 100]. */
  lemma RoundTenthBounds(x: real)
    requires 0.0 <= x <= 100.0
    ensures 0.0 <= RoundTenth(x) <= 100.0
  {
    var y := x * 10.0 + 0.5;
    assert 0.5 <= y <= 1000.5;
    assert 0 <= y.Floor <= 1000;
  }

  /** Over valid reports, the three status counts add up to the total;
      distinct patients never outnumber reports; the average is 0 without
      reports and lies in [0, 100] otherwise. */
  lemma StatsOfSpec(mine: seq<Report>, usage: int)
    requires forall i :: 0 <= i < |mine| ==> ValidReport(mine[i])
    ensures var s := StatsOf(mine, usage);
      && s.totalReports == |mine|
      && s.normalCount + s.abnormalCount + s.criticalCount == s.totalReports
      && s.uniquePatients <= s.totalReports
      && (s.totalReports > 0 ==> s.uniquePatients >= 1)
      && (s.totalReports == 0 ==> s.averageAccuracy == 0.0)
      && 0.0 <= s.averageAccuracy <= 100.0
      && s.platformUsage == usage
  {
    StatusCountsSum(mine);
    PatientKeysBound(mine);
    AverageBounds(mine);
    RoundTenthBounds(Average(mine));
  }

  /** The mean confidence of valid reports lies in [0, 100]. */
  lemma AverageBounds(rs: seq<Report>)
    requires forall i :: 0 <= i < |rs| ==> ValidReport(rs[i])
    ensures 0.0 <= Average(rs) <= 100.0
  {
    SumConfidenceBounds(rs);
    if |rs| > 0 {
      var n := |rs| as real;
      var a := Average(rs);
      assert a * n == SumConfidence(rs);
    }
  }

  /** `getUserStats` counts exactly the caller's reports, and the platform
      usage is the account's counter. */
  lemma GetUserStatsSpec(users: seq<User>, reports: seq<Report>, next: nat, username: string)
    requires StoredReports(reports, next) && Account(users, username).Some?
    ensures var me := Account(users, username).value;
      var s := GetUserStats(users, reports, username).value;
      && s == StatsOf(Filter(reports, Owned(me.id)), me.platformUsageCount)
      && (forall r :: r in Filter(reports, Owned(me.id)) <==> r in reports && r.userId == me.id)
      && s.normalCount + s.abnormalCount + s.criticalCount == s.totalReports
      && s.uniquePatients <= s.totalReports
      && 0.0 <= s.averageAccuracy <= 100.0
  {
    var me := Account(users, username).value;
    var mine := Filter(reports, Owned(me.id));
    forall r ensures r in mine <==> r in reports && r.userId == me.id {
      FilterMember(reports, Owned(me.id), r);
    }
    assert forall i :: 0 <= i < |mine| ==> ValidReport(mine[i]) by {
      forall i | 0 <= i < |mine| ensures ValidReport(mine[i]) {
        assert mine[i] in reports;
      }
    }
    StatsOfSpec(mine, me.platformUsageCount);
  }
}
