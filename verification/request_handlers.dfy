/** The request handlers of backend/controllers/requests.js that create,
    list, update and delete single requests. Read-only handlers are
    functions of the collections; handlers that change the Request
    collection are methods on the `RequestStore`. A handler's reply is
    `Ok` for a 2xx response and `Refused(code, message)` otherwise; 500
    stands for a schema validation error reaching the error middleware. */
module RequestHandlers {
  import opened Common
  import opened Sorting
  import opened RequestModel
  import opened UserModel
  import opened RequestRules

  const NoToken := "User not found in token"
  const AdminOnly := "Unauthorized - Admin access only"
  const ServerError: nat := 500

  /** The guard shared by the admin-only handlers: 400 without an identity
      claim, 403 without the admin role. */
  function AdminGuard(caller: Caller): (refusal: Option<(nat, string)>)
    ensures refusal.None? <==> caller.identity != "" && IsAdmin(caller)
    ensures caller.identity == "" ==> refusal == Some((400, NoToken))
    ensures caller.identity != "" && !IsAdmin(caller) ==> refusal == Some((403, AdminOnly))
  {
    if caller.identity == "" then Some((400, NoToken))
    else if !IsAdmin(caller) then Some((403, AdminOnly))
    else None
  }

  // ---------------------------------------------------------------- create

  /** The body of `POST /requests`; `None` is an absent key. */
  datatype CreateBody = CreateBody(
    employeeId: Option<nat>,
    employeeName: Option<string>,
    kind: Option<string>,
    startDate: Option<Day>,
    endDate: Option<Day>,
    selectedDates: Option<seq<Day>>,
    numberOfDays: Option<int>,
    reason: Option<string>,
    notes: Option<string>,
    status: Option<string>,
    source: Option<string>)

  const TypeNames := ["WFH", "VACATION", "LATE_PERMISSION", "EARLY_LEAVE"]

  /** The status a new request is given: approved when added directly by an
      admin, or for a WFH request that asks to be approved; pending otherwise. */
  function CreationStatus(source: string, kind: string, status: Option<string>): string {
    if source == "ADMIN_DIRECT" then "Approved"
    else if kind == "WFH" && status == Some("Approved") then "Approved"
    else "Pending"
  }

  /** The account a new request belongs to: the one named by `employeeId`
      when that id resolves, the caller's own account otherwise. */
  function Owner(me: User, users: seq<User>, employeeId: Option<nat>): User {
    if employeeId.Some? && FindById(users, employeeId.value).Some? then
      FindById(users, employeeId.value).value
    else me
  }

  /** `fullName || username`: the name shown for an account. */
  function DisplayName(u: User): string {
    Or(u.fullName, u.username)
  }

  /** `User.findOne({ email })` with the token's email: an absent identity
      matches no account. */
  function CallerAccount(caller: Caller, users: seq<User>): (me: Option<User>)
    ensures caller.identity == "" ==> me.None?
    ensures me.Some? ==> me == FindByEmail(users, caller.identity) && me.value.email == caller.identity
  {
    if caller.identity == "" then None else FindByEmail(users, caller.identity)
  }

  /** What `createRequest` passes to `Request.create`, or the reply it sends
      without reaching the Request collection. */
  function PlanRequest(caller: Caller, users: seq<User>, body: CreateBody): Reply<RequestDoc> {
    if !Given(body.kind) || body.startDate.None? || body.endDate.None? || !GivenNum(body.numberOfDays) then
      Refused(400, "Required fields: type, startDate, endDate, numberOfDays")
    else if body.kind.value !in TypeNames then
      Refused(400, "Invalid request type. Only WFH, VACATION, LATE_PERMISSION, or EARLY_LEAVE are allowed.")
    else
      match CallerAccount(caller, users)
      case None => Refused(404, "User not found")
      case Some(me) =>
        var owner := Owner(me, users, body.employeeId);
        var source := Or(body.source, "EMPLOYEE_REQUEST");
        Ok(RequestDoc(
          Some(owner.id),
          Some(Or(body.employeeName, DisplayName(owner))),
          owner.employeeCode,
          body.kind,
          body.startDate,
          body.endDate,
          Some(body.selectedDates.GetOr([])),
          body.numberOfDays,
          Some(Or(body.reason, Or(body.notes, ""))),
          Some(Or(body.notes, "")),
          Some(CreationStatus(source, body.kind.value, body.status)),
          Some(source)))
  }

  /** Both 400 checks come before any lookup: a body that fails them is
      refused the same way whoever calls and whatever is stored. */
  lemma PlanRequestValidatesFirst(c1: Caller, u1: seq<User>, c2: Caller, u2: seq<User>, body: CreateBody)
    requires || !Given(body.kind) || body.startDate.None? || body.endDate.None?
             || !GivenNum(body.numberOfDays) || body.kind.value !in TypeNames
    ensures PlanRequest(c1, u1, body).Refused? && PlanRequest(c1, u1, body).code == 400
    ensures PlanRequest(c1, u1, body) == PlanRequest(c2, u2, body)
  {
  }

  /** A body that passes both checks is refused only when the caller's
      account is missing, with 404. */
  lemma PlanRequestLookup(caller: Caller, users: seq<User>, body: CreateBody)
    requires Given(body.kind) && body.startDate.Some? && body.endDate.Some?
    requires GivenNum(body.numberOfDays) && body.kind.value in TypeNames
    ensures PlanRequest(caller, users, body).Refused? <==>
      caller.identity == "" || FindByEmail(users, caller.identity).None?
    ensures PlanRequest(caller, users, body).Refused? ==> PlanRequest(caller, users, body).code == 404
  {
  }

  /** What a planned request says: its owner, status, source and reason. */
  lemma PlanRequestFields(caller: Caller, users: seq<User>, body: CreateBody)
    requires PlanRequest(caller, users, body).Ok?
    ensures var doc := PlanRequest(caller, users, body).value;
      var me := CallerAccount(caller, users).value;
      && (doc.employeeId == Some(me.id) <== body.employeeId.None? || FindById(users, body.employeeId.value).None?)
      && (body.employeeId.Some? && FindById(users, body.employeeId.value).Some? ==>
            doc.employeeId == Some(body.employeeId.value))
      && doc.source == Some(if Given(body.source) then body.source.value else "EMPLOYEE_REQUEST")
      && (doc.status == Some("Approved") <==>
            doc.source == Some("ADMIN_DIRECT") || (body.kind == Some("WFH") && body.status == Some("Approved")))
      && (doc.status != Some("Approved") ==> doc.status == Some("Pending"))
      && doc.reason == Some(if Given(body.reason) then body.reason.value else if Given(body.notes) then body.notes.value else "")
  {
  }

  /** `createRequest`: plans the document and stores it through the schema. */
  method CreateRequest(store: RequestStore, users: seq<User>, caller: Caller, body: CreateBody)
    returns (reply: Reply<Request>)
    requires store.Valid()
    modifies store
    ensures store.Valid()
    ensures var plan := PlanRequest(caller, users, body);
      && (plan.Refused? ==> reply == Refused(plan.code, plan.message) && store.requests == old(store.requests))
      && (plan.Ok? ==>
            var cast := CastRequest(plan.value, old(store.nextId));
            && (cast.None? ==> reply.Refused? && reply.code == ServerError && store.requests == old(store.requests))
            && (cast.Some? ==> reply == Ok(cast.value) && store.requests == old(store.requests) + [cast.value]))
  {
    var plan := PlanRequest(caller, users, body);
    if plan.Refused? {
      return Refused(plan.code, plan.message);
    }
    var created := store.Create(plan.value);
    if created.None? {
      return Refused(ServerError, "");
    }
    reply := Ok(created.value);
  }

  /** End to end: a request `createRequest` stores is approved exactly when
      it is an admin-direct add or an approved WFH request, and it is owned
      by the resolved target or else by the caller. */
  lemma CreatedRequestStatus(caller: Caller, users: seq<User>, body: CreateBody, id: nat)
    requires PlanRequest(caller, users, body).Ok?
    requires CastRequest(PlanRequest(caller, users, body).value, id).Some?
    ensures var r := CastRequest(PlanRequest(caller, users, body).value, id).value;
      && (r.status == Approved <==>
            Or(body.source, "EMPLOYEE_REQUEST") == "ADMIN_DIRECT" ||
            (body.kind == Some("WFH") && body.status == Some("Approved")))
      && (r.status != Approved ==> r.status == Pending)
      && (r.source == ADMIN_DIRECT <==> Or(body.source, "EMPLOYEE_REQUEST") == "ADMIN_DIRECT")
      && r.employeeId == Owner(CallerAccount(caller, users).value, users, body.employeeId).id
  {
    var doc := PlanRequest(caller, users, body).value;
    PlanRequestDoc(caller, users, body);
    CastRequestDefaults(doc, id);
    var source := Or(body.source, "EMPLOYEE_REQUEST");
    var r := CastRequest(doc, id).value;
    assert StatusName(r.status) == CreationStatus(source, body.kind.value, body.status);
    assert SourceName(r.source) == source;
  }

  /** The owner, type, status and source of a planned request. */
  lemma PlanRequestDoc(caller: Caller, users: seq<User>, body: CreateBody)
    requires PlanRequest(caller, users, body).Ok?
    ensures CallerAccount(caller, users).Some?
    ensures var doc := PlanRequest(caller, users, body).value;
      var source := Or(body.source, "EMPLOYEE_REQUEST");
      && body.kind.Some?
      && doc.employeeId == Some(Owner(CallerAccount(caller, users).value, users, body.employeeId).id)
      && doc.kind == body.kind
      && doc.source == Some(source)
      && doc.status == Some(CreationStatus(source, body.kind.value, body.status))
  {
  }

  // ------------------------------------------------------------ list views

  predicate IsEmployeeRequest(r: Request) {
    r.source == EMPLOYEE_REQUEST
  }

  /** `getAllRequests`: the employee-submitted requests, newest first
      (`createdAt` descending is the reverse of creation order). */
  function GetAllRequests(caller: Caller, rs: seq<Request>): (reply: Reply<seq<Request>>)
    ensures AdminGuard(caller).Some? ==>
      reply == Refused(AdminGuard(caller).value.0, AdminGuard(caller).value.1)
    ensures reply.Ok? ==> forall i :: 0 <= i < |reply.value| ==> reply.value[i].source == EMPLOYEE_REQUEST
  {
    var refusal := AdminGuard(caller);
    if refusal.Some? then Refused(refusal.value.0, refusal.value.1)
    else Ok(Reverse(Filter(rs, IsEmployeeRequest)))
  }

  /** Newest first: ids strictly decrease along the reversed collection. */
  lemma ReverseNewestFirst(rs: seq<Request>)
    requires IdsIncreasing(rs)
    ensures forall i, j :: 0 <= i < j < |rs| ==> Reverse(rs)[i].id > Reverse(rs)[j].id
  {
  }

  /** An admin sees every employee-submitted request and nothing else, each
      once, newest first. */
  lemma GetAllRequestsSpec(caller: Caller, rs: seq<Request>, next: nat, r: Request)
    requires StoredRequests(rs, next)
    requires caller.identity != "" && IsAdmin(caller)
    ensures GetAllRequests(caller, rs).Ok?
    ensures r in GetAllRequests(caller, rs).value <==> r in rs && r.source == EMPLOYEE_REQUEST
    ensures var v := GetAllRequests(caller, rs).value;
      forall i, j :: 0 <= i < j < |v| ==> v[i].id > v[j].id
  {
    var f := Filter(rs, IsEmployeeRequest);
    FilterMember(rs, IsEmployeeRequest, r);
    FilterKeepsOrder(rs, IsEmployeeRequest, (a: Request, b: Request) => a.id < b.id);
    ReverseNewestFirst(f);
    assert r in Reverse(f) <==> r in f by {
      if r in f {
        var k :| 0 <= k < |f| && f[k] == r;
        assert Reverse(f)[|f| - 1 - k] == r;
      }
    }
  }

  /** `parseInt(req.query.limit) || 10`, passed to `.limit`: a missing,
      unparsable or zero limit becomes 10, and a negative one is read by
      MongoDB as its absolute value. */
  function PageLimit(q: Option<int>): (n: nat)
    ensures n > 0
    ensures q.None? || q.value == 0 ==> n == 10
    ensures q.Some? && q.value != 0 ==> n == if q.value > 0 then q.value else -q.value
  {
    if q.None? || q.value == 0 then 10
    else if q.value < 0 then -q.value
    else q.value
  }

  /** The first `n` elements, or all of them when there are fewer. */
  function Take<T>(s: seq<T>, n: nat): (r: seq<T>)
    ensures |r| == if n < |s| then n else |s|
    ensures r <= s
  {
    if n < |s| then s[..n] else s
  }

  /** The requests that belong to the account `owner`. */
  function OwnedBy(owner: nat): Request -> bool {
    (r: Request) => r.employeeId == owner
  }

  /** `getMyRequests`: the caller's newest requests, at most one page. */
  function GetMyRequests(caller: Caller, users: seq<User>, rs: seq<Request>, limit: Option<int>)
    : (reply: Reply<seq<Request>>)
    ensures caller.identity == "" ==> reply == Refused(400, NoToken)
    ensures caller.identity != "" && FindByEmail(users, caller.identity).None? ==> reply == Refused(404, "User not found")
    ensures reply.Ok? <==> caller.identity != "" && FindByEmail(users, caller.identity).Some?
    ensures reply.Ok? ==> |reply.value| <= PageLimit(limit)
  {
    var n := PageLimit(limit);
    if caller.identity == "" then Refused(400, NoToken)
    else match FindByEmail(users, caller.identity)
      case None => Refused(404, "User not found")
      case Some(me) => Ok(Take(Reverse(Filter(rs, OwnedBy(me.id))), n))
  }

  /** A page of the caller's own requests: each belongs to the caller, the
      page is as long as the limit allows, the newest come first, and it
      starts with the caller's newest request. */
  lemma GetMyRequestsSpec(caller: Caller, users: seq<User>, rs: seq<Request>, limit: Option<int>)
    requires IdsIncreasing(rs)
    requires GetMyRequests(caller, users, rs, limit).Ok?
    ensures var v := GetMyRequests(caller, users, rs, limit).value;
      var me := FindByEmail(users, caller.identity).value;
      var mine := Filter(rs, OwnedBy(me.id));
      && (forall i :: 0 <= i < |v| ==> v[i] in rs && v[i].employeeId == me.id)
      && |v| == (if PageLimit(limit) < |mine| then PageLimit(limit) else |mine|)
      && (forall i, j :: 0 <= i < j < |v| ==> v[i].id > v[j].id)
      && (|mine| > 0 ==> v[0] == mine[|mine| - 1])
      && (forall i :: 0 <= i < |v| ==> v[i] == mine[|mine| - 1 - i])
      && v == Take(Reverse(mine), PageLimit(limit))
  {
    var me := FindByEmail(users, caller.identity).value;
    var v := GetMyRequests(caller, users, rs, limit).value;
    var w := Take(Reverse(Filter(rs, OwnedBy(me.id))), PageLimit(limit));
    assert v == w;
    OwnPage(rs, me.id, PageLimit(limit));
    forall i | 0 <= i < |v| ensures v[i] in rs {
      var mine := Filter(rs, OwnedBy(me.id));
      assert v[i] == mine[|mine| - 1 - i];
      FilterMember(rs, OwnedBy(me.id), v[i]);
    }
  }

  /** A page of the requests of `owner`, newest first: the i-th newest at
      index i, each a stored request of `owner`, with decreasing ids. */
  lemma OwnPage(rs: seq<Request>, owner: nat, k: nat)
    requires IdsIncreasing(rs)
    ensures var mine := Filter(rs, OwnedBy(owner));
      var v := Take(Reverse(mine), k);
      && (forall i :: 0 <= i < |v| ==> v[i] == mine[|mine| - 1 - i])
      && (forall i :: 0 <= i < |v| ==> v[i] in rs && v[i].employeeId == owner)
      && (forall i, j :: 0 <= i < j < |v| ==> v[i].id > v[j].id)
  {
    var p := OwnedBy(owner);
    var mine := Filter(rs, p);
    var v := Take(Reverse(mine), k);
    FilterIdsIncreasing(rs, p);
    NewestPage(mine, k);
    forall i | 0 <= i < |v| ensures v[i] in rs && v[i].employeeId == owner {
      FilterMember(rs, p, v[i]);
    }
  }

  lemma FilterIdsIncreasing(rs: seq<Request>, p: Request -> bool)
    requires IdsIncreasing(rs)
    ensures IdsIncreasing(Filter(rs, p))
  {
    FilterKeepsOrder(rs, p, (a: Request, b: Request) => a.id < b.id);
  }

  /** The first `k` of `mine` read newest first: the i-th newest at index i,
      with strictly decreasing ids. */
  lemma NewestPage(mine: seq<Request>, k: nat)
    requires IdsIncreasing(mine)
    ensures var v := Take(Reverse(mine), k);
      && (forall i :: 0 <= i < |v| ==> v[i] == mine[|mine| - 1 - i])
      && (forall i, j :: 0 <= i < j < |v| ==> v[i].id > v[j].id)
  {
    var v := Take(Reverse(mine), k);
    ReverseNewestFirst(mine);
    forall i | 0 <= i < |v| ensures v[i] == Reverse(mine)[i] {
    }
  }

  // ------------------------------------------------------------ HR export

  /** One line of the HR form built by `getApprovedRequests`. */
  datatype HRRow = HRRow(
    id: nat,
    code: string,
    fingerprint: string,
    employeeName: string,
    jobPosition: string,
    branch: string,
    timeOffType: string,
    requestType: RequestType,
    purpose: string,
    startDate: Day,
    endDate: Day,
    numberOfDays: string)

  const SoftwareEngineer := "مهندس برمجيات"
  const Mission := "ماموريه"

  /** `String(n || "")` for an integer. */
  function NumberText(n: int): string {
    if n == 0 then "" else if n > 0 then Decimal(n) else "-" + Decimal(-n)
  }

  /** The HR line of one approved request, read together with its owner's
      account (`populate`), which may have been deleted. */
  function HRRowOf(r: Request, users: seq<User>): HRRow {
    var emp := FindById(users, r.employeeId);
    HRRow(
      r.id,
      Or(r.employeeCode, ""),
      if emp.Some? then Or(emp.value.fingerprintCode, "") else "",
      if emp.Some? && emp.value.fullNameArabic != "" then emp.value.fullNameArabic
      else if emp.Some? && Given(emp.value.fullName) then emp.value.fullName.value
      else r.employeeName,
      SoftwareEngineer,
      if emp.Some? then emp.value.branch else "",
      if r.kind == WFH then Mission else "",
      r.kind,
      HRCategory(TypeName(r.kind)),
      r.startDate,
      r.endDate,
      NumberText(r.numberOfDays))
  }

  /** What a line says about a stored request: the category is one of the
      four labels, only WFH is a mission, the day count is written in
      decimal, and the name falls back from the Arabic name to the full name
      to the name stored on the request. */
  lemma HRRowOfSpec(r: Request, users: seq<User>)
    requires ValidRequest(r)
    ensures var row := HRRowOf(r, users);
      && row.id == r.id && row.requestType == r.kind
      && row.purpose != Unspecified
      && (row.timeOffType == Mission <==> r.kind == WFH)
      && row.numberOfDays == Decimal(r.numberOfDays)
      && row.employeeName != ""
      && (FindById(users, r.employeeId).None? ==> row.employeeName == r.employeeName && row.branch == "")
  {
    HRCategoryOfStored(r.kind, r.kind);
  }

  predicate IsApproved(r: Request) {
    r.status == Approved
  }

  /** `.sort({ startDate: -1 })`: later start first. */
  predicate StartsLater(a: Request, b: Request) {
    a.startDate >= b.startDate
  }

  lemma StartsLaterIsTotalPreorder()
    ensures TotalPreorder(StartsLater)
  {
  }

  /** `getApprovedRequests`: the HR lines of every approved request, latest
      start first. */
  function GetApprovedRequests(caller: Caller, users: seq<User>, rs: seq<Request>): (reply: Reply<seq<HRRow>>)
    ensures AdminGuard(caller).Some? ==>
      reply == Refused(AdminGuard(caller).value.0, AdminGuard(caller).value.1)
    ensures reply.Ok? ==> |reply.value| == |Filter(rs, IsApproved)|
  {
    var refusal := AdminGuard(caller);
    if refusal.Some? then Refused(refusal.value.0, refusal.value.1)
    else
      var sorted := SortBy(Filter(rs, IsApproved), StartsLater);
      Ok(seq(|sorted|, i requires 0 <= i < |sorted| => HRRowOf(sorted[i], users)))
  }

  /** The HR lines are the approved requests, each once, ordered by
      descending start date. */
  lemma GetApprovedRequestsSpec(caller: Caller, users: seq<User>, rs: seq<Request>)
    requires caller.identity != "" && IsAdmin(caller)
    ensures GetApprovedRequests(caller, users, rs).Ok?
    ensures var rows := GetApprovedRequests(caller, users, rs).value;
      var sorted := SortBy(Filter(rs, IsApproved), StartsLater);
      && multiset(sorted) == multiset(Filter(rs, IsApproved))
      && (forall i :: 0 <= i < |rows| ==> rows[i] == HRRowOf(sorted[i], users) && sorted[i].status == Approved)
      && (forall i, j :: 0 <= i < j < |rows| ==> rows[i].startDate >= rows[j].startDate)
  {
    var approved := Filter(rs, IsApproved);
    var sorted := SortBy(approved, StartsLater);
    SortPermutes(approved, StartsLater);
    StartsLaterIsTotalPreorder();
    SortSorted(approved, StartsLater);
    forall i | 0 <= i < |sorted| ensures sorted[i].status == Approved {
      assert sorted[i] in multiset(approved);
    }
  }

  // ----------------------------------------------------- update and delete

  /** `updateRequestStatus`: an admin sets the status of one request; no
      transition is forbidden. */
  method UpdateRequestStatus(store: RequestStore, caller: Caller, id: nat, status: Option<string>)
    returns (reply: Reply<Request>)
    requires store.Valid()
    modifies store
    ensures store.Valid()
    ensures AdminGuard(caller).Some? ==>
      reply == Refused(AdminGuard(caller).value.0, AdminGuard(caller).value.1)
    ensures AdminGuard(caller).None? && (status.None? || ParseStatus(status.value).None?) ==>
      reply == Refused(400, "Invalid status value")
    ensures AdminGuard(caller).None? && status.Some? && ParseStatus(status.value).Some? ==>
      var k := IndexOfId(old(store.requests), id);
      && (k.None? ==> reply == Refused(404, "Request not found"))
      && (k.Some? ==>
            var updated := old(store.requests)[k.value].(status := ParseStatus(status.value).value);
            store.requests == old(store.requests)[k.value := updated] && reply == Ok(updated))
    ensures reply.Refused? ==> store.requests == old(store.requests)
  {
    var refusal := AdminGuard(caller);
    if refusal.Some? {
      return Refused(refusal.value.0, refusal.value.1);
    }
    if status.None? || ParseStatus(status.value).None? {
      return Refused(400, "Invalid status value");
    }
    var k := IndexOfId(store.requests, id);
    if k.None? {
      return Refused(404, "Request not found");
    }
    store.SetStatus(k.value, ParseStatus(status.value).value);
    reply := Ok(store.requests[k.value]);
  }

  /** `deleteRequest`: an admin removes one request by id. */
  method DeleteRequest(store: RequestStore, caller: Caller, id: nat) returns (reply: Reply<nat>)
    requires store.Valid()
    modifies store
    ensures store.Valid()
    ensures AdminGuard(caller).Some? ==>
      reply == Refused(AdminGuard(caller).value.0, AdminGuard(caller).value.1)
    ensures AdminGuard(caller).None? && IndexOfId(old(store.requests), id).None? ==>
      reply == Refused(404, "Request not found")
    ensures AdminGuard(caller).None? && IndexOfId(old(store.requests), id).Some? ==>
      var k := IndexOfId(old(store.requests), id).value;
      reply == Ok(id) && store.requests == old(store.requests)[..k] + old(store.requests)[k + 1..]
    ensures reply.Refused? ==> store.requests == old(store.requests)
  {
    var refusal := AdminGuard(caller);
    if refusal.Some? {
      return Refused(refusal.value.0, refusal.value.1);
    }
    var k := IndexOfId(store.requests, id);
    if k.None? {
      return Refused(404, "Request not found");
    }
    OnlyOneWithId(store.requests, store.nextId, k.value);
    var _ := store.DeleteWhere((r: Request) => r.id != id);
    reply := Ok(id);
  }

  /** Ids are unique: removing the requests with the id of position `k`
      removes that one request and keeps the others in order. */
  lemma OnlyOneWithId(rs: seq<Request>, next: nat, k: nat)
    requires StoredRequests(rs, next) && k < |rs|
    ensures Filter(rs, (r: Request) => r.id != rs[k].id) == rs[..k] + rs[k + 1..]
  {
    var id := rs[k].id;
    FilterDropsOne(rs, k, (r: Request) => r.id != id);
  }

  /** `deleteAllRequests`: an admin removes every approved request and is
      told how many were removed. */
  method DeleteAllRequests(store: RequestStore, caller: Caller) returns (reply: Reply<nat>)
    requires store.Valid()
    modifies store
    ensures store.Valid()
    ensures AdminGuard(caller).Some? ==>
      reply == Refused(AdminGuard(caller).value.0, AdminGuard(caller).value.1) &&
      store.requests == old(store.requests)
    ensures AdminGuard(caller).None? ==>
      store.requests == Filter(old(store.requests), (r: Request) => r.status != Approved) &&
      reply == Ok(|Filter(old(store.requests), IsApproved)|)
  {
    var refusal := AdminGuard(caller);
    if refusal.Some? {
      return Refused(refusal.value.0, refusal.value.1);
    }
    FilterComplement(store.requests, IsApproved, (r: Request) => r.status != Approved);
    var deleted := store.DeleteWhere((r: Request) => r.status != Approved);
    reply := Ok(deleted);
  }

  /** What survives `deleteAllRequests`: exactly the requests that are not
      approved, in their order. */
  lemma DeleteAllKeeps(rs: seq<Request>, r: Request)
    ensures r in Filter(rs, (q: Request) => q.status != Approved) <==> r in rs && r.status != Approved
  {
    FilterMember(rs, (q: Request) => q.status != Approved, r);
  }

  // ----------------------------------------------------------- admin add

  /** `fullNameArabic || fullName || username`. */
  function FormalName(u: User): string {
    if u.fullNameArabic != "" then u.fullNameArabic else DisplayName(u)
  }

  /** The body of `POST /requests/admin`. */
  datatype AdminBody = AdminBody(
    employeeId: Option<nat>,
    kind: Option<string>,
    startDate: Option<Day>,
    endDate: Option<Day>,
    numberOfDays: Option<int>)

  /** What `createAdminRequest` passes to `Request.create`, or the reply it
      sends first. The handler reads no caller: it checks no role. */
  function PlanAdminRequest(users: seq<User>, body: AdminBody): Reply<RequestDoc> {
    if body.employeeId.None? || !Given(body.kind) || body.startDate.None? ||
       body.endDate.None? || !GivenNum(body.numberOfDays) then
      Refused(400, "Required fields: employeeId, type, startDate, endDate, numberOfDays")
    else match FindById(users, body.employeeId.value)
      case None => Refused(404, "Employee not found")
      case Some(emp) =>
        Ok(RequestDoc(
          Some(emp.id),
          Some(FormalName(emp)),
          emp.employeeCode,
          body.kind,
          body.startDate,
          body.endDate,
          Some([]),
          body.numberOfDays,
          Some("Admin created custom request"),
          Some(""),
          Some("Approved"),
          Some("ADMIN_DIRECT")))
  }

  /** `createAdminRequest`: stores an approved admin-direct request. */
  method CreateAdminRequest(store: RequestStore, users: seq<User>, body: AdminBody)
    returns (reply: Reply<Request>)
    requires store.Valid()
    modifies store
    ensures store.Valid()
    ensures var plan := PlanAdminRequest(users, body);
      && (plan.Refused? ==> reply == Refused(plan.code, plan.message) && store.requests == old(store.requests))
      && (plan.Ok? ==>
            var cast := CastRequest(plan.value, old(store.nextId));
            && (cast.None? ==> reply.Refused? && reply.code == ServerError && store.requests == old(store.requests))
            && (cast.Some? ==> reply == Ok(cast.value) && store.requests == old(store.requests) + [cast.value]))
  {
    var plan := PlanAdminRequest(users, body);
    if plan.Refused? {
      return Refused(plan.code, plan.message);
    }
    var created := store.Create(plan.value);
    if created.None? {
      return Refused(ServerError, "");
    }
    reply := Ok(created.value);
  }

  /** Every request `createAdminRequest` stores is approved, admin-direct,
      owned by the named employee and of the requested type; the schema
      refuses it (500) exactly when the type is not one of the four or the
      day count is below one, or the employee's name is blank. */
  lemma AdminRequestSpec(users: seq<User>, body: AdminBody, id: nat)
    requires PlanAdminRequest(users, body).Ok?
    ensures var cast := CastRequest(PlanAdminRequest(users, body).value, id);
      var emp := FindById(users, body.employeeId.value).value;
      && (cast.Some? <==>
            body.kind.value in TypeNames && body.numberOfDays.value >= 1 && !Blank(FormalName(emp)))
      && (cast.Some? ==>
            && cast.value.status == Approved && cast.value.source == ADMIN_DIRECT
            && cast.value.employeeId == body.employeeId.value
            && TypeName(cast.value.kind) == body.kind.value
            && cast.value.selectedDates == [])
  {
    var doc := PlanAdminRequest(users, body).value;
    AdminDocFields(users, body);
    CastRequestAccepts(doc, id);
    if CastRequest(doc, id).Some? {
      CastRequestDefaults(doc, id);
      EnumNamesRoundTrip(WFH, Approved, ADMIN_DIRECT);
    }
  }

  /** The document an admin request is stored from. */
  lemma AdminDocFields(users: seq<User>, body: AdminBody)
    requires PlanAdminRequest(users, body).Ok?
    ensures var doc := PlanAdminRequest(users, body).value;
      && doc.employeeId == body.employeeId
      && doc.employeeName == Some(FormalName(FindById(users, body.employeeId.value).value))
      && doc.kind == body.kind && doc.numberOfDays == body.numberOfDays
      && doc.startDate.Some? && doc.endDate.Some?
      && doc.selectedDates == Some([])
      && doc.status == Some("Approved") && doc.source == Some("ADMIN_DIRECT")
  {
  }
}
