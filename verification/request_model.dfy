/** The Request collection (backend/models/Request.js): a leave or
    work-from-home entry owned by one employee. `RequestDoc` is what a
    handler hands to `Request.create`; `CastRequest` is the schema applied to
    it (defaults, `trim`, `required`, `enum`, `min`), and `RequestStore` is the
    collection the handlers read and change. */
module RequestModel {
  import opened Common

  datatype RequestType = WFH | VACATION | LATE_PERMISSION | EARLY_LEAVE
  datatype Status = Pending | Approved | Rejected
  datatype Source = EMPLOYEE_REQUEST | ADMIN_DIRECT

  function TypeName(t: RequestType): string {
    match t
    case WFH => "WFH"
    case VACATION => "VACATION"
    case LATE_PERMISSION => "LATE_PERMISSION"
    case EARLY_LEAVE => "EARLY_LEAVE"
  }

  /** The `enum` check of the `type` path. */
  function ParseType(s: string): (r: Option<RequestType>)
    ensures r.Some? <==> s in ["WFH", "VACATION", "LATE_PERMISSION", "EARLY_LEAVE"]
    ensures r.Some? ==> TypeName(r.value) == s
  {
    if s == "WFH" then Some(WFH)
    else if s == "VACATION" then Some(VACATION)
    else if s == "LATE_PERMISSION" then Some(LATE_PERMISSION)
    else if s == "EARLY_LEAVE" then Some(EARLY_LEAVE)
    else None
  }

  function StatusName(s: Status): string {
    match s
    case Pending => "Pending"
    case Approved => "Approved"
    case Rejected => "Rejected"
  }

  /** The `enum` check of the `status` path. */
  function ParseStatus(s: string): (r: Option<Status>)
    ensures r.Some? <==> s in ["Pending", "Approved", "Rejected"]
    ensures r.Some? ==> StatusName(r.value) == s
  {
    if s == "Pending" then Some(Pending)
    else if s == "Approved" then Some(Approved)
    else if s == "Rejected" then Some(Rejected)
    else None
  }

  function SourceName(s: Source): string {
    match s
    case EMPLOYEE_REQUEST => "EMPLOYEE_REQUEST"
    case ADMIN_DIRECT => "ADMIN_DIRECT"
  }

  /** The `enum` check of the `source` path. */
  function ParseSource(s: string): (r: Option<Source>)
    ensures r.Some? <==> s in ["EMPLOYEE_REQUEST", "ADMIN_DIRECT"]
    ensures r.Some? ==> SourceName(r.value) == s
  {
    if s == "EMPLOYEE_REQUEST" then Some(EMPLOYEE_REQUEST)
    else if s == "ADMIN_DIRECT" then Some(ADMIN_DIRECT)
    else None
  }

  /** Every enum value is written as the schema lists it and read back unchanged. */
  lemma EnumNamesRoundTrip(t: RequestType, s: Status, o: Source)
    ensures ParseType(TypeName(t)) == Some(t)
    ensures ParseStatus(StatusName(s)) == Some(s)
    ensures ParseSource(SourceName(o)) == Some(o)
  {
  }

  /** A stored request. `id` is allocated in creation order, so it also
      orders requests by their `createdAt` timestamp. */
  datatype Request = Request(
    id: nat,
    employeeId: nat,
    employeeName: string,
    employeeCode: Option<string>,
    kind: RequestType,
    startDate: Day,
    endDate: Day,
    selectedDates: seq<Day>,
    numberOfDays: int,
    reason: string,
    notes: string,
    status: Status,
    source: Source)

  /** What the schema guarantees of every stored request beyond its types:
      the required name is present once trimmed, and `numberOfDays >= 1`. */
  predicate ValidRequest(r: Request) {
    && r.employeeName != ""
    && Trimmed(r.employeeName)
    && (r.employeeCode.Some? ==> Trimmed(r.employeeCode.value))
    && r.numberOfDays >= 1
  }

  /** The object a handler passes to `Request.create`; an absent key is `None`. */
  datatype RequestDoc = RequestDoc(
    employeeId: Option<nat>,
    employeeName: Option<string>,
    employeeCode: Option<string>,
    kind: Option<string>,
    startDate: Option<Day>,
    endDate: Option<Day>,
    selectedDates: Option<seq<Day>>,
    numberOfDays: Option<int>,
    reason: Option<string>,
    notes: Option<string>,
    status: Option<string>,
    source: Option<string>)

  /** The Request schema applied to a document: defaults for the absent
      paths, `trim` on the two trimmed strings, then every validator. `None`
      is a Mongoose validation error. */
  function CastRequest(doc: RequestDoc, id: nat): Option<Request> {
    var name := Trim(doc.employeeName.GetOr(""));
    var code := if doc.employeeCode.Some? then Some(Trim(doc.employeeCode.value)) else None;
    var kind := ParseType(doc.kind.GetOr(""));
    var status := ParseStatus(doc.status.GetOr("Pending"));
    var source := ParseSource(doc.source.GetOr("EMPLOYEE_REQUEST"));
    if doc.employeeId.None? || name == "" || kind.None? || doc.startDate.None? ||
       doc.endDate.None? || doc.numberOfDays.None? || doc.numberOfDays.value < 1 ||
       status.None? || source.None?
    then None
    else Some(Request(
      id, doc.employeeId.value, name, code, kind.value,
      doc.startDate.value, doc.endDate.value, doc.selectedDates.GetOr([]),
      doc.numberOfDays.value, doc.reason.GetOr(""), doc.notes.GetOr(""),
      status.value, source.value))
  }

  /** The schema accepts exactly the documents that carry every required
      path with an allowed value. */
  lemma CastRequestAccepts(doc: RequestDoc, id: nat)
    ensures CastRequest(doc, id).Some? <==>
      && doc.employeeId.Some?
      && !Blank(doc.employeeName.GetOr(""))
      && doc.kind.Some? && ParseType(doc.kind.value).Some?
      && doc.startDate.Some? && doc.endDate.Some?
      && doc.numberOfDays.Some? && doc.numberOfDays.value >= 1
      && (doc.status.None? || ParseStatus(doc.status.value).Some?)
      && (doc.source.None? || ParseSource(doc.source.value).Some?)
  {
  }

  /** What the schema stores is a valid request. */
  lemma CastRequestValid(doc: RequestDoc, id: nat)
    requires CastRequest(doc, id).Some?
    ensures ValidRequest(CastRequest(doc, id).value)
    ensures CastRequest(doc, id).value.id == id
  {
  }

  /** The declared defaults fill the absent paths: `status` Pending, `source`
      EMPLOYEE_REQUEST, `selectedDates` empty, `reason` and `notes` "". */
  lemma CastRequestDefaults(doc: RequestDoc, id: nat)
    requires CastRequest(doc, id).Some?
    ensures var r := CastRequest(doc, id).value;
      && TypeName(r.kind) == doc.kind.value
      && StatusName(r.status) == doc.status.GetOr("Pending")
      && SourceName(r.source) == doc.source.GetOr("EMPLOYEE_REQUEST")
      && (doc.selectedDates.None? ==> r.selectedDates == [])
      && r.reason == doc.reason.GetOr("")
      && r.notes == doc.notes.GetOr("")
      && r.numberOfDays == doc.numberOfDays.value
      && r.employeeId == doc.employeeId.value
      && r.startDate == doc.startDate.value && r.endDate == doc.endDate.value
  {
  }

  /** The Request collection, in insertion (= creation) order. */
  class RequestStore {
    var requests: seq<Request>
    var nextId: nat

    ghost predicate Valid()
      reads this
    {
      StoredRequests(requests, nextId)
    }

    constructor ()
      ensures Valid() && requests == []
    {
      requests := [];
      nextId := 0;
    }

    /** `Request.create(doc)`: validates, stores and returns the new request,
        or reports the validation error and stores nothing. */
    method Create(doc: RequestDoc) returns (r: Option<Request>)
      requires Valid()
      modifies this
      ensures Valid()
      ensures r == CastRequest(doc, old(nextId))
      ensures requests == if r.Some? then old(requests) + [r.value] else old(requests)
    {
      r := CastRequest(doc, nextId);
      if r.Some? {
        CastRequestValid(doc, nextId);
        StoredRequestsAppend(requests, nextId, r.value);
        requests := requests + [r.value];
        nextId := nextId + 1;
      }
    }

    /** `request.save()` after assigning a new `status`: the request at
        position `k` takes the new status and nothing else changes. */
    method SetStatus(k: nat, s: Status)
      requires Valid() && k < |requests|
      modifies this
      ensures Valid()
      ensures requests == old(requests)[k := old(requests)[k].(status := s)]
      ensures nextId == old(nextId)
    {
      requests := requests[k := requests[k].(status := s)];
    }

    /** `Request.deleteMany(...)` / `request.deleteOne()`: keeps exactly the
        requests that `keep` accepts and reports how many were removed. */
    method DeleteWhere(keep: Request -> bool) returns (deleted: nat)
      requires Valid()
      modifies this
      ensures Valid()
      ensures requests == Filter(old(requests), keep)
      ensures deleted == |old(requests)| - |requests|
      ensures nextId == old(nextId)
    {
      StoredRequestsFilter(requests, nextId, keep);
      var kept := Filter(requests, keep);
      deleted := |requests| - |kept|;
      requests := kept;
    }
  }

  /** Ids strictly increase along the collection. */
  predicate IdsIncreasing(rs: seq<Request>) {
    forall i, j :: 0 <= i < j < |rs| ==> rs[i].id < rs[j].id
  }

  /** The collection invariant: every stored request passed the schema, and
      ids were handed out in order from the counter `next`. */
  ghost predicate StoredRequests(rs: seq<Request>, next: nat) {
    && (forall i :: 0 <= i < |rs| ==> ValidRequest(rs[i]) && rs[i].id < next)
    && IdsIncreasing(rs)
  }

  lemma StoredRequestsAppend(rs: seq<Request>, next: nat, r: Request)
    requires StoredRequests(rs, next)
    requires ValidRequest(r) && r.id == next
    ensures StoredRequests(rs + [r], next + 1)
  {
    var t := rs + [r];
    forall i, j | 0 <= i < j < |t| ensures t[i].id < t[j].id {
      if j < |rs| { assert t[i] == rs[i] && t[j] == rs[j]; }
    }
  }

  /** Removing requests keeps the invariant. */
  lemma StoredRequestsFilter(rs: seq<Request>, next: nat, p: Request -> bool)
    requires StoredRequests(rs, next)
    ensures StoredRequests(Filter(rs, p), next)
  {
    var f := Filter(rs, p);
    forall i | 0 <= i < |f| ensures ValidRequest(f[i]) && f[i].id < next {
      FilterMember(rs, p, f[i]);
    }
    FilterKeepsOrder(rs, p, (a: Request, b: Request) => a.id < b.id);
  }

  /** `Request.findById(id)`: the position of the request with that id. */
  function IndexOfId(rs: seq<Request>, id: nat): (k: Option<nat>)
    ensures k.Some? ==> k.value < |rs| && rs[k.value].id == id
    ensures k.None? ==> forall i :: 0 <= i < |rs| ==> rs[i].id != id
  {
    if rs == [] then None
    else if rs[0].id == id then Some(0)
    else
      var k := IndexOfId(rs[1..], id);
      if k.Some? then Some(k.value + 1) else None
  }
}
