/** `generateRandomWFH` (backend/controllers/requests.js): for each selected
    employee, draw distinct working days of the current week (never the
    Friday) and store one approved, admin-direct, single-day WFH request per
    day. `Math.random` is a nondeterministic choice: the contracts hold for
    every outcome of the draw. */
module RandomWfh {
  import opened Common
  import opened Sorting
  import opened RequestModel
  import opened UserModel
  import opened RequestRules
  import opened RequestHandlers

  /** `availableDayIndices`: Sunday to Saturday without Friday (5). */
  const WorkDays: seq<int> := [0, 1, 2, 3, 4, 6]

  /** How many days a draw of `n` yields: `n`, but never more than the six
      working days and never fewer than none. */
  function Drawn(n: int): nat {
    if n <= 0 then 0 else if n < 6 then n else 6
  }

  /** The draw: each turn removes a random entry from the days still
      available, until `n` days are drawn or none is left. */
  method PickDays(n: int) returns (picked: seq<int>)
    ensures |picked| == Drawn(n)
    ensures forall i :: 0 <= i < |picked| ==> picked[i] in WorkDays
    ensures NoDup(picked)
  {
    var available := WorkDays;
    picked := [];
    var i := 0;
    while i < n && |available| > 0
      invariant i == |picked| && |picked| + |available| == 6
      invariant n <= 0 ==> i == 0
      invariant n > 0 ==> i <= n
      invariant forall j :: 0 <= j < |picked| ==> picked[j] in WorkDays
      invariant NoDup(picked) && NoDup(available)
      invariant forall y :: y in picked ==> y !in available
      invariant forall y :: y in WorkDays <==> y in picked || y in available
    {
      var k :| 0 <= k < |available|;
      var day := available[k];
      var rest := available[..k] + available[k + 1..];
      assert forall y :: y in rest <==> y in available && y != day by {
        forall y ensures y in rest <==> y in available && y != day {
          if y in available && y != day {
            var m :| 0 <= m < |available| && available[m] == y;
            if m < k { assert rest[m] == y; } else { assert rest[m - 1] == y; }
          }
        }
      }
      assert NoDup(rest) by {
        forall a, b | 0 <= a < b < |rest| ensures rest[a] != rest[b] {
          var a' := if a < k then a else a + 1;
          var b' := if b < k then b else b + 1;
          assert rest[a] == available[a'] && rest[b] == available[b'];
        }
      }
      assert day !in picked;
      assert NoDup(picked + [day]) by {
        forall a, b | 0 <= a < b < |picked| + 1 ensures (picked + [day])[a] != (picked + [day])[b] {
          if b == |picked| { assert (picked + [day])[a] in picked; }
        }
      }
      available := rest;
      picked := picked + [day];
      i := i + 1;
    }
  }

  predicate NumericLe(a: int, b: int) {
    a <= b
  }

  /** `selectedDayIndices.sort((a, b) => a - b)` applied to a draw: the
      drawn days in strictly ascending order, each a working day. */
  lemma SortedPicks(picked: seq<int>)
    requires NoDup(picked)
    requires forall i :: 0 <= i < |picked| ==> picked[i] in WorkDays
    ensures var s := SortBy(picked, NumericLe);
      && multiset(s) == multiset(picked)
      && (forall i, j :: 0 <= i < j < |s| ==> s[i] < s[j])
      && (forall i :: 0 <= i < |s| ==> s[i] in WorkDays)
  {
    var s := SortBy(picked, NumericLe);
    SortPermutes(picked, NumericLe);
    SortSorted(picked, NumericLe);
    PermutationNoDup(picked, s);
    forall i | 0 <= i < |s| ensures s[i] in WorkDays {
      assert s[i] in multiset(picked);
    }
  }

  /** What `Request.create` receives for one drawn day. */
  function RandomDoc(emp: User, day: Day): RequestDoc {
    RequestDoc(
      Some(emp.id), Some(DisplayName(emp)), emp.employeeCode, Some("WFH"),
      Some(day), Some(day), None, Some(1), None,
      Some("Random WFH assignment by admin"), Some("Approved"), Some("ADMIN_DIRECT"))
  }

  /** A request made by the generator: a one-day approved admin-direct WFH
      on a working day of the week that starts at `sunday`. */
  predicate RandomRequest(r: Request, sunday: Day) {
    && r.kind == WFH && r.status == Approved && r.source == ADMIN_DIRECT
    && r.numberOfDays == 1 && r.startDate == r.endDate
    && InWeek(r.startDate, sunday) && Weekday(r.startDate) != 5
  }

  /** A drawn day of the week that starts at `sunday` is a working day of
      that week. */
  lemma WorkDayInWeek(sunday: Day, d: int)
    requires Weekday(sunday) == 0 && d in WorkDays
    ensures Weekday(sunday + d) != 5 && InWeek(sunday + d, sunday)
  {
    assert 0 <= d <= 6 && d != 5;
    WeekdayOfOffset(sunday, d);
  }

  /** The schema accepts a generated document exactly when the employee's
      name is not blank, and then stores the fields as given. */
  lemma RandomDocFields(emp: User, day: Day, id: nat)
    ensures CastRequest(RandomDoc(emp, day), id).Some? <==> !Blank(DisplayName(emp))
    ensures CastRequest(RandomDoc(emp, day), id).Some? ==>
      var r := CastRequest(RandomDoc(emp, day), id).value;
      && r.kind == WFH && r.status == Approved && r.source == ADMIN_DIRECT
      && r.startDate == day == r.endDate && r.numberOfDays == 1 && r.employeeId == emp.id
  {
    var doc := RandomDoc(emp, day);
    CastRequestAccepts(doc, id);
    if CastRequest(doc, id).Some? {
      CastRequestDefaults(doc, id);
      EnumNamesRoundTrip(WFH, Approved, ADMIN_DIRECT);
    }
  }

  /** On a working day of the week, a stored generated document is a
      `RandomRequest` of that week. */
  lemma RandomDocCast(emp: User, sunday: Day, day: Day, id: nat)
    requires Weekday(day) != 5 && InWeek(day, sunday)
    ensures CastRequest(RandomDoc(emp, day), id).Some? <==> !Blank(DisplayName(emp))
    ensures CastRequest(RandomDoc(emp, day), id).Some? ==>
      var r := CastRequest(RandomDoc(emp, day), id).value;
      RandomRequest(r, sunday) && r.startDate == day && r.employeeId == emp.id
  {
    RandomDocFields(emp, day, id);
  }

  /** One element of `assignments`. */
  datatype Assignment = Assignment(employeeId: nat, employeeName: string, employeeCode: Option<string>,
                                   date: Day, requestId: nat)

  datatype RandomResult = RandomResult(assignments: seq<Assignment>, errors: seq<string>)

  function NotFound(id: nat): string {
    "Employee with ID " + Decimal(id) + " not found"
  }

  function CreateFailed(id: nat): string {
    "Failed to create WFH for employee " + Decimal(id) + ": "
  }

  /** How many requests the turn of `id` stores: none for an unknown id or
      for an account whose name the schema refuses, else one per drawn day. */
  function Quota(users: seq<User>, id: nat, n: int): nat {
    match FindById(users, id)
    case None => 0
    case Some(emp) => if Blank(DisplayName(emp)) then 0 else Drawn(n)
  }

  /** The line the turn of `id` adds to `errors`, if any: the lookup that
      finds nothing, or the first `Request.create` that the schema refuses. */
  function ErrorOf(users: seq<User>, id: nat, n: int): Option<string> {
    match FindById(users, id)
    case None => Some(NotFound(id))
    case Some(emp) => if Blank(DisplayName(emp)) && Drawn(n) > 0 then Some(CreateFailed(id)) else None
  }

  /** The `errors` of a whole run over `ids`, in their order. */
  function ErrorsOf(users: seq<User>, ids: seq<nat>, n: int): (errors: seq<string>)
    ensures |errors| <= |ids|
  {
    if ids == [] then []
    else
      var e := ErrorOf(users, ids[|ids| - 1], n);
      ErrorsOf(users, ids[..|ids| - 1], n) + (if e.Some? then [e.value] else [])
  }

  lemma ErrorsOfAppend(users: seq<User>, ids: seq<nat>, id: nat, n: int)
    ensures var e := ErrorOf(users, id, n);
      ErrorsOf(users, ids + [id], n) == ErrorsOf(users, ids, n) + (if e.Some? then [e.value] else [])
  {
    assert (ids + [id])[..|ids|] == ids;
  }

  /** An unknown id among the selected ones is reported in `errors`. */
  lemma {:induction false} ErrorsOfNotFound(users: seq<User>, ids: seq<nat>, n: int, id: nat)
    requires id in ids && FindById(users, id).None?
    ensures NotFound(id) in ErrorsOf(users, ids, n)
  {
    var last := ids[|ids| - 1];
    assert ids == ids[..|ids| - 1] + [last];
    if last != id {
      ErrorsOfNotFound(users, ids[..|ids| - 1], n, id);
    }
  }

  /** The requests of one turn: generated ones for `id`, on strictly
      ascending (so distinct) days. */
  predicate Turn(block: seq<Request>, id: nat, sunday: Day) {
    && (forall i :: 0 <= i < |block| ==> RandomRequest(block[i], sunday) && block[i].employeeId == id)
    && (forall i, j :: 0 <= i < j < |block| ==> block[i].startDate < block[j].startDate)
  }

  /** The requests of a whole run over `ids`: one turn per selected id, in
      the order of `ids`, each holding that id's `Quota`. */
  predicate Turns(added: seq<Request>, users: seq<User>, ids: seq<nat>, n: int, sunday: Day)
    decreases |ids|
  {
    if ids == [] then added == []
    else
      var q := Quota(users, ids[|ids| - 1], n);
      && q <= |added|
      && Turns(added[..|added| - q], users, ids[..|ids| - 1], n, sunday)
      && Turn(added[|added| - q..], ids[|ids| - 1], sunday)
  }

  lemma TurnsAppend(added: seq<Request>, more: seq<Request>, users: seq<User>, ids: seq<nat>, id: nat, n: int, sunday: Day)
    requires Turns(added, users, ids, n, sunday)
    requires |more| == Quota(users, id, n) && Turn(more, id, sunday)
    ensures Turns(added + more, users, ids + [id], n, sunday)
  {
    var a := added + more;
    assert (ids + [id])[..|ids|] == ids;
    assert a[..|added|] == added && a[|added|..] == more;
  }

  /** Every request of a run is a generated one, for a selected id whose
      account exists. */
  lemma {:induction false} TurnsAssigned(added: seq<Request>, users: seq<User>, ids: seq<nat>, n: int, sunday: Day)
    requires Turns(added, users, ids, n, sunday)
    ensures Assigned(added, ids, users, sunday)
    decreases |ids|
  {
    if ids != [] {
      var id := ids[|ids| - 1];
      var q := Quota(users, id, n);
      var front, block := added[..|added| - q], added[|added| - q..];
      TurnsAssigned(front, users, ids[..|ids| - 1], n, sunday);
      assert Assigned(block, [id], users, sunday) by {
        if block != [] { assert FindById(users, id).Some?; }
      }
      AssignedAppend(front, block, ids[..|ids| - 1], id, users, sunday);
      assert added == front + block;
      assert ids == ids[..|ids| - 1] + [id];
    }
  }

  lemma OwnersOfTurn(block: seq<Request>, id: nat, sunday: Day, x: nat)
    requires Turn(block, id, sunday)
    ensures |Filter(block, OwnedBy(x))| == if id == x then |block| else 0
  {
    if id == x {
      FilterAll(block, OwnedBy(x));
    } else {
      FilterComplement(block, OwnedBy(x), OwnedBy(id));
      FilterAll(block, OwnedBy(id));
    }
  }

  /** `q` for every occurrence of `x` in `ids`, summed. */
  function Share(ids: seq<nat>, x: nat, q: nat): nat {
    if ids == [] then 0
    else Share(ids[..|ids| - 1], x, q) + (if ids[|ids| - 1] == x then q else 0)
  }

  lemma {:induction false} ShareCount(ids: seq<nat>, x: nat, q: nat)
    ensures Share(ids, x, q) == q * multiset(ids)[x]
  {
    if ids != [] {
      var m := multiset(ids[..|ids| - 1])[x];
      ShareCount(ids[..|ids| - 1], x, q);
      assert ids == ids[..|ids| - 1] + [ids[|ids| - 1]];
      if ids[|ids| - 1] == x {
        assert multiset(ids)[x] == m + 1;
        MulSucc(q, m);
      } else {
        assert multiset(ids)[x] == m;
      }
    }
  }

  lemma MulSucc(a: nat, b: nat)
    ensures a * (b + 1) == a * b + a
  {
  }

  /** Each occurrence of `x` among the selected ids stores `Quota` requests
      for `x`: `Drawn(n)` for an existing, named account, none otherwise. */
  lemma TurnsOwners(added: seq<Request>, users: seq<User>, ids: seq<nat>, n: int, sunday: Day, x: nat)
    requires Turns(added, users, ids, n, sunday)
    ensures |Filter(added, OwnedBy(x))| == Quota(users, x, n) * multiset(ids)[x]
  {
    TurnsShare(added, users, ids, n, sunday, x);
    ShareCount(ids, x, Quota(users, x, n));
  }

  lemma {:induction false} TurnsShare(added: seq<Request>, users: seq<User>, ids: seq<nat>, n: int, sunday: Day, x: nat)
    requires Turns(added, users, ids, n, sunday)
    ensures |Filter(added, OwnedBy(x))| == Share(ids, x, Quota(users, x, n))
    decreases |ids|
  {
    if ids != [] {
      var id := ids[|ids| - 1];
      var q := Quota(users, id, n);
      var front, block := added[..|added| - q], added[|added| - q..];
      TurnsShare(front, users, ids[..|ids| - 1], n, sunday, x);
      assert added == front + block;
      FilterAppend(front, block, OwnedBy(x));
      OwnersOfTurn(block, id, sunday, x);
    }
  }

  /** The requests `added` pair up with the assignments that report them. */
  predicate Reported(added: seq<Request>, assignments: seq<Assignment>) {
    |added| == |assignments| &&
    forall i :: 0 <= i < |added| ==>
      && assignments[i].requestId == added[i].id
      && assignments[i].employeeId == added[i].employeeId
      && assignments[i].date == added[i].startDate
  }

  lemma ReportedAppend(added: seq<Request>, made: seq<Assignment>, added': seq<Request>, made': seq<Assignment>)
    requires Reported(added, made) && Reported(added', made')
    ensures Reported(added + added', made + made')
  {
    var a, m := added + added', made + made';
    forall i | 0 <= i < |a|
      ensures m[i].requestId == a[i].id && m[i].employeeId == a[i].employeeId && m[i].date == a[i].startDate
    {
      if i < |added| {
        assert a[i] == added[i] && m[i] == made[i];
      } else {
        assert a[i] == added'[i - |added|] && m[i] == made'[i - |added|];
      }
    }
  }

  /** The requests made for one employee: the `i`-th is for the `i`-th
      drawn day, on behalf of `owner`. */
  predicate Generated(added: seq<Request>, days: seq<int>, sunday: Day, owner: nat) {
    |added| <= |days| &&
    forall i :: 0 <= i < |added| ==>
      RandomRequest(added[i], sunday) && added[i].startDate == sunday + days[i] && added[i].employeeId == owner
  }

  lemma GeneratedAppend(added: seq<Request>, days: seq<int>, sunday: Day, owner: nat, r: Request)
    requires Generated(added, days, sunday, owner) && |added| < |days|
    requires RandomRequest(r, sunday) && r.startDate == sunday + days[|added|] && r.employeeId == owner
    ensures Generated(added + [r], days, sunday, owner)
  {
    var a := added + [r];
    forall i | 0 <= i < |a|
      ensures RandomRequest(a[i], sunday) && a[i].startDate == sunday + days[i] && a[i].employeeId == owner
    {
      if i < |added| { assert a[i] == added[i]; }
    }
  }

  /** One turn of the inner loop: `Request.create` for one drawn day. */
  method AssignDay(store: RequestStore, emp: User, sunday: Day, d: int) returns (created: Option<Request>)
    requires store.Valid() && Weekday(sunday) == 0 && d in WorkDays
    modifies store
    ensures store.Valid()
    ensures store.requests == if created.Some? then old(store.requests) + [created.value] else old(store.requests)
    ensures created.Some? <==> !Blank(DisplayName(emp))
    ensures created.Some? ==>
      RandomRequest(created.value, sunday) && created.value.startDate == sunday + d && created.value.employeeId == emp.id
  {
    var day := sunday + d;
    WorkDayInWeek(sunday, d);
    RandomDocCast(emp, sunday, day, store.nextId);
    created := store.Create(RandomDoc(emp, day));
  }

  /** The inner loop for one employee: one request per drawn day, in
      ascending day order, stopping at the first creation the schema
      refuses (the `catch` then ends this employee's turn). */
  method AssignDays(store: RequestStore, emp: User, days: seq<int>, sunday: Day)
    returns (made: seq<Assignment>, failed: bool)
    requires store.Valid() && Weekday(sunday) == 0
    requires forall i :: 0 <= i < |days| ==> days[i] in WorkDays
    modifies store
    ensures store.Valid()
    ensures |old(store.requests)| <= |store.requests| && store.requests[..|old(store.requests)|] == old(store.requests)
    ensures store.requests == old(store.requests) + store.requests[|old(store.requests)|..]
    ensures var added := store.requests[|old(store.requests)|..];
      && Reported(added, made)
      && Generated(added, days, sunday, emp.id)
      && (failed <==> |added| < |days|)
      && (Blank(DisplayName(emp)) ==> added == [])
    ensures failed <==> |days| > 0 && Blank(DisplayName(emp))
  {
    ghost var before := store.requests;
    ghost var added: seq<Request> := [];
    made := [];
    failed := false;
    var j := 0;
    while j < |days|
      invariant store.Valid()
      invariant j <= |days| && |added| == j
      invariant store.requests == before + added
      invariant Reported(added, made)
      invariant Generated(added, days, sunday, emp.id)
      invariant Blank(DisplayName(emp)) ==> j == 0
      modifies store
    {
      var created := AssignDay(store, emp, sunday, days[j]);
      if created.None? {
        failed := true;
        break;
      }
      var r := created.value;
      var a := Assignment(emp.id, DisplayName(emp), emp.employeeCode, r.startDate, r.id);
      ReportedAppend(added, made, [r], [a]);
      GeneratedAppend(added, days, sunday, emp.id, r);
      added := added + [r];
      made := made + [a];
      j := j + 1;
    }
    assert store.requests[|before|..] == added;
  }

  /** The requests `added` by the generator: each a `RandomRequest` of the
      week, for one of the `selected` ids, on behalf of an existing account. */
  predicate Assigned(added: seq<Request>, selected: seq<nat>, users: seq<User>, sunday: Day) {
    forall i :: 0 <= i < |added| ==>
      RandomRequest(added[i], sunday) && added[i].employeeId in selected && FindById(users, added[i].employeeId).Some?
  }

  /** One turn of the outer loop: the employee `id` is looked up, gets a
      draw of days, and one request per drawn day; `error` is the line the
      turn adds to `errors`, if any. */
  method AssignEmployee(store: RequestStore, users: seq<User>, id: nat, n: int, sunday: Day)
    returns (made: seq<Assignment>, error: Option<string>)
    requires store.Valid() && Weekday(sunday) == 0
    modifies store
    ensures store.Valid()
    ensures |old(store.requests)| <= |store.requests| && store.requests[..|old(store.requests)|] == old(store.requests)
    ensures store.requests == old(store.requests) + store.requests[|old(store.requests)|..]
    ensures var added := store.requests[|old(store.requests)|..];
      && Reported(added, made)
      && Assigned(added, [id], users, sunday)
      && (n > 0 && FindById(users, id).Some? && error.None? ==> |added| == if n < 6 then n else 6)
      && (forall i, j :: 0 <= i < j < |added| ==> added[i].startDate < added[j].startDate)
      && |added| == Quota(users, id, n)
      && Turn(added, id, sunday)
    ensures error == ErrorOf(users, id, n)
    ensures FindById(users, id).None? ==> error == Some(NotFound(id)) && store.requests == old(store.requests)
    ensures error.Some? ==> error == Some(NotFound(id)) || error == Some(CreateFailed(id))
  {
    var emp := FindById(users, id);
    if emp.None? {
      return [], Some(NotFound(id));
    }
    var picked := PickDays(n);
    SortedPicks(picked);
    var days := SortBy(picked, NumericLe);
    var failed;
    made, failed := AssignDays(store, emp.value, days, sunday);
    error := if failed then Some(CreateFailed(id)) else None;
  }

  lemma AssignedAppend(added: seq<Request>, more: seq<Request>, selected: seq<nat>, id: nat, users: seq<User>, sunday: Day)
    requires Assigned(added, selected, users, sunday) && Assigned(more, [id], users, sunday)
    ensures Assigned(added + more, selected + [id], users, sunday)
  {
    var a := added + more;
    forall i | 0 <= i < |a|
      ensures RandomRequest(a[i], sunday) && a[i].employeeId in selected + [id] && FindById(users, a[i].employeeId).Some?
    {
      if i < |added| { assert a[i] == added[i]; } else { assert a[i] == more[i - |added|]; }
    }
  }

  lemma PrefixStep<T>(s: seq<T>, k: nat)
    requires k < |s|
    ensures s[..k + 1] == s[..k] + [s[k]]
  {
  }

  lemma AppendStep<T>(s: seq<T>, before: seq<T>, added: seq<T>, prev: seq<T>, more: seq<T>)
    requires prev == before + added && s == prev + more
    ensures s == before + (added + more)
  {
  }

  /** The outer loop: one turn per selected id, in order, going on past
      every failed turn. */
  method AssignAll(store: RequestStore, users: seq<User>, selected: seq<nat>, n: int, sunday: Day)
    returns (assignments: seq<Assignment>, errors: seq<string>)
    requires store.Valid() && Weekday(sunday) == 0
    modifies store
    ensures store.Valid()
    ensures |old(store.requests)| <= |store.requests| && store.requests[..|old(store.requests)|] == old(store.requests)
    ensures var added := store.requests[|old(store.requests)|..];
      && Reported(added, assignments)
      && Turns(added, users, selected, n, sunday)
    ensures errors == ErrorsOf(users, selected, n)
  {
    assignments := [];
    errors := [];
    ghost var before := store.requests;
    ghost var added: seq<Request> := [];
    for k := 0 to |selected|
      invariant store.Valid()
      invariant store.requests == before + added
      invariant Reported(added, assignments)
      invariant Turns(added, users, selected[..k], n, sunday)
      invariant errors == ErrorsOf(users, selected[..k], n)
    {
      var id := selected[k];
      ghost var prev := store.requests;
      var made, error := AssignEmployee(store, users, id, n, sunday);
      ghost var more := store.requests[|prev|..];
      ReportedAppend(added, assignments, more, made);
      TurnsAppend(added, more, users, selected[..k], id, n, sunday);
      ErrorsOfAppend(users, selected[..k], id, n);
      PrefixStep(selected, k);
      AppendStep(store.requests, before, added, prev, more);
      added := added + more;
      assignments := assignments + made;
      if error.Some? {
        errors := errors + [error.value];
      }
    }
    assert selected[..|selected|] == selected;
    assert store.requests[|before|..] == added;
  }

  /** `generateRandomWFH`, with the clock's current day passed in as
      `today`; `ids` is `None` when `selectedEmployeeIds` is missing or not
      an array. */
  method GenerateRandomWFH(store: RequestStore, caller: Caller, users: seq<User>,
                           ids: Option<seq<nat>>, n: Option<int>, today: Day)
    returns (reply: Reply<RandomResult>)
    requires store.Valid()
    modifies store
    ensures store.Valid()
    ensures AdminGuard(caller).Some? ==>
      reply == Refused(AdminGuard(caller).value.0, AdminGuard(caller).value.1)
    ensures AdminGuard(caller).None? && (ids.None? || ids.value == []) ==>
      reply == Refused(400, "At least one employee must be selected")
    ensures AdminGuard(caller).None? && ids.Some? && ids.value != [] ==>
      (reply.Refused? <==> !GivenNum(n) || n.value < 1 || n.value > 7)
    ensures reply.Refused? ==> store.requests == old(store.requests)
    ensures reply.Ok? ==>
      && |old(store.requests)| <= |store.requests|
      && store.requests[..|old(store.requests)|] == old(store.requests)
      && var added := store.requests[|old(store.requests)|..];
      && Reported(added, reply.value.assignments)
      && Assigned(added, ids.value, users, WeekStart(today))
      && (forall id :: id in ids.value && FindById(users, id).None? ==> NotFound(id) in reply.value.errors)
      && |reply.value.errors| <= |ids.value|
      && Turns(added, users, ids.value, n.value, WeekStart(today))
      && reply.value.errors == ErrorsOf(users, ids.value, n.value)
  {
    var refusal := AdminGuard(caller);
    if refusal.Some? {
      return Refused(refusal.value.0, refusal.value.1);
    }
    if ids.None? || ids.value == [] {
      return Refused(400, "At least one employee must be selected");
    }
    if !GivenNum(n) || n.value < 1 || n.value > 7 {
      return Refused(400, "Number of days must be between 1 and 7");
    }
    var sunday := WeekStart(today);
    var selected := ids.value;
    var assignments, errors := AssignAll(store, users, selected, n.value, sunday);
    ghost var added := store.requests[|old(store.requests)|..];
    TurnsAssigned(added, users, selected, n.value, sunday);
    forall id | id in selected && FindById(users, id).None? ensures NotFound(id) in errors {
      ErrorsOfNotFound(users, selected, n.value, id);
    }
    reply := Ok(RandomResult(assignments, errors));
  }
}
