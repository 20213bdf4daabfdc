/** `getWeeklyWFH` (backend/controllers/requests.js): the team's week grid.
    Each employee with an approved request overlapping the current week
    gets one row of seven day slots, Sunday to Saturday; a slot is marked
    by the last request (in employee-name order) whose span covers it. The
    handler's JavaScript `Map` keyed by `name_code` is a `Grid`: the keys in
    insertion order plus a map from key to row. */
module WeeklyWfh {
  import opened Common
  import opened Sorting
  import opened RequestModel
  import opened UserModel
  import opened RequestRules

  const DayNames := ["Sunday", "Monday", "Tuesday", "Wednesday", "Thursday", "Friday", "Saturday"]
  const DayShorts := ["Sun", "Mon", "Tue", "Wed", "Thu", "Fri", "Sat"]

  datatype WeekDay = WeekDay(date: Day, dayName: string, dayShort: string)

  /** What a marked day records about the request that marked it. */
  datatype Cell = Cell(kind: RequestType, purpose: string, requestId: nat)

  /** An employee's entry: the name and code it was first seen with, and
      one optional cell per day of the week. */
  datatype Row = Row(employeeName: string, employeeCode: string, slots: seq<Option<Cell>>)

  /** The insertion-ordered `Map` of the handler. */
  datatype Grid = Grid(order: seq<string>, entries: map<string, Row>)

  /** One day of an employee's week in the reply. */
  datatype Slot = Slot(day: WeekDay, isWFH: bool, kind: Option<RequestType>, purpose: Option<string>)

  datatype EmployeeWeek = EmployeeWeek(employeeName: string, employeeCode: string, weekSchedule: seq<Slot>)

  datatype WeeklyView = WeeklyView(start: Day, end: Day, weekDays: seq<WeekDay>, employees: seq<EmployeeWeek>)

  // ------------------------------------------------------------- the query

  /** The team filter: accounts with an employee code and, for a lead, one
      of the titles of the lead's team. */
  predicate OnTeam(u: User, isAdmin: bool, allowed: Option<seq<Title>>) {
    && u.employeeCode.Some?
    && (isAdmin || (allowed.Some? && u.title.Some? && u.title.value in allowed.value))
  }

  /** The request query: approved, owned by a team member, overlapping the
      week that starts at `sunday`. */
  function GridQuery(users: seq<User>, isAdmin: bool, allowed: Option<seq<Title>>, sunday: Day): Request -> bool {
    (r: Request) =>
      && r.status == Approved
      && FindById(users, r.employeeId).Some?
      && OnTeam(FindById(users, r.employeeId).value, isAdmin, allowed)
      && r.startDate <= sunday + 6
      && r.endDate >= sunday
  }

  /** `.sort({ employeeName: 1 })`. */
  predicate ByName(a: Request, b: Request) {
    TextLe(a.employeeName, b.employeeName)
  }

  lemma ByNameIsTotalPreorder()
    ensures TotalPreorder(ByName)
  {
    forall a: Request, b: Request ensures ByName(a, b) || ByName(b, a) {
      TextLeTotal(a.employeeName, b.employeeName);
    }
    forall a: Request, b: Request, c: Request | ByName(a, b) && ByName(b, c) ensures ByName(a, c) {
      TextLeTransitive(a.employeeName, b.employeeName, c.employeeName);
    }
  }

  // ------------------------------------------------------- rows and cells

  /** `employeeId?.fullName || employeeName || "Unknown"`. */
  function NameOf(r: Request, users: seq<User>): string {
    var emp := FindById(users, r.employeeId);
    if emp.Some? && Given(emp.value.fullName) then emp.value.fullName.value
    else if r.employeeName != "" then r.employeeName
    else "Unknown"
  }

  /** `employeeId?.employeeCode || employeeCode || ""`. */
  function CodeOf(r: Request, users: seq<User>): string {
    var emp := FindById(users, r.employeeId);
    if emp.Some? && Given(emp.value.employeeCode) then emp.value.employeeCode.value
    else Or(r.employeeCode, "")
  }

  function Key(name: string, code: string): string {
    name + "_" + code
  }

  function KeyOf(r: Request, users: seq<User>): string {
    Key(NameOf(r, users), CodeOf(r, users))
  }

  /** The cell a request writes: `notes || reason || "Work From Home"`. */
  function CellOf(r: Request): Cell {
    Cell(r.kind, if r.notes != "" then r.notes else if r.reason != "" then r.reason else "Work From Home", r.id)
  }

  /** `currentDay >= requestStart && currentDay <= requestEnd`; the
      request's `selectedDates` play no part. */
  predicate Covers(r: Request, d: Day) {
    r.startDate <= d <= r.endDate
  }

  const EmptyWeek: seq<Option<Cell>> := [None, None, None, None, None, None, None]

  /** The seven slots after request `r` marked the days it covers. */
  function Mark(slots: seq<Option<Cell>>, r: Request, sunday: Day): (marked: seq<Option<Cell>>)
    ensures |marked| == 7
  {
    seq(7, i requires 0 <= i < 7 =>
      if Covers(r, sunday + i) then Some(CellOf(r)) else if i < |slots| then slots[i] else None)
  }

  /** The grid after one request of the loop: its row is created on first
      sight, then the days it covers are overwritten. */
  function Apply(g: Grid, r: Request, users: seq<User>, sunday: Day): Grid {
    var k := KeyOf(r, users);
    var g1 := if k in g.entries then g
              else Grid(g.order + [k], g.entries[k := Row(NameOf(r, users), CodeOf(r, users), EmptyWeek)]);
    g1.(entries := g1.entries[k := g1.entries[k].(slots := Mark(g1.entries[k].slots, r, sunday))])
  }

  /** The order lists each key of the map once, and every row has seven
      slots and carries the name and code its key is made of. */
  ghost predicate WellFormed(g: Grid) {
    && (forall k :: k in g.order <==> k in g.entries)
    && (forall i, j :: 0 <= i < j < |g.order| ==> g.order[i] != g.order[j])
    && (forall k :: k in g.entries ==>
          |g.entries[k].slots| == 7 && Key(g.entries[k].employeeName, g.entries[k].employeeCode) == k)
  }

  /** The grid after the loop has run over `rs`. */
  function GridOf(rs: seq<Request>, users: seq<User>, sunday: Day): (g: Grid)
    ensures WellFormed(g)
  {
    if rs == [] then Grid([], map[])
    else
      var g0 := GridOf(rs[..|rs| - 1], users, sunday);
      ApplyFacts(g0, rs[|rs| - 1], users, sunday);
      Apply(g0, rs[|rs| - 1], users, sunday)
  }

  /** One step of the loop keeps the grid well formed, adds at most the
      request's key, and changes only the days the request covers in the
      row of that key. */
  lemma ApplyFacts(g: Grid, r: Request, users: seq<User>, sunday: Day)
    requires WellFormed(g)
    ensures var g1 := Apply(g, r, users, sunday);
      && WellFormed(g1)
      && (forall k :: k in g1.entries <==> k in g.entries || k == KeyOf(r, users))
      && (forall k, d :: k in g1.entries && 0 <= d < 7 ==>
            g1.entries[k].slots[d] ==
              if k == KeyOf(r, users) && Covers(r, sunday + d) then Some(CellOf(r))
              else if k in g.entries then g.entries[k].slots[d]
              else None)
  {
    ApplyWellFormed(g, r, users, sunday);
    var g1 := Apply(g, r, users, sunday);
    forall k ensures k in g1.entries <==> k in g.entries || k == KeyOf(r, users) {
      ApplyKeys(g, r, users, sunday, k);
    }
    forall k, d | k in g1.entries && 0 <= d < 7
      ensures g1.entries[k].slots[d] ==
        if k == KeyOf(r, users) && Covers(r, sunday + d) then Some(CellOf(r))
        else if k in g.entries then g.entries[k].slots[d]
        else None
    {
      ApplySlot(g, r, users, sunday, k, d);
    }
  }

  lemma ApplyWellFormed(g: Grid, r: Request, users: seq<User>, sunday: Day)
    requires WellFormed(g)
    ensures WellFormed(Apply(g, r, users, sunday))
  {
    var k := KeyOf(r, users);
    var g1 := Apply(g, r, users, sunday);
    if k !in g.entries {
      forall i, j | 0 <= i < j < |g1.order| ensures g1.order[i] != g1.order[j] {
        if j == |g.order| { assert g1.order[i] in g.order; }
      }
    }
  }

  lemma ApplySlot(g: Grid, r: Request, users: seq<User>, sunday: Day, k: string, d: int)
    requires WellFormed(g)
    requires k in Apply(g, r, users, sunday).entries && 0 <= d < 7
    ensures Apply(g, r, users, sunday).entries[k].slots[d] ==
      if k == KeyOf(r, users) && Covers(r, sunday + d) then Some(CellOf(r))
      else if k in g.entries then g.entries[k].slots[d]
      else None
  {
    var kr := KeyOf(r, users);
    var g1 := if kr in g.entries then g
              else Grid(g.order + [kr], g.entries[kr := Row(NameOf(r, users), CodeOf(r, users), EmptyWeek)]);
    assert Apply(g, r, users, sunday).entries == g1.entries[kr := g1.entries[kr].(slots := Mark(g1.entries[kr].slots, r, sunday))];
    if k == kr {
      var slots := g1.entries[kr].slots;
      assert |slots| == 7;
      assert Mark(slots, r, sunday)[d] == if Covers(r, sunday + d) then Some(CellOf(r)) else slots[d];
    } else {
      assert g1.entries[k] == g.entries[k];
    }
  }

  /** The last request of `rs` with key `k` that covers day `d`. */
  function LastCover(rs: seq<Request>, users: seq<User>, k: string, d: Day): (last: Option<Request>)
    ensures last.Some? ==> last.value in rs && KeyOf(last.value, users) == k && Covers(last.value, d)
  {
    if rs == [] then None
    else
      var r := rs[|rs| - 1];
      if KeyOf(r, users) == k && Covers(r, d) then Some(r)
      else LastCover(rs[..|rs| - 1], users, k, d)
  }

  function CellOfOpt(r: Option<Request>): Option<Cell> {
    if r.Some? then Some(CellOf(r.value)) else None
  }

  // ------------------------------------------------------------- handler

  /** `getWeeklyWFH`, with the clock's current day passed in as `today`. */
  method GetWeeklyWFH(caller: Caller, users: seq<User>, rs: seq<Request>, today: Day)
    returns (reply: Reply<WeeklyView>)
    ensures caller.identity == "" ==> reply == Refused(400, "User not found in token")
    ensures caller.identity != "" && FindByEmail(users, caller.identity).None? ==>
      reply == Refused(404, "User not found")
    ensures caller.identity != "" && FindByEmail(users, caller.identity).Some? ==>
      var allowed := TeamMemberTitles(FindByEmail(users, caller.identity).value.title);
      && (!IsAdmin(caller) && allowed.None? ==>
            reply == Refused(403, "Unauthorized - Admin or Team Lead access only"))
      && (IsAdmin(caller) || allowed.Some? ==>
            var sunday := WeekStart(today);
            var selected := SortBy(Filter(rs, GridQuery(users, IsAdmin(caller), allowed, sunday)), ByName);
            reply.Ok? && reply.value == View(GridOf(selected, users, sunday), sunday))
  {
    if caller.identity == "" {
      return Refused(400, "User not found in token");
    }
    var me := FindByEmail(users, caller.identity);
    if me.None? {
      return Refused(404, "User not found");
    }
    var isAdmin := IsAdmin(caller);
    var allowed := TeamMemberTitles(me.value.title);
    if !isAdmin && allowed.None? {
      return Refused(403, "Unauthorized - Admin or Team Lead access only");
    }
    var sunday := WeekStart(today);
    var selected := SortBy(Filter(rs, GridQuery(users, isAdmin, allowed, sunday)), ByName);
    var view := BuildView(selected, users, sunday);
    reply := Ok(view);
  }

  /** The week's days, the grid filled from the selected requests, and the
      reply body made of them. */
  method BuildView(selected: seq<Request>, users: seq<User>, sunday: Day) returns (view: WeeklyView)
    ensures view == View(GridOf(selected, users, sunday), sunday)
  {
    var weekDays := BuildWeekDays(sunday);
    var grid := BuildGrid(selected, users, weekDays, sunday);
    view := WeeklyView(sunday, sunday + 6, weekDays, Employees(grid, weekDays));
  }

  /** The `forEach` over the selected requests, filling the `Map`. */
  method BuildGrid(selected: seq<Request>, users: seq<User>, weekDays: seq<WeekDay>, sunday: Day)
    returns (grid: Grid)
    requires weekDays == WeekDaysFrom(sunday)
    ensures grid == GridOf(selected, users, sunday)
  {
    grid := Grid([], map[]);
    var i := 0;
    while i < |selected|
      invariant 0 <= i <= |selected|
      invariant grid == GridOf(selected[..i], users, sunday)
    {
      assert selected[..i + 1][..i] == selected[..i];
      grid := AddRequest(grid, selected[i], users, weekDays, sunday);
      i := i + 1;
    }
    assert selected[..i] == selected;
  }

  /** The `weekDays` loop: the seven days from `sunday`, with their names. */
  method BuildWeekDays(sunday: Day) returns (days: seq<WeekDay>)
    ensures days == WeekDaysFrom(sunday)
  {
    days := [];
    for i := 0 to 7
      invariant days == WeekDaysFrom(sunday)[..i]
    {
      days := days + [WeekDay(sunday + i, DayNames[i], DayShorts[i])];
    }
  }

  function WeekDaysFrom(sunday: Day): (days: seq<WeekDay>)
    ensures |days| == 7
  {
    seq(7, i requires 0 <= i < 7 => WeekDay(sunday + i, DayNames[i], DayShorts[i]))
  }

  /** The seven days run Sunday to Saturday: the `i`-th falls on weekday
      `i`, carries that weekday's name, and the last is six days on. */
  lemma WeekDaysSpec(today: Day, i: int)
    requires 0 <= i < 7
    ensures var days := WeekDaysFrom(WeekStart(today));
      && Weekday(days[i].date) == i
      && days[i].dayName == DayNames[i]
      && days[0].date <= today <= days[6].date
  {
    WeekdayOfOffset(WeekStart(today), i);
  }

  /** One turn of the `forEach` over the requests: find or create the row
      of the request's key, then mark the days it covers. */
  method AddRequest(grid: Grid, r: Request, users: seq<User>, weekDays: seq<WeekDay>, sunday: Day)
    returns (next: Grid)
    requires weekDays == WeekDaysFrom(sunday)
    requires WellFormed(grid)
    ensures next == Apply(grid, r, users, sunday)
  {
    var k := KeyOf(r, users);
    next := grid;
    if k !in next.entries {
      next := Grid(next.order + [k], next.entries[k := Row(NameOf(r, users), CodeOf(r, users), EmptyWeek)]);
    }
    var slots := MarkWeek(next.entries[k].slots, r, weekDays, sunday);
    next := next.(entries := next.entries[k := next.entries[k].(slots := slots)]);
  }

  /** The inner `forEach` over the seven days. */
  method MarkWeek(slots: seq<Option<Cell>>, r: Request, weekDays: seq<WeekDay>, sunday: Day)
    returns (marked: seq<Option<Cell>>)
    requires weekDays == WeekDaysFrom(sunday)
    requires |slots| == 7
    ensures marked == Mark(slots, r, sunday)
  {
    marked := slots;
    for d := 0 to 7
      invariant |marked| == 7
      invariant forall i :: 0 <= i < 7 ==>
        marked[i] == if i < d && Covers(r, sunday + i) then Some(CellOf(r)) else slots[i]
    {
      var day := weekDays[d].date;
      if day >= r.startDate && day <= r.endDate {
        marked := marked[d := Some(CellOf(r))];
      }
    }
  }

  /** The reply row of an employee: one slot per week day. */
  function Present(row: Row, weekDays: seq<WeekDay>): EmployeeWeek {
    EmployeeWeek(row.employeeName, row.employeeCode,
      seq(|weekDays|, i requires 0 <= i < |weekDays| =>
        var cell := if i < |row.slots| then row.slots[i] else None;
        Slot(weekDays[i], cell.Some?,
             if cell.Some? then Some(cell.value.kind) else None,
             if cell.Some? then Some(cell.value.purpose) else None)))
  }

  /** `Array.from(employeeSchedule.values()).map(...)`: the rows in key
      insertion order. */
  function Employees(g: Grid, weekDays: seq<WeekDay>): (emps: seq<EmployeeWeek>)
    requires WellFormed(g)
    ensures |emps| == |g.order|
  {
    seq(|g.order|, j requires 0 <= j < |g.order| => Present(g.entries[g.order[j]], weekDays))
  }

  /** The reply body: the week range, its days and the employees' rows. */
  function View(g: Grid, sunday: Day): WeeklyView
    requires WellFormed(g)
  {
    WeeklyView(sunday, sunday + 6, WeekDaysFrom(sunday), Employees(g, WeekDaysFrom(sunday)))
  }

  // ------------------------------------------------------------- lemmas

  /** The grid has a row for a key `name_code` exactly when some request of
      the loop carries that key: employees without an approved request that
      week are absent. Two name and code pairs that spell the same key share
      one row. */
  lemma GridKeys(rs: seq<Request>, users: seq<User>, sunday: Day, k: string)
    ensures k in GridOf(rs, users, sunday).entries <==> exists r :: r in rs && KeyOf(r, users) == k
  {
    GridKeySet(rs, users, sunday, k);
    KeySetMember(rs, users, k);
  }

  /** The keys of the requests in `rs`. */
  function KeySet(rs: seq<Request>, users: seq<User>): set<string> {
    if rs == [] then {} else KeySet(rs[..|rs| - 1], users) + {KeyOf(rs[|rs| - 1], users)}
  }

  lemma {:induction false} GridKeySet(rs: seq<Request>, users: seq<User>, sunday: Day, k: string)
    ensures k in GridOf(rs, users, sunday).entries <==> k in KeySet(rs, users)
  {
    if rs != [] {
      var init := rs[..|rs| - 1];
      GridKeySet(init, users, sunday, k);
      ApplyKeys(GridOf(init, users, sunday), rs[|rs| - 1], users, sunday, k);
    }
  }

  lemma {:induction false} KeySetMember(rs: seq<Request>, users: seq<User>, k: string)
    ensures k in KeySet(rs, users) <==> exists r :: r in rs && KeyOf(r, users) == k
  {
    if rs != [] {
      var init, r := rs[..|rs| - 1], rs[|rs| - 1];
      KeySetMember(init, users, k);
      assert rs == init + [r];
      if k in KeySet(init, users) {
        var q :| q in init && KeyOf(q, users) == k;
        assert q in rs;
      } else if k == KeyOf(r, users) {
        assert r in rs;
      } else {
        forall q | q in rs ensures KeyOf(q, users) != k {
          assert q in init || q == r;
        }
      }
    }
  }

  /** A step of the loop adds the request's key and no other. */
  lemma ApplyKeys(g: Grid, r: Request, users: seq<User>, sunday: Day, k: string)
    ensures k in Apply(g, r, users, sunday).entries <==> k in g.entries || k == KeyOf(r, users)
  {
  }

  /** Last write wins: a day of an employee's row holds the cell of the
      last request (in loop order) with the employee's key that covers the
      day, and is empty when none does. */
  lemma {:induction false} GridSlot(rs: seq<Request>, users: seq<User>, sunday: Day, k: string, d: int)
    requires 0 <= d < 7
    requires k in GridOf(rs, users, sunday).entries
    ensures GridOf(rs, users, sunday).entries[k].slots[d] == CellOfOpt(LastCover(rs, users, k, sunday + d))
  {
    var init, r := rs[..|rs| - 1], rs[|rs| - 1];
    var g0 := GridOf(init, users, sunday);
    ApplyFacts(g0, r, users, sunday);
    if k in g0.entries {
      GridSlot(init, users, sunday, k, d);
    } else {
      GridKeys(init, users, sunday, k);
      LastCoverNone(init, users, k, sunday + d);
    }
  }

  lemma {:induction false} LastCoverNone(rs: seq<Request>, users: seq<User>, k: string, d: Day)
    requires forall r :: r in rs ==> KeyOf(r, users) != k
    ensures LastCover(rs, users, k, d).None?
  {
    if rs != [] {
      LastCoverNone(rs[..|rs| - 1], users, k, d);
    }
  }

  /** What the loop runs over: exactly the approved requests of team
      members that overlap the week, in employee-name order. For a team
      lead, every one of them belongs to an account whose title is in the
      lead's team. */
  lemma GridQuerySpec(rs: seq<Request>, users: seq<User>, isAdmin: bool, allowed: Option<seq<Title>>, sunday: Day, r: Request)
    ensures var selected := SortBy(Filter(rs, GridQuery(users, isAdmin, allowed, sunday)), ByName);
      && (r in selected <==>
            && r in rs && r.status == Approved && r.startDate <= sunday + 6 && r.endDate >= sunday
            && FindById(users, r.employeeId).Some?
            && OnTeam(FindById(users, r.employeeId).value, isAdmin, allowed))
      && (r in selected && !isAdmin ==>
            FindById(users, r.employeeId).value.title.value in allowed.value)
      && SortedBy(selected, ByName)
  {
    var q := GridQuery(users, isAdmin, allowed, sunday);
    var filtered := Filter(rs, q);
    FilterMember(rs, q, r);
    SortPermutes(filtered, ByName);
    assert r in SortBy(filtered, ByName) <==> r in multiset(filtered);
    ByNameIsTotalPreorder();
    SortSorted(filtered, ByName);
  }

  /** Every row of the reply has the seven days of the week, and a day is
      shown as WFH exactly when a request of that employee covers it. */
  lemma ViewSpec(rs: seq<Request>, users: seq<User>, sunday: Day, j: int, d: int)
    requires 0 <= d < 7
    requires 0 <= j < |View(GridOf(rs, users, sunday), sunday).employees|
    ensures var g := GridOf(rs, users, sunday);
      var emp := View(g, sunday).employees[j];
      && |emp.weekSchedule| == 7
      && emp.weekSchedule[d].day.date == sunday + d
      && (emp.weekSchedule[d].isWFH <==>
            exists r :: r in rs && KeyOf(r, users) == g.order[j] && Covers(r, sunday + d))
  {
    var g := GridOf(rs, users, sunday);
    var k := g.order[j];
    GridSlot(rs, users, sunday, k, d);
    var last := LastCover(rs, users, k, sunday + d);
    if last.None? {
      LastCoverComplete(rs, users, k, sunday + d);
    }
  }

  lemma {:induction false} LastCoverComplete(rs: seq<Request>, users: seq<User>, k: string, d: Day)
    requires LastCover(rs, users, k, d).None?
    ensures forall r :: r in rs && KeyOf(r, users) == k ==> !Covers(r, d)
  {
    if rs != [] {
      LastCoverComplete(rs[..|rs| - 1], users, k, d);
      assert rs == rs[..|rs| - 1] + [rs[|rs| - 1]];
    }
  }
}
