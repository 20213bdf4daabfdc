/** `getWeekSchedule` (backend/controllers/requests.js): the days of the
    current Sunday-to-Saturday week on which the caller works from home or
    is on vacation, one entry per day of each approved request. */
module WeekSchedule {
  import opened Common
  import opened RequestModel
  import opened UserModel
  import opened RequestRules

  /** One element of the reply; the source sends the request type both as
      `status` and as `type`. */
  datatype ScheduleEntry = ScheduleEntry(date: Day, kind: RequestType)

  /** The query of the handler: the owner's approved WFH or VACATION
      requests whose span overlaps the week. */
  predicate WeekRequest(r: Request, owner: nat, sunday: Day) {
    && r.employeeId == owner
    && (r.kind == WFH || r.kind == VACATION)
    && r.status == Approved
    && r.startDate <= sunday + 6
    && r.endDate >= sunday
  }

  /** The days `a`, `a + 1`, ..., `b`. */
  function Span(a: Day, b: Day): (s: seq<Day>)
    ensures |s| == if b < a then 0 else b - a + 1
    ensures forall i :: 0 <= i < |s| ==> s[i] == a + i
    decreases b - a
  {
    if b < a then [] else Span(a, b - 1) + [b]
  }

  /** The test `d >= sunday && d <= saturday`, as a filter. */
  function InWindow(sunday: Day): Day -> bool {
    d => InWeek(d, sunday)
  }

  /** The days one request contributes: its explicit `selectedDates` when
      there are any, every day from its start to its end otherwise; in
      both cases only the days inside the week. */
  function DaysOf(r: Request, sunday: Day): seq<Day> {
    if |r.selectedDates| > 0 then Filter(r.selectedDates, InWindow(sunday))
    else Filter(Span(r.startDate, r.endDate), InWindow(sunday))
  }

  function Entries(days: seq<Day>, kind: RequestType): (es: seq<ScheduleEntry>)
    ensures |es| == |days|
    ensures forall i :: 0 <= i < |days| ==> es[i] == ScheduleEntry(days[i], kind)
  {
    seq(|days|, i requires 0 <= i < |days| => ScheduleEntry(days[i], kind))
  }

  /** The reply for the requests `rs`, taken in collection order. */
  function ScheduleOf(rs: seq<Request>, owner: nat, sunday: Day): seq<ScheduleEntry> {
    if rs == [] then []
    else
      var r := rs[|rs| - 1];
      ScheduleOf(rs[..|rs| - 1], owner, sunday) +
      (if WeekRequest(r, owner, sunday) then Entries(DaysOf(r, sunday), r.kind) else [])
  }

  lemma EntriesSnoc(days: seq<Day>, d: Day, kind: RequestType)
    ensures Entries(days + [d], kind) == Entries(days, kind) + [ScheduleEntry(d, kind)]
  {
  }

  /** `getWeekSchedule`, with the clock's current day passed in as `today`. */
  method GetWeekSchedule(caller: Caller, users: seq<User>, rs: seq<Request>, today: Day)
    returns (reply: Reply<seq<ScheduleEntry>>)
    ensures caller.identity == "" ==> reply == Refused(400, "User not found in token")
    ensures caller.identity != "" && FindByEmail(users, caller.identity).None? ==>
      reply == Refused(404, "User not found")
    ensures caller.identity != "" && FindByEmail(users, caller.identity).Some? ==>
      reply == Ok(ScheduleOf(rs, FindByEmail(users, caller.identity).value.id, WeekStart(today)))
  {
    if caller.identity == "" {
      return Refused(400, "User not found in token");
    }
    var me := FindByEmail(users, caller.identity);
    if me.None? {
      return Refused(404, "User not found");
    }
    var owner := me.value.id;
    var sunday := WeekStart(today);
    var out: seq<ScheduleEntry> := [];
    var i := 0;
    while i < |rs|
      invariant 0 <= i <= |rs|
      invariant out == ScheduleOf(rs[..i], owner, sunday)
    {
      assert rs[..i + 1][..i] == rs[..i];
      if WeekRequest(rs[i], owner, sunday) {
        var es := RequestEntries(rs[i], sunday);
        out := out + es;
      }
      i := i + 1;
    }
    assert rs[..i] == rs;
    reply := Ok(out);
  }

  /** The entries one request pushes: the loop over its `selectedDates`, or
      the day-by-day walk from its start to its end. */
  method RequestEntries(r: Request, sunday: Day) returns (es: seq<ScheduleEntry>)
    ensures es == Entries(DaysOf(r, sunday), r.kind)
  {
    if |r.selectedDates| > 0 {
      es := SelectedEntries(r.selectedDates, r.kind, sunday);
    } else {
      es := SpanEntries(r.startDate, r.endDate, r.kind, sunday);
    }
  }

  method SelectedEntries(sel: seq<Day>, kind: RequestType, sunday: Day) returns (es: seq<ScheduleEntry>)
    ensures es == Entries(Filter(sel, InWindow(sunday)), kind)
  {
    var saturday := sunday + 6;
    es := [];
    var j := 0;
    while j < |sel|
      invariant 0 <= j <= |sel|
      invariant es == Entries(Filter(sel[..j], InWindow(sunday)), kind)
    {
      var d := sel[j];
      assert sel[..j + 1][..j] == sel[..j];
      if d >= sunday && d <= saturday {
        EntriesSnoc(Filter(sel[..j], InWindow(sunday)), d, kind);
        es := es + [ScheduleEntry(d, kind)];
      }
      j := j + 1;
    }
    assert sel[..j] == sel;
  }

  method SpanEntries(start: Day, end: Day, kind: RequestType, sunday: Day) returns (es: seq<ScheduleEntry>)
    ensures es == Entries(Filter(Span(start, end), InWindow(sunday)), kind)
  {
    var saturday := sunday + 6;
    es := [];
    var current := start;
    while current <= end
      invariant start <= current <= end + 1 || current == start
      invariant es == Entries(Filter(Span(start, current - 1), InWindow(sunday)), kind)
      decreases end - current
    {
      SpanStep(start, current, kind, sunday);
      if current >= sunday && current <= saturday {
        es := es + [ScheduleEntry(current, kind)];
      }
      current := current + 1;
    }
  }

  /** One more day of the walk adds its entry when the day is in the week. */
  lemma SpanStep(start: Day, current: Day, kind: RequestType, sunday: Day)
    requires start <= current
    ensures Entries(Filter(Span(start, current), InWindow(sunday)), kind) ==
      Entries(Filter(Span(start, current - 1), InWindow(sunday)), kind) +
      (if InWeek(current, sunday) then [ScheduleEntry(current, kind)] else [])
  {
    var span := Span(start, current);
    assert span[..|span| - 1] == Span(start, current - 1);
    if InWeek(current, sunday) {
      EntriesSnoc(Filter(Span(start, current - 1), InWindow(sunday)), current, kind);
    }
  }

  /** A day a request contributes lies in the week and, when the request
      lists `selectedDates`, is one of them; otherwise it lies in the
      request's span. Conversely every such day is contributed. */
  lemma DaysOfMember(r: Request, sunday: Day, d: Day)
    ensures d in DaysOf(r, sunday) <==>
      InWeek(d, sunday) &&
      (if |r.selectedDates| > 0 then d in r.selectedDates else r.startDate <= d <= r.endDate)
  {
    if |r.selectedDates| > 0 {
      FilterMember(r.selectedDates, InWindow(sunday), d);
    } else {
      FilterMember(Span(r.startDate, r.endDate), InWindow(sunday), d);
      SpanMember(r.startDate, r.endDate, d);
    }
  }

  lemma SpanMember(a: Day, b: Day, d: Day)
    ensures d in Span(a, b) <==> a <= d <= b
  {
    var span := Span(a, b);
    if a <= d <= b {
      assert span[d - a] == d;
    }
  }

  /** Every entry of the reply is a day of the week, of kind WFH or
      VACATION, contributed by one of the owner's approved requests of that
      kind; and every day such a request contributes is in the reply. */
  lemma {:induction false} ScheduleOfMember(rs: seq<Request>, owner: nat, sunday: Day, e: ScheduleEntry)
    ensures e in ScheduleOf(rs, owner, sunday) <==>
      exists r :: r in rs && WeekRequest(r, owner, sunday) && r.kind == e.kind && e.date in DaysOf(r, sunday)
  {
    if rs != [] {
      var init, r := rs[..|rs| - 1], rs[|rs| - 1];
      ScheduleOfMember(init, owner, sunday, e);
      assert rs == init + [r];
      if WeekRequest(r, owner, sunday) {
        EntriesMember(DaysOf(r, sunday), r.kind, e);
      }
    }
  }

  lemma EntriesMember(days: seq<Day>, kind: RequestType, e: ScheduleEntry)
    ensures e in Entries(days, kind) <==> kind == e.kind && e.date in days
  {
    var es := Entries(days, kind);
    if e in es {
      var k :| 0 <= k < |es| && es[k] == e;
    }
    if kind == e.kind && e.date in days {
      var k :| 0 <= k < |days| && days[k] == e.date;
      assert es[k] == e;
    }
  }

  /** Every day in the reply lies in the Sunday-to-Saturday week of
      `today`, and is a WFH or VACATION day. */
  lemma ScheduleInWeek(rs: seq<Request>, owner: nat, today: Day, e: ScheduleEntry)
    requires e in ScheduleOf(rs, owner, WeekStart(today))
    ensures WeekStart(today) <= e.date <= WeekStart(today) + 6
    ensures e.kind == WFH || e.kind == VACATION
  {
    var sunday := WeekStart(today);
    ScheduleOfMember(rs, owner, sunday, e);
    var r :| r in rs && WeekRequest(r, owner, sunday) && r.kind == e.kind && e.date in DaysOf(r, sunday);
    DaysOfMember(r, sunday, e.date);
  }
}
