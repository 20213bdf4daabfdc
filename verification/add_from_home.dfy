/** The Work From Home request form (frontend/src/components/AddFromHome.js):
    the employee search, the editable list of date fields, the validator and
    the request body it posts to `/requests`. Dates are the "YYYY-MM-DD"
    strings of the date inputs; "" is a field left empty. */
module AddFromHome {
  import opened Common
  import opened Sorting
  import opened EmployeeForm

  /** The fields of a listed employee that the search reads. */
  datatype Person = Person(fullName: string, employeeCode: string)

  function Matches(query: string): Person -> bool {
    (p: Person) => Includes(Lower(p.fullName), Lower(query)) || Includes(Lower(p.employeeCode), Lower(query))
  }

  /** `filteredEmployees`. */
  function FilteredEmployees(employees: seq<Person>, query: string): seq<Person> {
    Filter(employees, Matches(query))
  }

  /** An employee is listed exactly when the lower-cased query occurs in its
      lower-cased name or code; the order of the list is kept. */
  lemma FilteredSpec(employees: seq<Person>, query: string, p: Person)
    ensures p in FilteredEmployees(employees, query) <==>
      p in employees && (Occurs(Lower(p.fullName), Lower(query)) || Occurs(Lower(p.employeeCode), Lower(query)))
  {
    FilterMember(employees, Matches(query), p);
  }

  /** An empty search lists everyone. */
  lemma EmptyQueryListsAll(employees: seq<Person>)
    ensures FilteredEmployees(employees, "") == employees
  {
    forall i | 0 <= i < |employees| ensures Matches("")(employees[i]) {
      assert OccursAt(Lower(employees[i].fullName), Lower(""), 0);
    }
    FilterAll(employees, Matches(""));
  }

  /** `handleDateChange`: a copy of the list with one entry overwritten. The
      index is that of a rendered date field. */
  method HandleDateChange(dates: seq<string>, index: nat, value: string) returns (newDates: seq<string>)
    requires index < |dates|
    ensures |newDates| == |dates|
    ensures newDates[index] == value
    ensures forall i :: 0 <= i < |dates| && i != index ==> newDates[i] == dates[i]
  {
    var copy := new string[|dates|](i requires 0 <= i < |dates| => dates[i]);
    copy[index] := value;
    newDates := copy[..];
  }

  /** `handleAddDate`: one more, empty, field at the end. */
  function HandleAddDate(dates: seq<string>): (r: seq<string>)
    ensures |r| == |dates| + 1 && r[..|dates|] == dates && r[|dates|] == ""
  {
    dates + [""]
  }

  /** `handleRemoveDate`: drops the field at `index`, unless it is the only
      one left. */
  function HandleRemoveDate(dates: seq<string>, index: nat): (r: seq<string>)
    ensures |dates| >= 1 ==> |r| >= 1
    ensures |dates| > 1 && index < |dates| ==> r == dates[..index] + dates[index + 1..]
    ensures |dates| <= 1 || index >= |dates| ==> r == dates
  {
    if |dates| > 1 then
      seq(|dates| - (if index < |dates| then 1 else 0),
          i requires 0 <= i < |dates| - (if index < |dates| then 1 else 0) =>
            if index < |dates| && i >= index then dates[i + 1] else dates[i])
    else dates
  }

  /** Starting from the form's one empty field, adding and removing fields
      never leaves the form without one. */
  lemma FieldsNeverRunOut(dates: seq<string>, index: nat)
    requires |dates| >= 1
    ensures |HandleRemoveDate(dates, index)| >= 1 && |HandleAddDate(dates)| >= 1
  {
  }

  predicate Filled(date: string) {
    date != ""
  }

  /** `dates.filter((date) => date)`. */
  function FilledDates(dates: seq<string>): seq<string> {
    Filter(dates, Filled)
  }

  /** `dates.every((date) => !date)`. */
  predicate AllEmpty(dates: seq<string>) {
    forall i | 0 <= i < |dates| :: dates[i] == ""
  }

  /** The checks of `validateForm`, in order. */
  function Checks(employeeName: string, dates: seq<string>): seq<Check> {
    [ Check(Blank(employeeName), "Employee name is required"),
      Check(|dates| == 0 || AllEmpty(dates), "At least one date is required"),
      Check(|FilledDates(dates)| == 0, "Please select at least one valid date") ]
  }

  /** `validateForm`: `valid` is its return value and `error` what it passes
      to `setError`. */
  method ValidateForm(employeeName: string, dates: seq<string>) returns (valid: bool, error: Option<string>)
    ensures valid <==> error.None?
    ensures error == FirstProblem(Checks(employeeName, dates))
  {
    ghost var cs := Checks(employeeName, dates);
    if Blank(employeeName) {
      FirstProblemAt(cs, 0);
      return false, Some("Employee name is required");
    }
    if |dates| == 0 || AllEmpty(dates) {
      FirstProblemAt(cs, 1);
      return false, Some("At least one date is required");
    }
    var validDates := FilledDates(dates);
    if |validDates| == 0 {
      FirstProblemAt(cs, 2);
      return false, Some("Please select at least one valid date");
    }
    return true, None;
  }

  /** Some entry is filled exactly when the filled entries are not none. */
  lemma FilledExists(dates: seq<string>)
    ensures |FilledDates(dates)| > 0 <==> exists i :: 0 <= i < |dates| && dates[i] != ""
  {
    if |FilledDates(dates)| > 0 {
      FilterMember(dates, Filled, FilledDates(dates)[0]);
    }
    if exists i :: 0 <= i < |dates| && dates[i] != "" {
      var i :| 0 <= i < |dates| && dates[i] != "";
      FilterMember(dates, Filled, dates[i]);
    }
  }

  /** The form passes exactly when the name is not blank and some date is
      filled in; a blank name is reported first. */
  lemma AcceptedExactly(employeeName: string, dates: seq<string>)
    ensures FirstProblem(Checks(employeeName, dates)).None? <==>
      !Blank(employeeName) && exists i :: 0 <= i < |dates| && dates[i] != ""
    ensures Blank(employeeName) ==> FirstProblem(Checks(employeeName, dates)) == Some("Employee name is required")
  {
    FilledExists(dates);
    var cs := Checks(employeeName, dates);
    if !Blank(employeeName) && exists i :: 0 <= i < |dates| && dates[i] != "" {
      forall i | 0 <= i < |cs| ensures !cs[i].fails {
        assert i == 0 || i == 1 || i == 2;
      }
    }
    if FirstProblem(cs).None? {
      assert !cs[0].fails && !cs[1].fails;
    }
  }

  /** The third check never fires: once some entry is filled, the filtered
      list is not empty. */
  lemma ThirdCheckUnreachable(employeeName: string, dates: seq<string>)
    ensures FirstProblem(Checks(employeeName, dates)) != Some("Please select at least one valid date")
  {
    var cs := Checks(employeeName, dates);
    if cs[0].fails {
      FirstProblemAt(cs, 0);
    } else if cs[1].fails {
      FirstProblemAt(cs, 1);
    } else {
      var i :| 0 <= i < |dates| && dates[i] != "";
      FilledExists(dates);
      forall j | 0 <= j < |cs| ensures !cs[j].fails {
        assert j == 0 || j == 1 || j == 2;
      }
    }
  }

  /** `validDates`: the filled entries, sorted as strings. */
  function ValidDates(dates: seq<string>): seq<string> {
    SortBy(FilledDates(dates), TextLe)
  }

  /** `requestData` as `handleSubmit` builds it. */
  datatype RequestData = RequestData(
    employeeName: string,
    kind: string,
    startDate: string,
    endDate: string,
    selectedDates: seq<string>,
    numberOfDays: nat,
    reason: string,
    status: string)

  /** The body posted once the form is valid (so some date is filled). */
  function Payload(employeeName: string, dates: seq<string>, reason: string): (d: RequestData)
    requires exists i :: 0 <= i < |dates| && dates[i] != ""
    ensures d.kind == "WFH" && d.status == "Pending" && d.employeeName == employeeName
    ensures d.reason == if reason != "" then reason else "Work From Home"
  {
    FilledExists(dates);
    var validDates := ValidDates(dates);
    RequestData(employeeName, "WFH", validDates[0], validDates[|validDates| - 1], validDates,
                |validDates|, if reason != "" then reason else "Work From Home", "Pending")
  }

  /** The valid dates are the filled entries, each as often as entered, in
      ascending order. */
  lemma ValidDatesSpec(dates: seq<string>)
    ensures multiset(ValidDates(dates)) == multiset(FilledDates(dates))
    ensures SortedBy(ValidDates(dates), TextLe)
    ensures forall x :: x in ValidDates(dates) <==> x in dates && x != ""
  {
    var filled := FilledDates(dates);
    var v := ValidDates(dates);
    SortPermutes(filled, TextLe);
    TextLeIsTotalPreorder();
    SortSorted(filled, TextLe);
    forall x ensures x in v <==> x in dates && x != "" {
      FilterMember(dates, Filled, x);
      assert x in v <==> x in multiset(v);
      assert x in filled <==> x in multiset(filled);
    }
  }

  /** The first and last of a sorted list bound every element. */
  lemma SortedEnds(v: seq<string>, x: string)
    requires SortedBy(v, TextLe) && x in v
    ensures TextLe(v[0], x) && TextLe(x, v[|v| - 1])
  {
    var k :| 0 <= k < |v| && v[k] == x;
    if k == 0 || k == |v| - 1 {
      TextLeTotal(x, x);
    }
  }

  /** The request carries the valid dates; the start is the earliest, the
      end the latest, and the day count is their number. */
  lemma PayloadSpec(employeeName: string, dates: seq<string>, reason: string)
    requires exists i :: 0 <= i < |dates| && dates[i] != ""
    ensures var d := Payload(employeeName, dates, reason);
      && d.selectedDates == ValidDates(dates)
      && d.numberOfDays == |FilledDates(dates)| > 0
      && d.startDate == d.selectedDates[0] && d.endDate == d.selectedDates[|d.selectedDates| - 1]
      && (forall x :: x in dates && x != "" ==> TextLe(d.startDate, x) && TextLe(x, d.endDate))
  {
    FilledExists(dates);
    ValidDatesSpec(dates);
    var v := ValidDates(dates);
    forall x | x in dates && x != "" ensures TextLe(v[0], x) && TextLe(x, v[|v| - 1]) {
      SortedEnds(v, x);
    }
  }
}
