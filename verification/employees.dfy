/** The Employees page (frontend/src/components/Employees.js): the create /
    edit form, its payload, and the list and selection updates behind the
    table and the credentials export. */
module Employees {
  import opened Common
  import opened EmployeeForm

  /** An entry of the list `/users/employees` returns; absent keys are `None`. */
  datatype Employee = Employee(
    id: nat,
    fullName: Option<string>,
    username: Option<string>,
    email: Option<string>,
    phonenumber: Option<string>,
    phoneNumber: Option<string>,
    employeeCode: Option<string>,
    fingerprintCode: Option<string>,
    jobPosition: Option<string>,
    branch: Option<string>,
    decryptedPassword: Option<string>)

  /** The checks after the shared opening ones; `editing` is
      `editingEmployeeId`. */
  function AccountChecks(f: FormData, editing: Option<nat>): seq<Check> {
    [ Check(editing.None? && f.password == "", "Password is required"),
      Check(f.password != "" && |f.password| < 6, "Password must be at least 6 characters"),
      Check(Blank(f.employeeCode), "Employee Code is required"),
      Check(Blank(f.fingerprint), "Fingerprint Code is required"),
      Check(f.jobPosition == "", "Job Position is required") ]
  }

  /** The checks of `validateForm`, in order. */
  function Checks(f: FormData, editing: Option<nat>): seq<Check> {
    ContactChecks(f) + AccountChecks(f, editing)
  }

  /** `validateForm`: `valid` is its return value and `error` what it passes
      to `setError` (`None`: the error state is left alone). */
  method ValidateForm(f: FormData, editing: Option<nat>) returns (valid: bool, error: Option<string>)
    ensures valid <==> error.None?
    ensures error == FirstProblem(Checks(f, editing))
  {
    FirstProblemAppend(ContactChecks(f), AccountChecks(f, editing));
    error := ValidateContact(f);
    if error.Some? {
      return false, error;
    }
    ghost var cs := AccountChecks(f, editing);
    if editing.None? && f.password == "" {
      FirstProblemAt(cs, 0);
      return false, Some("Password is required");
    }
    if f.password != "" && |f.password| < 6 {
      FirstProblemAt(cs, 1);
      return false, Some("Password must be at least 6 characters");
    }
    if Blank(f.employeeCode) {
      FirstProblemAt(cs, 2);
      return false, Some("Employee Code is required");
    }
    if Blank(f.fingerprint) {
      FirstProblemAt(cs, 3);
      return false, Some("Fingerprint Code is required");
    }
    if f.jobPosition == "" {
      FirstProblemAt(cs, 4);
      return false, Some("Job Position is required");
    }
    return true, None;
  }

  /** The form passes exactly when name, phone, employee code and
      fingerprint are not blank, the email matches the pattern, a job
      position is chosen, a new employee has a password, and a given
      password has at least six characters. */
  lemma AcceptedExactly(f: FormData, editing: Option<nat>)
    ensures FirstProblem(Checks(f, editing)).None? <==>
      && !Blank(f.fullName)
      && EmailPattern(f.email)
      && !Blank(f.phoneNumber)
      && (editing.None? ==> f.password != "")
      && (f.password == "" || |f.password| >= 6)
      && !Blank(f.employeeCode)
      && !Blank(f.fingerprint)
      && f.jobPosition != ""
  {
    FirstProblemAppend(ContactChecks(f), AccountChecks(f, editing));
    ContactAccepted(f);
    var cs := AccountChecks(f, editing);
    if (editing.None? ==> f.password != "") && (f.password == "" || |f.password| >= 6) &&
       !Blank(f.employeeCode) && !Blank(f.fingerprint) && f.jobPosition != "" {
      forall i | 0 <= i < |cs| ensures !cs[i].fails {
        assert i == 0 || i == 1 || i == 2 || i == 3 || i == 4;
      }
    }
    if FirstProblem(cs).None? {
      assert !cs[0].fails && !cs[1].fails && !cs[2].fails && !cs[3].fails && !cs[4].fails;
    }
  }

  /** Once name, email and phone are fine, a new employee without a
      password is told so, and a short password is refused whether or not
      the employee is new. */
  lemma PasswordRules(f: FormData, editing: Option<nat>)
    requires FirstProblem(ContactChecks(f)).None?
    ensures editing.None? && f.password == "" ==>
      FirstProblem(Checks(f, editing)) == Some("Password is required")
    ensures 0 < |f.password| < 6 ==>
      FirstProblem(Checks(f, editing)) == Some("Password must be at least 6 characters")
  {
    FirstProblemAppend(ContactChecks(f), AccountChecks(f, editing));
    if editing.None? && f.password == "" {
      FirstProblemAt(AccountChecks(f, editing), 0);
    }
    if 0 < |f.password| < 6 {
      FirstProblemAt(AccountChecks(f, editing), 1);
    }
  }

  /** So the second password check of `handleSubmit` ("Password is required
      for new employees") never fires: a new employee that passed the
      validator has a password. */
  lemma NewEmployeeHasPassword(f: FormData)
    requires FirstProblem(Checks(f, None)).None?
    ensures f.password != ""
  {
    FirstProblemAppend(ContactChecks(f), AccountChecks(f, None));
    assert !AccountChecks(f, None)[0].fails;
  }

  /** `employeeData` as `handleSubmit` builds it. */
  datatype EmployeeData = EmployeeData(
    fullName: string,
    email: string,
    phoneNumber: string,
    employeeCode: string,
    fingerprintCode: string,
    jobPosition: string,
    branch: string,
    password: Option<string>)

  /** The payload renames `fingerprint` to `fingerprintCode` and carries the
      password only when one is typed. */
  function Payload(f: FormData): (d: EmployeeData)
    ensures d.fingerprintCode == f.fingerprint
    ensures d.password.Some? <==> f.password != ""
    ensures d.password.Some? ==> d.password.value == f.password
    ensures d.fullName == f.fullName && d.email == f.email && d.phoneNumber == f.phoneNumber
    ensures d.employeeCode == f.employeeCode && d.jobPosition == f.jobPosition && d.branch == f.branch
  {
    EmployeeData(f.fullName, f.email, f.phoneNumber, f.employeeCode, f.fingerprint,
                 f.jobPosition, f.branch, if f.password != "" then Some(f.password) else None)
  }

  /** `handleEdit`: the form filled from an employee, each field falling
      back as the handler says; the password is never filled in. */
  function EditForm(e: Employee): (f: FormData)
    ensures f.password == ""
    ensures Given(e.fullName) ==> f.fullName == e.fullName.value
    ensures !Given(e.fullName) && Given(e.username) ==> f.fullName == e.username.value
    ensures !Given(e.fullName) && !Given(e.username) ==> f.fullName == ""
    ensures Given(e.phonenumber) ==> f.phoneNumber == e.phonenumber.value
    ensures !Given(e.phonenumber) ==> f.phoneNumber == Or(e.phoneNumber, "")
    ensures f.branch == if Given(e.branch) then e.branch.value else "Maadi"
    ensures f.email == if Given(e.email) then e.email.value else ""
    ensures f.employeeCode == if Given(e.employeeCode) then e.employeeCode.value else ""
    ensures f.fingerprint == if Given(e.fingerprintCode) then e.fingerprintCode.value else ""
    ensures f.jobPosition == if Given(e.jobPosition) then e.jobPosition.value else ""
  {
    FormData(
      Or(e.fullName, Or(e.username, "")),
      Or(e.email, ""),
      Or(e.phonenumber, Or(e.phoneNumber, "")),
      "",
      Or(e.employeeCode, ""),
      Or(e.fingerprintCode, ""),
      Or(e.jobPosition, ""),
      Or(e.branch, "Maadi"))
  }

  /** Opening an employee for editing and saving without changes sends back
      its own values, `fingerprintCode` under its own name, and no password. */
  lemma EditUnchangedRoundTrip(e: Employee)
    requires Given(e.fullName) && Given(e.email) && Given(e.phonenumber) && Given(e.employeeCode)
    requires Given(e.fingerprintCode) && Given(e.jobPosition) && Given(e.branch)
    ensures Payload(EditForm(e)) == EmployeeData(
      e.fullName.value, e.email.value, e.phonenumber.value, e.employeeCode.value,
      e.fingerprintCode.value, e.jobPosition.value, e.branch.value, None)
  {
  }

  /** An edited employee passes the password checks without a new password. */
  lemma EditNeedsNoPassword(e: Employee, id: nat)
    ensures !AccountChecks(EditForm(e), Some(id))[0].fails && !AccountChecks(EditForm(e), Some(id))[1].fails
  {
  }

  function HasId(id: nat): Employee -> bool {
    (e: Employee) => e.id != id
  }

  /** The list update of `handleDelete` after the server deleted `id`. */
  function Delete(employees: seq<Employee>, id: nat): seq<Employee> {
    Filter(employees, HasId(id))
  }

  /** It removes exactly the entries with that id, and keeps the others. */
  lemma DeleteSpec(employees: seq<Employee>, id: nat)
    ensures forall e :: e in Delete(employees, id) <==> e in employees && e.id != id
    ensures forall i :: 0 <= i < |Delete(employees, id)| ==> Delete(employees, id)[i].id != id
    ensures |Delete(employees, id)| + |Filter(employees, (e: Employee) => e.id == id)| == |employees|
  {
    forall e ensures e in Delete(employees, id) <==> e in employees && e.id != id {
      FilterMember(employees, HasId(id), e);
    }
    FilterComplement(employees, HasId(id), (e: Employee) => e.id == id);
  }

  /** `handleSelectAll`: clears a selection as long as the list, otherwise
      selects every listed id in list order. */
  function SelectAll(selected: seq<nat>, employees: seq<Employee>): (r: seq<nat>)
    ensures |selected| == |employees| ==> r == []
    ensures |selected| != |employees| ==> |r| == |employees| && forall i :: 0 <= i < |r| ==> r[i] == employees[i].id
  {
    if |selected| == |employees| then [] else seq(|employees|, i requires 0 <= i < |employees| => employees[i].id)
  }

  /** Pressing it twice from a partial selection selects all, then clears. */
  lemma SelectAllTwice(selected: seq<nat>, employees: seq<Employee>)
    requires |selected| != |employees|
    ensures forall e :: e in employees ==> e.id in SelectAll(selected, employees)
    ensures SelectAll(SelectAll(selected, employees), employees) == []
  {
    var r := SelectAll(selected, employees);
    forall e | e in employees ensures e.id in r {
      var i :| 0 <= i < |employees| && employees[i] == e;
      assert r[i] == e.id;
    }
  }

  function Other(id: nat): nat -> bool {
    (x: nat) => x != id
  }

  /** `handleToggleEmployee`: removes an id that is selected, appends one
      that is not. */
  function Toggle(selected: seq<nat>, id: nat): (r: seq<nat>)
    ensures id in selected ==> id !in r
    ensures id !in selected ==> r == selected + [id]
  {
    if id in selected then
      FilterMember(selected, Other(id), id);
      Filter(selected, Other(id))
    else selected + [id]
  }

  /** An id is selected after the toggle exactly when it was selected
      before, except for the toggled id, which flips. */
  lemma ToggleMember(selected: seq<nat>, id: nat, x: nat)
    ensures x in Toggle(selected, id) <==> if x == id then id !in selected else x in selected
  {
    FilterMember(selected, Other(id), x);
  }

  /** Toggling twice restores the set of selected ids, and the very list
      when the id was not selected. */
  lemma ToggleTwice(selected: seq<nat>, id: nat)
    ensures forall x :: x in Toggle(Toggle(selected, id), id) <==> x in selected
    ensures id !in selected ==> Toggle(Toggle(selected, id), id) == selected
  {
    forall x ensures x in Toggle(Toggle(selected, id), id) <==> x in selected {
      ToggleMember(selected, id, x);
      ToggleMember(Toggle(selected, id), id, x);
    }
    if id !in selected {
      var t := selected + [id];
      assert forall i :: 0 <= i < |selected| ==> selected[i] != id;
      FilterDropsOne(t, |selected|, Other(id));
      assert t[..|selected|] + t[|selected| + 1..] == selected;
    }
  }

  /** A selection built by toggling never holds an id twice. */
  lemma ToggleNoDuplicates(selected: seq<nat>, id: nat)
    requires forall i, j :: 0 <= i < j < |selected| ==> selected[i] != selected[j]
    ensures forall i, j :: 0 <= i < j < |Toggle(selected, id)| ==> Toggle(selected, id)[i] != Toggle(selected, id)[j]
  {
    if id in selected {
      FilterKeepsOrder(selected, Other(id), (a: nat, b: nat) => a != b);
    }
  }

  const Header := "================================\n" + "   EMPLOYEE LOGIN CREDENTIALS\n" + "================================\n\n"
  const Separator := "\n-----------------------------------\n\n"

  /** The numbered name line: the full name, else the username, else "N/A". */
  function NameLine(index: nat, e: Employee): string {
    Decimal(index + 1) + ". " + Or(e.fullName, Or(e.username, "N/A")) + "\n"
  }

  function EmailLine(e: Employee): string {
    "   Email: " + Or(e.email, "N/A") + "\n"
  }

  function PasswordLine(e: Employee): string {
    "   Password: " + Or(e.decryptedPassword, "Not Set") + "\n"
  }

  /** The block for the employee at position `index` of the export. */
  function Block(index: nat, e: Employee): string {
    NameLine(index, e) + EmailLine(e) + PasswordLine(e) + Separator
  }

  /** One block per employee, numbered from 1 in list order. */
  function Blocks(es: seq<Employee>): string {
    if es == [] then "" else Blocks(es[..|es| - 1]) + Block(|es| - 1, es[|es| - 1])
  }

  lemma TextStep(text: string, es: seq<Employee>, k: nat)
    requires k < |es| && text == Header + Blocks(es[..k])
    ensures text + Block(k, es[k]) == Header + Blocks(es[..k + 1])
  {
    BlocksSnoc(es, k);
    Assoc(Header, Blocks(es[..k]), Block(k, es[k]));
  }

  lemma Assoc<T>(a: seq<T>, b: seq<T>, c: seq<T>)
    ensures (a + b) + c == a + (b + c)
  {
  }

  lemma BlocksSnoc(es: seq<Employee>, k: nat)
    requires k < |es|
    ensures Blocks(es[..k + 1]) == Blocks(es[..k]) + Block(k, es[k])
  {
    assert es[..k + 1][..k] == es[..k];
  }

  function Chosen(selected: seq<nat>): Employee -> bool {
    (e: Employee) => e.id in selected
  }

  /** The four `+=` of one `forEach` step. */
  method AppendBlock(text: string, index: nat, employee: Employee) returns (r: string)
    ensures r == text + Block(index, employee)
  {
    r := text + NameLine(index, employee);
    r := r + EmailLine(employee);
    r := r + PasswordLine(employee);
    r := r + Separator;
  }

  /** `handleExportCredentials`: `None` is the alert for an empty selection;
      otherwise the text of the downloaded file. The selection is cleared
      afterwards, and left as it was after the alert. */
  method ExportCredentials(employees: seq<Employee>, selected: seq<nat>) returns (text: Option<string>, selectedAfter: seq<nat>)
    ensures text.None? <==> selected == []
    ensures text.Some? ==> text.value == Header + Blocks(Filter(employees, Chosen(selected)))
    ensures selectedAfter == if text.None? then selected else []
  {
    if |selected| == 0 {
      return None, selected;
    }
    var toExport := Filter(employees, Chosen(selected));
    var credentials := CredentialsText(toExport);
    return Some(credentials), [];
  }

  /** `credentialsText`: the header, then the `forEach` over the employees
      to export. */
  method CredentialsText(toExport: seq<Employee>) returns (credentials: string)
    ensures credentials == Header + Blocks(toExport)
  {
    credentials := "================================\n";
    credentials := credentials + "   EMPLOYEE LOGIN CREDENTIALS\n";
    credentials := credentials + "================================\n\n";
    assert toExport[..0] == [];
    for index := 0 to |toExport|
      invariant credentials == Header + Blocks(toExport[..index])
    {
      TextStep(credentials, toExport, index);
      credentials := AppendBlock(credentials, index, toExport[index]);
    }
    assert toExport[..|toExport|] == toExport;
  }

  /** The exported employees are exactly the listed ones whose id is
      selected. */
  lemma ExportedExactly(employees: seq<Employee>, selected: seq<nat>, e: Employee)
    ensures e in Filter(employees, Chosen(selected)) <==> e in employees && e.id in selected
  {
    FilterMember(employees, Chosen(selected), e);
  }

  /** A missing name, email or password shows as "N/A", "N/A" and "Not Set". */
  lemma BlockFallbacks(index: nat, e: Employee)
    requires !Given(e.fullName) && !Given(e.username) && !Given(e.email) && !Given(e.decryptedPassword)
    ensures NameLine(index, e) == Decimal(index + 1) + ". N/A\n"
    ensures EmailLine(e) == "   Email: N/A\n"
    ensures PasswordLine(e) == "   Password: Not Set\n"
  {
  }
}
