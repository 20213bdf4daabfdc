/** The Add Employee form (frontend/src/components/AddEmployee.js): its
    validator, an early-return chain that shows the first problem it finds,
    and the body it posts to `/users`. */
module AddEmployee {
  import opened Common
  import opened EmployeeForm
  import Users

  /** The checks after the shared opening ones, in order. */
  function AccountChecks(f: FormData): seq<Check> {
    [ Check(f.password == "", "Password is required"),
      Check(|f.password| < 6, "Password must be at least 6 characters"),
      Check(Blank(f.employeeCode), "Employee Code is required"),
      Check(f.jobPosition == "", "Job Position is required") ]
  }

  /** The form's checks, in the order `validateForm` runs them. */
  function Checks(f: FormData): seq<Check> {
    ContactChecks(f) + AccountChecks(f)
  }

  /** `validateForm`: `valid` is its return value and `error` the message it
      passes to `setError` on the way out (`None`: the error state is left
      alone). */
  method ValidateForm(f: FormData) returns (valid: bool, error: Option<string>)
    ensures valid <==> error.None?
    ensures error == FirstProblem(Checks(f))
  {
    FirstProblemAppend(ContactChecks(f), AccountChecks(f));
    error := ValidateContact(f);
    if error.Some? {
      return false, error;
    }
    ghost var cs := AccountChecks(f);
    if f.password == "" {
      FirstProblemAt(cs, 0);
      return false, Some("Password is required");
    }
    if |f.password| < 6 {
      FirstProblemAt(cs, 1);
      return false, Some("Password must be at least 6 characters");
    }
    if Blank(f.employeeCode) {
      FirstProblemAt(cs, 2);
      return false, Some("Employee Code is required");
    }
    if f.jobPosition == "" {
      FirstProblemAt(cs, 3);
      return false, Some("Job Position is required");
    }
    return true, None;
  }

  /** The form passes exactly when the name, phone number and employee code
      are not blank, the email matches the pattern, the password has at
      least six characters and a job position is chosen. */
  lemma AcceptedExactly(f: FormData)
    ensures FirstProblem(Checks(f)).None? <==>
      && !Blank(f.fullName)
      && EmailPattern(f.email)
      && !Blank(f.phoneNumber)
      && |f.password| >= 6
      && !Blank(f.employeeCode)
      && f.jobPosition != ""
  {
    FirstProblemAppend(ContactChecks(f), AccountChecks(f));
    ContactAccepted(f);
    var cs := AccountChecks(f);
    if |f.password| >= 6 && !Blank(f.employeeCode) && f.jobPosition != "" {
      forall i | 0 <= i < |cs| ensures !cs[i].fails {
        assert i == 0 || i == 1 || i == 2 || i == 3;
      }
    }
    if FirstProblem(cs).None? {
      assert !cs[1].fails && !cs[2].fails && !cs[3].fails;
    }
  }

  /** A blank full name is reported whatever else is wrong. */
  lemma FullNameFirst(f: FormData)
    requires Blank(f.fullName)
    ensures FirstProblem(Checks(f)) == Some("Full Name is required")
  {
  }

  /** Once the name is there, a bad email is reported before any later field. */
  lemma EmailBeforeLaterFields(f: FormData)
    requires !Blank(f.fullName) && !EmailPattern(f.email)
    ensures FirstProblem(Checks(f)) in {Some("Email is required"), Some("Invalid email format")}
  {
    IsEmailMatchesPattern(f.email);
    FirstProblemAppend(ContactChecks(f), AccountChecks(f));
    if Blank(f.email) {
      FirstProblemAt(ContactChecks(f), 1);
    } else {
      FirstProblemAt(ContactChecks(f), 2);
    }
  }

  /** The fingerprint and the branch are never checked. */
  lemma UncheckedFields(f: FormData, fingerprint: string, branch: string)
    ensures FirstProblem(Checks(f.(fingerprint := fingerprint, branch := branch))) == FirstProblem(Checks(f))
  {
  }

  /** The JSON body `handleSubmit` posts: the form's own keys, so of the keys
      `createNewUser` reads only `password` is present. */
  function SignUpBody(f: FormData): (b: Users.SignUp)
    ensures b.password == Some(f.password)
    ensures b.username.None? && b.phonenumber.None?
  {
    Users.SignUp(None, Some(f.password), None, None, None, None)
  }

  /** `/users` is served by `createNewUser`, which requires `username` and
      `phonenumber`: every body this form posts, valid or not, is refused
      there with 400. */
  lemma SubmissionLacksSignUpFields(f: FormData)
    ensures !Users.SignUpComplete(SignUpBody(f))
  {
  }
}
