/** What the two employee forms (frontend/src/components/AddEmployee.js and
    frontend/src/components/Employees.js) share: the form's fields, the
    email pattern, and the "first failing check wins" rule of their
    validators. */
module EmployeeForm {
  import opened Common

  /** The `formData` state of the forms. */
  datatype FormData = FormData(
    fullName: string,
    email: string,
    phoneNumber: string,
    password: string,
    employeeCode: string,
    fingerprint: string,
    jobPosition: string,
    branch: string)

  /** One step of an early-return validator: whether it fails, and the error
      it shows then. */
  datatype Check = Check(fails: bool, message: string)

  /** The error of the first failing check, `None` when all pass. */
  function FirstProblem(checks: seq<Check>): (p: Option<string>)
    ensures p.None? <==> forall i :: 0 <= i < |checks| ==> !checks[i].fails
    ensures p.Some? ==> exists i :: 0 <= i < |checks| && checks[i].fails && p.value == checks[i].message &&
                                   forall j :: 0 <= j < i ==> !checks[j].fails
  {
    if checks == [] then None
    else if checks[0].fails then Some(checks[0].message)
    else
      var p := FirstProblem(checks[1..]);
      assert forall i :: 1 <= i < |checks| ==> checks[i] == checks[1..][i - 1];
      p
  }

  /** The problem reported is the one of the first failing check. */
  lemma FirstProblemAt(checks: seq<Check>, k: nat)
    requires k < |checks| && checks[k].fails
    requires forall j :: 0 <= j < k ==> !checks[j].fails
    ensures FirstProblem(checks) == Some(checks[k].message)
  {
    var p := FirstProblem(checks);
    var i :| 0 <= i < |checks| && checks[i].fails && p.value == checks[i].message &&
             forall j :: 0 <= j < i ==> !checks[j].fails;
    assert !(i < k) && !(k < i);
  }

  /** A check list run in two parts: the second part speaks only when the
      first passes. */
  lemma {:induction false} FirstProblemAppend(a: seq<Check>, b: seq<Check>)
    ensures FirstProblem(a + b) == if FirstProblem(a).Some? then FirstProblem(a) else FirstProblem(b)
  {
    if a == [] {
      assert a + b == b;
    } else {
      assert (a + b)[0] == a[0];
      assert (a + b)[1..] == a[1..] + b;
      FirstProblemAppend(a[1..], b);
    }
  }

  /** The four checks both forms run first: name, email, email pattern, phone. */
  function ContactChecks(f: FormData): seq<Check> {
    [ Check(Blank(f.fullName), "Full Name is required"),
      Check(Blank(f.email), "Email is required"),
      Check(!IsEmail(f.email), "Invalid email format"),
      Check(Blank(f.phoneNumber), "Phone Number is required") ]
  }

  /** The opening of both `validateForm`s, up to the phone number. */
  method ValidateContact(f: FormData) returns (error: Option<string>)
    ensures error == FirstProblem(ContactChecks(f))
  {
    ghost var cs := ContactChecks(f);
    if Blank(f.fullName) {
      FirstProblemAt(cs, 0);
      return Some("Full Name is required");
    }
    if Blank(f.email) {
      FirstProblemAt(cs, 1);
      return Some("Email is required");
    }
    if !IsEmail(f.email) {
      FirstProblemAt(cs, 2);
      return Some("Invalid email format");
    }
    if Blank(f.phoneNumber) {
      FirstProblemAt(cs, 3);
      return Some("Phone Number is required");
    }
    return None;
  }

  /** The opening checks pass exactly when name and phone are not blank and
      the email matches the pattern. */
  lemma ContactAccepted(f: FormData)
    ensures FirstProblem(ContactChecks(f)).None? <==>
      !Blank(f.fullName) && EmailPattern(f.email) && !Blank(f.phoneNumber)
  {
    IsEmailMatchesPattern(f.email);
    if IsEmail(f.email) {
      assert !IsSpace(f.email[0]);
    }
    var cs := ContactChecks(f);
    if !Blank(f.fullName) && !Blank(f.email) && IsEmail(f.email) && !Blank(f.phoneNumber) {
      forall i | 0 <= i < |cs| ensures !cs[i].fails {
        assert i == 0 || i == 1 || i == 2 || i == 3;
      }
    }
    if FirstProblem(cs).None? {
      assert !cs[0].fails && !cs[2].fails && !cs[3].fails;
    }
  }

  /** A character `[^\s@]` accepts. */
  predicate PartChar(c: char) {
    !IsSpace(c) && c != '@'
  }

  /** `[^\s@]+`. */
  ghost predicate Part(s: string) {
    |s| > 0 && forall i :: 0 <= i < |s| ==> PartChar(s[i])
  }

  /** The meaning of `/^[^\s@]+@[^\s@]+\.[^\s@]+$/`: three non-empty runs
      without white space or "@", the first two joined by "@", the last two
      by ".". */
  ghost predicate EmailPattern(s: string) {
    exists a, d :: 0 < a && a + 1 < d < |s| - 1 && s[a] == '@' && s[d] == '.' &&
      Part(s[..a]) && Part(s[a + 1..d]) && Part(s[d + 1..])
  }

  /** The test the forms run: no white space, exactly one "@", not at the
      start, and a "." after it with text on both sides. */
  predicate IsEmail(s: string) {
    exists a | 0 < a < |s| ::
      && s[a] == '@'
      && (forall i | 0 <= i < |s| :: !IsSpace(s[i]) && (s[i] == '@' ==> i == a))
      && exists d | a + 1 < d < |s| - 1 :: s[d] == '.'
  }

  /** The test agrees with the pattern on every string. */
  lemma IsEmailMatchesPattern(s: string)
    ensures IsEmail(s) <==> EmailPattern(s)
  {
    if IsEmail(s) {
      IsEmailHasPattern(s);
    }
    if EmailPattern(s) {
      PatternIsEmail(s);
    }
  }

  lemma IsEmailHasPattern(s: string)
    requires IsEmail(s)
    ensures EmailPattern(s)
  {
    var a :| 0 < a < |s| && s[a] == '@' &&
      (forall i | 0 <= i < |s| :: !IsSpace(s[i]) && (s[i] == '@' ==> i == a)) &&
      exists d | a + 1 < d < |s| - 1 :: s[d] == '.';
    var d :| a + 1 < d < |s| - 1 && s[d] == '.';
    assert forall i :: 0 <= i < |s| && i != a ==> PartChar(s[i]);
    PartOfSlice(s, 0, a);
    PartOfSlice(s, a + 1, d);
    PartOfSlice(s, d + 1, |s|);
  }

  lemma PatternIsEmail(s: string)
    requires EmailPattern(s)
    ensures IsEmail(s)
  {
    var a, d :| 0 < a && a + 1 < d < |s| - 1 && s[a] == '@' && s[d] == '.' &&
      Part(s[..a]) && Part(s[a + 1..d]) && Part(s[d + 1..]);
    forall i | 0 <= i < |s| ensures !IsSpace(s[i]) && (s[i] == '@' ==> i == a) {
      if i < a {
        assert s[i] == s[..a][i];
      } else if a < i < d {
        assert s[i] == s[a + 1..d][i - a - 1];
      } else if d < i {
        assert s[i] == s[d + 1..][i - d - 1];
      }
    }
  }

  lemma PartOfSlice(s: string, lo: nat, hi: nat)
    requires lo < hi <= |s|
    requires forall i :: lo <= i < hi ==> PartChar(s[i])
    ensures Part(s[lo..hi])
  {
    forall i | 0 <= i < hi - lo ensures PartChar(s[lo..hi][i]) {
      assert s[lo..hi][i] == s[lo + i];
    }
  }
}
