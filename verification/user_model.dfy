/** The User collection (backend/models/User.js): one record per account.
    Accounts that are employees also carry an employee code, a fingerprint
    code, a full name and an organisational title. */
module UserModel {
  import opened Common

  /** The `title` enum; a lead's title decides which team it may see. */
  datatype Title = FrontendLead | BackendLead | FrontendDeveloper | BackendDeveloper | UiUx | Ra

  function TitleName(t: Title): string {
    match t
    case FrontendLead => "Frontend Lead"
    case BackendLead => "Backend Lead"
    case FrontendDeveloper => "Frontend Developer"
    case BackendDeveloper => "Backend Developer"
    case UiUx => "UI/UX"
    case Ra => "RA"
  }

  /** The `title` path: its `trim` setter, then its `enum` check. */
  function ParseTitle(raw: string): (r: Option<Title>)
    ensures r.Some? <==> Trim(raw) in ["Frontend Lead", "Backend Lead", "Frontend Developer", "Backend Developer", "UI/UX", "RA"]
    ensures r.Some? ==> TitleName(r.value) == Trim(raw)
  {
    var s := Trim(raw);
    if s == "Frontend Lead" then Some(FrontendLead)
    else if s == "Backend Lead" then Some(BackendLead)
    else if s == "Frontend Developer" then Some(FrontendDeveloper)
    else if s == "Backend Developer" then Some(BackendDeveloper)
    else if s == "UI/UX" then Some(UiUx)
    else if s == "RA" then Some(Ra)
    else None
  }

  /** A stored account. Paths that a handler can unset by assigning
      `undefined` are optional; the password is the stored hash. */
  datatype User = User(
    id: nat,
    username: string,
    password: string,
    firstName: string,
    lastName: string,
    email: string,
    bio: string,
    roles: seq<string>,
    active: Option<bool>,
    phonenumber: Option<string>,
    encryptedPassword: string,
    country: Option<string>,
    city: Option<string>,
    location: string,
    platformUsageCount: int,
    fullName: Option<string>,
    fullNameArabic: string,
    employeeCode: Option<string>,
    fingerprintCode: Option<string>,
    jobPosition: Option<string>,
    branch: string,
    title: Option<Title>)

  /** The `required` function of `fullName`: only an account whose employee
      code is truthy must have one. */
  predicate FullNameRequired(u: User) {
    Given(u.employeeCode)
  }

  /** The per-document validators of the schema. */
  predicate ValidUser(u: User) {
    && u.username != ""
    && u.password != ""
    && (FullNameRequired(u) ==> Given(u.fullName))
  }

  /** The two sparse unique indexes: an employee code, and a fingerprint
      code, belongs to at most one account; accounts without one are exempt. */
  predicate UniqueCodes(users: seq<User>) {
    forall i, j :: 0 <= i < j < |users| ==>
      && (users[i].employeeCode.Some? && users[j].employeeCode.Some? ==>
            users[i].employeeCode != users[j].employeeCode)
      && (users[i].fingerprintCode.Some? && users[j].fingerprintCode.Some? ==>
            users[i].fingerprintCode != users[j].fingerprintCode)
  }

  const MainBranch: string := "المركز الرئيسي"

  /** The declared defaults of the three contact paths. */
  const PhoneDefault: string := "123"
  const CountryDefault: string := "country"
  const CityDefault: string := "city"

  /** `trim: true` on a path that may be unset. */
  function TrimOpt(o: Option<string>): (r: Option<string>)
    ensures r.Some? <==> o.Some?
    ensures Given(r) <==> o.Some? && !Blank(o.value)
    ensures r.Some? ==> Trimmed(r.value) && |r.value| <= |o.value|
  {
    if o.Some? then Some(Trim(o.value)) else None
  }

  predicate TrimmedOpt(o: Option<string>) {
    o.Some? ==> Trimmed(o.value)
  }

  /** Every path declared `trim: true` holds a trimmed value. The `title`
      path is kept as its enum value, whose names carry no white space. */
  predicate TrimmedUser(u: User) {
    && TrimmedOpt(u.fullName) && Trimmed(u.fullNameArabic)
    && TrimmedOpt(u.employeeCode) && TrimmedOpt(u.fingerprintCode)
    && TrimmedOpt(u.jobPosition) && Trimmed(u.branch)
  }

  /** The `trim: true` setters of the schema, run on every assigned path
      before the validators and the unique indexes see the account:
      `fullName`, `fullNameArabic`, `employeeCode`, `fingerprintCode`,
      `jobPosition` and `branch` lose their surrounding white space, and
      no other path changes. */
  function TrimPaths(u: User): (v: User)
    ensures TrimmedUser(v)
  {
    u.(fullName := TrimOpt(u.fullName), fullNameArabic := Trim(u.fullNameArabic),
       employeeCode := TrimOpt(u.employeeCode), fingerprintCode := TrimOpt(u.fingerprintCode),
       jobPosition := TrimOpt(u.jobPosition), branch := Trim(u.branch))
  }

  /** The setters touch only the six trimmed paths. */
  lemma TrimPathsFrame(u: User)
    ensures var v := TrimPaths(u);
      v.(fullName := u.fullName, fullNameArabic := u.fullNameArabic, employeeCode := u.employeeCode,
         fingerprintCode := u.fingerprintCode, jobPosition := u.jobPosition, branch := u.branch) == u
  {
  }

  /** The setters change nothing on an account whose paths are already
      trimmed. */
  lemma TrimPathsOfTrimmed(u: User)
    requires TrimmedUser(u)
    ensures TrimPaths(u) == u
  {
  }

  /** Applying the setters twice is applying them once. */
  lemma TrimPathsIdempotent(u: User)
    ensures TrimPaths(TrimPaths(u)) == TrimPaths(u)
  {
    TrimPathsOfTrimmed(TrimPaths(u));
  }

  /** The validators judge the trimmed account: a full name made only of
      white space is missing, and an employee code made only of white space
      is falsy, so it requires no full name. */
  lemma TrimmedValidators(u: User)
    ensures ValidUser(TrimPaths(u)) <==>
      && u.username != "" && u.password != ""
      && (u.employeeCode.Some? && !Blank(u.employeeCode.value) ==> u.fullName.Some? && !Blank(u.fullName.value))
  {
  }

  /** Two codes that differ only in surrounding white space are one code
      for the unique index. */
  lemma PaddedCodesClash(a: User, b: User)
    requires a.employeeCode == Some("E1") && b.employeeCode == Some("E1 ")
    ensures !UniqueCodes([TrimPaths(a), TrimPaths(b)])
  {
    assert Trimmed("E1");
    assert "E1 "[..2] == "E1";
    assert Trim("E1 ") == "E1";
    var t := [TrimPaths(a), TrimPaths(b)];
    assert t[0].employeeCode == Some("E1") == t[1].employeeCode;
  }

  /** `User.create(obj)` for an object that sets only the given paths: every
      other path takes the schema default. */
  function NewUser(id: nat, username: string, password: string, phonenumber: Option<string>,
                   country: Option<string>, city: Option<string>, roles: Option<seq<string>>): User
  {
    User(
      id, username, password, "", "", "", "",
      roles.GetOr(["user"]), Some(true), Some(phonenumber.GetOr(PhoneDefault)), "",
      Some(country.GetOr(CountryDefault)), Some(city.GetOr(CityDefault)), "", 0,
      None, "", None, None, None, MainBranch, None)
  }

  /** The declared defaults: roles ["user"], active, no uses yet, the main
      branch, and no employee identity (so no full name is required). */
  lemma NewUserDefaults(id: nat, username: string, password: string, phonenumber: Option<string>,
                        country: Option<string>, city: Option<string>, roles: Option<seq<string>>)
    ensures var u := NewUser(id, username, password, phonenumber, country, city, roles);
      && TrimmedUser(u)
      && (roles.None? ==> u.roles == ["user"])
      && (roles.Some? ==> u.roles == roles.value)
      && u.active == Some(true)
      && u.platformUsageCount == 0
      && u.branch == "المركز الرئيسي"
      && u.phonenumber == Some(phonenumber.GetOr("123"))
      && !FullNameRequired(u)
      && (username != "" && password != "" <==> ValidUser(u))
  {
  }

  /** The User collection, in insertion order. */
  class UserStore {
    var users: seq<User>
    var nextId: nat

    ghost predicate Valid()
      reads this
    {
      StoredUsers(users, nextId)
    }

    constructor ()
      ensures Valid() && users == []
    {
      users := [];
      nextId := 0;
    }

    /** `User.create(obj)`: the account gets the next id and its paths are
        trimmed; the validators and the unique indexes then decide whether
        it is stored. */
    method Create(u: User) returns (saved: Option<User>)
      requires Valid()
      modifies this
      ensures Valid()
      ensures saved.Some? <==> ValidUser(TrimPaths(u).(id := old(nextId))) && UniqueCodes(old(users) + [TrimPaths(u).(id := old(nextId))])
      ensures saved.Some? ==> saved.value == TrimPaths(u).(id := old(nextId))
      ensures users == if saved.Some? then old(users) + [saved.value] else old(users)
    {
      var v := TrimPaths(u).(id := nextId);
      if ValidUser(v) && UniqueCodes(users + [v]) {
        StoredUsersAppend(users, nextId, v);
        users := users + [v];
        nextId := nextId + 1;
        saved := Some(v);
      } else {
        saved := None;
      }
    }

    /** `user.save()` after assigning some paths of the account at position
        `k`: the assigned paths went through their setters, the whole
        document is validated again, and the unique indexes are checked. */
    method Save(k: nat, u: User) returns (ok: bool)
      requires Valid() && k < |users| && u.id == users[k].id
      modifies this
      ensures Valid()
      ensures ok <==> ValidUser(TrimPaths(u)) && UniqueCodes(old(users)[k := TrimPaths(u)])
      ensures users == if ok then old(users)[k := TrimPaths(u)] else old(users)
      ensures nextId == old(nextId)
    {
      var v := TrimPaths(u);
      ok := ValidUser(v) && UniqueCodes(users[k := v]);
      if ok {
        StoredUsersReplace(users, nextId, k, v);
        users := users[k := v];
      }
    }

    /** `user.deleteOne()` on the account at position `k`. */
    method Remove(k: nat)
      requires Valid() && k < |users|
      modifies this
      ensures Valid()
      ensures users == old(users)[..k] + old(users)[k + 1..]
      ensures nextId == old(nextId)
    {
      StoredUsersRemove(users, nextId, k);
      users := users[..k] + users[k + 1..];
    }
  }

  /** The collection invariant: every account went through the setters and
      passed its validators, the unique indexes hold, and ids came from the
      counter `next` in order. */
  ghost predicate StoredUsers(us: seq<User>, next: nat) {
    && (forall i :: 0 <= i < |us| ==> ValidUser(us[i]) && TrimmedUser(us[i]) && us[i].id < next)
    && (forall i, j :: 0 <= i < j < |us| ==> us[i].id < us[j].id)
    && UniqueCodes(us)
  }

  lemma StoredUsersAppend(us: seq<User>, next: nat, u: User)
    requires StoredUsers(us, next) && u.id == next && ValidUser(u) && TrimmedUser(u) && UniqueCodes(us + [u])
    ensures StoredUsers(us + [u], next + 1)
  {
    var t := us + [u];
    forall i, j | 0 <= i < j < |t| ensures t[i].id < t[j].id {
      if j < |us| { assert t[i] == us[i] && t[j] == us[j]; } else { assert t[i] == us[i]; }
    }
  }

  lemma StoredUsersReplace(us: seq<User>, next: nat, k: nat, u: User)
    requires StoredUsers(us, next) && k < |us| && u.id == us[k].id && ValidUser(u) && TrimmedUser(u) && UniqueCodes(us[k := u])
    ensures StoredUsers(us[k := u], next)
  {
  }

  lemma StoredUsersRemove(us: seq<User>, next: nat, k: nat)
    requires StoredUsers(us, next) && k < |us|
    ensures StoredUsers(us[..k] + us[k + 1..], next)
  {
    var t := us[..k] + us[k + 1..];
    assert forall i :: 0 <= i < |t| ==> t[i] == us[if i < k then i else i + 1];
  }

  /** Saving an account changes no code and keeps the unique indexes. */
  lemma UniqueCodesSameCodes(us: seq<User>, k: nat, u: User)
    requires UniqueCodes(us) && k < |us|
    requires u.employeeCode == us[k].employeeCode && u.fingerprintCode == us[k].fingerprintCode
    ensures UniqueCodes(us[k := u])
  {
  }

  /** `User.findById(id)`: the position of the account with that id. */
  function IndexOfUser(us: seq<User>, id: nat): (k: Option<nat>)
    ensures k.Some? ==> k.value < |us| && us[k.value].id == id
    ensures k.None? ==> forall i :: 0 <= i < |us| ==> us[i].id != id
  {
    if us == [] then None
    else if us[0].id == id then Some(0)
    else
      var k := IndexOfUser(us[1..], id);
      if k.Some? then Some(k.value + 1) else None
  }

  function FindById(us: seq<User>, id: nat): (r: Option<User>)
    ensures r.Some? <==> exists i :: 0 <= i < |us| && us[i].id == id
    ensures r.Some? ==> r.value in us && r.value.id == id
  {
    var k := IndexOfUser(us, id);
    if k.Some? then Some(us[k.value]) else None
  }

  /** `User.findOne({ email })`: the first account with that email. */
  function FindByEmail(us: seq<User>, email: string): (r: Option<User>)
    ensures r.Some? <==> exists i :: 0 <= i < |us| && us[i].email == email
    ensures r.Some? ==> r.value in us && r.value.email == email
  {
    if us == [] then None
    else if us[0].email == email then Some(us[0])
    else
      var r := FindByEmail(us[1..], email);
      assert forall i :: 1 <= i < |us| ==> us[i] == us[1..][i - 1];
      r
  }

  /** The position of the first account whose username matches `name`
      (exactly, or under the case-insensitive collation of the duplicate checks). */
  function IndexOfUsername(us: seq<User>, name: string, caseless: bool): (k: Option<nat>)
    ensures k.Some? ==> k.value < |us| && SameUsername(us[k.value].username, name, caseless)
    ensures k.Some? ==> forall i :: 0 <= i < k.value ==> !SameUsername(us[i].username, name, caseless)
    ensures k.None? ==> forall i :: 0 <= i < |us| ==> !SameUsername(us[i].username, name, caseless)
  {
    if us == [] then None
    else if SameUsername(us[0].username, name, caseless) then Some(0)
    else
      var k := IndexOfUsername(us[1..], name, caseless);
      if k.Some? then Some(k.value + 1) else None
  }

  /** Equality of usernames; with `caseless`, the `{ locale: "en", strength: 2 }`
      collation, which ignores letter case. */
  predicate SameUsername(a: string, b: string, caseless: bool) {
    if caseless then Lower(a) == Lower(b) else a == b
  }

  /** `User.findOne({ username })`, exact or with the case-insensitive collation. */
  function FindByUsername(us: seq<User>, name: string, caseless: bool): (r: Option<User>)
    ensures r.Some? <==> exists i :: 0 <= i < |us| && SameUsername(us[i].username, name, caseless)
    ensures r.Some? ==> r.value in us && SameUsername(r.value.username, name, caseless)
  {
    var k := IndexOfUsername(us, name, caseless);
    if k.Some? then Some(us[k.value]) else None
  }
}
