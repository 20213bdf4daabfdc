/** The account handlers (backend/controllers/users.js): listing, sign-up,
    the admin's update and removal of an account, and the owner's profile
    update. Password hashing is done outside: a handler that stores a
    password receives the hash as a parameter. */
module Users {
  import opened Common
  import opened UserModel
  import RequestHandlers

  const ServerError: nat := 500

  function Guard(caller: Caller): Option<(nat, string)> {
    RequestHandlers.AdminGuard(caller)
  }

  // ------------------------------------------------------------ getallUsers

  /** `getallUsers`: every account, each without its password hash. */
  function GetAllUsers(caller: Caller, users: seq<User>): (reply: Reply<seq<User>>)
    ensures Guard(caller).Some? ==> reply == Refused(Guard(caller).value.0, Guard(caller).value.1)
    ensures Guard(caller).None? && users == [] ==> reply == Refused(404, "No users found")
    ensures reply.Ok? <==> Guard(caller).None? && users != []
    ensures reply.Ok? ==>
      && |reply.value| == |users|
      && forall i :: 0 <= i < |users| ==>
           reply.value[i].password == "" && reply.value[i].(password := users[i].password) == users[i]
  {
    var refusal := Guard(caller);
    if refusal.Some? then Refused(refusal.value.0, refusal.value.1)
    else if users == [] then Refused(404, "No users found")
    else Ok(seq(|users|, i requires 0 <= i < |users| => users[i].(password := "")))
  }

  // ------------------------------------------------------------ createNewUser

  /** The body of `createNewUser`; `roles` is `None` when absent or not an array. */
  datatype SignUp = SignUp(
    username: Option<string>,
    password: Option<string>,
    phonenumber: Option<string>,
    country: Option<string>,
    city: Option<string>,
    roles: Option<seq<string>>)

  /** The `userObject` carries `roles` only when they form a non-empty array;
      otherwise the schema default applies. */
  function RolesOf(roles: Option<seq<string>>): (r: Option<seq<string>>)
    ensures r.Some? <==> roles.Some? && roles.value != []
    ensures r.Some? ==> r.value == roles.value
  {
    if roles.Some? && roles.value != [] then roles else None
  }

  predicate SignUpComplete(b: SignUp) {
    Given(b.username) && Given(b.password) && Given(b.phonenumber)
  }

  /** An account without codes never clashes with the unique indexes. */
  lemma UniqueCodesAppendNoCodes(us: seq<User>, u: User)
    requires UniqueCodes(us) && u.employeeCode.None? && u.fingerprintCode.None?
    ensures UniqueCodes(us + [u])
  {
    var t := us + [u];
    forall i, j | 0 <= i < j < |us| ensures t[i] == us[i] && t[j] == us[j] { }
  }

  /** `createNewUser`: the three required fields, then a case-insensitive
      duplicate check, then the account is created with the hash `hash`
      in place of the password. */
  method CreateNewUser(store: UserStore, body: SignUp, hash: string) returns (reply: Reply<User>)
    requires store.Valid() && hash != ""
    modifies store
    ensures store.Valid()
    ensures !SignUpComplete(body) ==>
      reply == Refused(400, "all fields are required ") && store.users == old(store.users)
    ensures SignUpComplete(body) && FindByUsername(old(store.users), body.username.value, true).Some? ==>
      reply == Refused(409, "Duplicate username") && store.users == old(store.users)
    ensures SignUpComplete(body) && FindByUsername(old(store.users), body.username.value, true).None? ==>
      && reply.Ok?
      && reply.value == NewUser(old(store.nextId), body.username.value, hash, body.phonenumber,
                                body.country, body.city, RolesOf(body.roles))
      && store.users == old(store.users) + [reply.value]
    ensures reply.Ok? ==> forall i :: 0 <= i < |old(store.users)| ==>
      !SameUsername(old(store.users)[i].username, reply.value.username, true)
  {
    if !Given(body.username) || !Given(body.password) || !Given(body.phonenumber) {
      return Refused(400, "all fields are required ");
    }
    var duplicate := FindByUsername(store.users, body.username.value, true);
    if duplicate.Some? {
      return Refused(409, "Duplicate username");
    }
    var u := NewUser(0, body.username.value, hash, body.phonenumber, body.country, body.city, RolesOf(body.roles));
    UniqueCodesAppendNoCodes(store.users, u.(id := store.nextId));
    TrimPathsOfTrimmed(u);
    var saved := store.Create(u);
    reply := Ok(saved.value);
  }

  // ------------------------------------------------------------ updateuser

  /** The body of `updateuser`. */
  datatype Update = Update(
    username: Option<string>,
    active: Option<bool>,
    password: Option<string>,
    phonenumber: Option<string>,
    country: Option<string>,
    city: Option<string>)

  /** The assignments of `updateuser`: the five paths take the body's values,
      absent ones included (which unsets them); the password takes the new
      hash only when the body has a password. An absent username becomes the
      empty one, which the `required` validator refuses. */
  function Updated(u: User, b: Update, hash: string): User {
    u.(username := b.username.GetOr(""), active := b.active, phonenumber := b.phonenumber,
       country := b.country, city := b.city,
       password := if Given(b.password) then hash else u.password)
  }

  /** The duplicate check of `updateuser`: another account (not `id`) has the
      username under the case-insensitive collation. */
  predicate DuplicateOf(us: seq<User>, name: string, id: nat) {
    var d := FindByUsername(us, name, true);
    d.Some? && d.value.id != id
  }

  /** `updateuser` for the account `id`. The body's guard is a comma
      expression, so only a falsy `city` is refused. */
  method UpdateUser(store: UserStore, id: nat, body: Update, hash: string) returns (reply: Reply<string>)
    requires store.Valid() && hash != ""
    modifies store
    ensures store.Valid()
    ensures reply.Refused? ==> store.users == old(store.users)
    ensures !Given(body.city) ==> reply == Refused(400, "All field are required")
    ensures Given(body.city) && IndexOfUser(old(store.users), id).None? ==> reply == Refused(400, "User not found")
    ensures Given(body.city) && IndexOfUser(old(store.users), id).Some? ==>
      (DuplicateOf(old(store.users), body.username.GetOr(""), id) ==> reply == Refused(409, "Duplicate username"))
    ensures Given(body.city) && IndexOfUser(old(store.users), id).Some? &&
            !DuplicateOf(old(store.users), body.username.GetOr(""), id) ==>
      var k := IndexOfUser(old(store.users), id).value;
      var u := Updated(old(store.users)[k], body, hash);
      && (reply.Ok? <==> Given(body.username))
      && (reply.Ok? ==> store.users == old(store.users)[k := u] && reply.value == u.username + " updated ")
      && (reply.Refused? ==> reply.code == ServerError)
  {
    if !Given(body.city) {
      return Refused(400, "All field are required");
    }
    var k := IndexOfUser(store.users, id);
    if k.None? {
      return Refused(400, "User not found");
    }
    var name := body.username.GetOr("");
    var duplicate := FindByUsername(store.users, name, true);
    if duplicate.Some? && duplicate.value.id != id {
      return Refused(409, "Duplicate username");
    }
    var u := store.users[k.value];
    u := u.(username := name);
    u := u.(active := body.active);
    u := u.(phonenumber := body.phonenumber);
    u := u.(country := body.country);
    u := u.(city := body.city);
    if Given(body.password) {
      u := u.(password := hash);
    }
    UniqueCodesSameCodes(store.users, k.value, u);
    TrimPathsOfTrimmed(u);
    var ok := store.Save(k.value, u);
    if !ok {
      return Refused(ServerError, "");
    }
    reply := Ok(u.username + " updated ");
  }

  /** `updateuser` touches only the five assigned paths and the password,
      and the password only when one is given; the codes and names of the
      account stay, so the unique indexes hold after the update. */
  lemma UpdatedFrame(u: User, b: Update, hash: string)
    ensures var v := Updated(u, b, hash);
      && v.(username := u.username, active := u.active, phonenumber := u.phonenumber,
            country := u.country, city := u.city, password := u.password) == u
      && (v.password == u.password || Given(b.password))
      && (Given(b.password) ==> v.password == hash)
      && v.city == b.city && v.active == b.active
  {
  }

  // ------------------------------------------------------------ deleteUser

  /** `deleteUser`: an admin removes the account with the body's `id`. */
  method DeleteUser(store: UserStore, caller: Caller, id: Option<nat>) returns (reply: Reply<string>)
    requires store.Valid()
    modifies store
    ensures store.Valid()
    ensures reply.Refused? ==> store.users == old(store.users)
    ensures Guard(caller).Some? ==> reply == Refused(Guard(caller).value.0, Guard(caller).value.1)
    ensures Guard(caller).None? && (id.None? || FindById(old(store.users), id.value).None?) ==>
      reply == Refused(400, "User not found")
    ensures reply.Ok? <==> Guard(caller).None? && id.Some? && FindById(old(store.users), id.value).Some?
    ensures reply.Ok? ==>
      && |store.users| == |old(store.users)| - 1
      && FindById(store.users, id.value).None?
      && forall u :: u in store.users <==> u in old(store.users) && u.id != id.value
  {
    var refusal := Guard(caller);
    if refusal.Some? {
      return Refused(refusal.value.0, refusal.value.1);
    }
    if id.None? {
      return Refused(400, "User not found");
    }
    var k := IndexOfUser(store.users, id.value);
    if k.None? {
      return Refused(400, "User not found");
    }
    var u := store.users[k.value];
    ghost var before := store.users;
    store.Remove(k.value);
    RemovedOnly(before, store.nextId, k.value);
    reply := Ok("the user " + u.username + " with id " + Decimal(u.id) + " has been deleted successfully");
  }

  /** Ids are unique: removing position `k` removes exactly the account with
      that id. */
  lemma RemovedOnly(us: seq<User>, next: nat, k: nat)
    requires StoredUsers(us, next) && k < |us|
    ensures forall u :: u in us[..k] + us[k + 1..] <==> u in us && u.id != us[k].id
  {
    IdsDistinctRemove(us, k);
  }

  lemma IdsDistinctRemove(us: seq<User>, k: nat)
    requires k < |us|
    requires forall i, j :: 0 <= i < j < |us| ==> us[i].id < us[j].id
    ensures forall u :: u in us[..k] + us[k + 1..] <==> u in us && u.id != us[k].id
  {
    forall u ensures u in us[..k] + us[k + 1..] <==> u in us && u.id != us[k].id {
      RemovedOnlyThat(us, k, u);
    }
  }

  lemma RemovedOnlyThat(us: seq<User>, k: nat, u: User)
    requires k < |us|
    requires forall i, j :: 0 <= i < j < |us| ==> us[i].id < us[j].id
    ensures u in us[..k] + us[k + 1..] <==> u in us && u.id != us[k].id
  {
    var t := us[..k] + us[k + 1..];
    if u in t {
      var i :| 0 <= i < |t| && t[i] == u;
      if i < k { assert t[i] == us[i]; } else { assert t[i] == us[i + 1]; }
    }
    if u in us && u.id != us[k].id {
      var i :| 0 <= i < |us| && us[i] == u;
      if i < k { assert u == t[i]; } else { assert u == t[i - 1]; }
    }
  }

  // ------------------------------------------------------------ updateUserProfile

  /** The body of `updateUserProfile`; an `undefined` key is `None`. */
  datatype ProfileEdit = ProfileEdit(
    firstName: Option<string>,
    lastName: Option<string>,
    email: Option<string>,
    bio: Option<string>,
    phonenumber: Option<string>,
    country: Option<string>,
    city: Option<string>,
    location: Option<string>)

  /** The username derived from a given first name: "first last" when the
      body's last name is non-blank, the first name alone otherwise. */
  function DerivedUsername(first: string, last: Option<string>): (name: string)
    ensures Given(last) && !Blank(last.value) ==> name == first + " " + last.value
    ensures !(Given(last) && !Blank(last.value)) ==> name == first
  {
    if Given(last) && !Blank(last.value) then first + " " + last.value else first
  }

  /** The assignments of `updateUserProfile`: the defined paths, then the
      username. */
  function ProfileUpdate(u: User, b: ProfileEdit): User {
    var v := ContactUpdate(NameUpdate(u, b), b);
    if b.firstName.Some? then v.(username := DerivedUsername(b.firstName.value, b.lastName)) else v
  }

  function NameUpdate(u: User, b: ProfileEdit): User {
    u.(firstName := b.firstName.GetOr(u.firstName),
       lastName := b.lastName.GetOr(u.lastName),
       email := b.email.GetOr(u.email),
       bio := b.bio.GetOr(u.bio))
  }

  function ContactUpdate(u: User, b: ProfileEdit): User {
    u.(phonenumber := if b.phonenumber.Some? then b.phonenumber else u.phonenumber,
       country := if b.country.Some? then b.country else u.country,
       city := if b.city.Some? then b.city else u.city,
       location := b.location.GetOr(u.location))
  }

  /** Only the paths the body defines change, plus the username when a first
      name is given; every other path of the account stays as it was. */
  lemma ProfileUpdateFrame(u: User, b: ProfileEdit)
    ensures var v := ProfileUpdate(u, b);
      && (b.firstName.Some? ==> v.firstName == b.firstName.value) && (b.firstName.None? ==> v.firstName == u.firstName)
      && (b.lastName.Some? ==> v.lastName == b.lastName.value) && (b.lastName.None? ==> v.lastName == u.lastName)
      && (b.email.Some? ==> v.email == b.email.value) && (b.email.None? ==> v.email == u.email)
      && (b.bio.Some? ==> v.bio == b.bio.value) && (b.bio.None? ==> v.bio == u.bio)
      && (b.phonenumber.Some? ==> v.phonenumber == b.phonenumber) && (b.phonenumber.None? ==> v.phonenumber == u.phonenumber)
      && (b.country.Some? ==> v.country == b.country) && (b.country.None? ==> v.country == u.country)
      && (b.city.Some? ==> v.city == b.city) && (b.city.None? ==> v.city == u.city)
      && (b.location.Some? ==> v.location == b.location.value) && (b.location.None? ==> v.location == u.location)
      && (b.firstName.Some? ==> v.username == DerivedUsername(b.firstName.value, b.lastName))
      && (b.firstName.None? ==> v.username == u.username)
      && v.(username := u.username, firstName := u.firstName, lastName := u.lastName, email := u.email,
            bio := u.bio, phonenumber := u.phonenumber, country := u.country, city := u.city,
            location := u.location) == u
  {
  }

  /** The `profile` object of the reply (without `memberSince`). */
  datatype Profile = Profile(
    name: string,
    firstName: string,
    lastName: string,
    email: string,
    bio: string,
    location: string,
    city: string,
    country: string,
    phonenumber: string,
    platformUsageCount: int)

  /** The profile of an account as `User.findOne(..).exec()` loads it. A
      loaded document has the schema default in every unset path, so a
      phone, country or city that `updateuser` unset reads as "123",
      "country" or "city"; the location falls back to "city, country". */
  function ProfileOf(u: User): (p: Profile)
    ensures u.phonenumber.Some? ==> p.phonenumber == u.phonenumber.value
    ensures u.phonenumber.None? ==> p.phonenumber == "123"
    ensures u.country.Some? ==> p.country == u.country.value
    ensures u.country.None? ==> p.country == "country"
    ensures u.city.Some? ==> p.city == u.city.value
    ensures u.city.None? ==> p.city == "city"
    ensures u.location != "" ==> p.location == u.location
    ensures u.location == "" ==> p.location == p.city + ", " + p.country
    ensures p.name == u.username && p.platformUsageCount == u.platformUsageCount
  {
    var city := u.city.GetOr(CityDefault);
    var country := u.country.GetOr(CountryDefault);
    Profile(u.username, u.firstName, u.lastName, u.email, u.bio,
            if u.location != "" then u.location else city + ", " + country,
            city, country, u.phonenumber.GetOr(PhoneDefault), u.platformUsageCount)
  }

  /** The `if (x !== undefined) user.x = x` assignments, then the username. */
  method ApplyEdit(user: User, body: ProfileEdit) returns (u: User)
    ensures u == ProfileUpdate(user, body)
  {
    u := ApplyNames(user, body);
    u := ApplyContact(u, body);
    if body.firstName.Some? {
      if Given(body.lastName) && !Blank(body.lastName.value) {
        u := u.(username := body.firstName.value + " " + body.lastName.value);
      } else {
        u := u.(username := body.firstName.value);
      }
    }
  }

  method ApplyNames(user: User, body: ProfileEdit) returns (u: User)
    ensures u == NameUpdate(user, body)
  {
    u := user;
    if body.firstName.Some? { u := u.(firstName := body.firstName.value); }
    if body.lastName.Some? { u := u.(lastName := body.lastName.value); }
    if body.email.Some? { u := u.(email := body.email.value); }
    if body.bio.Some? { u := u.(bio := body.bio.value); }
  }

  method ApplyContact(user: User, body: ProfileEdit) returns (u: User)
    ensures u == ContactUpdate(user, body)
  {
    u := user;
    if body.phonenumber.Some? { u := u.(phonenumber := body.phonenumber); }
    if body.country.Some? { u := u.(country := body.country); }
    if body.city.Some? { u := u.(city := body.city); }
    if body.location.Some? { u := u.(location := body.location.value); }
  }

  /** `updateUserProfile` for the account named by the token. The save fails
      only on an empty username (an empty first name). */
  method UpdateUserProfile(store: UserStore, username: string, body: ProfileEdit) returns (reply: Reply<Profile>)
    requires store.Valid()
    modifies store
    ensures store.Valid()
    ensures reply.Refused? ==> store.users == old(store.users)
    ensures username == "" ==> reply == Refused(400, "User not found in token")
    ensures username != "" && IndexOfUsername(old(store.users), username, false).None? ==>
      reply == Refused(404, "User not found")
    ensures username != "" && IndexOfUsername(old(store.users), username, false).Some? ==>
      var k := IndexOfUsername(old(store.users), username, false).value;
      var v := ProfileUpdate(old(store.users)[k], body);
      && (reply.Ok? <==> v.username != "")
      && (reply.Ok? ==> store.users == old(store.users)[k := v] && reply.value == ProfileOf(v))
      && (reply.Refused? ==> reply.code == ServerError)
  {
    if username == "" {
      return Refused(400, "User not found in token");
    }
    var k := IndexOfUsername(store.users, username, false);
    if k.None? {
      return Refused(404, "User not found");
    }
    var u := ApplyEdit(store.users[k.value], body);
    UniqueCodesSameCodes(store.users, k.value, u);
    TrimPathsOfTrimmed(u);
    var ok := store.Save(k.value, u);
    if !ok {
      return Refused(ServerError, "");
    }
    reply := Ok(ProfileOf(u));
  }
}
