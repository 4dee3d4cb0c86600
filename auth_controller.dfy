/** The authentication controller over the user collection: changing a
    user's role (with the last-administrator guard), registration (with the
    duplicate-e-mail check and the administrator downgrade) and login.
    Password hashing and comparison and token signing are outside the model:
    their results are parameters. */
module AuthController {
  import opened Common
  import opened UserModel
  import opened ValidationSchemas
  import Text

  function UserId(u: UserRecord): Id { u.id }

  function UserEmail(u: UserRecord): Id { u.email }

  function IsAdmin(u: UserRecord): bool { u.role == Admin }

  /** `countDocuments({ role: 'admin' })`. */
  function AdminCount(users: seq<UserRecord>): nat
  {
    Count(users, IsAdmin)
  }

  /** Changing one user's role moves the administrator count by what that
      user stops and starts contributing. */
  lemma AdminCountAfterRoleChange(users: seq<UserRecord>, k: nat, role: Role)
    requires k < |users|
    ensures AdminCount(users[k := users[k].(role := role)]) + (if users[k].role == Admin then 1 else 0)
         == AdminCount(users) + (if role == Admin then 1 else 0)
  {
    CountUpdate(users, IsAdmin, k, users[k].(role := role));
  }

  /** A registration adds one user; the count rises only for an
      administrator. */
  lemma AdminCountAfterAppend(users: seq<UserRecord>, u: UserRecord)
    ensures AdminCount(users + [u]) == AdminCount(users) + (if u.role == Admin then 1 else 0)
  {
    CountAppend(users, [u], IsAdmin);
    assert [u][1..] == [];
  }

  /** The user fields a response carries. */
  datatype PublicUser = PublicUser(id: Id, name: string, email: string, role: Role)

  function Public(u: UserRecord): PublicUser
  {
    PublicUser(u.id, u.name, u.email, u.role)
  }

  /** `findOne({ email })`; the query applies the field's trim and
      lower-case setters to the value looked up. */
  function FindByEmail(users: seq<UserRecord>, email: string): (r: Option<UserRecord>)
    ensures r.None? <==> forall i :: 0 <= i < |users| ==> users[i].email != Text.NormaliseEmail(email)
    ensures r.Some? ==> r.value in users && r.value.email == Text.NormaliseEmail(email)
  {
    Find(users, (u: UserRecord) => u.email == Text.NormaliseEmail(email))
  }

  /** The role a registration ends with: `admin` only when it was asked for
      and no administrator exists yet; otherwise what was asked for, or the
      default. */
  function RegisterRole(requested: Option<Role>, adminExists: bool): (r: Role)
    ensures r == Admin <==> requested == Some(Admin) && !adminExists
  {
    if requested == Some(Admin) && adminExists then User
    else if requested.Some? then requested.value
    else DefaultRole
  }

  datatype RoleResponse = RoleUpdated(user: PublicUser) | InvalidRole | UserNotFound | LastAdmin

  datatype RegisterResponse = Registered(user: PublicUser, token: string) | RegisterInvalid | EmailTaken

  datatype LoginResponse = LoggedIn(user: PublicUser, token: string) | LoginInvalid | Unauthorized(message: string)

  /** The one message of every rejected login. */
  const InvalidCredentials: string := "Credenciales inválidas"

  /** The role a register body asks for, once the schema has accepted it. */
  function RequestedRole(body: RegisterBody): Option<Role>
  {
    if body.role.Some? then ParseRole(body.role.value) else None
  }

  /** The user collection. */
  class UserTable {
    var users: seq<UserRecord>

    /** Identities and stored e-mails are unique. */
    ghost predicate Valid()
      reads this
    {
      KeysUnique(users, UserId) && KeysUnique(users, UserEmail)
    }

    constructor ()
      ensures Valid() && users == []
    {
      users := [];
    }

    /** `updateRole`: a role outside the allow-list is refused before the
        table is read; an unknown user is not found; demoting an
        administrator is refused while there is at most one; otherwise only
        that user's role changes. No call leaves the table without an
        administrator if it had one. */
    method UpdateRole(userId: Id, role: Option<string>) returns (res: RoleResponse)
      requires Valid()
      modifies this
      ensures Valid()
      ensures !res.RoleUpdated? ==> users == old(users)
      ensures res == InvalidRole <==> role.None? || ParseRole(role.value).None?
      ensures res == UserNotFound <==>
                role.Some? && ParseRole(role.value).Some? && (forall i :: 0 <= i < |old(users)| ==> old(users)[i].id != userId)
      ensures res == LastAdmin <==>
                && role == Some("user")
                && (exists k :: 0 <= k < |old(users)| && old(users)[k].id == userId && old(users)[k].role == Admin)
                && AdminCount(old(users)) <= 1
      ensures role.Some? && ParseRole(role.value).Some?
              && (exists k :: 0 <= k < |old(users)| && old(users)[k].id == userId)
              && !(role == Some("user") && (exists k :: 0 <= k < |old(users)| && old(users)[k].id == userId && old(users)[k].role == Admin)
                   && AdminCount(old(users)) <= 1)
              ==> res.RoleUpdated?
      ensures res.RoleUpdated? ==>
                exists k :: 0 <= k < |old(users)| && old(users)[k].id == userId
                  && users == old(users)[k := old(users)[k].(role := ParseRole(role.value).value)]
                  && res.user == Public(users[k])
      ensures AdminCount(old(users)) >= 1 ==> AdminCount(users) >= 1
    {
      assert ParseRole("user") == Some(User);
      if role.None? || ParseRole(role.value).None? {
        return InvalidRole;
      }
      var newRole := ParseRole(role.value).value;
      assert newRole == User <==> role == Some("user");
      var k := FirstIndex(users, (u: UserRecord) => u.id == userId);
      if k < 0 {
        return UserNotFound;
      }
      OnlyIndexWithKey(users, UserId, k);
      assert forall j :: 0 <= j < |users| && users[j].id == userId ==> j == k;
      if newRole == User && users[k].role == Admin {
        var adminCount := AdminCount(users);
        if adminCount <= 1 {
          return LastAdmin;
        }
      }
      var updated := PreSave(users[k].(role := newRole), false, users[k].password);
      assert updated == users[k].(role := newRole);
      AdminCountAfterRoleChange(users, k, newRole);
      UpdateKeepsKeysUnique(users, k, updated, UserId);
      UpdateKeepsKeysUnique(users, k, updated, UserEmail);
      users := users[k := updated];
      assert old(users)[k].id == userId && users[k] == updated;
      return RoleUpdated(Public(updated));
    }

    /** `register`: validate, refuse an e-mail already stored, settle the
        role, then store the new user with its password hashed. */
    method Register(body: RegisterBody, isEmail: string -> bool, newId: Id, hashed: string, token: string)
      returns (res: RegisterResponse)
      requires Valid() && forall i :: 0 <= i < |users| ==> users[i].id != newId
      modifies this
      ensures Valid()
      ensures !res.Registered? ==> users == old(users)
      ensures !RegisterSchema(body, isEmail) ==> res == RegisterInvalid
      ensures RegisterSchema(body, isEmail) && FindByEmail(old(users), body.email).Some? ==> res == EmailTaken
      ensures RegisterSchema(body, isEmail) && FindByEmail(old(users), body.email).None? ==>
                && |users| == |old(users)| + 1 && users[..|old(users)|] == old(users)
                && var u := users[|old(users)|];
                   && u == UserRecord(newId, Text.NormaliseEmail(body.email), hashed, Text.Trim(body.name),
                                      RegisterRole(RequestedRole(body), AdminCount(old(users)) > 0), true)
                   && res == Registered(Public(u), token)
      ensures AdminCount(old(users)) > 0 ==> AdminCount(users) == AdminCount(old(users))
    {
      if !RegisterSchema(body, isEmail) {
        return RegisterInvalid;
      }
      var existingUser := FindByEmail(users, body.email);
      if existingUser.Some? {
        return EmailTaken;
      }
      var role := RequestedRole(body);
      var requestedRole := if role.Some? then role.value else DefaultRole;
      if requestedRole == Admin {
        var existingAdmin := Find(users, IsAdmin);
        if existingAdmin.Some? {
          role := Some(User);
        }
      }
      assert Find(users, IsAdmin).Some? <==> AdminCount(users) > 0;
      var user := PreSave(NewUser(newId, body.email, body.password, body.name, role, None), true, hashed);
      AdminCountAfterAppend(users, user);
      AppendKeepsKeysUnique(users, user, UserId);
      AppendKeepsKeysUnique(users, user, UserEmail);
      users := users + [user];
      return Registered(Public(user), token);
    }

    /** `login`: validate, then one and the same rejection for an unknown
        e-mail, an inactive user and a wrong password. `matches` is the
        password comparison. */
    function Login(body: LoginBody, isEmail: string -> bool, matches: (string, string) -> bool,
                   token: string): (r: LoginResponse)
      reads this
      ensures !LoginSchema(body, isEmail) ==> r == LoginInvalid
      ensures LoginSchema(body, isEmail) ==>
                (r.LoggedIn? <==>
                   var found := FindByEmail(users, body.email);
                   found.Some? && found.value.active && matches(body.password, found.value.password))
      ensures LoginSchema(body, isEmail) && !r.LoggedIn? ==> r == Unauthorized(InvalidCredentials)
      ensures r.LoggedIn? ==> r.token == token && r.user == Public(FindByEmail(users, body.email).value)
    {
      if !LoginSchema(body, isEmail) then LoginInvalid
      else
        var user := FindByEmail(users, body.email);
        if user.None? || !user.value.active then Unauthorized(InvalidCredentials)
        else if !matches(body.password, user.value.password) then Unauthorized(InvalidCredentials)
        else LoggedIn(Public(user.value), token)
    }
  }
}
