/** The User record and its password save hook. Hashing itself (bcrypt with
    a fresh salt) is outside the model: the hook receives its result. */
module UserModel {
  import opened Common
  import Text

  /** The `role` enum; new users are `User` unless asked otherwise. */
  datatype Role = Admin | User

  const DefaultRole: Role := User

  function RoleLabel(r: Role): string
  {
    match r
    case Admin => "admin"
    case User => "user"
  }

  /** Membership in ['admin', 'user']. */
  function ParseRole(s: string): (r: Option<Role>)
    ensures r.Some? ==> RoleLabel(r.value) == s
    ensures r.None? ==> forall role :: RoleLabel(role) != s
  {
    if s == "admin" then Some(Admin) else if s == "user" then Some(User) else None
  }

  datatype UserRecord = UserRecord(
    id: Id,
    email: string,
    password: string,
    name: string,
    role: Role,
    active: bool)

  /** The shortest password the schema accepts. */
  const MinPasswordLength: nat := 6

  /** What the schema demands: a non-empty stored e-mail in normal form, a
      password of at least six characters and a non-empty name. */
  predicate ValidUser(u: UserRecord)
  {
    && u.email != [] && Text.NormaliseEmail(u.email) == u.email
    && |u.password| >= MinPasswordLength
    && u.name != []
  }

  /** A user as the schema builds it: e-mail trimmed and lower-cased, name
      trimmed, `role` user and `active` true unless given. */
  function NewUser(id: Id, email: string, password: string, name: string,
                   role: Option<Role>, active: Option<bool>): (u: UserRecord)
    ensures u.id == id && u.password == password
    ensures u.email == Text.NormaliseEmail(email) && u.name == Text.Trim(name)
    ensures u.role == (if role.Some? then role.value else DefaultRole)
    ensures u.active <==> active != Some(false)
    ensures Text.Trim(email) != [] && |password| >= MinPasswordLength && Text.Trim(name) != []
            ==> ValidUser(u)
  {
    Text.NormaliseEmailIdempotent(email);
    UserRecord(id, Text.NormaliseEmail(email), password, Text.Trim(name),
               if role.Some? then role.value else DefaultRole,
               if active.Some? then active.value else true)
  }

  /** The pre-save hook: the password is replaced by its hash only when it
      was modified; otherwise the record is left exactly as it was. */
  function PreSave(u: UserRecord, passwordModified: bool, hashed: string): (r: UserRecord)
    ensures r.(password := u.password) == u
    ensures passwordModified ==> r.password == hashed
    ensures !passwordModified ==> r == u
  {
    if passwordModified then u.(password := hashed) else u
  }
}
