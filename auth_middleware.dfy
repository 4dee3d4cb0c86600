/** The request gates: bearer-token authentication, the role gate and the
    schema gate. Token verification is outside the model and given as a
    function from the token to its outcome; a schema is given by the list of
    issues it reports for a body. */
module AuthMiddleware {
  import opened Common
  import opened UserModel
  import Text

  // ---------------------------------------------------------------------
  // authenticateToken
  // ---------------------------------------------------------------------

  /** `authHeader && authHeader.split(' ')[1]`, kept only when non-empty: a
      missing or empty header, a header without a space, or an empty second
      piece gives no token. */
  function BearerToken(header: Option<string>): (r: Option<string>)
    ensures r.Some? <==> header.Some? && |Text.Split(header.value, ' ')| >= 2 && Text.Split(header.value, ' ')[1] != []
    ensures r.Some? ==> r.value == Text.Split(header.value, ' ')[1]
    ensures r.Some? ==> r.value != [] && ' ' !in r.value
  {
    if header.None? || header.value == [] then None
    else
      var pieces := Text.Split(header.value, ' ');
      if |pieces| < 2 || pieces[1] == [] then None else Some(pieces[1])
  }

  /** The token is the second word, whatever the first: `Bearer t`, and any
      other scheme word, yield `t`. */
  lemma BearerTokenOfHeader(scheme: string, token: string)
    requires ' ' !in scheme && ' ' !in token && token != []
    ensures BearerToken(Some(scheme + " " + token)) == Some(token)
  {
    var pieces := [scheme, token];
    assert Text.Join(pieces, ' ') == scheme + " " + token by {
      assert pieces[1..] == [token];
    }
    Text.SplitJoin(pieces, ' ');
  }

  /** A header without a space carries no token. */
  lemma NoSpaceNoToken(header: string)
    requires ' ' !in header
    ensures BearerToken(Some(header)).None?
  {
    Text.SplitJoin([header], ' ');
  }

  /** What `jwt.verify` does with a token: the decoded user identity, or the
      name of the error it throws. */
  datatype VerifyResult = Verified(userId: Id) | Threw(errorName: string)

  /** How the gate ends: an answer with a status and message, `next()` with
      `req.user` set, or `next(error)`. */
  datatype AuthOutcome = Reject(status: nat, message: string) | Next(user: UserRecord) | NextWithError(errorName: string)

  const NoTokenMessage: string := "No se proporcionó token de autenticación"
  const UserUnavailableMessage: string := "Usuario no encontrado o inactivo"
  const InvalidTokenMessage: string := "Token inválido"
  const ExpiredTokenMessage: string := "Token expirado"

  /** `User.findById`. */
  function FindUser(users: seq<UserRecord>, id: Id): (r: Option<UserRecord>)
    ensures r.None? <==> forall i :: 0 <= i < |users| ==> users[i].id != id
    ensures r.Some? ==> r.value in users && r.value.id == id
  {
    Find(users, (u: UserRecord) => u.id == id)
  }

  /** `authenticateToken`. */
  function AuthenticateToken(header: Option<string>, verify: string -> VerifyResult,
                             users: seq<UserRecord>): (r: AuthOutcome)
    ensures BearerToken(header).None? ==> r == Reject(401, NoTokenMessage)
    ensures r.Next? <==>
              && BearerToken(header).Some?
              && verify(BearerToken(header).value).Verified?
              && var u := FindUser(users, verify(BearerToken(header).value).userId);
                 u.Some? && u.value.active
    ensures r.Next? ==> r.user == FindUser(users, verify(BearerToken(header).value).userId).value
    ensures BearerToken(header).Some? && verify(BearerToken(header).value).Verified? && !r.Next?
            ==> r == Reject(401, UserUnavailableMessage)
    ensures BearerToken(header).Some? && verify(BearerToken(header).value).Threw? ==>
              var name := verify(BearerToken(header).value).errorName;
              r == (if name == "JsonWebTokenError" then Reject(401, InvalidTokenMessage)
                    else if name == "TokenExpiredError" then Reject(401, ExpiredTokenMessage)
                    else NextWithError(name))
  {
    var token := BearerToken(header);
    if token.None? then Reject(401, NoTokenMessage)
    else
      match verify(token.value)
      case Threw(name) =>
        if name == "JsonWebTokenError" then Reject(401, InvalidTokenMessage)
        else if name == "TokenExpiredError" then Reject(401, ExpiredTokenMessage)
        else NextWithError(name)
      case Verified(userId) =>
        var user := FindUser(users, userId);
        if user.None? || !user.value.active then Reject(401, UserUnavailableMessage)
        else Next(user.value)
  }

  /** `next()` is reached with a user only when that user is stored and
      active. */
  lemma AuthenticatedUserIsActiveAndStored(header: Option<string>, verify: string -> VerifyResult,
                                           users: seq<UserRecord>)
    ensures var r := AuthenticateToken(header, verify, users);
            r.Next? ==> r.user in users && r.user.active
  {
  }

  // ---------------------------------------------------------------------
  // authorizeRole
  // ---------------------------------------------------------------------

  datatype Gate = Pass | Forbidden(status: nat, message: string)

  const ForbiddenMessage: string := "No tiene permisos para realizar esta acción"

  /** `authorizeRole(roles)` for the authenticated user. */
  function AuthorizeRole(roles: seq<Role>, user: UserRecord): (r: Gate)
    ensures r.Pass? <==> user.role in roles
    ensures !r.Pass? ==> r == Forbidden(403, ForbiddenMessage)
  {
    if user.role !in roles then Forbidden(403, ForbiddenMessage) else Pass
  }

  // ---------------------------------------------------------------------
  // validateSchema
  // ---------------------------------------------------------------------

  /** One element of an issue's path: an object key or an array index. */
  datatype PathSegment = Key(name: string) | Index(n: nat)

  datatype Issue = Issue(path: seq<PathSegment>, message: string)

  datatype ErrorItem = ErrorItem(path: string, message: string)

  datatype SchemaGate = Proceed | Invalid(status: nat, errors: seq<ErrorItem>)

  /** A path element as `join` renders it. */
  function RenderSegment(p: PathSegment): (r: string)
    ensures p.Key? ==> r == p.name
    ensures p.Index? ==> r != [] && forall i :: 0 <= i < |r| ==> '0' <= r[i] <= '9'
    ensures p.Index? ==> Text.DigitsValue(r) == p.n
  {
    match p
    case Key(name) => name
    case Index(n) => Text.DecimalStringValue(n); Text.DecimalString(n)
  }

  /** `e.path.join('.')`. */
  function IssuePath(path: seq<PathSegment>): string
  {
    Text.Join(Map(path, RenderSegment), '.')
  }

  /** `validateSchema(schema)`: proceed exactly when the schema reports no
      issue; otherwise a 400 listing one error per issue, in order. */
  function ValidateSchema<B>(issuesOf: B -> seq<Issue>, body: B): (r: SchemaGate)
    ensures r.Proceed? <==> issuesOf(body) == []
    ensures r.Invalid? ==> r.status == 400 && |r.errors| == |issuesOf(body)|
    ensures r.Invalid? ==> forall i :: 0 <= i < |r.errors| ==>
              r.errors[i].message == issuesOf(body)[i].message
              && r.errors[i].path == IssuePath(issuesOf(body)[i].path)
  {
    var issues := issuesOf(body);
    if issues == [] then Proceed
    else Invalid(400, Map(issues, (e: Issue) => ErrorItem(IssuePath(e.path), e.message)))
  }

  /** The rendered path loses nothing when no key contains a dot: splitting
      it on '.' gives back the rendered elements. */
  lemma IssuePathRoundTrip(path: seq<PathSegment>)
    requires |path| >= 1
    requires forall i :: 0 <= i < |path| ==> path[i].Key? ==> '.' !in path[i].name
    ensures Text.Split(IssuePath(path), '.') == Map(path, RenderSegment)
  {
    var pieces := Map(path, RenderSegment);
    forall i | 0 <= i < |pieces|
      ensures '.' !in pieces[i]
    {
      if path[i].Index? {
        var r := pieces[i];
        assert forall j :: 0 <= j < |r| ==> '0' <= r[j] <= '9';
      }
    }
    Text.SplitJoin(pieces, '.');
  }
}
