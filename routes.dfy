/**
 * The JSON API (app/api/**/route.ts). Each handler that needs a caller reads
 * the Authorization header (the "Bearer " prefix, then the token from
 * character 7 on) before it reads the body, and answers with a status and a
 * JSON body. Handlers that write run their statements against the shared
 * `Database`; each is proved to leave the tables, and to answer, as the
 * vault's operation and the route's rendering of its outcome say.
 */
module Routes {
  import opened Foreign
  import opened JsText
  import opened Schema
  import opened Vault
  import opened Store
  import Encryption
  import VaultLaws

  // ---------------------------------------------------------------- bearer authentication

  const BEARER := "Bearer "

  datatype Auth = HeaderMissingOrInvalid | TokenInvalid | Authenticated(user: TokenPayload)

  /**
   * No header, or one that does not start with "Bearer ", is one refusal; a
   * token (the header from character 7 on) that does not verify is the other.
   */
  function Authenticate(lib: Primitives, authorization: Option<string>): (a: Auth)
    ensures a == HeaderMissingOrInvalid <==> authorization.None? || !StartsWith(authorization.value, BEARER)
    ensures a == TokenInvalid <==>
      authorization.Some? && StartsWith(authorization.value, BEARER) &&
      lib.verifyToken(authorization.value[|BEARER|..]).None?
    ensures a.Authenticated? ==>
      && authorization.Some? && StartsWith(authorization.value, BEARER)
      && lib.verifyToken(authorization.value[|BEARER|..]) == Some(a.user)
  {
    if authorization.None? || !StartsWith(authorization.value, BEARER) then HeaderMissingOrInvalid
    else
      match lib.verifyToken(authorization.value[|BEARER|..])
      case None => TokenInvalid
      case Some(user) => Authenticated(user)
  }

  /** The header "Bearer " + a token this server signed authenticates its payload. */
  lemma BearerRoundTrip(lib: Primitives, payload: TokenPayload)
    requires TokenLaws(lib)
    ensures Authenticate(lib, Some(BEARER + lib.signToken(payload))) == Authenticated(payload)
  {
    var header := BEARER + lib.signToken(payload);
    assert header[..|BEARER|] == BEARER;
    assert header[|BEARER|..] == lib.signToken(payload);
  }

  // ---------------------------------------------------------------- responses

  datatype UserView = UserView(id: int, email: string, role: Role)

  /** The JSON bodies the routes answer with; all but `Failure` carry `success: true`. */
  datatype Body =
    | Failure(error: string)
    | KeyCreated(id: int, name: string, teamId: int, createdAt: Time)
    | KeyList(items: seq<KeyInfo>)
    | Revealed(plaintext: string)
    | Deleted(message: string)
    | TeamCreated(id: int, name: string, teamCode: string, createdAt: Time)
    | TeamJoined(message: string, id: int, name: string)
    | SignedIn(token: string, user: UserView)

  datatype Response = Response(status: nat, body: Body)

  function Unauthorized(a: Auth): Response {
    if a.HeaderMissingOrInvalid? then Response(401, Failure("Authorization header missing or invalid"))
    else Response(401, Failure("Invalid or expired token"))
  }

  function BadRequest(issue: Issue): Response {
    Response(400, Failure(IssueMessage(issue)))
  }

  const NOT_A_MEMBER := "You are not a member of this team"
  const KEY_NOT_FOUND := "API key not found"
  const INTERNAL_ERROR := "Internal server error"

  function CreateKeyResponse(result: Result<ApiKey, Denial>): Response {
    match result
    case Ok(k) => Response(200, KeyCreated(k.id, k.name, k.teamId, k.createdAt))
    case Err(BadInput(issue)) => BadRequest(issue)
    case Err(NotMember) => Response(403, Failure(NOT_A_MEMBER))
    case Err(_) => Response(500, Failure("Failed to securely store API key"))
  }

  function RevealResponse(result: Result<string, Denial>): Response {
    match result
    case Ok(text) => Response(200, Revealed(text))
    case Err(KeyNotFound) => Response(404, Failure(KEY_NOT_FOUND))
    case Err(NotMember) => Response(403, Failure("You do not have permission to reveal this key"))
    case Err(_) => Response(500, Failure("Failed to reveal API key"))
  }

  function DeleteResponse(result: Result<(), Denial>): Response {
    match result
    case Ok(_) => Response(200, Deleted("API key deleted successfully"))
    case Err(KeyNotFound) => Response(404, Failure(KEY_NOT_FOUND))
    case Err(NotMember) => Response(403, Failure("You do not have permission to delete this key"))
    case Err(_) => Response(500, Failure("Failed to delete API key"))
  }

  function CreateTeamResponse(result: Result<Team, Denial>): Response {
    match result
    case Ok(team) => Response(200, TeamCreated(team.id, team.name, team.teamCode, team.createdAt))
    case Err(BadInput(issue)) => BadRequest(issue)
    case Err(_) => Response(500, Failure(INTERNAL_ERROR))
  }

  function JoinTeamResponse(result: Result<Team, Denial>): Response {
    match result
    case Ok(team) => Response(200, TeamJoined("Successfully joined team", team.id, team.name))
    case Err(BadInput(_)) => Response(400, Failure("Invalid code format"))
    case Err(CodeNotFound) => Response(404, Failure("Invalid or expired team code"))
    case Err(AlreadyMember) => Response(409, Failure("You are already a member of this team"))
    case Err(_) => Response(500, Failure(INTERNAL_ERROR))
  }

  /** Register and login answer with a token for the user and the user's columns. */
  function SignedInResponse(lib: Primitives, result: Result<User, Denial>): Response {
    match result
    case Ok(u) => Response(200, SignedIn(lib.signToken(PayloadOf(u)), UserView(u.id, u.email, u.role)))
    case Err(BadInput(issue)) => BadRequest(issue)
    case Err(EmailTaken) => Response(409, Failure("Email already exists"))
    case Err(BadCredentials) => Response(401, Failure("Invalid email or password"))
    case Err(_) => Response(500, Failure(INTERNAL_ERROR))
  }

  // ---------------------------------------------------------------- api keys

  /** POST /api/api-key/create. */
  method CreateKeyRoute(db: Database, env: Env, authorization: Option<string>,
                        name: string, key: string, teamId: int, ivDraw: seq<byte>)
    returns (response: Response)
    requires |ivDraw| == Encryption.IV_LENGTH
    modifies db
    ensures match Authenticate(env.lib, authorization)
      case Authenticated(user) =>
        var step := CreateKey(env, old(db.Snapshot()), user.userId, name, key, teamId, ivDraw);
        db.Snapshot() == step.tables && response == CreateKeyResponse(step.result)
      case refused => db.Snapshot() == old(db.Snapshot()) && response == Unauthorized(refused)
  {
    var auth := Authenticate(env.lib, authorization);
    if !auth.Authenticated? {
      return Unauthorized(auth);
    }
    var user := auth.user;
    var issue := CreateKeyIssue(name, key, teamId);
    if issue.Some? {
      return BadRequest(issue.value);
    }
    if FindMembership(db.Snapshot(), user.userId, teamId).None? {
      return Response(403, Failure(NOT_A_MEMBER));
    }
    var sealed := Encryption.Encrypt(env, key, ivDraw);
    if sealed.Err? {
      return Response(500, Failure("Failed to securely store API key"));
    }
    var row := db.InsertKey(name, sealed.value.encrypted, sealed.value.iv, teamId, user.userId);
    if row.None? {
      return Response(500, Failure("Failed to securely store API key"));
    }
    response := Response(200, KeyCreated(row.value.id, row.value.name, row.value.teamId, row.value.createdAt));
  }

  /**
   * GET /api/api-key/list?teamId=…: the parameter must be present and not
   * empty, and parseInt must read a number from it; nothing narrows it
   * further, so "12abc" lists team 12 and "0" answers 403.
   */
  function ListKeysRoute(lib: Primitives, t: Tables, authorization: Option<string>, teamIdParam: Option<string>)
    : (r: Response)
    ensures !Authenticate(lib, authorization).Authenticated? ==> r.status == 401
    ensures Authenticate(lib, authorization).Authenticated? && (teamIdParam.None? || teamIdParam.value == "") ==>
      r == Response(400, Failure("teamId parameter is required"))
    ensures
      (Authenticate(lib, authorization).Authenticated? && teamIdParam.Some? && teamIdParam.value != "" &&
       ParseInt(teamIdParam.value).None?) ==> r == Response(400, Failure("Invalid teamId parameter"))
    ensures r.status == 403 <==>
      && Authenticate(lib, authorization).Authenticated?
      && teamIdParam.Some? && ParseInt(teamIdParam.value).Some?
      && !IsMember(t, Authenticate(lib, authorization).user.userId, ParseInt(teamIdParam.value).value)
    ensures r.status == 200 <==>
      && Authenticate(lib, authorization).Authenticated?
      && teamIdParam.Some? && teamIdParam.value != "" && ParseInt(teamIdParam.value).Some?
      && IsMember(t, Authenticate(lib, authorization).user.userId, ParseInt(teamIdParam.value).value)
    ensures r.status in {200, 400, 401, 403}
    ensures r.status == 200 ==>
      && r.body.KeyList?
      && Authenticate(lib, authorization).Authenticated?
      && teamIdParam.Some? && ParseInt(teamIdParam.value).Some?
      && ListKeys(t, Authenticate(lib, authorization).user.userId, ParseInt(teamIdParam.value).value)
         == Ok(r.body.items)
  {
    match Authenticate(lib, authorization)
    case Authenticated(user) =>
      if teamIdParam.None? || teamIdParam.value == "" then Response(400, Failure("teamId parameter is required"))
      else
        (match ParseInt(teamIdParam.value)
         case None => Response(400, Failure("Invalid teamId parameter"))
         case Some(teamId) =>
           (match ListKeys(t, user.userId, teamId)
            case Err(_) => Response(403, Failure(NOT_A_MEMBER))
            case Ok(items) => Response(200, KeyList(items))))
    case refused => Unauthorized(refused)
  }

  /** A member asking with the team id written in decimal gets that team's list. */
  lemma ListByDecimalTeamId(lib: Primitives, t: Tables, authorization: Option<string>, teamId: nat)
    requires Authenticate(lib, authorization).Authenticated?
    requires IsMember(t, Authenticate(lib, authorization).user.userId, teamId)
    ensures ListKeysRoute(lib, t, authorization, Some(DecimalString(teamId))) ==
            Response(200, KeyList(ListKeys(t, Authenticate(lib, authorization).user.userId, teamId).value))
  {
    ParseDecimal(teamId);
  }

  /** A JSON value as `body.keyId` reads it. */
  datatype JsValue = Undefined | Null | Bool(b: bool) | Number(n: int) | Str(s: string) | Composite

  /** `!keyId || typeof keyId !== 'number'` lets through only a non-zero number. */
  function KeyIdOf(keyId: JsValue): (r: Option<int>)
    ensures r.Some? <==> keyId.Number? && keyId.n != 0
    ensures r.Some? ==> r.value == keyId.n
  {
    match keyId
    case Number(n) => if n == 0 then None else Some(n)
    case _ => None
  }

  /** POST /api/api-key/reveal. */
  function RevealKeyRoute(env: Env, t: Tables, authorization: Option<string>, keyId: JsValue): (r: Response)
    ensures !Authenticate(env.lib, authorization).Authenticated? ==> r.status == 401
    ensures Authenticate(env.lib, authorization).Authenticated? && KeyIdOf(keyId).None? ==>
      r == Response(400, Failure("Valid keyId is required"))
    ensures Authenticate(env.lib, authorization).Authenticated? && KeyIdOf(keyId).Some? ==>
      r == RevealResponse(RevealKey(env, t, Authenticate(env.lib, authorization).user.userId, KeyIdOf(keyId).value))
  {
    match Authenticate(env.lib, authorization)
    case Authenticated(user) =>
      (match KeyIdOf(keyId)
       case None => Response(400, Failure("Valid keyId is required"))
       case Some(id) => RevealResponse(RevealKey(env, t, user.userId, id)))
    case refused => Unauthorized(refused)
  }

  /** DELETE /api/api-key/delete. */
  method DeleteKeyRoute(db: Database, lib: Primitives, authorization: Option<string>, keyId: JsValue)
    returns (response: Response)
    modifies db
    ensures match Authenticate(lib, authorization)
      case Authenticated(user) =>
        if KeyIdOf(keyId).None? then
          db.Snapshot() == old(db.Snapshot()) && response == Response(400, Failure("Valid keyId is required"))
        else
          var step := Vault.DeleteKey(old(db.Snapshot()), user.userId, KeyIdOf(keyId).value);
          db.Snapshot() == step.tables && response == DeleteResponse(step.result)
      case refused => db.Snapshot() == old(db.Snapshot()) && response == Unauthorized(refused)
  {
    var auth := Authenticate(lib, authorization);
    if !auth.Authenticated? {
      return Unauthorized(auth);
    }
    var user := auth.user;
    if !keyId.Number? || keyId.n == 0 {
      return Response(400, Failure("Valid keyId is required"));
    }
    var id := keyId.n;
    var current := FindKey(db.Snapshot(), id);
    if current.None? {
      return Response(404, Failure(KEY_NOT_FOUND));
    }
    if FindMembership(db.Snapshot(), user.userId, current.value.teamId).None? {
      return Response(403, Failure("You do not have permission to delete this key"));
    }
    db.DeleteKey(id);
    response := Response(200, Deleted("API key deleted successfully"));
  }

  // ---------------------------------------------------------------- teams

  /** POST /api/team/create. */
  method CreateTeamRoute(db: Database, lib: Primitives, authorization: Option<string>, name: string, codeDraw: seq<byte>)
    returns (response: Response)
    requires |codeDraw| == 4
    modifies db
    ensures match Authenticate(lib, authorization)
      case Authenticated(user) =>
        var step := CreateTeam(old(db.Snapshot()), user.userId, name, codeDraw);
        db.Snapshot() == step.tables && response == CreateTeamResponse(step.result)
      case refused => db.Snapshot() == old(db.Snapshot()) && response == Unauthorized(refused)
  {
    var auth := Authenticate(lib, authorization);
    if !auth.Authenticated? {
      return Unauthorized(auth);
    }
    var user := auth.user;
    if |name| < 3 {
      return BadRequest(TooShort(3));
    }
    if |name| > 50 {
      return BadRequest(TooLong(50));
    }
    var teamCode := ToUpperCase(HexLower(codeDraw));
    var row := db.InsertTeamWithCreator(name, teamCode, user.userId);
    if row.None? {
      return Response(500, Failure(INTERNAL_ERROR));
    }
    var team := row.value.0;
    response := Response(200, TeamCreated(team.id, team.name, team.teamCode, team.createdAt));
  }

  /** POST /api/team/join. */
  method JoinTeamRoute(db: Database, lib: Primitives, authorization: Option<string>, code: string)
    returns (response: Response)
    modifies db
    ensures match Authenticate(lib, authorization)
      case Authenticated(user) =>
        var step := JoinTeam(old(db.Snapshot()), user.userId, code);
        db.Snapshot() == step.tables && response == JoinTeamResponse(step.result)
      case refused => db.Snapshot() == old(db.Snapshot()) && response == Unauthorized(refused)
  {
    var auth := Authenticate(lib, authorization);
    if !auth.Authenticated? {
      return Unauthorized(auth);
    }
    var user := auth.user;
    if |code| < 4 || |code| > 12 {
      return Response(400, Failure("Invalid code format"));
    }
    var upper := ToUpperCase(code);
    var team := FindTeamByCode(db.Snapshot(), upper);
    if team.None? {
      return Response(404, Failure("Invalid or expired team code"));
    }
    if FindMembership(db.Snapshot(), user.userId, team.value.id).Some? {
      return Response(409, Failure("You are already a member of this team"));
    }
    var row := db.InsertMembership(user.userId, team.value.id);
    if row.None? {
      return Response(500, Failure(INTERNAL_ERROR));
    }
    response := Response(200, TeamJoined("Successfully joined team", team.value.id, team.value.name));
  }

  // ---------------------------------------------------------------- auth

  /** POST /api/auth/register: no caller to authenticate. */
  method RegisterRoute(db: Database, lib: Primitives, email: string, password: string, salt: seq<byte>)
    returns (response: Response)
    modifies db
    ensures var step := Register(lib, old(db.Snapshot()), email, password, salt);
      db.Snapshot() == step.tables && response == SignedInResponse(lib, step.result)
  {
    if !lib.isEmail(email) {
      return BadRequest(Custom("Invalid email"));
    }
    if |password| < 8 {
      return BadRequest(Custom("Password too short"));
    }
    if FindUserByEmail(db.Snapshot(), email).Some? {
      return Response(409, Failure("Email already exists"));
    }
    var passwordHash := lib.bcryptHash(password, salt);
    var row := db.InsertUser(email, passwordHash);
    var u := row.value;
    var token := lib.signToken(TokenPayload(u.id, u.email, u.role));
    response := Response(200, SignedIn(token, UserView(u.id, u.email, u.role)));
  }

  /** POST /api/auth/login: a read, a comparison and a token; no table changes. */
  function LoginRoute(lib: Primitives, t: Tables, email: string, password: string): (r: Response)
    ensures r.status == 401 ==> r == Response(401, Failure("Invalid email or password"))
    ensures r.status == 200 ==>
      && Login(lib, t, email, password).Ok?
      && var u := Login(lib, t, email, password).value;
         r == Response(200, SignedIn(lib.signToken(TokenPayload(u.id, u.email, u.role)), UserView(u.id, u.email, u.role)))
    ensures r.status == 401 <==> Login(lib, t, email, password) == Err(BadCredentials)
    ensures r.status == 400 <==> Login(lib, t, email, password).Err? && Login(lib, t, email, password).error.BadInput?
    ensures r.status == 200 <==> Login(lib, t, email, password).Ok?
  {
    SignedInResponse(lib, Login(lib, t, email, password))
  }

  /** A user who just registered through the API can log in with the same credentials. */
  lemma RegisterThenLoginRoute(lib: Primitives, t: Tables, email: string, password: string, salt: seq<byte>)
    requires BcryptLaws(lib) && TokenLaws(lib)
    requires lib.isEmail(email) && |password| >= 8 && forall u :: u in t.users ==> u.email != email
    ensures var step := Register(lib, t, email, password, salt);
      LoginRoute(lib, step.tables, email, password) == SignedInResponse(lib, step.result)
    ensures var step := Register(lib, t, email, password, salt);
      Authenticate(lib, Some(BEARER + LoginRoute(lib, step.tables, email, password).body.token)) ==
      Authenticated(PayloadOf(step.result.value))
  {
    VaultLaws.LoginAfterRegister(lib, t, email, password, salt);
    BearerRoundTrip(lib, PayloadOf(Register(lib, t, email, password, salt).result.value));
  }
}
