/**
 * The server actions (app/**/action.ts) the dashboard's forms call. They do
 * what the JSON routes do, but find the caller through the `auth_token`
 * cookie instead of a header, answer with a plain object instead of a status,
 * and key creation puts the key under the caller's first team. Actions that
 * write run their statements against the shared `Database` and are proved to
 * leave the tables, and to answer, as the vault's operation and the action's
 * rendering of its outcome say. `Raised` stands for an exception the action
 * does not catch.
 */
module Actions {
  import opened Foreign
  import opened Schema
  import opened Vault
  import opened Store
  import Encryption
  import VaultLaws

  // ---------------------------------------------------------------- the session cookie

  const AUTH_COOKIE := "auth_token"

  /** jsonwebtoken's expiresIn '7d', in seconds. */
  const TOKEN_LIFETIME: nat := 7 * 24 * 60 * 60

  /** getSession: no cookie or an empty one is no session; so is a token that does not verify. */
  function Session(lib: Primitives, authToken: Option<string>): (s: Option<TokenPayload>)
    ensures s.Some? <==> authToken.Some? && authToken.value != "" && lib.verifyToken(authToken.value).Some?
    ensures s.Some? ==> lib.verifyToken(authToken.value) == s
  {
    if authToken.None? || authToken.value == "" then None else lib.verifyToken(authToken.value)
  }

  datatype Cookie = Cookie(name: string, value: string, httpOnly: bool, sameSite: string, maxAge: nat, path: string)

  /** The cookie register and login set: the token, for the whole site, as long as the token lives. */
  function SessionCookie(token: string): (c: Cookie)
    ensures c.name == AUTH_COOKIE && c.value == token
    ensures c.httpOnly && c.sameSite == "lax" && c.path == "/"
    ensures c.maxAge == TOKEN_LIFETIME
  {
    Cookie(AUTH_COOKIE, token, true, "lax", 60 * 60 * 24 * 7, "/")
  }

  /** A cookie holding a token this server signed gives back its payload as the session. */
  lemma SessionOfSignedCookie(lib: Primitives, payload: TokenPayload)
    requires TokenLaws(lib)
    ensures Session(lib, Some(SessionCookie(lib.signToken(payload)).value)) == Some(payload)
  {
    assert lib.verifyToken(lib.signToken(payload)) == Some(payload) && lib.signToken(payload) != "";
  }

  // ---------------------------------------------------------------- replies

  /** The plain objects the actions return; all but `Refused` carry `success: true` or data. */
  datatype Reply =
    | Refused(error: string)
    | Done
    | KeyRows(rows: seq<KeyInfo>)
    | Secret(plaintext: string)
    | TeamCodeIssued(teamCode: string)
    | JoinedTeam(teamName: string)
    | Registered(cookie: Cookie, redirectTo: string)
    | Redirected(setCookie: Cookie, location: string)
    | Raised

  const AUTH_REQUIRED := "Authentication required"
  const KEY_NOT_FOUND := "API key not found"
  const DASHBOARD := "/dashboard"

  function CreateKeyReply(result: Result<ApiKey, Denial>): Reply {
    match result
    case Ok(_) => Done
    case Err(BadInput(issue)) => Refused(IssueMessage(issue))
    case Err(NoTeamAtAll) => Refused("You are not a member of any team")
    case Err(_) => Refused("Failed to create API key")
  }

  function ListKeysReply(result: Result<seq<KeyInfo>, Denial>): Reply {
    match result
    case Ok(items) => KeyRows(items)
    case Err(_) => Refused("You are not a member of this team")
  }

  function RevealKeyReply(result: Result<string, Denial>): Reply {
    match result
    case Ok(text) => Secret(text)
    case Err(KeyNotFound) => Refused(KEY_NOT_FOUND)
    case Err(NotMember) => Refused("You do not have permission to reveal this key")
    case Err(_) => Refused("Failed to reveal API key")
  }

  function DeleteKeyReply(result: Result<(), Denial>): Reply {
    match result
    case Ok(_) => Done
    case Err(KeyNotFound) => Refused(KEY_NOT_FOUND)
    case Err(NotMember) => Refused("You do not have permission to delete this key")
    case Err(_) => Refused("Failed to delete API key")
  }

  function CreateTeamReply(result: Result<Team, Denial>): Reply {
    match result
    case Ok(team) => TeamCodeIssued(team.teamCode)
    case Err(BadInput(issue)) => Refused(IssueMessage(issue))
    case Err(_) => Raised
  }

  function JoinTeamReply(result: Result<Team, Denial>): Reply {
    match result
    case Ok(team) => JoinedTeam(team.name)
    case Err(BadInput(_)) => Refused("Invalid code format")
    case Err(CodeNotFound) => Refused("Invalid or expired team code")
    case Err(AlreadyMember) => Refused("You are already a member of this team")
    case Err(_) => Raised
  }

  /** Registration returns where to go; the cookie holds a token for the new user. */
  function RegisterReply(lib: Primitives, result: Result<User, Denial>): Reply {
    match result
    case Ok(u) => Registered(SessionCookie(lib.signToken(PayloadOf(u))), DASHBOARD)
    case Err(BadInput(issue)) => Refused(IssueMessage(issue))
    case Err(EmailTaken) => Refused("Email already exists")
    case Err(_) => Raised
  }

  // ---------------------------------------------------------------- api keys

  /** createApiKeyAction: validate, then encrypt and store under the caller's first team. */
  method CreateKeyAction(db: Database, env: Env, authToken: Option<string>, name: string, key: string, ivDraw: seq<byte>)
    returns (reply: Reply)
    requires |ivDraw| == Encryption.IV_LENGTH
    modifies db
    ensures match Session(env.lib, authToken)
      case Some(user) =>
        var step := CreateKeyInFirstTeam(env, old(db.Snapshot()), user.userId, name, key, ivDraw);
        db.Snapshot() == step.tables && reply == CreateKeyReply(step.result)
      case None => db.Snapshot() == old(db.Snapshot()) && reply == Refused(AUTH_REQUIRED)
  {
    var session := Session(env.lib, authToken);
    if session.None? {
      return Refused(AUTH_REQUIRED);
    }
    var user := session.value;
    var issue := KeyFieldsIssue(name, key);
    if issue.Some? {
      return Refused(IssueMessage(issue.value));
    }
    var membership := FirstMembershipOf(db.Snapshot(), user.userId);
    if membership.None? {
      return Refused("You are not a member of any team");
    }
    var sealed := Encryption.Encrypt(env, key, ivDraw);
    if sealed.Err? {
      return Refused("Failed to create API key");
    }
    var row := db.InsertKey(name, sealed.value.encrypted, sealed.value.iv, membership.value.teamId, user.userId);
    if row.None? {
      return Refused("Failed to create API key");
    }
    reply := Done;
  }

  /** getApiKeysAction: the caller must belong to exactly that team. */
  function ListKeysAction(lib: Primitives, t: Tables, authToken: Option<string>, teamId: int): (r: Reply)
    ensures Session(lib, authToken).None? ==> r == Refused(AUTH_REQUIRED)
    ensures r.KeyRows? <==> Session(lib, authToken).Some? && IsMember(t, Session(lib, authToken).value.userId, teamId)
    ensures r.KeyRows? ==>
      && NewestFirstOrder(r.rows)
      && multiset(r.rows) == multiset(Project(KeysOfTeam(t.keys, teamId)))
    ensures Session(lib, authToken).Some? && !r.KeyRows? ==> r == Refused("You are not a member of this team")
  {
    match Session(lib, authToken)
    case None => Refused(AUTH_REQUIRED)
    case Some(user) => ListKeysReply(ListKeys(t, user.userId, teamId))
  }

  /** revealApiKeyAction: the key (not found), the caller's membership of its team, then decryption. */
  function RevealKeyAction(env: Env, t: Tables, authToken: Option<string>, keyId: int): (r: Reply)
    ensures Session(env.lib, authToken).None? ==> r == Refused(AUTH_REQUIRED)
    ensures Session(env.lib, authToken).Some? ==>
      r == RevealKeyReply(RevealKey(env, t, Session(env.lib, authToken).value.userId, keyId))
    ensures r.Secret? ==>
      && Session(env.lib, authToken).Some?
      && var k := AuthorizeKey(t, Session(env.lib, authToken).value.userId, keyId);
         k.Ok? && Encryption.Decrypt(env, k.value.encryptedKey, k.value.iv) == Ok(r.plaintext)
    ensures r == Refused(KEY_NOT_FOUND) <==>
      Session(env.lib, authToken).Some? && forall k :: k in t.keys ==> k.id != keyId
  {
    match Session(env.lib, authToken)
    case None => Refused(AUTH_REQUIRED)
    case Some(user) => RevealKeyReply(RevealKey(env, t, user.userId, keyId))
  }

  /** deleteApiKeyAction: the same two checks as reveal, then the delete. */
  method DeleteKeyAction(db: Database, lib: Primitives, authToken: Option<string>, keyId: int)
    returns (reply: Reply)
    modifies db
    ensures match Session(lib, authToken)
      case Some(user) =>
        var step := Vault.DeleteKey(old(db.Snapshot()), user.userId, keyId);
        db.Snapshot() == step.tables && reply == DeleteKeyReply(step.result)
      case None => db.Snapshot() == old(db.Snapshot()) && reply == Refused(AUTH_REQUIRED)
  {
    var session := Session(lib, authToken);
    if session.None? {
      return Refused(AUTH_REQUIRED);
    }
    var user := session.value;
    var current := FindKey(db.Snapshot(), keyId);
    if current.None? {
      return Refused(KEY_NOT_FOUND);
    }
    if FindMembership(db.Snapshot(), user.userId, current.value.teamId).None? {
      return Refused("You do not have permission to delete this key");
    }
    db.DeleteKey(keyId);
    reply := Done;
  }

  /**
   * For a caller whose first membership is in the team named, the action's
   * key creation and the route's are the same operation.
   */
  lemma FirstTeamCreateIsRouteCreate(env: Env, t: Tables, userId: int, name: string, key: string, ivDraw: seq<byte>)
    requires |ivDraw| == Encryption.IV_LENGTH
    requires FirstMembershipOf(t, userId).Some? && FirstMembershipOf(t, userId).value.teamId >= 1
    ensures CreateKeyInFirstTeam(env, t, userId, name, key, ivDraw) ==
            CreateKey(env, t, userId, name, key, FirstMembershipOf(t, userId).value.teamId, ivDraw)
  {
  }

  // ---------------------------------------------------------------- teams

  /** createTeamAction: validate the name, then the transaction; a failed transaction is not caught. */
  method CreateTeamAction(db: Database, lib: Primitives, authToken: Option<string>, name: string, codeDraw: seq<byte>)
    returns (reply: Reply)
    requires |codeDraw| == 4
    modifies db
    ensures match Session(lib, authToken)
      case Some(user) =>
        var step := CreateTeam(old(db.Snapshot()), user.userId, name, codeDraw);
        db.Snapshot() == step.tables && reply == CreateTeamReply(step.result)
      case None => db.Snapshot() == old(db.Snapshot()) && reply == Refused("Not authenticated")
  {
    var session := Session(lib, authToken);
    if session.None? {
      return Refused("Not authenticated");
    }
    var user := session.value;
    if |name| < 3 {
      return Refused(IssueMessage(TooShort(3)));
    }
    if |name| > 50 {
      return Refused(IssueMessage(TooLong(50)));
    }
    var teamCode := TeamCode(codeDraw);
    var row := db.InsertTeamWithCreator(name, teamCode, user.userId);
    if row.None? {
      return Raised;
    }
    reply := TeamCodeIssued(row.value.0.teamCode);
  }

  /** joinTeamAction: the same guards as the join route; a failed insert is not caught. */
  method JoinTeamAction(db: Database, lib: Primitives, authToken: Option<string>, code: string)
    returns (reply: Reply)
    modifies db
    ensures match Session(lib, authToken)
      case Some(user) =>
        var step := JoinTeam(old(db.Snapshot()), user.userId, code);
        db.Snapshot() == step.tables && reply == JoinTeamReply(step.result)
      case None => db.Snapshot() == old(db.Snapshot()) && reply == Refused("You must be logged in to join a team")
  {
    var session := Session(lib, authToken);
    if session.None? {
      return Refused("You must be logged in to join a team");
    }
    var user := session.value;
    if |code| < 4 || |code| > 12 {
      return Refused("Invalid code format");
    }
    var upper := JsText.ToUpperCase(code);
    var team := FindTeamByCode(db.Snapshot(), upper);
    if team.None? {
      return Refused("Invalid or expired team code");
    }
    if FindMembership(db.Snapshot(), user.userId, team.value.id).Some? {
      return Refused("You are already a member of this team");
    }
    var row := db.InsertMembership(user.userId, team.value.id);
    if row.None? {
      return Raised;
    }
    reply := JoinedTeam(team.value.name);
  }

  // ---------------------------------------------------------------- auth

  /** registerAction: the register route's checks and insert; the token goes into the cookie. */
  method RegisterAction(db: Database, lib: Primitives, email: string, password: string, salt: seq<byte>)
    returns (reply: Reply)
    modifies db
    ensures var step := Register(lib, old(db.Snapshot()), email, password, salt);
      db.Snapshot() == step.tables && reply == RegisterReply(lib, step.result)
  {
    if !lib.isEmail(email) {
      return Refused("Invalid email");
    }
    if |password| < 8 {
      return Refused("Password too short");
    }
    if FindUserByEmail(db.Snapshot(), email).Some? {
      return Refused("Email already exists");
    }
    var row := db.InsertUser(email, lib.bcryptHash(password, salt));
    var u := row.value;
    var token := lib.signToken(TokenPayload(u.id, u.email, u.role));
    reply := Registered(SessionCookie(token), DASHBOARD);
  }

  /**
   * loginAction: every validation failure is the one "Invalid input"; an
   * unknown email and a wrong password are "Invalid email or password"; on
   * success the cookie is set and the action redirects to the dashboard.
   */
  function LoginAction(lib: Primitives, t: Tables, email: string, password: string): (r: Reply)
    ensures r == Refused("Invalid input") <==> !lib.isEmail(email) || password == ""
    ensures r == Refused("Invalid email or password") <==>
      lib.isEmail(email) && password != "" && Login(lib, t, email, password).Err?
    ensures r.Redirected? ==>
      && Login(lib, t, email, password).Ok?
      && r == Redirected(SessionCookie(lib.signToken(PayloadOf(Login(lib, t, email, password).value))), DASHBOARD)
    ensures r.Redirected? <==> Login(lib, t, email, password).Ok?
    ensures r.Refused? || r.Redirected?
  {
    match Login(lib, t, email, password)
    case Ok(u) => Redirected(SessionCookie(lib.signToken(PayloadOf(u))), DASHBOARD)
    case Err(BadInput(_)) => Refused("Invalid input")
    case Err(_) => Refused("Invalid email or password")
  }

  /**
   * After registering through the form, the cookie set is a session for the
   * new user, and logging in with the same credentials signs that user in.
   */
  lemma RegisterThenLoginAction(lib: Primitives, t: Tables, email: string, password: string, salt: seq<byte>)
    requires BcryptLaws(lib) && TokenLaws(lib)
    requires lib.isEmail(email) && |password| >= 8 && forall u :: u in t.users ==> u.email != email
    ensures var step := Register(lib, t, email, password, salt);
      Session(lib, Some(RegisterReply(lib, step.result).cookie.value)) == Some(PayloadOf(step.result.value))
    ensures var step := Register(lib, t, email, password, salt);
      LoginAction(lib, step.tables, email, password) ==
      Redirected(RegisterReply(lib, step.result).cookie, RegisterReply(lib, step.result).redirectTo)
  {
    var step := Register(lib, t, email, password, salt);
    VaultLaws.LoginAfterRegister(lib, t, email, password, salt);
    SessionOfSignedCookie(lib, PayloadOf(step.result.value));
  }
}
