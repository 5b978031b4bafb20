/**
 * The operations of the vault, once, independent of how a caller reaches
 * them: the guards each handler applies, in the order it applies them, and
 * the statements it then runs. A handler that writes gives a `Step` (the
 * tables after, and the outcome); one that only reads gives the outcome.
 * The caller is already authenticated: `userId` is the id its token carries.
 */
module Vault {
  import opened Foreign
  import opened JsText
  import opened Schema
  import Encryption

  /** A zod validation issue: a message the schema names, or one of zod's own. */
  datatype Issue = Custom(message: string) | TooShort(minimum: nat) | TooLong(maximum: nat)

  /** The text of an issue; zod's own messages are those of zod 3. */
  function IssueMessage(issue: Issue): string {
    match issue
    case Custom(m) => m
    case TooShort(n) => "String must contain at least " + DecimalString(n) + " character(s)"
    case TooLong(n) => "String must contain at most " + DecimalString(n) + " character(s)"
  }

  /** Why an operation refused, one case per distinct answer of the handlers. */
  datatype Denial =
    | BadInput(issue: Issue)   // 400
    | NotMember                // 403: not a member of the team asked for, or of the key's team
    | NoTeamAtAll              // the caller belongs to no team
    | KeyNotFound              // 404
    | CodeNotFound             // 404
    | AlreadyMember            // 409
    | EmailTaken               // 409
    | BadCredentials           // 401
    | CryptoFailure            // 500: encrypt or decrypt threw
    | StoreFailure             // 500: a constraint refused the write

  datatype Step<T> = Step(tables: Tables, result: Result<T, Denial>)

  /** A row of api_keys as list shows it: no ciphertext, no IV. */
  datatype KeyInfo = KeyInfo(id: int, name: string, createdBy: int, createdAt: Time)

  /** A denial that comes from a guard, before any write was attempted. */
  predicate GuardDenial(d: Denial) {
    !d.StoreFailure?
  }

  // ---------------------------------------------------------------- auth

  /**
   * Registration: the email must pass zod's email check and the password be
   * at least 8 characters; a taken email is refused; otherwise one user is
   * added with the bcrypt hash of the password under the salt drawn.
   */
  function Register(lib: Primitives, t: Tables, email: string, password: string, salt: seq<byte>): (r: Step<User>)
    ensures r.result.Err? ==> r.tables == t
    ensures r.result == Err(BadInput(Custom("Invalid email"))) <==> !lib.isEmail(email)
    ensures r.result == Err(BadInput(Custom("Password too short"))) <==> lib.isEmail(email) && |password| < 8
    ensures r.result == Err(EmailTaken) <==>
      lib.isEmail(email) && |password| >= 8 && exists u :: u in t.users && u.email == email
    ensures r.result.Ok? <==> lib.isEmail(email) && |password| >= 8 && forall u :: u in t.users ==> u.email != email
    ensures r.result.Ok? ==>
      && r.result.value == User(t.nextUserId, email, lib.bcryptHash(password, salt), DEFAULT_ROLE, t.clock)
      && r.tables.users == t.users + [r.result.value]
      && r.tables.teams == t.teams && r.tables.members == t.members && r.tables.keys == t.keys
  {
    if !lib.isEmail(email) then Step(t, Err(BadInput(Custom("Invalid email"))))
    else if |password| < 8 then Step(t, Err(BadInput(Custom("Password too short"))))
    else if FindUserByEmail(t, email).Some? then Step(t, Err(EmailTaken))
    else
      var w := InsertUser(t, email, lib.bcryptHash(password, salt));
      Step(w.tables, Ok(w.row.value))
  }

  /**
   * Login: the same email check and a non-empty password; an unknown email
   * and a wrong password are one and the same refusal.
   */
  function Login(lib: Primitives, t: Tables, email: string, password: string): (r: Result<User, Denial>)
    ensures r == Err(BadInput(Custom("Invalid email"))) <==> !lib.isEmail(email)
    ensures r == Err(BadInput(Custom("Password is required"))) <==> lib.isEmail(email) && password == ""
    ensures lib.isEmail(email) && password != "" && r.Err? ==> r.error == BadCredentials
    ensures r.Ok? ==> r.value in t.users && r.value.email == email && lib.bcryptCompare(password, r.value.passwordHash)
    ensures (forall u :: u in t.users ==> u.email != email) ==> r.Err?
    ensures
      && lib.isEmail(email) && password != ""
      && FindUserByEmail(t, email).Some?
      && lib.bcryptCompare(password, FindUserByEmail(t, email).value.passwordHash)
      ==> r == Ok(FindUserByEmail(t, email).value)
  {
    if !lib.isEmail(email) then Err(BadInput(Custom("Invalid email")))
    else if |password| < 1 then Err(BadInput(Custom("Password is required")))
    else
      match FindUserByEmail(t, email)
      case None => Err(BadCredentials)
      case Some(user) => if lib.bcryptCompare(password, user.passwordHash) then Ok(user) else Err(BadCredentials)
  }

  /** The claims signed into the token of a user. */
  function PayloadOf(user: User): (p: TokenPayload)
    ensures p.userId == user.id && p.email == user.email && p.role == user.role
  {
    TokenPayload(user.id, user.email, user.role)
  }

  // ---------------------------------------------------------------- teams

  /** randomBytes(4).toString('hex').toUpperCase(). */
  function TeamCode(draw: seq<byte>): string {
    ToUpperCase(HexLower(draw))
  }

  /**
   * Team creation: a name of 3 to 50 characters, then the transaction that
   * adds the team and the creator's membership together. A code already in
   * use is not retried: the transaction fails.
   */
  function CreateTeam(t: Tables, userId: int, name: string, codeDraw: seq<byte>): (r: Step<Team>)
    requires |codeDraw| == 4
    ensures r.result == Err(BadInput(TooShort(3))) <==> |name| < 3
    ensures r.result == Err(BadInput(TooLong(50))) <==> |name| > 50
    ensures r.result.Err? && r.result.error.BadInput? ==> r.tables == t
    ensures r.result == Err(StoreFailure) <==>
      && 3 <= |name| <= 50
      && (!HasUser(t.users, userId) || exists team :: team in t.teams && team.teamCode == TeamCode(codeDraw))
    ensures r.result == Err(StoreFailure) ==> r.tables == t.(nextTeamId := t.nextTeamId + 1)
    ensures r.result.Ok? <==>
      3 <= |name| <= 50 && HasUser(t.users, userId) && forall team :: team in t.teams ==> team.teamCode != TeamCode(codeDraw)
    ensures r.result.Ok? ==>
      && r.result.value == Team(t.nextTeamId, name, TeamCode(codeDraw), userId, t.clock)
      && r.tables.teams == t.teams + [r.result.value]
      && r.tables.members == t.members + [Membership(t.nextMemberId, userId, r.result.value.id, t.clock)]
      && r.tables.users == t.users && r.tables.keys == t.keys
  {
    if |name| < 3 then Step(t, Err(BadInput(TooShort(3))))
    else if |name| > 50 then Step(t, Err(BadInput(TooLong(50))))
    else
      var w := InsertTeamWithCreator(t, name, TeamCode(codeDraw), userId);
      match w.row
      case None => Step(w.tables, Err(StoreFailure))
      case Some((team, _)) => Step(w.tables, Ok(team))
  }

  /**
   * Joining by code: 4 to 12 characters, upper-cased, then the team with that
   * code (404), then the duplicate-membership guard (409), then the insert.
   */
  function JoinTeam(t: Tables, userId: int, code: string): (r: Step<Team>)
    ensures r.result.Err? && GuardDenial(r.result.error) ==> r.tables == t
    ensures r.result.Err? && r.result.error.BadInput? <==> |code| < 4 || |code| > 12
    ensures r.result == Err(CodeNotFound) <==>
      4 <= |code| <= 12 && forall team :: team in t.teams ==> team.teamCode != ToUpperCase(code)
    ensures r.result == Err(AlreadyMember) ==>
      && FindTeamByCode(t, ToUpperCase(code)).Some?
      && IsMember(t, userId, FindTeamByCode(t, ToUpperCase(code)).value.id)
    ensures
      (&& 4 <= |code| <= 12
       && FindTeamByCode(t, ToUpperCase(code)).Some?
       && IsMember(t, userId, FindTeamByCode(t, ToUpperCase(code)).value.id))
      ==> r == Step(t, Err(AlreadyMember))
    ensures r.result == Err(StoreFailure) <==>
      && 4 <= |code| <= 12
      && FindTeamByCode(t, ToUpperCase(code)).Some?
      && !IsMember(t, userId, FindTeamByCode(t, ToUpperCase(code)).value.id)
      && !HasUser(t.users, userId)
    ensures r.result == Err(StoreFailure) ==> r.tables == t.(nextMemberId := t.nextMemberId + 1)
    ensures r.result.Ok? <==>
      && 4 <= |code| <= 12
      && FindTeamByCode(t, ToUpperCase(code)).Some?
      && !IsMember(t, userId, FindTeamByCode(t, ToUpperCase(code)).value.id)
      && HasUser(t.users, userId)
    ensures r.result.Ok? ==>
      && r.result.value == FindTeamByCode(t, ToUpperCase(code)).value
      && !IsMember(t, userId, r.result.value.id)
      && r.tables.members == t.members + [Membership(t.nextMemberId, userId, r.result.value.id, t.clock)]
      && r.tables.users == t.users && r.tables.teams == t.teams && r.tables.keys == t.keys
  {
    if |code| < 4 then Step(t, Err(BadInput(TooShort(4))))
    else if |code| > 12 then Step(t, Err(BadInput(TooLong(12))))
    else
      match FindTeamByCode(t, ToUpperCase(code))
      case None => Step(t, Err(CodeNotFound))
      case Some(team) =>
        if IsMember(t, userId, team.id) then Step(t, Err(AlreadyMember))
        else
          var w := InsertMembership(t, userId, team.id);
          if w.row.None? then Step(w.tables, Err(StoreFailure)) else Step(w.tables, Ok(team))
  }

  // ---------------------------------------------------------------- api keys

  /** The name and key checks both create paths share: name 1 to 100 characters, key not empty. */
  function KeyFieldsIssue(name: string, key: string): (r: Option<Issue>)
    ensures r.None? <==> 1 <= |name| <= 100 && |key| >= 1
  {
    if |name| < 1 then Some(Custom("Name is required"))
    else if |name| > 100 then Some(TooLong(100))
    else if |key| < 1 then Some(Custom("API Key is required"))
    else None
  }

  /** The checks of the create route, which names the team: the shared ones, then teamId at least 1. */
  function CreateKeyIssue(name: string, key: string, teamId: int): (r: Option<Issue>)
    ensures r.None? <==> 1 <= |name| <= 100 && |key| >= 1 && teamId >= 1
  {
    match KeyFieldsIssue(name, key)
    case Some(issue) => Some(issue)
    case None => if teamId < 1 then Some(Custom("Valid Team ID is required")) else None
  }

  /** Encrypt the key under the IV drawn and insert the row under the team given. */
  function StoreKey(env: Env, t: Tables, userId: int, name: string, key: string, teamId: int, ivDraw: seq<byte>)
    : (r: Step<ApiKey>)
    requires |ivDraw| == Encryption.IV_LENGTH
    ensures r.result == Err(CryptoFailure) <==> Encryption.GetEncryptionKey(env).Err?
    ensures r.result == Err(CryptoFailure) ==> r.tables == t
    ensures r.result == Err(StoreFailure) ==> r.tables == t.(nextKeyId := t.nextKeyId + 1)
    ensures r.result.Ok? <==>
      Encryption.GetEncryptionKey(env).Ok? && HasTeam(t.teams, teamId) && HasUser(t.users, userId)
    ensures r.result.Ok? ==>
      var sealed := Encryption.Encrypt(env, key, ivDraw).value;
      && r.result.value == ApiKey(t.nextKeyId, name, sealed.encrypted, sealed.iv, teamId, userId, t.clock)
      && r.tables == t.(keys := t.keys + [r.result.value], nextKeyId := t.nextKeyId + 1, clock := t.clock + 1)
  {
    match Encryption.Encrypt(env, key, ivDraw)
    case Err(_) => Step(t, Err(CryptoFailure))
    case Ok(sealed) =>
      var w := InsertKey(t, name, sealed.encrypted, sealed.iv, teamId, userId);
      if w.row.None? then Step(w.tables, Err(StoreFailure)) else Step(w.tables, Ok(w.row.value))
  }

  /** Key creation under a team the caller names and must belong to. */
  function CreateKey(env: Env, t: Tables, userId: int, name: string, key: string, teamId: int, ivDraw: seq<byte>)
    : (r: Step<ApiKey>)
    requires |ivDraw| == Encryption.IV_LENGTH
    ensures r.result.Err? && GuardDenial(r.result.error) ==> r.tables == t
    ensures r.result.Err? && r.result.error.BadInput? <==> CreateKeyIssue(name, key, teamId).Some?
    ensures r.result == Err(NotMember) <==> CreateKeyIssue(name, key, teamId).None? && !IsMember(t, userId, teamId)
    ensures r.result.Ok? ==> IsMember(t, userId, teamId) && r.result.value.teamId == teamId
    ensures r.result.Ok? ==> r.result.value.createdBy == userId && r.result.value.name == name
    ensures r.result.Ok? ==> r.tables.keys == t.keys + [r.result.value]
    ensures CreateKeyIssue(name, key, teamId).None? && IsMember(t, userId, teamId) ==>
      r == StoreKey(env, t, userId, name, key, teamId, ivDraw)
  {
    match CreateKeyIssue(name, key, teamId)
    case Some(issue) => Step(t, Err(BadInput(issue)))
    case None =>
      if !IsMember(t, userId, teamId) then Step(t, Err(NotMember))
      else StoreKey(env, t, userId, name, key, teamId, ivDraw)
  }

  /**
   * The server action's key creation: the team is that of the caller's first
   * membership, not one the caller names.
   */
  function CreateKeyInFirstTeam(env: Env, t: Tables, userId: int, name: string, key: string, ivDraw: seq<byte>)
    : (r: Step<ApiKey>)
    requires |ivDraw| == Encryption.IV_LENGTH
    ensures r.result.Err? && GuardDenial(r.result.error) ==> r.tables == t
    ensures r.result.Err? && r.result.error.BadInput? <==> KeyFieldsIssue(name, key).Some?
    ensures r.result == Err(NoTeamAtAll) <==>
      KeyFieldsIssue(name, key).None? && forall m :: m in t.members ==> m.userId != userId
    ensures r.result.Ok? ==>
      && FirstMembershipOf(t, userId).Some?
      && r.result.value.teamId == FirstMembershipOf(t, userId).value.teamId
    ensures r.result.Ok? ==> r.result.value.createdBy == userId && r.tables.keys == t.keys + [r.result.value]
    ensures KeyFieldsIssue(name, key).None? && FirstMembershipOf(t, userId).Some? ==>
      r == StoreKey(env, t, userId, name, key, FirstMembershipOf(t, userId).value.teamId, ivDraw)
  {
    match KeyFieldsIssue(name, key)
    case Some(issue) => Step(t, Err(BadInput(issue)))
    case None =>
      match FirstMembershipOf(t, userId)
      case None => Step(t, Err(NoTeamAtAll))
      case Some(m) => StoreKey(env, t, userId, name, key, m.teamId, ivDraw)
  }

  /** The row as list shows it. */
  function Info(k: ApiKey): KeyInfo {
    KeyInfo(k.id, k.name, k.createdBy, k.createdAt)
  }

  function Project(keys: seq<ApiKey>): (r: seq<KeyInfo>)
    ensures |r| == |keys|
    ensures forall i :: 0 <= i < |keys| ==> r[i] == Info(keys[i])
  {
    if keys == [] then [] else [Info(keys[0])] + Project(keys[1..])
  }

  /** orderBy desc(createdAt). */
  predicate NewestFirstOrder(items: seq<KeyInfo>) {
    forall i, j :: 0 <= i < j < |items| ==> items[i].createdAt >= items[j].createdAt
  }

  function InsertNewest(x: KeyInfo, sorted: seq<KeyInfo>): (r: seq<KeyInfo>)
    requires NewestFirstOrder(sorted)
    ensures NewestFirstOrder(r)
    ensures multiset(r) == multiset(sorted) + multiset{x}
    ensures |r| == |sorted| + 1
    ensures r[0] == x || (sorted != [] && r[0] == sorted[0])
  {
    if sorted == [] || x.createdAt >= sorted[0].createdAt then [x] + sorted
    else
      var rest := InsertNewest(x, sorted[1..]);
      assert sorted == [sorted[0]] + sorted[1..];
      [sorted[0]] + rest
  }

  /** The items newest first: ordered by createdAt, descending, and the same items. */
  function NewestFirst(items: seq<KeyInfo>): (r: seq<KeyInfo>)
    ensures NewestFirstOrder(r)
    ensures multiset(r) == multiset(items)
  {
    if items == [] then []
    else
      assert items == [items[0]] + items[1..];
      InsertNewest(items[0], NewestFirst(items[1..]))
  }

  /** Listing: the caller must belong to exactly that team; then its keys, without key material, newest first. */
  function ListKeys(t: Tables, userId: int, teamId: int): (r: Result<seq<KeyInfo>, Denial>)
    ensures r.Err? <==> !IsMember(t, userId, teamId)
    ensures r.Err? ==> r.error == NotMember
    ensures r.Ok? ==> NewestFirstOrder(r.value)
    ensures r.Ok? ==> multiset(r.value) == multiset(Project(KeysOfTeam(t.keys, teamId)))
  {
    if !IsMember(t, userId, teamId) then Err(NotMember)
    else Ok(NewestFirst(Project(KeysOfTeam(t.keys, teamId))))
  }

  /** The key with that id (404), then membership of the team stored on that key (403). */
  function AuthorizeKey(t: Tables, userId: int, keyId: int): (r: Result<ApiKey, Denial>)
    ensures r == Err(KeyNotFound) <==> forall k :: k in t.keys ==> k.id != keyId
    ensures r == Err(NotMember) <==> FindKey(t, keyId).Some? && !IsMember(t, userId, FindKey(t, keyId).value.teamId)
    ensures r.Ok? ==> r.value in t.keys && r.value.id == keyId && IsMember(t, userId, r.value.teamId)
    ensures r.Err? ==> r.error == KeyNotFound || r.error == NotMember
  {
    match FindKey(t, keyId)
    case None => Err(KeyNotFound)
    case Some(k) => if IsMember(t, userId, k.teamId) then Ok(k) else Err(NotMember)
  }

  /** Reveal: authorize, then decrypt the record's own ciphertext under its own IV. */
  function RevealKey(env: Env, t: Tables, userId: int, keyId: int): (r: Result<string, Denial>)
    ensures AuthorizeKey(t, userId, keyId).Err? ==> r == Err(AuthorizeKey(t, userId, keyId).error)
    ensures r.Ok? ==>
      && AuthorizeKey(t, userId, keyId).Ok?
      && var k := AuthorizeKey(t, userId, keyId).value;
         Encryption.Decrypt(env, k.encryptedKey, k.iv) == Ok(r.value)
    ensures AuthorizeKey(t, userId, keyId).Ok? ==>
      var k := AuthorizeKey(t, userId, keyId).value;
      Encryption.Decrypt(env, k.encryptedKey, k.iv).Ok? ==> r == Ok(Encryption.Decrypt(env, k.encryptedKey, k.iv).value)
    ensures r == Err(CryptoFailure) <==>
      AuthorizeKey(t, userId, keyId).Ok? &&
      var k := AuthorizeKey(t, userId, keyId).value; Encryption.Decrypt(env, k.encryptedKey, k.iv).Err?
  {
    match AuthorizeKey(t, userId, keyId)
    case Err(d) => Err(d)
    case Ok(k) =>
      match Encryption.Decrypt(env, k.encryptedKey, k.iv)
      case Err(_) => Err(CryptoFailure)
      case Ok(text) => Ok(text)
  }

  /** Delete: authorize, then remove the rows with that id, and nothing else. */
  function DeleteKey(t: Tables, userId: int, keyId: int): (r: Step<()>)
    ensures r.result.Err? <==> AuthorizeKey(t, userId, keyId).Err?
    ensures r.result.Err? ==> r.tables == t && r.result.error == AuthorizeKey(t, userId, keyId).error
    ensures r.result.Ok? ==> forall k :: k in r.tables.keys <==> k in t.keys && k.id != keyId
    ensures r.tables == t.(keys := r.tables.keys)
  {
    match AuthorizeKey(t, userId, keyId)
    case Err(d) => Step(t, Err(d))
    case Ok(_) => Step(Schema.DeleteKey(t, keyId), Ok(()))
  }
}
