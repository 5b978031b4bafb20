/**
 * src/db/schema.ts: the four tables of the vault, the constraints Postgres
 * enforces on them, and the statements the handlers run, each as a function
 * from the tables before to the tables after.
 *
 * A serial column draws its value from a sequence before the row is checked,
 * so a rejected insert still uses up an id. `createdAt`/`joinedAt` read a
 * logical clock that advances once per committed insert statement or
 * transaction (a delete leaves it); the team-creation transaction stamps both
 * its rows with the same reading, as now() does.
 */
module Schema {
  import opened Foreign

  /** A reading of the logical clock behind defaultNow(). */
  type Time = nat

  datatype User = User(id: int, email: string, passwordHash: string, role: Role, createdAt: Time)
  datatype Team = Team(id: int, name: string, teamCode: string, createdBy: int, createdAt: Time)
  datatype Membership = Membership(id: int, userId: int, teamId: int, joinedAt: Time)
  datatype ApiKey = ApiKey(id: int, name: string, encryptedKey: string, iv: string,
                           teamId: int, createdBy: int, createdAt: Time)

  /** The default of the `role` column. */
  const DEFAULT_ROLE: Role := UserRole

  /** The rows of each table in insertion order, the next value of each id sequence, and the clock. */
  datatype Tables = Tables(
    users: seq<User>, teams: seq<Team>, members: seq<Membership>, keys: seq<ApiKey>,
    nextUserId: int, nextTeamId: int, nextMemberId: int, nextKeyId: int, clock: Time)

  /** The database as a fresh migration leaves it. */
  const EMPTY: Tables := Tables([], [], [], [], 1, 1, 1, 1, 0)

  /** What a write statement leaves behind, and the row it produced unless a constraint refused it. */
  datatype Write<T> = Write(tables: Tables, row: Option<T>)

  // ---------------------------------------------------------------- constraints

  predicate HasUser(users: seq<User>, id: int) {
    exists u :: u in users && u.id == id
  }

  predicate HasTeam(teams: seq<Team>, id: int) {
    exists team :: team in teams && team.id == id
  }

  /**
   * users: serial ids (positive, below the sequence's next value, increasing
   * in insertion order), unique emails, stamped before the clock.
   */
  predicate UserRows(users: seq<User>, next: int, clock: Time) {
    && 1 <= next
    && (forall i :: 0 <= i < |users| ==> 1 <= users[i].id < next && users[i].createdAt < clock)
    && (forall i, j :: 0 <= i < j < |users| ==> users[i].id < users[j].id && users[i].email != users[j].email)
  }

  /** teams: serial ids, unique team codes, stamped before the clock. */
  predicate TeamRows(teams: seq<Team>, next: int, clock: Time) {
    && 1 <= next
    && (forall i :: 0 <= i < |teams| ==> 1 <= teams[i].id < next && teams[i].createdAt < clock)
    && (forall i, j :: 0 <= i < j < |teams| ==> teams[i].id < teams[j].id && teams[i].teamCode != teams[j].teamCode)
  }

  /** team_members: serial ids, stamped before the clock. */
  predicate MemberRows(members: seq<Membership>, next: int, clock: Time) {
    && 1 <= next
    && (forall i :: 0 <= i < |members| ==> 1 <= members[i].id < next && members[i].joinedAt < clock)
    && (forall i, j :: 0 <= i < j < |members| ==> members[i].id < members[j].id)
  }

  /** api_keys: serial ids, stamped before the clock and in insertion order. */
  predicate KeyRows(keys: seq<ApiKey>, next: int, clock: Time) {
    && 1 <= next
    && (forall i :: 0 <= i < |keys| ==> 1 <= keys[i].id < next && keys[i].createdAt < clock)
    && (forall i, j :: 0 <= i < j < |keys| ==> keys[i].id < keys[j].id && keys[i].createdAt < keys[j].createdAt)
  }

  /** The `references()` columns. */
  predicate TeamRefs(teams: seq<Team>, users: seq<User>) {
    forall team :: team in teams ==> HasUser(users, team.createdBy)
  }

  predicate MemberRefs(members: seq<Membership>, users: seq<User>, teams: seq<Team>) {
    forall m :: m in members ==> HasUser(users, m.userId) && HasTeam(teams, m.teamId)
  }

  predicate KeyRefs(keys: seq<ApiKey>, users: seq<User>, teams: seq<Team>) {
    forall k :: k in keys ==> HasTeam(teams, k.teamId) && HasUser(users, k.createdBy)
  }

  predicate Valid(t: Tables) {
    && UserRows(t.users, t.nextUserId, t.clock)
    && TeamRows(t.teams, t.nextTeamId, t.clock)
    && MemberRows(t.members, t.nextMemberId, t.clock)
    && KeyRows(t.keys, t.nextKeyId, t.clock)
    && TeamRefs(t.teams, t.users)
    && MemberRefs(t.members, t.users, t.teams)
    && KeyRefs(t.keys, t.users, t.teams)
  }

  lemma EmptyValid()
    ensures Valid(EMPTY)
  {
  }

  // ---------------------------------------------------------------- queries

  /** findFirst on users where email = … (insertion order). */
  function FindUserByEmail(t: Tables, email: string): (r: Option<User>)
    ensures r.Some? ==> r.value in t.users && r.value.email == email
    ensures r.None? ==> forall u :: u in t.users ==> u.email != email
  {
    FirstUser(t.users, email)
  }

  function FirstUser(users: seq<User>, email: string): (r: Option<User>)
    ensures r.Some? ==> r.value in users && r.value.email == email
    ensures r.None? ==> forall u :: u in users ==> u.email != email
  {
    if users == [] then None
    else if users[0].email == email then Some(users[0])
    else FirstUser(users[1..], email)
  }

  /** findFirst on teams where team_code = …. */
  function FindTeamByCode(t: Tables, code: string): (r: Option<Team>)
    ensures r.Some? ==> r.value in t.teams && r.value.teamCode == code
    ensures r.None? ==> forall team :: team in t.teams ==> team.teamCode != code
  {
    FirstTeam(t.teams, code)
  }

  function FirstTeam(teams: seq<Team>, code: string): (r: Option<Team>)
    ensures r.Some? ==> r.value in teams && r.value.teamCode == code
    ensures r.None? ==> forall team :: team in teams ==> team.teamCode != code
  {
    if teams == [] then None
    else if teams[0].teamCode == code then Some(teams[0])
    else FirstTeam(teams[1..], code)
  }

  /** findFirst on api_keys where id = …. */
  function FindKey(t: Tables, id: int): (r: Option<ApiKey>)
    ensures r.Some? ==> r.value in t.keys && r.value.id == id
    ensures r.None? ==> forall k :: k in t.keys ==> k.id != id
  {
    FirstKey(t.keys, id)
  }

  function FirstKey(keys: seq<ApiKey>, id: int): (r: Option<ApiKey>)
    ensures r.Some? ==> r.value in keys && r.value.id == id
    ensures r.None? ==> forall k :: k in keys ==> k.id != id
  {
    if keys == [] then None
    else if keys[0].id == id then Some(keys[0])
    else FirstKey(keys[1..], id)
  }

  /** findFirst on team_members where user_id = … and team_id = …. */
  function FindMembership(t: Tables, userId: int, teamId: int): (r: Option<Membership>)
    ensures r.Some? ==> r.value in t.members && r.value.userId == userId && r.value.teamId == teamId
    ensures r.None? ==> forall m :: m in t.members ==> !(m.userId == userId && m.teamId == teamId)
  {
    FirstMembershipIn(t.members, userId, teamId)
  }

  function FirstMembershipIn(members: seq<Membership>, userId: int, teamId: int): (r: Option<Membership>)
    ensures r.Some? ==> r.value in members && r.value.userId == userId && r.value.teamId == teamId
    ensures r.None? ==> forall m :: m in members ==> !(m.userId == userId && m.teamId == teamId)
  {
    if members == [] then None
    else if members[0].userId == userId && members[0].teamId == teamId then Some(members[0])
    else FirstMembershipIn(members[1..], userId, teamId)
  }

  predicate IsMember(t: Tables, userId: int, teamId: int) {
    FindMembership(t, userId, teamId).Some?
  }

  /**
   * findFirst on team_members where user_id = …, with no order. Postgres may
   * return any matching row; the model takes the first in insertion order.
   */
  function FirstMembershipOf(t: Tables, userId: int): (r: Option<Membership>)
    ensures r.Some? ==> r.value in t.members && r.value.userId == userId
    ensures r.None? ==> forall m :: m in t.members ==> m.userId != userId
    ensures r.Some? ==> exists i :: 0 <= i < |t.members| && t.members[i] == r.value &&
                                     forall j :: 0 <= j < i ==> t.members[j].userId != userId
  {
    FirstOfUser(t.members, userId)
  }

  function FirstOfUser(members: seq<Membership>, userId: int): (r: Option<Membership>)
    ensures r.Some? ==> r.value in members && r.value.userId == userId
    ensures r.None? ==> forall m :: m in members ==> m.userId != userId
    ensures r.Some? ==> exists i :: 0 <= i < |members| && members[i] == r.value &&
                                     forall j :: 0 <= j < i ==> members[j].userId != userId
  {
    if members == [] then None
    else if members[0].userId == userId then Some(members[0])
    else
      var r := FirstOfUser(members[1..], userId);
      if r.Some? then
        ghost var i :| 0 <= i < |members[1..]| && members[1..][i] == r.value &&
                      forall j :: 0 <= j < i ==> members[1..][j].userId != userId;
        assert members[i + 1] == r.value;
        r
      else r
  }

  /** The rows of api_keys whose team_id is the given one, in insertion order. */
  function KeysOfTeam(keys: seq<ApiKey>, teamId: int): (r: seq<ApiKey>)
    ensures forall k :: k in r <==> k in keys && k.teamId == teamId
    ensures |r| <= |keys|
  {
    if keys == [] then []
    else (if keys[0].teamId == teamId then [keys[0]] else []) + KeysOfTeam(keys[1..], teamId)
  }

  /** How many team_members rows pair this user with this team. */
  function MembershipCount(members: seq<Membership>, userId: int, teamId: int): nat {
    if members == [] then 0
    else (if members[0].userId == userId && members[0].teamId == teamId then 1 else 0)
         + MembershipCount(members[1..], userId, teamId)
  }

  lemma {:induction false} MembershipCountPositive(members: seq<Membership>, userId: int, teamId: int)
    ensures MembershipCount(members, userId, teamId) > 0 <==>
            exists m :: m in members && m.userId == userId && m.teamId == teamId
  {
    if members != [] {
      MembershipCountPositive(members[1..], userId, teamId);
      assert forall m :: m in members <==> m == members[0] || m in members[1..];
    }
  }

  lemma {:induction false} MembershipCountAppend(members: seq<Membership>, m: Membership, userId: int, teamId: int)
    ensures MembershipCount(members + [m], userId, teamId) ==
            MembershipCount(members, userId, teamId) + (if m.userId == userId && m.teamId == teamId then 1 else 0)
  {
    if members == [] {
      assert [] + [m] == [m];
    } else {
      assert (members + [m])[1..] == members[1..] + [m];
      MembershipCountAppend(members[1..], m, userId, teamId);
    }
  }

  // ---------------------------------------------------------------- write statements

  /** insert into users (email, password_hash): refused when the email is taken. */
  function InsertUser(t: Tables, email: string, passwordHash: string): (w: Write<User>)
    ensures w.row.Some? <==> forall u :: u in t.users ==> u.email != email
    ensures w.tables.nextUserId == t.nextUserId + 1
    ensures w.row.Some? ==>
      && w.row.value == User(t.nextUserId, email, passwordHash, DEFAULT_ROLE, t.clock)
      && w.tables == t.(users := t.users + [w.row.value], nextUserId := t.nextUserId + 1, clock := t.clock + 1)
    ensures w.row.None? ==> w.tables == t.(nextUserId := t.nextUserId + 1)
  {
    var row := User(t.nextUserId, email, passwordHash, DEFAULT_ROLE, t.clock);
    if FindUserByEmail(t, email).Some? then Write(t.(nextUserId := t.nextUserId + 1), None)
    else Write(t.(users := t.users + [row], nextUserId := t.nextUserId + 1, clock := t.clock + 1), Some(row))
  }

  /**
   * The team-creation transaction: insert into teams, then insert the creator
   * into team_members. A duplicate code or an unknown creator refuses the
   * first insert and rolls the transaction back; only the team's sequence
   * value is spent.
   */
  function InsertTeamWithCreator(t: Tables, name: string, teamCode: string, userId: int): (w: Write<(Team, Membership)>)
    ensures w.row.Some? <==> HasUser(t.users, userId) && forall team :: team in t.teams ==> team.teamCode != teamCode
    ensures w.row.Some? ==>
      && w.row.value.0 == Team(t.nextTeamId, name, teamCode, userId, t.clock)
      && w.row.value.1 == Membership(t.nextMemberId, userId, t.nextTeamId, t.clock)
      && w.tables == t.(teams := t.teams + [w.row.value.0], members := t.members + [w.row.value.1],
                        nextTeamId := t.nextTeamId + 1, nextMemberId := t.nextMemberId + 1, clock := t.clock + 1)
    ensures w.row.None? ==> w.tables == t.(nextTeamId := t.nextTeamId + 1)
  {
    var team := Team(t.nextTeamId, name, teamCode, userId, t.clock);
    var member := Membership(t.nextMemberId, userId, team.id, t.clock);
    if !HasUser(t.users, userId) || FindTeamByCode(t, teamCode).Some? then Write(t.(nextTeamId := t.nextTeamId + 1), None)
    else Write(t.(teams := t.teams + [team], members := t.members + [member],
                  nextTeamId := t.nextTeamId + 1, nextMemberId := t.nextMemberId + 1, clock := t.clock + 1),
               Some((team, member)))
  }

  /** insert into team_members (user_id, team_id): refused when either reference dangles. */
  function InsertMembership(t: Tables, userId: int, teamId: int): (w: Write<Membership>)
    ensures w.row.Some? <==> HasUser(t.users, userId) && HasTeam(t.teams, teamId)
    ensures w.row.Some? ==>
      && w.row.value == Membership(t.nextMemberId, userId, teamId, t.clock)
      && w.tables == t.(members := t.members + [w.row.value], nextMemberId := t.nextMemberId + 1, clock := t.clock + 1)
    ensures w.row.None? ==> w.tables == t.(nextMemberId := t.nextMemberId + 1)
  {
    var row := Membership(t.nextMemberId, userId, teamId, t.clock);
    if !HasUser(t.users, userId) || !HasTeam(t.teams, teamId) then Write(t.(nextMemberId := t.nextMemberId + 1), None)
    else Write(t.(members := t.members + [row], nextMemberId := t.nextMemberId + 1, clock := t.clock + 1), Some(row))
  }

  /** insert into api_keys: refused when the team or the creating user is unknown. */
  function InsertKey(t: Tables, name: string, encryptedKey: string, iv: string, teamId: int, createdBy: int)
    : (w: Write<ApiKey>)
    ensures w.row.Some? <==> HasTeam(t.teams, teamId) && HasUser(t.users, createdBy)
    ensures w.row.Some? ==>
      && w.row.value == ApiKey(t.nextKeyId, name, encryptedKey, iv, teamId, createdBy, t.clock)
      && w.tables == t.(keys := t.keys + [w.row.value], nextKeyId := t.nextKeyId + 1, clock := t.clock + 1)
    ensures w.row.None? ==> w.tables == t.(nextKeyId := t.nextKeyId + 1)
  {
    var row := ApiKey(t.nextKeyId, name, encryptedKey, iv, teamId, createdBy, t.clock);
    if !HasTeam(t.teams, teamId) || !HasUser(t.users, createdBy) then Write(t.(nextKeyId := t.nextKeyId + 1), None)
    else Write(t.(keys := t.keys + [row], nextKeyId := t.nextKeyId + 1, clock := t.clock + 1), Some(row))
  }

  /** The rows of api_keys other than those with the given id, in their order. */
  function WithoutKey(keys: seq<ApiKey>, id: int): (r: seq<ApiKey>)
    ensures forall k :: k in r <==> k in keys && k.id != id
    ensures |r| <= |keys|
  {
    if keys == [] then []
    else (if keys[0].id == id then [] else [keys[0]]) + WithoutKey(keys[1..], id)
  }

  /** delete from api_keys where id = …. */
  function DeleteKey(t: Tables, id: int): (r: Tables)
    ensures forall k :: k in r.keys <==> k in t.keys && k.id != id
    ensures r == t.(keys := r.keys)
  {
    t.(keys := WithoutKey(t.keys, id))
  }

  // ---------------------------------------------------------------- properties of the statements

  /**
   * With serial ids, removing the one row that has an id is splicing it
   * out: every other row stays, in its place.
   */
  lemma {:induction false} WithoutKeySplices(keys: seq<ApiKey>, i: int)
    requires 0 <= i < |keys|
    requires forall a, b :: 0 <= a < b < |keys| ==> keys[a].id < keys[b].id
    ensures WithoutKey(keys, keys[i].id) == keys[..i] + keys[i + 1..]
  {
    var id := keys[i].id;
    var tail := keys[1..];
    if i == 0 {
      WithoutFirst(keys);
    } else {
      assert WithoutKey(keys, id) == [keys[0]] + WithoutKey(tail, id) by {
        assert keys[0].id < id;
      }
      assert WithoutKey(tail, id) == tail[..i - 1] + tail[i..] by {
        assert tail[i - 1] == keys[i];
        WithoutKeySplices(tail, i - 1);
      }
      ConsSplice(keys, i);
    }
  }

  lemma ConsSplice(keys: seq<ApiKey>, i: int)
    requires 0 < i < |keys|
    ensures [keys[0]] + (keys[1..][..i - 1] + keys[1..][i..]) == keys[..i] + keys[i + 1..]
  {
    var tail := keys[1..];
    assert tail[..i - 1] == keys[1..i];
    assert tail[i..] == keys[i + 1..];
    assert keys[..i] == [keys[0]] + keys[1..i];
  }

  lemma WithoutFirst(keys: seq<ApiKey>)
    requires 0 < |keys|
    requires forall a, b :: 0 <= a < b < |keys| ==> keys[a].id < keys[b].id
    ensures WithoutKey(keys, keys[0].id) == keys[1..]
  {
    var tail := keys[1..];
    forall k | k in tail ensures k.id != keys[0].id {
      var b :| 0 <= b < |tail| && tail[b] == k;
      assert k == keys[b + 1];
    }
    WithoutAbsent(tail, keys[0].id);
  }

  /** With no row of that id, delete leaves the rows as they are. */
  lemma {:induction false} WithoutAbsent(keys: seq<ApiKey>, id: int)
    requires forall k :: k in keys ==> k.id != id
    ensures WithoutKey(keys, id) == keys
  {
    if keys != [] {
      WithoutAbsent(keys[1..], id);
      assert keys == [keys[0]] + keys[1..];
    }
  }

  // ---------------------------------------------------------------- the statements keep the constraints

  lemma UserRowsAppend(users: seq<User>, next: int, clock: Time, row: User)
    requires UserRows(users, next, clock)
    requires row.id == next && row.createdAt == clock
    requires forall u :: u in users ==> u.email != row.email
    ensures UserRows(users + [row], next + 1, clock + 1)
  {
    var s := users + [row];
    forall i | 0 <= i < |s| ensures 1 <= s[i].id < next + 1 && s[i].createdAt < clock + 1 {
      if i < |users| { assert s[i] == users[i]; }
    }
    forall i, j | 0 <= i < j < |s| ensures s[i].id < s[j].id && s[i].email != s[j].email {
      assert s[i] == users[i];
      if j == |users| { assert s[i] in users; } else { assert s[j] == users[j]; }
    }
  }

  lemma TeamRowsAppend(teams: seq<Team>, next: int, clock: Time, row: Team)
    requires TeamRows(teams, next, clock)
    requires row.id == next && row.createdAt == clock
    requires forall team :: team in teams ==> team.teamCode != row.teamCode
    ensures TeamRows(teams + [row], next + 1, clock + 1)
  {
    var s := teams + [row];
    forall i | 0 <= i < |s| ensures 1 <= s[i].id < next + 1 && s[i].createdAt < clock + 1 {
      if i < |teams| { assert s[i] == teams[i]; }
    }
    forall i, j | 0 <= i < j < |s| ensures s[i].id < s[j].id && s[i].teamCode != s[j].teamCode {
      assert s[i] == teams[i];
      if j == |teams| { assert s[i] in teams; } else { assert s[j] == teams[j]; }
    }
  }

  lemma MemberRowsAppend(members: seq<Membership>, next: int, clock: Time, row: Membership)
    requires MemberRows(members, next, clock)
    requires row.id == next && row.joinedAt == clock
    ensures MemberRows(members + [row], next + 1, clock + 1)
  {
    var s := members + [row];
    forall i | 0 <= i < |s| ensures 1 <= s[i].id < next + 1 && s[i].joinedAt < clock + 1 {
      if i < |members| { assert s[i] == members[i]; }
    }
    forall i, j | 0 <= i < j < |s| ensures s[i].id < s[j].id {
      assert s[i] == members[i];
      if j < |members| { assert s[j] == members[j]; }
    }
  }

  lemma KeyRowsAppend(keys: seq<ApiKey>, next: int, clock: Time, row: ApiKey)
    requires KeyRows(keys, next, clock)
    requires row.id == next && row.createdAt == clock
    ensures KeyRows(keys + [row], next + 1, clock + 1)
  {
    var s := keys + [row];
    forall i | 0 <= i < |s| ensures 1 <= s[i].id < next + 1 && s[i].createdAt < clock + 1 {
      if i < |keys| { assert s[i] == keys[i]; }
    }
    forall i, j | 0 <= i < j < |s| ensures s[i].id < s[j].id && s[i].createdAt < s[j].createdAt {
      assert s[i] == keys[i];
      if j < |keys| { assert s[j] == keys[j]; }
    }
  }

  /** Later sequence values and clock readings keep every constraint on the rows already there. */
  lemma RowsLater(t: Tables, t': Tables)
    requires Valid(t)
    requires t.nextUserId <= t'.nextUserId && t.nextTeamId <= t'.nextTeamId
    requires t.nextMemberId <= t'.nextMemberId && t.nextKeyId <= t'.nextKeyId && t.clock <= t'.clock
    ensures UserRows(t.users, t'.nextUserId, t'.clock)
    ensures TeamRows(t.teams, t'.nextTeamId, t'.clock)
    ensures MemberRows(t.members, t'.nextMemberId, t'.clock)
    ensures KeyRows(t.keys, t'.nextKeyId, t'.clock)
  {
  }

  lemma MoreUsersKeepRefs(t: Tables, row: User)
    requires Valid(t)
    ensures TeamRefs(t.teams, t.users + [row])
    ensures MemberRefs(t.members, t.users + [row], t.teams)
    ensures KeyRefs(t.keys, t.users + [row], t.teams)
  {
    assert forall id :: HasUser(t.users, id) ==> HasUser(t.users + [row], id);
  }

  lemma MoreTeamsKeepRefs(t: Tables, row: Team)
    requires Valid(t)
    ensures MemberRefs(t.members, t.users, t.teams + [row])
    ensures KeyRefs(t.keys, t.users, t.teams + [row])
  {
    assert forall id :: HasTeam(t.teams, id) ==> HasTeam(t.teams + [row], id);
  }

  lemma InsertUserValid(t: Tables, email: string, passwordHash: string)
    requires Valid(t)
    ensures Valid(InsertUser(t, email, passwordHash).tables)
  {
    var w := InsertUser(t, email, passwordHash);
    RowsLater(t, w.tables);
    if w.row.Some? {
      UserRowsAppend(t.users, t.nextUserId, t.clock, w.row.value);
      MoreUsersKeepRefs(t, w.row.value);
    }
  }

  lemma InsertTeamWithCreatorValid(t: Tables, name: string, teamCode: string, userId: int)
    requires Valid(t)
    ensures Valid(InsertTeamWithCreator(t, name, teamCode, userId).tables)
  {
    var w := InsertTeamWithCreator(t, name, teamCode, userId);
    RowsLater(t, w.tables);
    if w.row.Some? {
      var (team, member) := w.row.value;
      TeamRowsAppend(t.teams, t.nextTeamId, t.clock, team);
      MemberRowsAppend(t.members, t.nextMemberId, t.clock, member);
      MoreTeamsKeepRefs(t, team);
      assert HasTeam(t.teams + [team], team.id) by { assert team in t.teams + [team]; }
      assert TeamRefs(t.teams + [team], t.users);
    }
  }

  lemma InsertMembershipValid(t: Tables, userId: int, teamId: int)
    requires Valid(t)
    ensures Valid(InsertMembership(t, userId, teamId).tables)
  {
    var w := InsertMembership(t, userId, teamId);
    RowsLater(t, w.tables);
    if w.row.Some? {
      MemberRowsAppend(t.members, t.nextMemberId, t.clock, w.row.value);
    }
  }

  lemma InsertKeyValid(t: Tables, name: string, encryptedKey: string, iv: string, teamId: int, createdBy: int)
    requires Valid(t)
    ensures Valid(InsertKey(t, name, encryptedKey, iv, teamId, createdBy).tables)
  {
    var w := InsertKey(t, name, encryptedKey, iv, teamId, createdBy);
    RowsLater(t, w.tables);
    if w.row.Some? {
      KeyRowsAppend(t.keys, t.nextKeyId, t.clock, w.row.value);
    }
  }

  /** Splicing one row out of the key rows keeps their constraints. */
  lemma KeyRowsSplice(keys: seq<ApiKey>, next: int, clock: Time, i: int)
    requires KeyRows(keys, next, clock)
    requires 0 <= i < |keys|
    ensures KeyRows(keys[..i] + keys[i + 1..], next, clock)
  {
    var r := keys[..i] + keys[i + 1..];
    forall a, b | 0 <= a < b < |r|
      ensures r[a].id < r[b].id && r[a].createdAt < r[b].createdAt
    {
      var a' := if a < i then a else a + 1;
      var b' := if b < i then b else b + 1;
      assert r[a] == keys[a'] && r[b] == keys[b'];
    }
    forall a | 0 <= a < |r| ensures 1 <= r[a].id < next && r[a].createdAt < clock {
      assert r[a] == keys[if a < i then a else a + 1];
    }
  }

  lemma DeleteKeyValid(t: Tables, id: int)
    requires Valid(t)
    ensures Valid(DeleteKey(t, id))
  {
    if k :| k in t.keys && k.id == id {
      var i :| 0 <= i < |t.keys| && t.keys[i] == k;
      WithoutKeySplices(t.keys, i);
      KeyRowsSplice(t.keys, t.nextKeyId, t.clock, i);
    } else {
      WithoutAbsent(t.keys, id);
    }
  }
}
