/**
 * What the vault's operations promise together: the invariant every write
 * keeps, and the laws that relate one operation to the next (join twice,
 * delete twice, reveal after create, login after register).
 */
module VaultLaws {
  import opened Foreign
  import opened JsText
  import opened Schema
  import opened Vault
  import Encryption

  /** No user is recorded twice as a member of the same team. */
  predicate UniqueMemberships(members: seq<Membership>) {
    forall i, j :: 0 <= i < j < |members| ==>
      !(members[i].userId == members[j].userId && members[i].teamId == members[j].teamId)
  }

  /** Whoever created a team belongs to it. */
  predicate CreatorsAreMembers(t: Tables) {
    forall team :: team in t.teams ==>
      exists m :: m in t.members && m.userId == team.createdBy && m.teamId == team.id
  }

  /** The database constraints and the two facts the handlers' guards maintain. */
  predicate Invariant(t: Tables) {
    Valid(t) && UniqueMemberships(t.members) && CreatorsAreMembers(t)
  }

  lemma EmptyInvariant()
    ensures Invariant(EMPTY)
  {
  }

  // ---------------------------------------------------------------- every write keeps the invariant

  lemma RegisterKeepsInvariant(lib: Primitives, t: Tables, email: string, password: string, salt: seq<byte>)
    requires Invariant(t)
    ensures Invariant(Register(lib, t, email, password, salt).tables)
  {
    if Register(lib, t, email, password, salt).result.Ok? {
      InsertUserValid(t, email, lib.bcryptHash(password, salt));
    }
  }

  /** A team the tables do not hold yet has no members. */
  lemma NewTeamHasNoMembers(t: Tables)
    requires Valid(t)
    ensures forall m :: m in t.members ==> m.teamId != t.nextTeamId
  {
    forall m | m in t.members ensures m.teamId != t.nextTeamId {
      var team :| team in t.teams && team.id == m.teamId;
      var i :| 0 <= i < |t.teams| && t.teams[i] == team;
    }
  }

  lemma CreateTeamKeepsInvariant(t: Tables, userId: int, name: string, codeDraw: seq<byte>)
    requires |codeDraw| == 4
    requires Invariant(t)
    ensures Invariant(CreateTeam(t, userId, name, codeDraw).tables)
  {
    var r := CreateTeam(t, userId, name, codeDraw);
    if 3 <= |name| <= 50 {
      InsertTeamWithCreatorValid(t, name, TeamCode(codeDraw), userId);
      if r.result.Ok? {
        var team := r.result.value;
        var m := Membership(t.nextMemberId, userId, team.id, t.clock);
        NewTeamHasNoMembers(t);
        AppendKeepsUnique(t.members, m);
        forall x | x in r.tables.teams
          ensures exists y :: y in r.tables.members && y.userId == x.createdBy && y.teamId == x.id
        {
          if x in t.teams {
            var y :| y in t.members && y.userId == x.createdBy && y.teamId == x.id;
            assert y in r.tables.members;
          } else {
            assert x == team;
            assert m in r.tables.members;
          }
        }
      }
    }
  }

  /** Adding a membership the rows do not hold yet keeps them unique. */
  lemma AppendKeepsUnique(members: seq<Membership>, m: Membership)
    requires UniqueMemberships(members)
    requires forall x :: x in members ==> !(x.userId == m.userId && x.teamId == m.teamId)
    ensures UniqueMemberships(members + [m])
  {
    var s := members + [m];
    forall i, j | 0 <= i < j < |s| ensures !(s[i].userId == s[j].userId && s[i].teamId == s[j].teamId) {
      assert s[i] == members[i];
      if j == |members| { assert s[i] in members; } else { assert s[j] == members[j]; }
    }
  }

  lemma JoinTeamKeepsInvariant(t: Tables, userId: int, code: string)
    requires Invariant(t)
    ensures Invariant(JoinTeam(t, userId, code).tables)
  {
    var r := JoinTeam(t, userId, code);
    if 4 <= |code| <= 12 {
      var found := FindTeamByCode(t, ToUpperCase(code));
      if found.Some? && !IsMember(t, userId, found.value.id) {
        InsertMembershipValid(t, userId, found.value.id);
        if r.result.Ok? {
          var m := Membership(t.nextMemberId, userId, found.value.id, t.clock);
          AppendKeepsUnique(t.members, m);
          forall x | x in r.tables.teams
            ensures exists y :: y in r.tables.members && y.userId == x.createdBy && y.teamId == x.id
          {
            var y :| y in t.members && y.userId == x.createdBy && y.teamId == x.id;
            assert y in r.tables.members;
          }
        }
      }
    }
  }

  /** Storing a key leaves the tables as the key insert does, or untouched. */
  lemma StoreKeyKeepsInvariant(env: Env, t: Tables, userId: int, name: string, key: string, teamId: int, ivDraw: seq<byte>)
    requires |ivDraw| == Encryption.IV_LENGTH
    requires Invariant(t)
    ensures Invariant(StoreKey(env, t, userId, name, key, teamId, ivDraw).tables)
  {
    var sealed := Encryption.Encrypt(env, key, ivDraw);
    if sealed.Ok? {
      InsertKeyValid(t, name, sealed.value.encrypted, sealed.value.iv, teamId, userId);
      var r := StoreKey(env, t, userId, name, key, teamId, ivDraw);
      assert r.tables == InsertKey(t, name, sealed.value.encrypted, sealed.value.iv, teamId, userId).tables;
    }
  }

  lemma CreateKeyKeepsInvariant(env: Env, t: Tables, userId: int, name: string, key: string, teamId: int,
                                ivDraw: seq<byte>)
    requires |ivDraw| == Encryption.IV_LENGTH
    requires Invariant(t)
    ensures Invariant(CreateKey(env, t, userId, name, key, teamId, ivDraw).tables)
  {
    if CreateKeyIssue(name, key, teamId).None? && IsMember(t, userId, teamId) {
      StoreKeyKeepsInvariant(env, t, userId, name, key, teamId, ivDraw);
    }
  }

  lemma CreateKeyInFirstTeamKeepsInvariant(env: Env, t: Tables, userId: int, name: string, key: string,
                                           ivDraw: seq<byte>)
    requires |ivDraw| == Encryption.IV_LENGTH
    requires Invariant(t)
    ensures Invariant(CreateKeyInFirstTeam(env, t, userId, name, key, ivDraw).tables)
  {
    var first := FirstMembershipOf(t, userId);
    if KeyFieldsIssue(name, key).None? && first.Some? {
      StoreKeyKeepsInvariant(env, t, userId, name, key, first.value.teamId, ivDraw);
    }
  }

  lemma DeleteKeyKeepsInvariant(t: Tables, userId: int, keyId: int)
    requires Invariant(t)
    ensures Invariant(Vault.DeleteKey(t, userId, keyId).tables)
  {
    DeleteKeyValid(t, keyId);
  }

  // ---------------------------------------------------------------- memberships

  /** Under the invariant a user is recorded at most once in any team. */
  lemma {:induction false} AtMostOneMembership(members: seq<Membership>, userId: int, teamId: int)
    requires UniqueMemberships(members)
    ensures MembershipCount(members, userId, teamId) <= 1
  {
    if members != [] {
      var tail := members[1..];
      assert UniqueMemberships(tail) by {
        forall i, j | 0 <= i < j < |tail|
          ensures !(tail[i].userId == tail[j].userId && tail[i].teamId == tail[j].teamId)
        {
          assert tail[i] == members[i + 1] && tail[j] == members[j + 1];
        }
      }
      AtMostOneMembership(tail, userId, teamId);
      if members[0].userId == userId && members[0].teamId == teamId {
        forall m | m in tail ensures !(m.userId == userId && m.teamId == teamId) {
          var j :| 0 <= j < |tail| && tail[j] == m;
          assert m == members[j + 1];
        }
        MembershipCountPositive(tail, userId, teamId);
      }
    }
  }

  /**
   * However many joins run one after the other, a user is a member of a team
   * at most once: a join keeps the invariant, and the invariant bounds the
   * count.
   */
  lemma JoinNeverDuplicates(t: Tables, userId: int, code: string, teamId: int)
    requires Invariant(t)
    ensures Invariant(JoinTeam(t, userId, code).tables)
    ensures MembershipCount(JoinTeam(t, userId, code).tables.members, userId, teamId) <= 1
  {
    JoinTeamKeepsInvariant(t, userId, code);
    AtMostOneMembership(JoinTeam(t, userId, code).tables.members, userId, teamId);
  }

  /** A second join with the same code is refused as a duplicate and changes nothing. */
  lemma JoinTwiceConflicts(t: Tables, userId: int, code: string)
    requires 4 <= |code| <= 12 && HasUser(t.users, userId)
    requires FindTeamByCode(t, ToUpperCase(code)).Some?
    requires !IsMember(t, userId, FindTeamByCode(t, ToUpperCase(code)).value.id)
    ensures JoinTeam(JoinTeam(t, userId, code).tables, userId, code) ==
            Step(JoinTeam(t, userId, code).tables, Err(AlreadyMember))
  {
    var first := JoinTeam(t, userId, code);
    var t' := first.tables;
    var team := first.result.value;
    assert FindTeamByCode(t', ToUpperCase(code)) == Some(team);
    var m := Membership(t.nextMemberId, userId, team.id, t.clock);
    assert m in t'.members;
    assert IsMember(t', userId, team.id);
  }

  /** The creator of a new team is recorded as its creator and is a member of it. */
  lemma CreatorIsMember(t: Tables, userId: int, name: string, codeDraw: seq<byte>)
    requires |codeDraw| == 4
    requires 3 <= |name| <= 50 && HasUser(t.users, userId)
    requires forall team :: team in t.teams ==> team.teamCode != TeamCode(codeDraw)
    ensures CreateTeam(t, userId, name, codeDraw).result.value.createdBy == userId
    ensures IsMember(CreateTeam(t, userId, name, codeDraw).tables, userId,
                     CreateTeam(t, userId, name, codeDraw).result.value.id)
  {
    var r := CreateTeam(t, userId, name, codeDraw);
    var m := Membership(t.nextMemberId, userId, r.result.value.id, t.clock);
    assert m in r.tables.members;
  }

  // ---------------------------------------------------------------- team codes

  /** A team code is 8 characters, each an upper-case hexadecimal digit. */
  lemma TeamCodeFormat(draw: seq<byte>)
    requires |draw| == 4
    ensures |TeamCode(draw)| == 8
    ensures forall i :: 0 <= i < 8 ==> TeamCode(draw)[i] in UPPER_HEX
  {
    UpperOfHexLower(draw);
  }

  /** Different draws give different codes: only equal draws can collide. */
  lemma TeamCodesDiffer(draw1: seq<byte>, draw2: seq<byte>)
    requires |draw1| == 4 && |draw2| == 4 && draw1 != draw2
    ensures TeamCode(draw1) != TeamCode(draw2)
  {
    UpperOfHexLower(draw1);
    UpperOfHexLower(draw2);
    if TeamCode(draw1) == TeamCode(draw2) {
      HexUpperInjective(draw1, draw2);
    }
  }

  /** The first team a search finds when the code was unused before the append is the appended one. */
  lemma {:induction false} FindAppendedTeam(teams: seq<Team>, row: Team)
    requires forall team :: team in teams ==> team.teamCode != row.teamCode
    ensures FirstTeam(teams + [row], row.teamCode) == Some(row)
  {
    if teams == [] {
      assert [] + [row] == [row];
    } else {
      assert (teams + [row])[1..] == teams[1..] + [row];
      assert teams[0] in teams;
      FindAppendedTeam(teams[1..], row);
    }
  }

  /**
   * The code a new team is given is accepted by join as typed: another
   * registered user who enters it becomes a member of exactly that team.
   */
  lemma JoinByIssuedCode(t: Tables, creator: int, joiner: int, name: string, codeDraw: seq<byte>)
    requires |codeDraw| == 4
    requires Valid(t)
    requires 3 <= |name| <= 50 && HasUser(t.users, creator)
    requires forall team :: team in t.teams ==> team.teamCode != TeamCode(codeDraw)
    requires HasUser(t.users, joiner) && joiner != creator
    ensures var created := CreateTeam(t, creator, name, codeDraw);
      JoinTeam(created.tables, joiner, TeamCode(codeDraw)).result == created.result
  {
    var created := CreateTeam(t, creator, name, codeDraw);
    var team, t2, code := created.result.value, created.tables, TeamCode(codeDraw);
    assert ToUpperCase(code) == code by {
      UpperOfHexLower(codeDraw);
      HexUpperIsUpperCase(codeDraw);
    }
    TeamCodeFormat(codeDraw);
    assert FindTeamByCode(t2, code) == Some(team) by {
      FindAppendedTeam(t.teams, team);
    }
    assert !IsMember(t2, joiner, team.id) by {
      NewTeamHasNoMembers(t);
    }
    assert HasTeam(t2.teams, team.id) by {
      assert t2.teams[|t.teams|] == team;
    }
  }

  /**
   * The creator of a team is already its member: entering the code the team
   * was given is refused as already a member, and changes nothing.
   */
  lemma CreatorRejoinConflicts(t: Tables, creator: int, name: string, codeDraw: seq<byte>)
    requires |codeDraw| == 4
    requires Valid(t)
    requires 3 <= |name| <= 50 && HasUser(t.users, creator)
    requires forall team :: team in t.teams ==> team.teamCode != TeamCode(codeDraw)
    ensures var created := CreateTeam(t, creator, name, codeDraw);
      JoinTeam(created.tables, creator, TeamCode(codeDraw)) == Step(created.tables, Err(AlreadyMember))
  {
    var created := CreateTeam(t, creator, name, codeDraw);
    var team, t2, code := created.result.value, created.tables, TeamCode(codeDraw);
    assert ToUpperCase(code) == code by {
      UpperOfHexLower(codeDraw);
      HexUpperIsUpperCase(codeDraw);
    }
    TeamCodeFormat(codeDraw);
    assert FindTeamByCode(t2, code) == Some(team) by {
      FindAppendedTeam(t.teams, team);
    }
    CreatorIsMember(t, creator, name, codeDraw);
  }

  // ---------------------------------------------------------------- keys

  /** A key row with an id above every id in the rows is the one that id finds. */
  lemma {:induction false} FindAppendedKey(keys: seq<ApiKey>, row: ApiKey)
    requires forall k :: k in keys ==> k.id < row.id
    ensures FirstKey(keys + [row], row.id) == Some(row)
  {
    if keys == [] {
      assert [] + [row] == [row];
    } else {
      assert (keys + [row])[1..] == keys[1..] + [row];
      assert keys[0] in keys;
      FindAppendedKey(keys[1..], row);
    }
  }

  /** The caller who just stored a key under a team can reveal it, and gets the plaintext back. */
  lemma RevealAfterCreate(env: Env, t: Tables, userId: int, name: string, key: string, teamId: int,
                          ivDraw: seq<byte>)
    requires |ivDraw| == Encryption.IV_LENGTH
    requires CipherLaws(env.lib) && Base64Laws(env.lib)
    requires Valid(t)
    requires Encryption.GetEncryptionKey(env).Ok?
    requires CreateKeyIssue(name, key, teamId).None? && IsMember(t, userId, teamId)
    ensures RevealKey(env, CreateKey(env, t, userId, name, key, teamId, ivDraw).tables, userId,
                      CreateKey(env, t, userId, name, key, teamId, ivDraw).result.value.id) == Ok(key)
  {
    var r := CreateKey(env, t, userId, name, key, teamId, ivDraw);
    var row := r.result.value;
    var t' := r.tables;
    var sealed := Encryption.Encrypt(env, key, ivDraw).value;
    assert r == StoreKey(env, t, userId, name, key, teamId, ivDraw);
    assert row.id == t.nextKeyId;
    forall k | k in t.keys ensures k.id < row.id {
      var i :| 0 <= i < |t.keys| && t.keys[i] == k;
    }
    FindAppendedKey(t.keys, row);
    assert FindKey(t', row.id) == Some(row);
    assert t'.members == t.members;
    assert AuthorizeKey(t', userId, row.id) == Ok(row);
    Encryption.EncryptDecryptRoundTrip(env, key, ivDraw);
  }

  /** After a delete went through, deleting the same id again is not found. */
  lemma DeleteTwiceNotFound(t: Tables, userId: int, keyId: int, anyUser: int)
    requires FindKey(t, keyId).Some? && IsMember(t, userId, FindKey(t, keyId).value.teamId)
    ensures Vault.DeleteKey(Vault.DeleteKey(t, userId, keyId).tables, anyUser, keyId) ==
            Step(Vault.DeleteKey(t, userId, keyId).tables, Err(KeyNotFound))
  {
  }

  /** Delete removes exactly the row with that id: the others stay, in their order. */
  lemma DeleteSplicesOneRow(t: Tables, userId: int, keyId: int)
    requires Valid(t)
    requires FindKey(t, keyId).Some? && IsMember(t, userId, FindKey(t, keyId).value.teamId)
    ensures exists i :: 0 <= i < |t.keys| && t.keys[i].id == keyId &&
              Vault.DeleteKey(t, userId, keyId).tables.keys == t.keys[..i] + t.keys[i + 1..]
    ensures Vault.DeleteKey(t, userId, keyId).tables == t.(keys := Vault.DeleteKey(t, userId, keyId).tables.keys)
  {
    var k := FindKey(t, keyId).value;
    var i :| 0 <= i < |t.keys| && t.keys[i] == k;
    WithoutKeySplices(t.keys, i);
  }

  /** Every item listed is a key of that team, projected, and every key of that team is listed. */
  lemma ListShowsExactlyTheTeamKeys(t: Tables, userId: int, teamId: int)
    requires IsMember(t, userId, teamId)
    ensures forall item :: item in ListKeys(t, userId, teamId).value <==>
              exists k :: k in t.keys && k.teamId == teamId && item == Info(k)
  {
    var listed := ListKeys(t, userId, teamId).value;
    var own := KeysOfTeam(t.keys, teamId);
    forall item ensures item in listed <==> exists k :: k in t.keys && k.teamId == teamId && item == Info(k) {
      assert item in listed <==> item in multiset(Project(own));
      ProjectHas(own, item);
    }
  }

  /** A projected list holds exactly the projections of its rows. */
  lemma ProjectHas(keys: seq<ApiKey>, item: KeyInfo)
    ensures item in Project(keys) <==> exists k :: k in keys && item == Info(k)
  {
    var projected := Project(keys);
    if item in projected {
      var i :| 0 <= i < |projected| && projected[i] == item;
      assert keys[i] in keys;
    }
    if k :| k in keys && item == Info(k) {
      var i :| 0 <= i < |keys| && keys[i] == k;
      assert projected[i] == item;
    }
  }

  // ---------------------------------------------------------------- auth

  /** The first user a search finds when the email was unused before the append is the appended one. */
  lemma {:induction false} FindAppendedUser(users: seq<User>, row: User)
    requires forall u :: u in users ==> u.email != row.email
    ensures FirstUser(users + [row], row.email) == Some(row)
  {
    if users == [] {
      assert [] + [row] == [row];
    } else {
      assert (users + [row])[1..] == users[1..] + [row];
      assert users[0] in users;
      FindAppendedUser(users[1..], row);
    }
  }

  /** Logging in with the credentials just registered finds the new user. */
  lemma LoginAfterRegister(lib: Primitives, t: Tables, email: string, password: string, salt: seq<byte>)
    requires BcryptLaws(lib)
    requires lib.isEmail(email) && |password| >= 8 && forall u :: u in t.users ==> u.email != email
    ensures Login(lib, Register(lib, t, email, password, salt).tables, email, password) ==
            Ok(Register(lib, t, email, password, salt).result.value)
  {
    var r := Register(lib, t, email, password, salt);
    FindAppendedUser(t.users, r.result.value);
  }

  /** An unknown email and a wrong password are refused alike. */
  lemma LoginFailureIsGeneric(lib: Primitives, t: Tables, email: string, password: string)
    requires lib.isEmail(email) && password != ""
    requires (forall u :: u in t.users ==> u.email != email) ||
             (FindUserByEmail(t, email).Some? && !lib.bcryptCompare(password, FindUserByEmail(t, email).value.passwordHash))
    ensures Login(lib, t, email, password) == Err(BadCredentials)
  {
  }
}
