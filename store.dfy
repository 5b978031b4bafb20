/**
 * The database the handlers share (src/db): the four tables and their id
 * sequences held as fields that each statement updates in place. Every method
 * is one SQL statement, proved to leave the tables as the corresponding
 * function of Schema says.
 */
module Store {
  import opened Foreign
  import opened Schema

  class Database {
    var users: seq<User>
    var teams: seq<Team>
    var members: seq<Membership>
    var keys: seq<ApiKey>
    var nextUserId: int
    var nextTeamId: int
    var nextMemberId: int
    var nextKeyId: int
    var clock: Time

    /** The tables as a value. */
    function Snapshot(): Tables
      reads this
    {
      Tables(users, teams, members, keys, nextUserId, nextTeamId, nextMemberId, nextKeyId, clock)
    }

    constructor ()
      ensures Snapshot() == EMPTY
    {
      users, teams, members, keys := [], [], [], [];
      nextUserId, nextTeamId, nextMemberId, nextKeyId := 1, 1, 1, 1;
      clock := 0;
    }

    method InsertUser(email: string, passwordHash: string) returns (row: Option<User>)
      modifies this
      ensures Write(Snapshot(), row) == Schema.InsertUser(old(Snapshot()), email, passwordHash)
    {
      var id := nextUserId;
      var taken := FindUserByEmail(Snapshot(), email).Some?;
      nextUserId := nextUserId + 1;
      if taken {
        return None;
      }
      var user := User(id, email, passwordHash, DEFAULT_ROLE, clock);
      users := users + [user];
      clock := clock + 1;
      row := Some(user);
    }

    /** The team-creation transaction: both inserts happen, or neither does. */
    method InsertTeamWithCreator(name: string, teamCode: string, userId: int) returns (row: Option<(Team, Membership)>)
      modifies this
      ensures Write(Snapshot(), row) == Schema.InsertTeamWithCreator(old(Snapshot()), name, teamCode, userId)
    {
      var teamId := nextTeamId;
      var refused := !HasUser(users, userId) || FindTeamByCode(Snapshot(), teamCode).Some?;
      nextTeamId := nextTeamId + 1;
      if refused {
        return None;
      }
      var team := Team(teamId, name, teamCode, userId, clock);
      var member := Membership(nextMemberId, userId, teamId, clock);
      teams := teams + [team];
      members := members + [member];
      nextMemberId := nextMemberId + 1;
      clock := clock + 1;
      row := Some((team, member));
    }

    method InsertMembership(userId: int, teamId: int) returns (row: Option<Membership>)
      modifies this
      ensures Write(Snapshot(), row) == Schema.InsertMembership(old(Snapshot()), userId, teamId)
    {
      var id := nextMemberId;
      nextMemberId := nextMemberId + 1;
      if !HasUser(users, userId) || !HasTeam(teams, teamId) {
        return None;
      }
      var member := Membership(id, userId, teamId, clock);
      members := members + [member];
      clock := clock + 1;
      row := Some(member);
    }

    method InsertKey(name: string, encryptedKey: string, iv: string, teamId: int, createdBy: int)
      returns (row: Option<ApiKey>)
      modifies this
      ensures Write(Snapshot(), row) == Schema.InsertKey(old(Snapshot()), name, encryptedKey, iv, teamId, createdBy)
    {
      var id := nextKeyId;
      nextKeyId := nextKeyId + 1;
      if !HasTeam(teams, teamId) || !HasUser(users, createdBy) {
        return None;
      }
      var key := ApiKey(id, name, encryptedKey, iv, teamId, createdBy, clock);
      keys := keys + [key];
      clock := clock + 1;
      row := Some(key);
    }

    method DeleteKey(id: int)
      modifies this
      ensures Snapshot() == Schema.DeleteKey(old(Snapshot()), id)
    {
      keys := WithoutKey(keys, id);
    }
  }
}
