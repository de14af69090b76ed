/**
The repositories and routes behind the invitation state machine, as operations on
mutable tables: each route performs its row updates one by one and commits, or raises
and rolls back. Serving a sequence of requests is a run of the state machine.
*/
module InviteRoutes {
  import opened Wrappers
  import opened Invites
  import opened Runs

  class UserDatabase {
    var users: map<UserId, User>
    var tokens: map<string, Token>

    ghost function Rows(): State
      reads this
    {
      State(users, tokens)
    }

    constructor ()
      ensures Rows() == EMPTY
    {
      users, tokens := map[], map[];
    }

    // ----- repositories -----

    /** `UserRepository.create`; false stands for a violated unique constraint. */
    method CreateUser(id: UserId, username: string, passwordHash: string, superuser: bool, mustChange: bool, now: int)
      returns (ok: bool)
      modifies this`users
      ensures ok <==> old(id !in users && !UsernameTaken(Rows(), username))
      ensures users == if !ok then old(users)
                       else old(users)[id := NewUser(username, passwordHash, superuser, mustChange, now)]
    {
      if id in users || exists i | i in users :: users[i].username == username {
        return false;
      }
      var passwordChangedAt := if !mustChange then Some(now) else None;
      users := users[id := User(username, passwordHash, superuser, true, mustChange, passwordChangedAt)];
      ok := true;
    }

    /** `UserRepository.mark_password_reset_required`. */
    method MarkPasswordResetRequired(id: UserId, placeholder: string)
      requires id in users
      modifies this`users
      ensures users ==
              old(users)[id := old(users)[id].(passwordHash := placeholder, mustChangePassword := true,
                                               passwordChangedAt := None)]
    {
      var row := users[id];
      row := row.(passwordHash := placeholder);
      row := row.(mustChangePassword := true);
      row := row.(passwordChangedAt := None);
      users := users[id := row];
    }

    /** `PasswordSetTokenRepository.create_token`; false stands for a violated unique constraint. */
    method CreateToken(id: UserId, tokenHash: string, expiresAt: int) returns (ok: bool)
      modifies this`tokens
      ensures ok <==> tokenHash !in old(tokens)
      ensures tokens == if ok then old(tokens)[tokenHash := Token(id, expiresAt, None)] else old(tokens)
    {
      if tokenHash in tokens {
        return false;
      }
      tokens := tokens[tokenHash := Token(id, expiresAt, None)];
      ok := true;
    }

    /** `PasswordSetTokenRepository.invalidate_previous`: row by row, in any order. */
    method TokensInvalidatePrevious(id: UserId, invalidatedAt: int) returns (count: nat)
      modifies this`tokens
      ensures tokens == InvalidatePrevious(old(tokens), id, invalidatedAt)
      ensures count == |set h | h in old(tokens) && old(tokens)[h].userId == id && old(tokens)[h].usedAt.None?|
    {
      var rows := set h | h in tokens && tokens[h].userId == id && tokens[h].usedAt.None?;
      count := |rows|;
      while rows != {}
        invariant rows <= tokens.Keys == old(tokens.Keys)
        invariant forall h | h in tokens ::
                    if h in rows then tokens[h] == old(tokens)[h] && tokens[h].userId == id && tokens[h].usedAt.None?
                    else tokens[h] == InvalidatePrevious(old(tokens), id, invalidatedAt)[h]
        decreases rows
      {
        var h :| h in rows;
        tokens := tokens[h := tokens[h].(usedAt := Some(invalidatedAt))];
        rows := rows - {h};
      }
    }

    // ----- routes -----

    method Bootstrap(id: UserId, username: string, passwordHash: string, now: int) returns (r: Response)
      modifies this
      ensures Reply(Rows(), r) == Exec(old(Rows()), Event.Bootstrap(id, username, passwordHash, now))
    {
      if |users| > 0 {
        return AlreadyBootstrapped;
      }
      var ok := CreateUser(id, username, passwordHash, true, false, now);
      r := Done;
    }

    method CreateInvited(admin: UserId, id: UserId, username: string, superuser: bool, placeholder: string,
                         tokenHash: string, expiresAt: int)
      returns (r: Response)
      modifies this
      ensures Reply(Rows(), r) ==
              Exec(old(Rows()), Create(admin, id, username, superuser, placeholder, tokenHash, expiresAt))
    {
      if !(admin in users && users[admin].isSuperuser && users[admin].isActive) {
        return Forbidden;
      }
      var usersBefore := users;
      var ok := CreateUser(id, username, placeholder, superuser, true, 0);
      if !ok {
        return UniqueViolation;
      }
      ok := CreateToken(id, tokenHash, expiresAt);
      if !ok {
        users := usersBefore;
        return UniqueViolation;
      }
      r := Done;
    }

    method InviteUser(admin: UserId, id: UserId, placeholder: string, tokenHash: string, expiresAt: int, now: int)
      returns (r: Response)
      modifies this
      ensures Reply(Rows(), r) == Exec(old(Rows()), Invite(admin, id, placeholder, tokenHash, expiresAt, now))
    {
      if !(admin in users && users[admin].isSuperuser && users[admin].isActive) {
        return Forbidden;
      }
      if id !in users {
        return UserNotFound;
      }
      var usersBefore, tokensBefore := users, tokens;
      MarkPasswordResetRequired(id, placeholder);
      var count := TokensInvalidatePrevious(id, now);
      var ok := CreateToken(id, tokenHash, expiresAt);
      if !ok {
        users, tokens := usersBefore, tokensBefore;
        return UniqueViolation;
      }
      r := Done;
    }

    /** The enable and disable routes. */
    method ChangeActive(admin: UserId, id: UserId, active: bool) returns (r: Response)
      modifies this`users
      ensures Reply(Rows(), r) == Exec(old(Rows()), SetActive(admin, id, active))
    {
      if !(admin in users && users[admin].isSuperuser && users[admin].isActive) {
        return Forbidden;
      }
      if id !in users {
        return NoSuchRow;
      }
      users := users[id := users[id].(isActive := active)];
      r := Done;
    }

    /** The promote and demote routes. */
    method ChangeSuperuser(admin: UserId, id: UserId, superuser: bool) returns (r: Response)
      modifies this`users
      ensures Reply(Rows(), r) == Exec(old(Rows()), SetSuperuser(admin, id, superuser))
    {
      if !(admin in users && users[admin].isSuperuser && users[admin].isActive) {
        return Forbidden;
      }
      if id !in users {
        return NoSuchRow;
      }
      users := users[id := users[id].(isSuperuser := superuser)];
      r := Done;
    }

    method DeleteUser(admin: UserId, id: UserId) returns (r: Response)
      modifies this
      ensures Reply(Rows(), r) == Exec(old(Rows()), Delete(admin, id))
    {
      if !(admin in users && users[admin].isSuperuser && users[admin].isActive) {
        return Forbidden;
      }
      if id !in users {
        return NoSuchRow;
      }
      users := users - {id};
      tokens := map h | h in tokens && tokens[h].userId != id :: tokens[h];
      r := Done;
    }

    method ChoosePassword(tokenHash: string, newHash: string, now: int) returns (r: Response)
      modifies this
      ensures Reply(Rows(), r) == Exec(old(Rows()), SetPassword(tokenHash, newHash, now))
    {
      if tokenHash !in tokens || tokens[tokenHash].usedAt.Some? || tokens[tokenHash].expiresAt < now {
        return InvalidOrExpiredToken;
      }
      var owner := tokens[tokenHash].userId;
      if owner !in users || !users[owner].isActive {
        return InvalidOrExpiredToken;
      }
      var row := users[owner];
      row := row.(passwordHash := newHash);
      row := row.(mustChangePassword := false);
      row := row.(passwordChangedAt := Some(now));
      users := users[owner := row];
      tokens := tokens[tokenHash := tokens[tokenHash].(usedAt := Some(now))];
      r := Done;
    }

    // ----- serving requests -----

    method Serve(e: Event) returns (r: Response)
      modifies this
      ensures Reply(Rows(), r) == Exec(old(Rows()), e)
    {
      match e
      case Bootstrap(id, username, passwordHash, now) => r := Bootstrap(id, username, passwordHash, now);
      case Create(admin, id, username, superuser, placeholder, tokenHash, expiresAt) =>
        r := CreateInvited(admin, id, username, superuser, placeholder, tokenHash, expiresAt);
      case Invite(admin, id, placeholder, tokenHash, expiresAt, now) =>
        r := InviteUser(admin, id, placeholder, tokenHash, expiresAt, now);
      case SetActive(admin, id, active) => r := ChangeActive(admin, id, active);
      case SetSuperuser(admin, id, superuser) => r := ChangeSuperuser(admin, id, superuser);
      case Delete(admin, id) => r := DeleteUser(admin, id);
      case SetPassword(tokenHash, newHash, now) => r := ChoosePassword(tokenHash, newHash, now);
    }

    /** Whatever requests are served, the tables go through the states of the run of those requests. */
    method ServeAll(es: seq<Event>) returns (replies: seq<Response>)
      modifies this
      ensures Rows() == After(old(Rows()), es)
      ensures |replies| == |es| && forall i | 0 <= i < |es| :: replies[i] == ReplyAt(old(Rows()), es, i).response
    {
      replies := [];
      for k := 0 to |es|
        invariant Rows() == After(old(Rows()), es[..k])
        invariant |replies| == k && forall i | 0 <= i < k :: replies[i] == ReplyAt(old(Rows()), es, i).response
      {
        var r := Serve(es[k]);
        replies := replies + [r];
        RunSnoc(Step, old(Rows()), es[..k], es[k]);
        assert es[..k + 1] == es[..k] + [es[k]];
      }
      assert es[..|es|] == es;
    }
  }
}
