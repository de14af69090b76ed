/**
Invitations and passwords: the routes that change users and their one-time tokens
(src/api/routers/users.py, src/api/routers/auth.py, src/services/db/repository.py),
as a state machine over the two tables. Each route is one transaction; a route that
raises changes nothing.
*/
module Invites {
  import opened Wrappers
  import opened Runs

  type UserId = int

  datatype User = User(
    username: string,
    passwordHash: string,
    isSuperuser: bool,
    isActive: bool,
    mustChangePassword: bool,
    passwordChangedAt: Option<int>)

  datatype Token = Token(userId: UserId, expiresAt: int, usedAt: Option<int>)

  /** The two tables; tokens are keyed by their unique hash. */
  datatype State = State(users: map<UserId, User>, tokens: map<string, Token>)

  const EMPTY := State(map[], map[])

  datatype Event =
    | Bootstrap(id: UserId, username: string, passwordHash: string, now: int)
    | Create(admin: UserId, id: UserId, username: string, superuser: bool, placeholder: string, tokenHash: string,
             expiresAt: int)
    | Invite(admin: UserId, id: UserId, placeholder: string, tokenHash: string, expiresAt: int, now: int)
    | SetActive(admin: UserId, id: UserId, active: bool)
    | SetSuperuser(admin: UserId, id: UserId, superuser: bool)
    | Delete(admin: UserId, id: UserId)
    | SetPassword(tokenHash: string, newHash: string, now: int)

  datatype Response =
    | Done
    | Forbidden
    | UserNotFound
    | InvalidOrExpiredToken
    | AlreadyBootstrapped
    | UniqueViolation
    | NoSuchRow

  datatype Reply = Reply(state: State, response: Response)

  // ----- the routes -----

  predicate IsSuperuser(s: State, id: UserId) {
    id in s.users && s.users[id].isSuperuser && s.users[id].isActive
  }

  predicate UsernameTaken(s: State, username: string) {
    exists id | id in s.users :: s.users[id].username == username
  }

  /** `UserRepository.create`: a password that need not be changed counts as changed now. */
  function NewUser(username: string, passwordHash: string, superuser: bool, mustChange: bool, now: int): User {
    User(username, passwordHash, superuser, true, mustChange, if mustChange then None else Some(now))
  }

  /** `invalidate_previous`: every unused token of the user becomes used. */
  function InvalidatePrevious(tokens: map<string, Token>, id: UserId, now: int): map<string, Token> {
    map h | h in tokens ::
      if tokens[h].userId == id && tokens[h].usedAt.None? then tokens[h].(usedAt := Some(now)) else tokens[h]
  }

  /** Deleting a user deletes its tokens. */
  function TokensOfOthers(tokens: map<string, Token>, id: UserId): map<string, Token> {
    map h | h in tokens && tokens[h].userId != id :: tokens[h]
  }

  predicate CanSetPassword(s: State, hash: string, now: int) {
    && hash in s.tokens
    && s.tokens[hash].usedAt.None?
    && now <= s.tokens[hash].expiresAt
    && s.tokens[hash].userId in s.users
    && s.users[s.tokens[hash].userId].isActive
  }

  function WithUser(s: State, id: UserId, u: User): State {
    s.(users := s.users[id := u])
  }

  function Exec(s: State, e: Event): Reply {
    match e
    case Bootstrap(id, username, passwordHash, now) =>
      if s.users != map[] then Reply(s, AlreadyBootstrapped)
      else Reply(WithUser(s, id, NewUser(username, passwordHash, true, false, now)), Done)
    case Create(admin, id, username, superuser, placeholder, tokenHash, expiresAt) =>
      if !IsSuperuser(s, admin) then Reply(s, Forbidden)
      else if id in s.users || UsernameTaken(s, username) || tokenHash in s.tokens then Reply(s, UniqueViolation)
      else Reply(State(s.users[id := NewUser(username, placeholder, superuser, true, 0)],
                       s.tokens[tokenHash := Token(id, expiresAt, None)]), Done)
    case Invite(admin, id, placeholder, tokenHash, expiresAt, now) =>
      if !IsSuperuser(s, admin) then Reply(s, Forbidden)
      else if id !in s.users then Reply(s, UserNotFound)
      else if tokenHash in s.tokens then Reply(s, UniqueViolation)
      else
        var reset := s.users[id].(passwordHash := placeholder, mustChangePassword := true, passwordChangedAt := None);
        Reply(State(s.users[id := reset],
                    InvalidatePrevious(s.tokens, id, now)[tokenHash := Token(id, expiresAt, None)]), Done)
    case SetActive(admin, id, active) =>
      if !IsSuperuser(s, admin) then Reply(s, Forbidden)
      else if id !in s.users then Reply(s, NoSuchRow)
      else Reply(WithUser(s, id, s.users[id].(isActive := active)), Done)
    case SetSuperuser(admin, id, superuser) =>
      if !IsSuperuser(s, admin) then Reply(s, Forbidden)
      else if id !in s.users then Reply(s, NoSuchRow)
      else Reply(WithUser(s, id, s.users[id].(isSuperuser := superuser)), Done)
    case Delete(admin, id) =>
      if !IsSuperuser(s, admin) then Reply(s, Forbidden)
      else if id !in s.users then Reply(s, NoSuchRow)
      else Reply(State(s.users - {id}, TokensOfOthers(s.tokens, id)), Done)
    case SetPassword(hash, newHash, now) =>
      if !CanSetPassword(s, hash, now) then Reply(s, InvalidOrExpiredToken)
      else
        var token := s.tokens[hash];
        var user := s.users[token.userId];
        var changed := user.(passwordHash := newHash, mustChangePassword := false, passwordChangedAt := Some(now));
        Reply(State(s.users[token.userId := changed], s.tokens[hash := token.(usedAt := Some(now))]), Done)
  }

  function Step(s: State, e: Event): State {
    Exec(s, e).state
  }

  function After(s: State, es: seq<Event>): State {
    Run(Step, s, es)
  }

  // ----- the invariant -----

  predicate Unused(s: State, id: UserId, hash: string) {
    hash in s.tokens && s.tokens[hash].userId == id && s.tokens[hash].usedAt.None?
  }

  /** The flags of a user and its tokens agree: exactly one open invitation, or none. */
  ghost predicate InviteInv(s: State, id: UserId)
    requires id in s.users
  {
    var u := s.users[id];
    && (u.mustChangePassword <==> u.passwordChangedAt.None?)
    && (u.mustChangePassword <==> exists h :: Unused(s, id, h))
    && (forall g, h | Unused(s, id, g) && Unused(s, id, h) :: g == h)
  }

  ghost predicate Inv(s: State) {
    && (forall h | h in s.tokens :: s.tokens[h].userId in s.users)
    && (forall i, j | i in s.users && j in s.users && s.users[i].username == s.users[j].username :: i == j)
    && (forall id | id in s.users :: InviteInv(s, id))
  }

  /** A user whose row keeps its flags and whose unused tokens stay the same keeps its invariant. */
  lemma SameTokensSameInv(s: State, t: State, id: UserId)
    requires id in s.users && id in t.users && InviteInv(s, id)
    requires t.users[id].mustChangePassword == s.users[id].mustChangePassword
    requires t.users[id].passwordChangedAt == s.users[id].passwordChangedAt
    requires forall h :: Unused(t, id, h) <==> Unused(s, id, h)
    ensures InviteInv(t, id)
  {
    if h :| Unused(s, id, h) {
      assert Unused(t, id, h);
    }
    if h :| Unused(t, id, h) {
      assert Unused(s, id, h);
    }
  }

  lemma OnlyToken(t: State, id: UserId, hash: string)
    requires id in t.users && t.users[id].mustChangePassword && t.users[id].passwordChangedAt.None?
    requires forall h :: Unused(t, id, h) <==> h == hash
    ensures InviteInv(t, id)
  {
    assert Unused(t, id, hash);
  }

  lemma NoToken(t: State, id: UserId)
    requires id in t.users && !t.users[id].mustChangePassword && t.users[id].passwordChangedAt.Some?
    requires forall h :: !Unused(t, id, h)
    ensures InviteInv(t, id)
  {
  }

  lemma CreateKeepsInv(s: State, e: Event)
    requires Inv(s) && e.Create?
    ensures Inv(Step(s, e))
  {
    var t := Step(s, e);
    if t != s {
      forall id | id in t.users ensures InviteInv(t, id) {
        if id == e.id {
          OnlyToken(t, id, e.tokenHash);
        } else {
          SameTokensSameInv(s, t, id);
        }
      }
    }
  }

  lemma InviteKeepsInv(s: State, e: Event)
    requires Inv(s) && e.Invite?
    ensures Inv(Step(s, e))
  {
    var t := Step(s, e);
    if t != s {
      forall id | id in t.users ensures InviteInv(t, id) {
        if id == e.id {
          OnlyToken(t, id, e.tokenHash);
        } else {
          SameTokensSameInv(s, t, id);
        }
      }
    }
  }

  lemma SetPasswordKeepsInv(s: State, e: Event)
    requires Inv(s) && e.SetPassword?
    ensures Inv(Step(s, e))
  {
    var t := Step(s, e);
    if t != s {
      var owner := s.tokens[e.tokenHash].userId;
      assert Unused(s, owner, e.tokenHash);
      forall id | id in t.users ensures InviteInv(t, id) {
        if id == owner {
          assert InviteInv(s, owner);
          forall h ensures !Unused(t, id, h) {
            assert Unused(t, id, h) ==> Unused(s, id, h);
          }
          NoToken(t, id);
        } else {
          SameTokensSameInv(s, t, id);
        }
      }
    }
  }

  lemma FlagsKeepInv(s: State, e: Event)
    requires Inv(s) && (e.SetActive? || e.SetSuperuser?)
    ensures Inv(Step(s, e))
  {
    var t := Step(s, e);
    forall id | id in t.users ensures InviteInv(t, id) {
      SameTokensSameInv(s, t, id);
    }
  }

  lemma DeleteKeepsInv(s: State, e: Event)
    requires Inv(s) && e.Delete?
    ensures Inv(Step(s, e))
  {
    var t := Step(s, e);
    forall id | id in t.users ensures InviteInv(t, id) {
      assert forall h :: Unused(t, id, h) <==> Unused(s, id, h);
      SameTokensSameInv(s, t, id);
    }
  }

  lemma BootstrapKeepsInv(s: State, e: Event)
    requires Inv(s) && e.Bootstrap?
    ensures Inv(Step(s, e))
  {
    var t := Step(s, e);
    if t != s {
      assert forall h :: h !in s.tokens;
      NoToken(t, e.id);
    }
  }

  lemma StepKeepsInv(s: State, e: Event)
    requires Inv(s)
    ensures Inv(Step(s, e))
  {
    match e
    case Create(_, _, _, _, _, _, _) => CreateKeepsInv(s, e);
    case Invite(_, _, _, _, _, _) => InviteKeepsInv(s, e);
    case SetPassword(_, _, _) => SetPasswordKeepsInv(s, e);
    case Delete(_, _) => DeleteKeepsInv(s, e);
    case Bootstrap(_, _, _, _) => BootstrapKeepsInv(s, e);
    case _ => FlagsKeepInv(s, e);
  }

  lemma {:induction false} RunKeepsInv(s: State, es: seq<Event>)
    requires Inv(s)
    ensures Inv(After(s, es))
    decreases |es|
  {
    if es == [] {
    } else {
      StepKeepsInv(s, es[0]);
      RunKeepsInv(Step(s, es[0]), es[1..]);
    }
  }

  /**
   In every state the system can reach, a user must change the password exactly when it was never set since
   the last invitation, and exactly when one unused token is open for it; otherwise no token is open.
   */
  lemma FlagsAndTokensAgree(es: seq<Event>, id: UserId)
    requires id in After(EMPTY, es).users
    ensures var s := After(EMPTY, es);
            && (s.users[id].mustChangePassword <==> s.users[id].passwordChangedAt.None?)
            && (s.users[id].mustChangePassword <==> exists h :: Unused(s, id, h))
            && (forall g, h | Unused(s, id, g) && Unused(s, id, h) :: g == h)
  {
    RunKeepsInv(EMPTY, es);
    assert InviteInv(After(EMPTY, es), id);
  }

  // ----- tokens work once -----

  /** A token that cannot be used: used, superseded, or deleted with its user. */
  predicate Spent(s: State, hash: string) {
    hash in s.tokens ==> s.tokens[hash].usedAt.Some?
  }

  /** The reply to the event at position i of a run. */
  function ReplyAt(s: State, es: seq<Event>, i: nat): Reply
    requires i < |es|
  {
    Exec(After(s, es[..i]), es[i])
  }

  /**
   Event l issues the hash although it was issued before: possible only because its row is gone, deleted together
   with its user, and the random generator drew the same token again.
   */
  predicate DrawnAgain(s: State, es: seq<Event>, l: nat, hash: string)
    requires l < |es|
  {
    && (es[l].Create? || es[l].Invite?) && es[l].tokenHash == hash
    && hash !in After(s, es[..l]).tokens
    && ReplyAt(s, es, l).response == Done
  }

  lemma {:induction false} SpentStaysSpent(s: State, es: seq<Event>, hash: string)
    requires Spent(s, hash)
    ensures Spent(After(s, es), hash) || exists l: nat | l < |es| :: DrawnAgain(s, es, l, hash)
    decreases |es|
  {
    if es == [] {
    } else {
      var t := Step(s, es[0]);
      assert es[..0] == [];
      if Spent(t, hash) {
        SpentStaysSpent(t, es[1..], hash);
        if !Spent(After(t, es[1..]), hash) {
          var l: nat :| l < |es[1..]| && DrawnAgain(t, es[1..], l, hash);
          assert es[..l + 1] == [es[0]] + es[1..][..l];
          assert DrawnAgain(s, es, l + 1, hash);
        }
      } else {
        assert DrawnAgain(s, es, 0, hash);
      }
    }
  }

  /** Whether some event strictly between i and j draws the hash again. */
  ghost predicate DrawnAgainBetween(es: seq<Event>, i: nat, j: nat, hash: string)
    requires i < j <= |es|
  {
    exists l: nat | i < l < j :: DrawnAgain(EMPTY, es, l, hash)
  }

  /** The run up to a later point is the state after event i, then the events in between. */
  lemma RunContinues(es: seq<Event>, i: nat, k: nat)
    requires i < k <= |es|
    ensures After(EMPTY, es[..k]) == After(ReplyAt(EMPTY, es, i).state, es[i + 1..][..k - i - 1])
  {
    var between := es[i + 1..][..k - i - 1];
    RunSnoc(Step, EMPTY, es[..i], es[i]);
    RunConcat(Step, EMPTY, es[..i] + [es[i]], between);
    assert es[..k] == (es[..i] + [es[i]]) + between;
  }

  lemma DrawnAgainLater(es: seq<Event>, i: nat, j: nat, l: nat, hash: string)
    requires i < j <= |es| && l < j - i - 1
    requires DrawnAgain(ReplyAt(EMPTY, es, i).state, es[i + 1..][..j - i - 1], l, hash)
    ensures DrawnAgain(EMPTY, es, i + 1 + l, hash)
  {
    RunContinues(es, i, i + 1 + l);
    assert es[i + 1..][..j - i - 1][..l] == es[i + 1..][..l];
    assert es[i + 1..][..j - i - 1][l] == es[i + 1 + l];
  }

  lemma SpentTokenIsRefused(es: seq<Event>, i: nat, j: nat)
    requires i < j < |es| && es[j].SetPassword?
    requires Spent(ReplyAt(EMPTY, es, i).state, es[j].tokenHash)
    ensures || ReplyAt(EMPTY, es, j) == Reply(After(EMPTY, es[..j]), InvalidOrExpiredToken)
            || DrawnAgainBetween(es, i, j, es[j].tokenHash)
  {
    var hash, t, between := es[j].tokenHash, ReplyAt(EMPTY, es, i).state, es[i + 1..][..j - i - 1];
    RunContinues(es, i, j);
    SpentStaysSpent(t, between, hash);
    if !Spent(After(t, between), hash) {
      var l: nat :| l < |between| && DrawnAgain(t, between, l, hash);
      DrawnAgainLater(es, i, j, l, hash);
    }
  }

  /**
   In any run a token sets a password at most once: after it did, every further use is refused, unless the very same
   random token was drawn again after its user was deleted.
   */
  lemma TokensWorkOnce(es: seq<Event>, i: nat, j: nat)
    requires i < j < |es| && es[i].SetPassword? && es[j].SetPassword?
    requires es[i].tokenHash == es[j].tokenHash
    requires ReplyAt(EMPTY, es, i).response == Done
    ensures || ReplyAt(EMPTY, es, j) == Reply(After(EMPTY, es[..j]), InvalidOrExpiredToken)
            || DrawnAgainBetween(es, i, j, es[j].tokenHash)
  {
    SpentTokenIsRefused(es, i, j);
  }

  /** Inviting a user again, or deleting it, kills every token it had before, with the same proviso. */
  lemma OldTokensDie(es: seq<Event>, i: nat, j: nat)
    requires i < j < |es| && (es[i].Invite? || es[i].Delete?) && es[j].SetPassword?
    requires ReplyAt(EMPTY, es, i).response == Done
    requires var s := After(EMPTY, es[..i]);
             es[j].tokenHash in s.tokens && s.tokens[es[j].tokenHash].userId == es[i].id
    ensures || ReplyAt(EMPTY, es, j) == Reply(After(EMPTY, es[..j]), InvalidOrExpiredToken)
            || DrawnAgainBetween(es, i, j, es[j].tokenHash)
  {
    SpentTokenIsRefused(es, i, j);
  }

  /** A token is accepted exactly when it is the open invitation of an active user and has not expired. */
  lemma TokenIsAcceptedIff(es: seq<Event>, hash: string, newHash: string, now: int)
    ensures var s := After(EMPTY, es);
            Exec(s, SetPassword(hash, newHash, now)).response == Done <==>
            exists id | id in s.users :: s.users[id].isActive && s.users[id].mustChangePassword && Unused(s, id, hash)
                                         && now <= s.tokens[hash].expiresAt
  {
    RunKeepsInv(EMPTY, es);
    var s := After(EMPTY, es);
    if CanSetPassword(s, hash, now) {
      var id := s.tokens[hash].userId;
      assert InviteInv(s, id) && Unused(s, id, hash);
    }
  }

  /** A password changes only with a token of its user, or under an administrator's hand. */
  lemma WhoChangesPasswords(s: State, e: Event, id: UserId)
    requires Inv(s) && id in s.users && id in Step(s, e).users
    requires Step(s, e).users[id].passwordHash != s.users[id].passwordHash
    ensures || (e.SetPassword? && Unused(s, id, e.tokenHash) && Step(s, e).users[id].passwordHash == e.newHash)
            || (e.Invite? && e.id == id && IsSuperuser(s, e.admin) && Step(s, e).users[id].mustChangePassword)
  {
  }

  // ----- lock-out -----

  ghost predicate NobodyAdministers(s: State) {
    s.users != map[] && forall id | id in s.users :: !IsSuperuser(s, id)
  }

  /**
   Nothing stops the last active superuser from being demoted or disabled, and then no run of any length
   brings an administrator back.
   */
  lemma {:induction false} LockOutIsPermanent(s: State, es: seq<Event>)
    requires NobodyAdministers(s)
    ensures NobodyAdministers(After(s, es))
    ensures After(s, es).users.Keys == s.users.Keys
    decreases |es|
  {
    if es == [] {
    } else {
      var t := Step(s, es[0]);
      assert t.users.Keys == s.users.Keys;
      assert forall id | id in t.users :: IsSuperuser(t, id) == IsSuperuser(s, id);
      LockOutIsPermanent(t, es[1..]);
    }
  }

  /** A step takes the last administrator away exactly when it demotes, disables or deletes the only one left. */
  lemma HowTheLastAdministratorGoes(s: State, e: Event)
    requires s.users != map[] && !NobodyAdministers(s)
    ensures NobodyAdministers(Step(s, e)) <==>
            && ((e.SetActive? && !e.active) || (e.SetSuperuser? && !e.superuser) || e.Delete?)
            && (forall id :: IsSuperuser(s, id) <==> id == e.id)
            && IsSuperuser(s, e.admin)
            && (e.Delete? ==> s.users.Keys != {e.id})
  {
    var t := Step(s, e);
    var boss :| boss in s.users && IsSuperuser(s, boss);
    if t == s {
      assert NobodyAdministers(t) == NobodyAdministers(s);
    } else if e.SetActive? || e.SetSuperuser? {
      assert e.id in t.users && t.users != map[];
      assert IsSuperuser(t, e.id) <==> t.users[e.id].isSuperuser && t.users[e.id].isActive;
      assert IsSuperuser(s, e.admin);
      assert forall id | id in s.users && id != e.id :: id in t.users && IsSuperuser(t, id) == IsSuperuser(s, id);
    } else if e.Delete? {
      assert forall id | id in s.users && id != e.id && t != s ::
               id in t.users && IsSuperuser(t, id) == IsSuperuser(s, id);
      assert t != s ==> t.users.Keys == s.users.Keys - {e.id};
      assert t.users != map[] <==> t.users.Keys != {};
    } else {
      assert boss in t.users && IsSuperuser(t, boss);
    }
  }
}
