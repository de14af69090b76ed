/**
The users and tokens of Invites as the log of requests and replies tells them, one user
and one token at a time. After every run the two tables hold exactly what the log
says, and the log decides which request succeeds next.
*/
module InviteHistory {
  import opened Wrappers
  import opened Invites
  import opened Runs

  datatype Entry = Entry(event: Event, response: Response)

  /** The requests of a run on an empty database, each with its reply. */
  function Log(es: seq<Event>): seq<Entry> {
    if es == [] then [] else Log(es[..|es| - 1]) + [Entry(es[|es| - 1], ReplyAt(EMPTY, es, |es| - 1).response)]
  }

  /** What became of the token that was last issued under a hash. */
  function TokenFrom(log: seq<Entry>, hash: string): Option<Token> {
    if log == [] then None
    else
      var before, e := TokenFrom(log[..|log| - 1], hash), log[|log| - 1].event;
      if log[|log| - 1].response != Done then before
      else if (e.Create? || e.Invite?) && e.tokenHash == hash then Some(Token(e.id, e.expiresAt, None))
      else if before.None? then None
      else if e.SetPassword? && e.tokenHash == hash then Some(before.value.(usedAt := Some(e.now)))
      else if e.Invite? && before.value.userId == e.id && before.value.usedAt.None? then
        Some(before.value.(usedAt := Some(e.now)))
      else if e.Delete? && before.value.userId == e.id then None
      else before
  }

  /** The user an event concerns: the one it names, or the one its token was issued to. */
  function Concerned(log: seq<Entry>, e: Event): Option<UserId> {
    if !e.SetPassword? then Some(e.id)
    else if TokenFrom(log, e.tokenHash).Some? then Some(TokenFrom(log, e.tokenHash).value.userId)
    else None
  }

  /** What the successful requests that concern a user made of it. */
  function UserFrom(log: seq<Entry>, id: UserId): Option<User> {
    if log == [] then None
    else
      var init, last := log[..|log| - 1], log[|log| - 1];
      var before := UserFrom(init, id);
      if last.response != Done || Concerned(init, last.event) != Some(id) then before
      else match last.event
           case Bootstrap(_, username, passwordHash, now) =>
             Some(User(username, passwordHash, true, true, false, Some(now)))
           case Create(_, _, username, superuser, placeholder, _, _) =>
             Some(User(username, placeholder, superuser, true, true, None))
           case Delete(_, _) => None
           case _ => if before.None? then None else Some(Updated(before.value, last.event))
  }

  /** The ids of the users there are. */
  function Population(log: seq<Entry>): set<UserId> {
    if log == [] then {}
    else
      var before, last := Population(log[..|log| - 1]), log[|log| - 1];
      if last.response != Done then before
      else if last.event.Bootstrap? || last.event.Create? then before + {last.event.id}
      else if last.event.Delete? then before - {last.event.id}
      else before
  }

  function Updated(u: User, e: Event): User {
    match e
    case Invite(_, _, placeholder, _, _, _) =>
      u.(passwordHash := placeholder, mustChangePassword := true, passwordChangedAt := None)
    case SetActive(_, _, active) => u.(isActive := active)
    case SetSuperuser(_, _, superuser) => u.(isSuperuser := superuser)
    case SetPassword(_, newHash, now) =>
      u.(passwordHash := newHash, mustChangePassword := false, passwordChangedAt := Some(now))
    case _ => u
  }

  /** The rows with a key are exactly what the log says. */
  ghost predicate UserAgrees(s: State, log: seq<Entry>, id: UserId) {
    UserFrom(log, id) == if id in s.users then Some(s.users[id]) else None
  }

  ghost predicate TokenAgrees(s: State, log: seq<Entry>, hash: string) {
    TokenFrom(log, hash) == if hash in s.tokens then Some(s.tokens[hash]) else None
  }

  ghost predicate Agrees(s: State, log: seq<Entry>) {
    && s.users.Keys == Population(log)
    && (forall id :: UserAgrees(s, log, id))
    && (forall hash :: TokenAgrees(s, log, hash))
  }

  lemma TokenAfterIssue(s: State, log: seq<Entry>, e: Event, hash: string)
    requires TokenAgrees(s, log, hash) && (e.Create? || e.Invite?)
    ensures TokenAgrees(Step(s, e), log + [Entry(e, Exec(s, e).response)], hash)
  {
    assert (log + [Entry(e, Exec(s, e).response)])[..|log|] == log;
  }

  lemma TokenStillAgrees(s: State, log: seq<Entry>, e: Event, hash: string)
    requires TokenAgrees(s, log, hash)
    ensures TokenAgrees(Step(s, e), log + [Entry(e, Exec(s, e).response)], hash)
  {
    if e.Create? || e.Invite? {
      TokenAfterIssue(s, log, e, hash);
    } else {
      assert (log + [Entry(e, Exec(s, e).response)])[..|log|] == log;
    }
  }

  lemma PopulationStillAgrees(s: State, log: seq<Entry>, e: Event)
    requires s.users.Keys == Population(log)
    requires e.SetPassword? && e.tokenHash in s.tokens ==> s.tokens[e.tokenHash].userId in s.users
    ensures Step(s, e).users.Keys == Population(log + [Entry(e, Exec(s, e).response)])
  {
    assert (log + [Entry(e, Exec(s, e).response)])[..|log|] == log;
  }

  lemma UserStillAgrees(s: State, log: seq<Entry>, e: Event, id: UserId)
    requires UserAgrees(s, log, id) && (e.SetPassword? ==> TokenAgrees(s, log, e.tokenHash))
    ensures UserAgrees(Step(s, e), log + [Entry(e, Exec(s, e).response)], id)
  {
    assert (log + [Entry(e, Exec(s, e).response)])[..|log|] == log;
  }

  /** After every run the tables hold exactly the users and tokens of the log. */
  lemma {:induction false} TablesFollowTheLog(es: seq<Event>)
    ensures Agrees(After(EMPTY, es), Log(es))
    decreases |es|
  {
    if es == [] {
    } else {
      var init, e := es[..|es| - 1], es[|es| - 1];
      TablesFollowTheLog(init);
      RunSnoc(Step, EMPTY, init, e);
      assert es == init + [e];
      var s := After(EMPTY, init);
      RunKeepsInv(EMPTY, init);
      PopulationStillAgrees(s, Log(init), e);
      forall hash ensures TokenAgrees(After(EMPTY, es), Log(es), hash) {
        assert TokenAgrees(s, Log(init), hash);
        TokenStillAgrees(s, Log(init), e, hash);
      }
      forall id ensures UserAgrees(After(EMPTY, es), Log(es), id) {
        assert UserAgrees(s, Log(init), id);
        if e.SetPassword? {
          assert TokenAgrees(s, Log(init), e.tokenHash);
        }
        UserStillAgrees(s, Log(init), e, id);
      }
    }
  }

  // ----- which requests succeed -----

  predicate Exists(log: seq<Entry>, id: UserId) {
    UserFrom(log, id).Some?
  }

  predicate IsNamed(log: seq<Entry>, id: UserId, username: string) {
    Exists(log, id) && UserFrom(log, id).value.username == username
  }

  /** An administrator is an active superuser. */
  predicate Administers(log: seq<Entry>, id: UserId) {
    Exists(log, id) && UserFrom(log, id).value.isSuperuser && UserFrom(log, id).value.isActive
  }

  /** Whether the log allows a request. */
  ghost predicate Allowed(log: seq<Entry>, e: Event) {
    match e
    case Bootstrap(_, _, _, _) => Population(log) == {}
    case Create(admin, id, username, _, _, tokenHash, _) =>
      && Administers(log, admin)
      && !Exists(log, id) && TokenFrom(log, tokenHash).None?
      && forall other :: !IsNamed(log, other, username)
    case Invite(admin, id, _, tokenHash, _, _) =>
      Administers(log, admin) && Exists(log, id) && TokenFrom(log, tokenHash).None?
    case SetPassword(hash, _, now) =>
      && TokenFrom(log, hash).Some? && TokenFrom(log, hash).value.usedAt.None?
      && now <= TokenFrom(log, hash).value.expiresAt
      && Exists(log, TokenFrom(log, hash).value.userId)
      && UserFrom(log, TokenFrom(log, hash).value.userId).value.isActive
    case _ => Administers(log, e.admin) && Exists(log, e.id)
  }

  lemma NameIsTakenIff(s: State, log: seq<Entry>, username: string)
    requires Agrees(s, log)
    ensures UsernameTaken(s, username) <==> exists id :: IsNamed(log, id, username)
  {
    if id :| id in s.users && s.users[id].username == username {
      assert UserAgrees(s, log, id);
      assert IsNamed(log, id, username);
    }
    if id :| IsNamed(log, id, username) {
      assert UserAgrees(s, log, id);
    }
  }

  lemma PasswordReply(s: State, log: seq<Entry>, e: Event)
    requires Agrees(s, log) && e.SetPassword?
    ensures Exec(s, e).response == Done <==> Allowed(log, e)
  {
    assert TokenAgrees(s, log, e.tokenHash);
    if e.tokenHash in s.tokens {
      assert UserAgrees(s, log, s.tokens[e.tokenHash].userId);
    }
  }

  lemma CreateReply(s: State, log: seq<Entry>, e: Event)
    requires Agrees(s, log) && e.Create?
    ensures Exec(s, e).response == Done <==> Allowed(log, e)
    ensures Exec(s, e).response == Forbidden <==> !Administers(log, e.admin)
  {
    assert UserAgrees(s, log, e.admin) && UserAgrees(s, log, e.id) && TokenAgrees(s, log, e.tokenHash);
    NameIsTakenIff(s, log, e.username);
  }

  lemma AdministrationReply(s: State, log: seq<Entry>, e: Event)
    requires Agrees(s, log) && !e.Bootstrap? && !e.SetPassword? && !e.Create?
    ensures Exec(s, e).response == Done <==> Allowed(log, e)
    ensures Exec(s, e).response == Forbidden <==> !Administers(log, e.admin)
  {
    assert UserAgrees(s, log, e.admin) && UserAgrees(s, log, e.id);
    if e.Invite? {
      assert TokenAgrees(s, log, e.tokenHash);
    }
  }

  /**
  In every run a request succeeds exactly when the log allows it. One that fails changes nothing, and an
  administration route refuses everybody but an active superuser before it looks at anything else.
  */
  lemma RepliesFollowTheLog(es: seq<Event>, e: Event)
    ensures var s := After(EMPTY, es);
            && (Exec(s, e).response == Done <==> Allowed(Log(es), e))
            && (Exec(s, e).response != Done ==> Exec(s, e).state == s)
            && (Exec(s, e).response == Forbidden <==>
                  !e.Bootstrap? && !e.SetPassword? && !Administers(Log(es), e.admin))
  {
    var s, log := After(EMPTY, es), Log(es);
    TablesFollowTheLog(es);
    match e
    case Bootstrap(_, _, _, _) => assert s.users == map[] <==> s.users.Keys == {};
    case SetPassword(_, _, _) => PasswordReply(s, log, e);
    case Create(_, _, _, _, _, _, _) => CreateReply(s, log, e);
    case _ => AdministrationReply(s, log, e);
  }

  // ----- setting a password -----

  /**
  Whenever a token sets a password, its owner has that password, need not change it, and the token is used; no other
  field, user or token changes.
  */
  lemma SettingAPasswordSetsIt(s: State, hash: string, newHash: string, now: int)
    requires Exec(s, SetPassword(hash, newHash, now)).response == Done
    ensures var t := Exec(s, SetPassword(hash, newHash, now)).state;
            && hash in s.tokens && hash in t.tokens
            && var owner := s.tokens[hash].userId;
               && owner in s.users && owner in t.users
               && t.users[owner].passwordHash == newHash
               && !t.users[owner].mustChangePassword
               && t.users[owner].passwordChangedAt == Some(now)
               && t.users[owner].username == s.users[owner].username
               && t.users[owner].isActive && t.users[owner].isSuperuser == s.users[owner].isSuperuser
               && t.tokens[hash] == Token(owner, s.tokens[hash].expiresAt, Some(now))
               && t.users - {owner} == s.users - {owner}
               && t.tokens - {hash} == s.tokens - {hash}
  {
  }

  /** The user has this password, set at this time, and need not change it. */
  predicate HasPassword(s: State, id: UserId, hash: string, since: int) {
    && id in s.users
    && s.users[id].passwordHash == hash && s.users[id].passwordChangedAt == Some(since)
    && !s.users[id].mustChangePassword
  }

  lemma {:induction false} PasswordStays(s: State, es: seq<Event>, id: UserId, hash: string, since: int)
    requires Inv(s) && HasPassword(s, id, hash, since)
    requires forall e | e in es :: (e.Invite? || e.Delete?) ==> e.id != id
    ensures HasPassword(After(s, es), id, hash, since)
    decreases |es|
  {
    if es == [] {
    } else {
      var e := es[0];
      assert e in es && InviteInv(s, id);
      StepKeepsInv(s, e);
      assert e.SetPassword? ==> !Unused(s, id, e.tokenHash);
      PasswordStays(Step(s, e), es[1..], id, hash, since);
    }
  }

  /**
  A password that was set with a token lasts, in every run, until its user is invited again or deleted: neither
  another token nor any other route touches it.
  */
  lemma APasswordLasts(es: seq<Event>, hash: string, newHash: string, now: int, more: seq<Event>)
    requires Exec(After(EMPTY, es), SetPassword(hash, newHash, now)).response == Done
    ensures hash in After(EMPTY, es).tokens
    ensures var owner := After(EMPTY, es).tokens[hash].userId;
            (forall e | e in more :: (e.Invite? || e.Delete?) ==> e.id != owner) ==>
              HasPassword(After(Step(After(EMPTY, es), SetPassword(hash, newHash, now)), more), owner, newHash, now)
  {
    var s, owner := After(EMPTY, es), After(EMPTY, es).tokens[hash].userId;
    RunKeepsInv(EMPTY, es);
    StepKeepsInv(s, SetPassword(hash, newHash, now));
    if forall e | e in more :: (e.Invite? || e.Delete?) ==> e.id != owner {
      PasswordStays(Step(s, SetPassword(hash, newHash, now)), more, owner, newHash, now);
    }
  }
}
