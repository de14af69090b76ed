/**
Vaults and secrets of SecretVault as the log of events and outcomes tells them: who is
there, which sessions answer, which secrets exist and what their rows show, and what the
audit log holds. The log alone decides the outcome of whatever comes next.
*/
module SecretHistory {
  import opened Wrappers
  import opened Runs
  import opened VaultSessions
  import opened SecretVault

  /** How a history begins. */
  datatype Start = Start(cfg: Config, now: int, users: set<UserId>, legacy: map<SecretId, Row>)

  ghost function After(start: Start, es: seq<Event>): History {
    Run(Step, Init(start.cfg, start.now, start.users, start.legacy), es)
  }

  // ----- what the log says -----

  function Clock(start: Start, log: seq<Entry>): int {
    if log == [] then start.now
    else
      var e := log[|log| - 1].event;
      Clock(start, log[..|log| - 1]) + (if e.Tick? then e.elapsed else 0)
  }

  /** Until when a session was opened: by the last unlock, unless it was locked or the process restarted since. */
  function OpenUntil(start: Start, log: seq<Entry>, user: UserId, id: SessionId): Option<int> {
    if log == [] then None
    else
      var init, last := log[..|log| - 1], log[|log| - 1];
      var e := last.event;
      if e.Unlock? && e.user == user && e.session == id && last.outcome.Opened?
      then Some(Clock(start, init) + start.cfg.sessionTtl)
      else if e.Restart? || (e.Lock? && e.user == user && e.session == id) then None
      else OpenUntil(start, init, user, id)
  }

  predicate Answers(start: Start, log: seq<Entry>, user: UserId, id: SessionId) {
    OpenUntil(start, log, user, id).Some? && Clock(start, log) < OpenUntil(start, log, user, id).value
  }

  datatype Membership = Absent | Present | Gone

  /** A user that was deleted is gone for ever. */
  function MemberOf(start: Start, log: seq<Entry>, user: UserId): Membership {
    if log == [] then (if user in start.users then Present else Absent)
    else
      var before, e := MemberOf(start, log[..|log| - 1], user), log[|log| - 1].event;
      if e.AddUser? && e.user == user && before == Absent then Present
      else if e.DeleteUser? && e.user == user && before == Present then Gone
      else before
  }

  /** A vault exists from its set-up until its user is deleted. */
  function HasVault(log: seq<Entry>, user: UserId): bool {
    if log == [] then false
    else
      var last := log[|log| - 1];
      if last.event.Setup? && last.event.user == user && last.outcome == Done then true
      else if last.event.DeleteUser? && last.event.user == user then false
      else HasVault(log[..|log| - 1], user)
  }

  /** What a secret's row shows without a key. */
  datatype Facts = Facts(owner: UserId, kind: string, alias: Option<string>, username: Option<string>, uses: nat)

  function FactsOf(row: Row): Facts {
    Facts(row.owner, row.kind, row.alias, row.username, row.usageCount)
  }

  function KnownOf(start: Start, log: seq<Entry>, id: SecretId): Option<Facts> {
    if log == [] then (if id in start.legacy then Some(FactsOf(start.legacy[id])) else None)
    else
      var before, last := KnownOf(start, log[..|log| - 1], id), log[|log| - 1];
      var e := last.event;
      if e.CreateSecret? && e.secretId == id && last.outcome == Done
      then Some(Facts(e.user, e.kind, e.createdAlias, e.createdUsername, 0))
      else if before.None? then None
      else if e.DeleteSecret? && e.secretId == id && last.outcome == Done then None
      else if e.DeleteUser? && e.user == before.value.owner then None
      else if e.UpdateSecret? && e.secretId == id && last.outcome == Done then
        Some(before.value.(alias := if e.alias.Set? then e.alias.value else before.value.alias,
                           username := if e.username.Set? then e.username.value else before.value.username))
      else if e.UseSecret? && e.secretId == id && last.outcome.Plaintext? then
        Some(before.value.(uses := before.value.uses + 1))
      else before
  }

  /** The audit record of an event: exactly the successful operations on vaults and secrets leave one. */
  function RecordOf(entry: Entry): seq<AuditEntry> {
    match entry.event
    case Setup(user, _, _, _) => if entry.outcome == Done then [AuditEntry(user, "vault.setup", None)] else []
    case Unlock(user, _, _, _) => if entry.outcome.Opened? then [AuditEntry(user, "vault.unlock", None)] else []
    case Lock(user, _) => [AuditEntry(user, "vault.lock", None)]
    case CreateSecret(actor, _, _, id, _, _, _, _, _) =>
      if entry.outcome == Done then [AuditEntry(actor, "user_secret.create", Some(id))] else []
    case UpdateSecret(actor, _, _, id, _, _, _, _) =>
      if entry.outcome == Done then [AuditEntry(actor, "user_secret.update", Some(id))] else []
    case DeleteSecret(actor, _, id) =>
      if entry.outcome == Done then [AuditEntry(actor, "user_secret.delete", Some(id))] else []
    case UseSecret(user, _, id) =>
      if entry.outcome.Plaintext? then [AuditEntry(user, "user_secret.used", Some(id))] else []
    case _ => []
  }

  function AuditOf(log: seq<Entry>): seq<AuditEntry> {
    if log == [] then [] else AuditOf(log[..|log| - 1]) + RecordOf(log[|log| - 1])
  }

  // ----- the state agrees with the log -----

  /** A session the store does not hold was never opened, was ended, or has expired. */
  ghost predicate SessionAgrees(start: Start, h: History, user: UserId, id: SessionId) {
    var until := OpenUntil(start, h.log, user, id);
    if Holds(h.state.sessions, user, id) then until == Some(h.state.sessions[user][id].expiresAt)
    else until.None? || until.value <= h.state.now
  }

  ghost predicate SecretAgrees(start: Start, h: History, id: SecretId) {
    KnownOf(start, h.log, id) == if id in h.state.db.secrets then Some(FactsOf(h.state.db.secrets[id])) else None
  }

  ghost predicate UserAgrees(start: Start, h: History, user: UserId) {
    && (user in h.state.db.users <==> MemberOf(start, h.log, user) == Present)
    && (user in h.state.db.retired <==> MemberOf(start, h.log, user) == Gone)
    && (user in h.state.db.vaults <==> HasVault(h.log, user))
  }

  ghost predicate Agrees(start: Start, h: History) {
    && h.state.cfg == start.cfg && h.state.now == Clock(start, h.log)
    && h.state.db.audit == AuditOf(h.log)
    && (forall user, id :: SessionAgrees(start, h, user, id))
    && (forall id :: SecretAgrees(start, h, id))
    && (forall user :: UserAgrees(start, h, user))
  }

  lemma DropForgetsOne(n: Nested, user: UserId, id: SessionId, u: UserId, i: SessionId)
    ensures Holds(Drop(n, user, id), u, i) <==> Holds(n, u, i) && !(u == user && i == id)
    ensures Holds(Drop(n, user, id), u, i) ==> Drop(n, user, id)[u][i] == n[u][i]
  {
    if user in n && n[user] - {id} == map[] && u == user && Holds(n, u, i) {
      assert i !in n[user] - {id};
    }
  }

  lemma SessionAfterKeyRequest(start: Start, h: History, e: Event, user: UserId, id: SessionId)
    requires SessionAgrees(start, h, user, id)
    requires e.CreateSecret? || e.UpdateSecret? || e.UseSecret?
    ensures SessionAgrees(start, Step(h, e), user, id)
  {
    assert Step(h, e).log[..|h.log|] == h.log;
    if e.vaultSession.Some? {
      DropForgetsOne(h.state.sessions, e.user, e.vaultSession.value, user, id);
    }
    SessionsAfterKeyRequest(h.state, e);
  }

  /** Asking for a key leaves the sessions alone, or evicts the one that was named and has expired. */
  lemma SessionsAfterKeyRequest(s: State, e: Event)
    requires e.CreateSecret? || e.UpdateSecret? || e.UseSecret?
    ensures var s' := Exec(s, e).0;
            && s'.now == s.now
            && (s'.sessions == s.sessions ||
                (&& e.vaultSession.Some? && Holds(s.sessions, e.user, e.vaultSession.value)
                 && s.sessions[e.user][e.vaultSession.value].expiresAt <= s.now
                 && s'.sessions == Drop(s.sessions, e.user, e.vaultSession.value)))
  {
  }

  lemma SessionAfterUnlock(start: Start, h: History, e: Event, user: UserId, id: SessionId)
    requires SessionAgrees(start, h, user, id) && e.Unlock?
    requires h.state.cfg == start.cfg && h.state.now == Clock(start, h.log)
    ensures SessionAgrees(start, Step(h, e), user, id)
  {
    assert Step(h, e).log[..|h.log|] == h.log;
  }

  lemma SessionAfterLock(start: Start, h: History, e: Event, user: UserId, id: SessionId)
    requires SessionAgrees(start, h, user, id) && e.Lock?
    ensures SessionAgrees(start, Step(h, e), user, id)
  {
    assert Step(h, e).log[..|h.log|] == h.log;
    DropForgetsOne(h.state.sessions, e.user, e.session, user, id);
  }

  /** Everything else leaves the sessions alone, or forgets them all; time only moves on. */
  lemma SessionAfterOther(start: Start, h: History, e: Event, user: UserId, id: SessionId)
    requires SessionAgrees(start, h, user, id)
    requires e.Tick? || e.Restart? || e.AddUser? || e.DeleteUser? || e.Setup? || e.DeleteSecret?
    ensures SessionAgrees(start, Step(h, e), user, id)
  {
    assert Step(h, e).log[..|h.log|] == h.log;
  }

  lemma SessionStillAgrees(start: Start, h: History, e: Event, user: UserId, id: SessionId)
    requires SessionAgrees(start, h, user, id) && h.state.cfg == start.cfg && h.state.now == Clock(start, h.log)
    ensures SessionAgrees(start, Step(h, e), user, id)
  {
    match e
    case CreateSecret(_, _, _, _, _, _, _, _, _) => SessionAfterKeyRequest(start, h, e, user, id);
    case UpdateSecret(_, _, _, _, _, _, _, _) => SessionAfterKeyRequest(start, h, e, user, id);
    case UseSecret(_, _, _) => SessionAfterKeyRequest(start, h, e, user, id);
    case Unlock(_, _, _, _) => SessionAfterUnlock(start, h, e, user, id);
    case Lock(_, _) => SessionAfterLock(start, h, e, user, id);
    case _ => SessionAfterOther(start, h, e, user, id);
  }

  lemma SecretAfterCreation(start: Start, h: History, e: Event, id: SecretId)
    requires SecretAgrees(start, h, id) && e.CreateSecret?
    ensures SecretAgrees(start, Step(h, e), id)
  {
    assert Step(h, e).log[..|h.log|] == h.log;
  }

  lemma SecretAfterUse(start: Start, h: History, e: Event, id: SecretId)
    requires SecretAgrees(start, h, id) && e.UseSecret?
    ensures SecretAgrees(start, Step(h, e), id)
  {
    assert Step(h, e).log[..|h.log|] == h.log;
  }

  lemma SecretAfterUpdate(start: Start, h: History, e: Event, id: SecretId)
    requires SecretAgrees(start, h, id) && e.UpdateSecret?
    ensures SecretAgrees(start, Step(h, e), id)
  {
    assert Step(h, e).log[..|h.log|] == h.log;
  }

  lemma SecretStillAgrees(start: Start, h: History, e: Event, id: SecretId)
    requires SecretAgrees(start, h, id)
    requires id in h.state.db.secrets ==> h.state.db.secrets[id].owner in h.state.db.users
    ensures SecretAgrees(start, Step(h, e), id)
  {
    if e.CreateSecret? {
      SecretAfterCreation(start, h, e, id);
    } else if e.UseSecret? {
      SecretAfterUse(start, h, e, id);
    } else if e.UpdateSecret? {
      SecretAfterUpdate(start, h, e, id);
    } else {
      assert Step(h, e).log[..|h.log|] == h.log;
    }
  }

  /** Only the events about users and the set-up of a vault touch users and vaults. */
  lemma UsersAfterSecretEvent(s: State, e: Event)
    requires !e.AddUser? && !e.DeleteUser? && !e.Setup?
    ensures var t := Exec(s, e).0;
            t.db.users == s.db.users && t.db.retired == s.db.retired && t.db.vaults == s.db.vaults
  {
  }

  lemma UserStillAgrees(start: Start, h: History, e: Event, user: UserId)
    requires UsersOk(h.state.db) && UserAgrees(start, h, user)
    ensures UserAgrees(start, Step(h, e), user)
  {
    assert Step(h, e).log[..|h.log|] == h.log;
    if !e.AddUser? && !e.DeleteUser? && !e.Setup? {
      UsersAfterSecretEvent(h.state, e);
    }
  }

  lemma OneMoreRecord(h: History, e: Event)
    ensures Exec(h.state, e).0.db.audit == h.state.db.audit + RecordOf(Entry(e, Exec(h.state, e).1))
  {
  }

  lemma AuditAndClockStillAgree(start: Start, h: History, e: Event)
    requires h.state.now == Clock(start, h.log) && h.state.db.audit == AuditOf(h.log)
    ensures Step(h, e).state.now == Clock(start, Step(h, e).log)
    ensures Step(h, e).state.db.audit == AuditOf(Step(h, e).log)
  {
    assert Step(h, e).log[..|h.log|] == h.log;
    OneMoreRecord(h, e);
  }

  lemma SessionsStillAgree(start: Start, h: History, e: Event)
    requires Agrees(start, h)
    ensures forall user, id :: SessionAgrees(start, Step(h, e), user, id)
  {
    forall user, id ensures SessionAgrees(start, Step(h, e), user, id) {
      assert SessionAgrees(start, h, user, id);
      SessionStillAgrees(start, h, e, user, id);
    }
  }

  lemma SecretsStillAgree(start: Start, h: History, e: Event)
    requires Inv(h) && Agrees(start, h)
    ensures forall id :: SecretAgrees(start, Step(h, e), id)
  {
    forall id ensures SecretAgrees(start, Step(h, e), id) {
      assert SecretAgrees(start, h, id);
      assert id in h.state.db.secrets ==> RowOk(h, id, h.state.db.secrets[id]);
      SecretStillAgrees(start, h, e, id);
    }
  }

  lemma UsersStillAgree(start: Start, h: History, e: Event)
    requires Inv(h) && Agrees(start, h)
    ensures forall user :: UserAgrees(start, Step(h, e), user)
  {
    forall user ensures UserAgrees(start, Step(h, e), user) {
      assert UserAgrees(start, h, user);
      UserStillAgrees(start, h, e, user);
    }
  }

  lemma StepStillAgrees(start: Start, h: History, e: Event)
    requires Inv(h) && Agrees(start, h)
    ensures Agrees(start, Step(h, e))
  {
    AuditAndClockStillAgree(start, h, e);
    ConfigStays(h, [e]);
    assert Run(Step, h, [e]) == Run(Step, Step(h, e), []);
    SessionsStillAgree(start, h, e);
    SecretsStillAgree(start, h, e);
    UsersStillAgree(start, h, e);
  }

  lemma {:induction false} RunStillAgrees(start: Start, h: History, es: seq<Event>)
    requires Inv(h) && Agrees(start, h)
    ensures Agrees(start, Run(Step, h, es))
    decreases |es|
  {
    if es == [] {
    } else {
      StepKeepsInv(h, es[0]);
      StepStillAgrees(start, h, es[0]);
      RunStillAgrees(start, Step(h, es[0]), es[1..]);
    }
  }

  /**
  In every history the rows, the clock, the audit log and the answering sessions are exactly those of the log; only
  the sessions that expired unnoticed make the store differ.
  */
  lemma StateFollowsTheLog(start: Start, es: seq<Event>)
    requires LegacyOnly(start.users, start.legacy)
    ensures Agrees(start, After(start, es))
  {
    var h := Init(start.cfg, start.now, start.users, start.legacy);
    InitIsOk(start.cfg, start.now, start.users, start.legacy);
    assert Agrees(start, h);
    RunStillAgrees(start, h, es);
  }

  // ----- what the log decides -----

  /** Why a key is refused, if it is. */
  function KeyRefusal(start: Start, log: seq<Entry>, user: UserId, session: Option<SessionId>): Option<Error> {
    if !HasVault(log, user) then Some(VaultNotConfigured)
    else if session.None? then Some(VaultLocked)
    else if !Answers(start, log, user, session.value) then Some(VaultSessionExpired)
    else None
  }

  predicate Owns(start: Start, log: seq<Entry>, user: UserId, id: SecretId) {
    KnownOf(start, log, id).Some? && KnownOf(start, log, id).value.owner == user
  }

  /** The passphrase of the set-up opens the vault, and whatever derives the same key from the salt in use. */
  predicate Opens(start: Start, setup: Passphrase, passphrase: string, freshSalt: Bytes) {
    start.cfg.kdf(passphrase, if setup.salt == "" then freshSalt else setup.salt, DEFAULT_KDF)
    == start.cfg.kdf(setup.passphrase, setup.salt, DEFAULT_KDF)
  }

  /** The outcome of the next event: no row, no session and no cipher is looked at. */
  function OutcomeOf(start: Start, log: seq<Entry>, e: Event): Outcome {
    match e
    case Setup(user, _, _, _) =>
      if HasVault(log, user) then Failed(VaultAlreadyConfigured)
      else if MemberOf(start, log, user) != Present then Failed(IntegrityError)
      else Done
    case Unlock(user, passphrase, session, freshSalt) =>
      if !HasVault(log, user) || LastSetup(log, user).None? then Failed(VaultNotConfigured)
      else if Opens(start, LastSetup(log, user).value, passphrase, freshSalt) then Opened(session)
      else Failed(InvalidVaultPassphrase)
    case CreateSecret(_, user, session, id, _, _, _, _, _) =>
      if KeyRefusal(start, log, user, session).Some? then Failed(KeyRefusal(start, log, user, session).value)
      else if KnownOf(start, log, id).Some? then Failed(IntegrityError)
      else Done
    case UpdateSecret(_, user, session, id, _, _, newSecret, _) =>
      if !Owns(start, log, user, id) then Failed(SecretNotAccessible)
      else if newSecret.Some? && KeyRefusal(start, log, user, session).Some?
      then Failed(KeyRefusal(start, log, user, session).value)
      else Done
    case DeleteSecret(_, user, id) => if Owns(start, log, user, id) then Done else Failed(SecretNotAccessible)
    case UseSecret(user, session, id) =>
      if !Owns(start, log, user, id) then Failed(SecretNotAccessible)
      else if KeyRefusal(start, log, user, session).Some?
      then Failed(KeyRefusal(start, log, user, session).value)
      else if LastWritten(log, id).None? then Failed(SecretDecryptionFailed)
      else Plaintext(LastWritten(log, id).value)
    case _ => Done
  }

  lemma KeyIsRefusedIff(start: Start, h: History, user: UserId, session: Option<SessionId>)
    requires Agrees(start, h)
    ensures var key := RequireUserKey(h.state, user, session).1;
            KeyRefusal(start, h.log, user, session) == if key.Err? then Some(key.error) else None
    ensures session.Some? ==> (Answers(start, h.log, user, session.value) <==> Live(h.state, user, session))
  {
    assert UserAgrees(start, h, user);
    if session.Some? {
      assert SessionAgrees(start, h, user, session.value);
    }
  }

  lemma OwnsIff(start: Start, h: History, user: UserId, id: SecretId)
    requires Agrees(start, h)
    ensures Owns(start, h.log, user, id) <==> Accessible(h.state.db, user, id)
    ensures KnownOf(start, h.log, id).Some? <==> id in h.state.db.secrets
  {
    assert SecretAgrees(start, h, id);
  }

  lemma VaultOutcome(start: Start, es: seq<Event>, e: Event)
    requires LegacyOnly(start.users, start.legacy) && (e.Setup? || e.Unlock?)
    ensures Exec(After(start, es).state, e).1 == OutcomeOf(start, After(start, es).log, e)
  {
    StateFollowsTheLog(start, es);
    assert UserAgrees(start, After(start, es), e.user);
    if e.Unlock? && e.user in After(start, es).state.db.vaults {
      UnlockChecksThePassphrase(start.cfg, start.now, start.users, start.legacy, es,
                                e.user, e.passphrase, e.session, e.freshSalt);
    }
  }

  lemma UseOutcome(start: Start, es: seq<Event>, e: Event)
    requires LegacyOnly(start.users, start.legacy) && e.UseSecret?
    ensures Exec(After(start, es).state, e).1 == OutcomeOf(start, After(start, es).log, e)
  {
    StateFollowsTheLog(start, es);
    KeyIsRefusedIff(start, After(start, es), e.user, e.vaultSession);
    OwnsIff(start, After(start, es), e.user, e.secretId);
    ReadYourWrites(start.cfg, start.now, start.users, start.legacy, es, e.user, e.vaultSession, e.secretId);
    assert UserAgrees(start, After(start, es), e.user);
  }

  /**
  Whatever happened, the log alone decides the outcome of the next event: which plaintext a read returns, which
  passphrase unlocks, and which error every refused request gets.
  */
  lemma OutcomesFollowTheLog(start: Start, es: seq<Event>, e: Event)
    requires LegacyOnly(start.users, start.legacy)
    ensures Exec(After(start, es).state, e).1 == OutcomeOf(start, After(start, es).log, e)
  {
    if e.Setup? || e.Unlock? {
      VaultOutcome(start, es, e);
    } else if e.UseSecret? {
      UseOutcome(start, es, e);
    } else if e.CreateSecret? || e.UpdateSecret? {
      StateFollowsTheLog(start, es);
      KeyIsRefusedIff(start, After(start, es), e.user, e.vaultSession);
      OwnsIff(start, After(start, es), e.user, e.secretId);
    } else if e.DeleteSecret? {
      StateFollowsTheLog(start, es);
      OwnsIff(start, After(start, es), e.user, e.secretId);
    }
  }

  // ----- locking -----

  predicate Reopens(e: Event, user: UserId, id: SessionId) {
    e.Unlock? && e.user == user && e.session == id
  }

  lemma ClosedStaysClosedStep(s: State, e: Event, user: UserId, id: SessionId)
    requires !Holds(s.sessions, user, id) && !Reopens(e, user, id)
    ensures !Holds(Exec(s, e).0.sessions, user, id)
  {
    if e.Lock? {
      DropForgetsOne(s.sessions, e.user, e.session, user, id);
    } else if e.CreateSecret? || e.UpdateSecret? || e.UseSecret? {
      SessionsAfterKeyRequest(s, e);
      if e.vaultSession.Some? {
        DropForgetsOne(s.sessions, e.user, e.vaultSession.value, user, id);
      }
    }
  }

  lemma {:induction false} ClosedStaysClosed(h: History, es: seq<Event>, user: UserId, id: SessionId)
    requires !Holds(h.state.sessions, user, id)
    requires forall e | e in es :: !Reopens(e, user, id)
    ensures !Holds(Run(Step, h, es).state.sessions, user, id)
    decreases |es|
  {
    if es == [] {
    } else {
      assert es[0] in es;
      ClosedStaysClosedStep(h.state, es[0], user, id);
      ClosedStaysClosed(Step(h, es[0]), es[1..], user, id);
    }
  }

  /**
  Locking ends the session: whatever follows, until that session is unlocked again, no secret is read, created or
  rotated with it.
  */
  lemma LockEndsTheSession(h: History, user: UserId, session: SessionId, more: seq<Event>, e: Event)
    requires forall e | e in more :: !Reopens(e, user, session)
    requires e.CreateSecret? || (e.UpdateSecret? && e.newSecret.Some?) || e.UseSecret?
    requires e.user == user && e.vaultSession == Some(session)
    ensures var s := Run(Step, Step(h, Lock(user, session)), more).state;
            Exec(s, e).1 in {Failed(VaultSessionExpired), Failed(VaultNotConfigured), Failed(SecretNotAccessible)}
  {
    DropForgetsOne(h.state.sessions, user, session, user, session);
    ClosedStaysClosed(Step(h, Lock(user, session)), more, user, session);
  }

  /** So does a restart of the process, for every session at once. */
  lemma RestartEndsEverySession(h: History, user: UserId, session: SessionId, more: seq<Event>, id: SecretId)
    requires forall e | e in more :: !Reopens(e, user, session)
    ensures !Use(Run(Step, Step(h, Restart), more).state, user, Some(session), id).1.Plaintext?
  {
    ClosedStaysClosed(Step(h, Restart), more, user, session);
  }
}
