/**
Vaults and encrypted secrets (src/services/vault_service.py,
src/services/user_secrets_service.py, src/services/secret_crypto_service.py) as one
state machine over the database rows and the in-memory sessions.

Ciphertexts are symbolic: decryption succeeds exactly with the key and the nonce of
the encryption. The key derivation is an arbitrary function, and every random value
(salt, nonce, data key, session id, secret id) is supplied by the environment
without any assumption of freshness.
*/
module SecretVault {
  import opened Wrappers
  import opened Runs
  import opened VaultSessions

  // ----- symbolic cryptography -----

  datatype Cipher = Enc(key: Bytes, nonce: Bytes, plain: Bytes)

  function Decrypt(key: Bytes, nonce: Bytes, c: Cipher): Option<Bytes> {
    if c.key == key && c.nonce == nonce then Some(c.plain) else None
  }

  datatype KdfParams = KdfParams(timeCost: nat, memoryCost: nat, parallelism: nat, hashLen: nat)

  const DEFAULT_KDF := KdfParams(3, 64 * 1024, 2, 32)
  const CHECK_PLAINTEXT := "firefly-toolkit:vault-check:v1"
  const CRYPTO_VERSION := 1

  /** Argon2id, as far as this model is concerned. */
  type Kdf = (string, Bytes, KdfParams) -> Bytes

  datatype Random = Random(dek: Bytes, secretNonce: Bytes, wrapNonce: Bytes)

  datatype Blob = Blob(ciphertext: Cipher, secretNonce: Bytes, wrappedDek: Cipher, wrapNonce: Bytes, version: int)

  function EncryptSecret(plaintext: string, userKey: Bytes, r: Random): Blob {
    Blob(Enc(r.dek, r.secretNonce, plaintext), r.secretNonce,
         Enc(userKey, r.wrapNonce, r.dek), r.wrapNonce, CRYPTO_VERSION)
  }

  /** None stands for every way of failing: wrong version, wrong key, wrong nonce. */
  function DecryptSecret(blob: Blob, userKey: Bytes): Option<string> {
    if blob.version != CRYPTO_VERSION then None
    else match Decrypt(userKey, blob.wrapNonce, blob.wrappedDek)
         case None => None
         case Some(dek) => Decrypt(dek, blob.secretNonce, blob.ciphertext)
  }

  /** Unwrapping gives back the plaintext with the wrapping key, and nothing with any other key. */
  lemma OnlyTheWrappingKeyDecrypts(plaintext: string, userKey: Bytes, otherKey: Bytes, r: Random)
    ensures DecryptSecret(EncryptSecret(plaintext, userKey, r), otherKey)
            == if otherKey == userKey then Some(plaintext) else None
  {
  }

  // ----- database rows -----

  datatype VaultRow = VaultRow(
    salt: Option<Bytes>, params: Option<KdfParams>, check: Option<Cipher>, checkNonce: Option<Bytes>)

  type SecretId = nat

  /** A secret; rows written before encryption was introduced have none of the five encryption columns. */
  datatype Row = Row(
    owner: UserId,
    kind: string,
    alias: Option<string>,
    username: Option<string>,
    ciphertext: Option<Cipher>,
    secretNonce: Option<Bytes>,
    wrappedDek: Option<Cipher>,
    wrapNonce: Option<Bytes>,
    version: Option<int>,
    usageCount: nat)

  function StoreBlob(row: Row, blob: Blob): Row {
    row.(ciphertext := Some(blob.ciphertext), secretNonce := Some(blob.secretNonce),
         wrappedDek := Some(blob.wrappedDek), wrapNonce := Some(blob.wrapNonce), version := Some(blob.version))
  }

  /** `_get_encrypted_blob`. */
  function LoadBlob(row: Row): Option<Blob> {
    if row.ciphertext.None? || row.secretNonce.None? || row.wrappedDek.None? || row.wrapNonce.None? || row.version.None?
    then None
    else Some(Blob(row.ciphertext.value, row.secretNonce.value, row.wrappedDek.value, row.wrapNonce.value,
                   row.version.value))
  }

  datatype AuditEntry = AuditEntry(actor: UserId, action: string, target: Option<SecretId>)

  datatype Database = Database(
    users: set<UserId>,
    retired: set<UserId>,       // ids of deleted users; ids are never given out twice
    vaults: map<UserId, VaultRow>,
    secrets: map<SecretId, Row>,
    audit: seq<AuditEntry>)

  datatype Config = Config(kdf: Kdf, sessionTtl: int)

  datatype State = State(cfg: Config, now: int, db: Database, sessions: Nested)

  datatype Error =
    | VaultAlreadyConfigured | VaultNotConfigured | InvalidVaultPassphrase
    | VaultLocked | VaultSessionExpired
    | SecretNotAccessible | SecretDecryptionFailed
    | IntegrityError

  datatype Outcome = Done | Opened(id: SessionId) | Plaintext(secret: string) | Failed(error: Error)

  /** A field of an update request: left out, or set to a value. */
  datatype Change<T> = Keep | Set(value: T)

  function Changed<T>(change: Change<T>, current: T): T {
    match change case Keep => current case Set(value) => value
  }

  datatype Event =
    | Tick(elapsed: nat)
    | Restart
    | AddUser(user: UserId)
    | DeleteUser(user: UserId)
    | Setup(user: UserId, passphrase: string, salt: Bytes, nonce: Bytes)
    | Unlock(user: UserId, passphrase: string, session: SessionId, freshSalt: Bytes)
    | Lock(user: UserId, session: SessionId)
    | CreateSecret(actor: UserId, user: UserId, vaultSession: Option<SessionId>, secretId: SecretId, kind: string,
                   createdAlias: Option<string>, createdUsername: Option<string>, plaintext: string, random: Random)
    | UpdateSecret(actor: UserId, user: UserId, vaultSession: Option<SessionId>, secretId: SecretId,
                   alias: Change<Option<string>>, username: Change<Option<string>>, newSecret: Option<string>,
                   random: Random)
    | DeleteSecret(actor: UserId, user: UserId, secretId: SecretId)
    | UseSecret(user: UserId, vaultSession: Option<SessionId>, secretId: SecretId)

  function Log(db: Database, actor: UserId, action: string, target: Option<SecretId>): Database {
    db.(audit := db.audit + [AuditEntry(actor, action, target)])
  }

  /** `require_user_key`: the session map (an expired session is evicted) and the key or the refusal. */
  function RequireUserKey(s: State, user: UserId, session: Option<SessionId>): (Nested, Result<Bytes, Error>) {
    if user !in s.db.vaults then (s.sessions, Err(VaultNotConfigured))
    else if session.None? then (s.sessions, Err(VaultLocked))
    else
      var (sessions, active) := GetActive(s.sessions, user, session.value, s.now);
      (sessions, if active.None? then Err(VaultSessionExpired) else Ok(active.value.userKey))
  }

  function NewVault(kdf: Kdf, passphrase: string, salt: Bytes, nonce: Bytes): VaultRow {
    var check := Enc(kdf(passphrase, salt, DEFAULT_KDF), nonce, CHECK_PLAINTEXT);
    VaultRow(Some(salt), Some(DEFAULT_KDF), Some(check), Some(nonce))
  }

  function SetupVault(s: State, user: UserId, passphrase: string, salt: Bytes, nonce: Bytes): (State, Outcome) {
    if user in s.db.vaults then (s, Failed(VaultAlreadyConfigured))
    else if user !in s.db.users then (s, Failed(IntegrityError))
    else
      var db := s.db.(vaults := s.db.vaults[user := NewVault(s.cfg.kdf, passphrase, salt, nonce)]);
      (s.(db := Log(db, user, "vault.setup", None)), Done)
  }

  function DerivedKey(kdf: Kdf, vault: VaultRow, passphrase: string, freshSalt: Bytes): Bytes
    requires vault.salt.Some? && vault.params.Some?
  {
    kdf(passphrase, if vault.salt.value == "" then freshSalt else vault.salt.value, vault.params.value)
  }

  function UnlockVault(s: State, user: UserId, passphrase: string, session: SessionId, freshSalt: Bytes):
    (State, Outcome)
  {
    if user !in s.db.vaults then (s, Failed(VaultNotConfigured))
    else
      var vault := s.db.vaults[user];
      if vault.salt.None? || vault.params.None? then (s, Failed(VaultNotConfigured))
      else if vault.check.None? || vault.checkNonce.None? then (s, Failed(VaultNotConfigured))
      else
        var key := DerivedKey(s.cfg.kdf, vault, passphrase, freshSalt);
        if Decrypt(key, vault.checkNonce.value, vault.check.value) != Some(CHECK_PLAINTEXT)
        then (s, Failed(InvalidVaultPassphrase))
        else (s.(sessions := Put(s.sessions, user, session, Session(key, s.now + s.cfg.sessionTtl)),
                 db := Log(s.db, user, "vault.unlock", None)),
              Opened(session))
  }

  function LockVault(s: State, user: UserId, session: SessionId): (State, Outcome) {
    (s.(sessions := Drop(s.sessions, user, session), db := Log(s.db, user, "vault.lock", None)), Done)
  }

  function Create(s: State, e: Event): (State, Outcome)
    requires e.CreateSecret?
  {
    var (sessions, key) := RequireUserKey(s, e.user, e.vaultSession);
    if key.Err? then (s.(sessions := sessions), Failed(key.error))
    else if e.secretId in s.db.secrets then (s.(sessions := sessions), Failed(IntegrityError))
    else
      var row := StoreBlob(Row(e.user, e.kind, e.createdAlias, e.createdUsername, None, None, None, None, None, 0),
                           EncryptSecret(e.plaintext, key.value, e.random));
      var db := s.db.(secrets := s.db.secrets[e.secretId := row]);
      (s.(sessions := sessions, db := Log(db, e.actor, "user_secret.create", Some(e.secretId))), Done)
  }

  predicate Accessible(db: Database, user: UserId, id: SecretId) {
    id in db.secrets && db.secrets[id].owner == user
  }

  /** A refused key undoes the metadata change of the same request. */
  function UpdateRow(s: State, e: Event): (State, Outcome)
    requires e.UpdateSecret?
  {
    if !Accessible(s.db, e.user, e.secretId) then (s, Failed(SecretNotAccessible))
    else
      var old_ := s.db.secrets[e.secretId];
      var row := old_.(alias := Changed(e.alias, old_.alias), username := Changed(e.username, old_.username));
      if e.newSecret.None? then
        var db := s.db.(secrets := s.db.secrets[e.secretId := row]);
        (s.(db := Log(db, e.actor, "user_secret.update", Some(e.secretId))), Done)
      else
        var (sessions, key) := RequireUserKey(s, e.user, e.vaultSession);
        if key.Err? then (s.(sessions := sessions), Failed(key.error))
        else
          var rotated := StoreBlob(row, EncryptSecret(e.newSecret.value, key.value, e.random));
          var db := s.db.(secrets := s.db.secrets[e.secretId := rotated]);
          (s.(sessions := sessions, db := Log(db, e.actor, "user_secret.update", Some(e.secretId))), Done)
  }

  function Delete(s: State, e: Event): (State, Outcome)
    requires e.DeleteSecret?
  {
    if !Accessible(s.db, e.user, e.secretId) then (s, Failed(SecretNotAccessible))
    else
      var db := s.db.(secrets := s.db.secrets - {e.secretId});
      (s.(db := Log(db, e.actor, "user_secret.delete", Some(e.secretId))), Done)
  }

  /** `get_secret_for_internal_use`. */
  function Use(s: State, user: UserId, session: Option<SessionId>, id: SecretId): (State, Outcome) {
    if !Accessible(s.db, user, id) then (s, Failed(SecretNotAccessible))
    else
      var row := s.db.secrets[id];
      var (sessions, key) := RequireUserKey(s, user, session);
      if key.Err? then (s.(sessions := sessions), Failed(key.error))
      else
        var blob := LoadBlob(row);
        if blob.None? then (s.(sessions := sessions), Failed(SecretDecryptionFailed))
        else
          var plaintext := DecryptSecret(blob.value, key.value);
          if plaintext.None? then (s.(sessions := sessions), Failed(SecretDecryptionFailed))
          else
            var db := s.db.(secrets := s.db.secrets[id := row.(usageCount := row.usageCount + 1)]);
            (s.(sessions := sessions, db := Log(db, row.owner, "user_secret.used", Some(id))),
             Plaintext(plaintext.value))
  }

  function RemoveUser(s: State, user: UserId): State {
    if user !in s.db.users then s
    else s.(db := s.db.(users := s.db.users - {user}, retired := s.db.retired + {user}, vaults := s.db.vaults - {user},
                        secrets := map id | id in s.db.secrets && s.db.secrets[id].owner != user :: s.db.secrets[id]))
  }

  function Exec(s: State, e: Event): (State, Outcome) {
    match e
    case Tick(elapsed) => (s.(now := s.now + elapsed), Done)
    case Restart => (s.(sessions := map[]), Done)
    case AddUser(user) =>
      (if user in s.db.users + s.db.retired then s else s.(db := s.db.(users := s.db.users + {user})), Done)
    case DeleteUser(user) => (RemoveUser(s, user), Done)
    case Setup(user, passphrase, salt, nonce) => SetupVault(s, user, passphrase, salt, nonce)
    case Unlock(user, passphrase, session, freshSalt) => UnlockVault(s, user, passphrase, session, freshSalt)
    case Lock(user, session) => LockVault(s, user, session)
    case CreateSecret(_, _, _, _, _, _, _, _, _) => Create(s, e)
    case UpdateSecret(_, _, _, _, _, _, _, _) => UpdateRow(s, e)
    case DeleteSecret(_, _, _) => Delete(s, e)
    case UseSecret(user, session, id) => Use(s, user, session, id)
  }

  // ----- histories -----

  datatype Entry = Entry(event: Event, outcome: Outcome)

  datatype History = History(state: State, log: seq<Entry>)

  ghost function Step(h: History, e: Event): History {
    var (s, outcome) := Exec(h.state, e);
    History(s, h.log + [Entry(e, outcome)])
  }

  /** What a log entry wrote into the given secret, if it did. */
  function Wrote(entry: Entry, id: SecretId): Option<string> {
    if entry.outcome != Done then None
    else if entry.event.CreateSecret? && entry.event.secretId == id then Some(entry.event.plaintext)
    else if entry.event.UpdateSecret? && entry.event.secretId == id then entry.event.newSecret
    else None
  }

  /** The plaintext most recently written for a secret, according to the log alone. */
  function LastWritten(log: seq<Entry>, id: SecretId): Option<string> {
    if log == [] then None
    else
      var last := Wrote(log[|log| - 1], id);
      if last.Some? then last else LastWritten(log[..|log| - 1], id)
  }

  datatype Passphrase = Passphrase(passphrase: string, salt: Bytes, nonce: Bytes)

  /** The passphrase and salt with which a user's vault was set up, according to the log alone. */
  function LastSetup(log: seq<Entry>, user: UserId): Option<Passphrase> {
    if log == [] then None
    else
      var e := log[|log| - 1];
      if e.event.Setup? && e.event.user == user && e.outcome == Done
      then Some(Passphrase(e.event.passphrase, e.event.salt, e.event.nonce))
      else LastSetup(log[..|log| - 1], user)
  }

  /** A database from before vaults existed: secrets without encryption columns. */
  ghost predicate LegacyOnly(users: set<UserId>, secrets: map<SecretId, Row>) {
    forall id | id in secrets ::
      && secrets[id].owner in users
      && secrets[id].ciphertext.None? && secrets[id].secretNonce.None? && secrets[id].wrappedDek.None?
      && secrets[id].wrapNonce.None? && secrets[id].version.None?
  }

  ghost function Init(cfg: Config, now: int, users: set<UserId>, legacy: map<SecretId, Row>): History {
    History(State(cfg, now, Database(users, {}, map[], legacy, []), map[]), [])
  }

  // ----- the invariant -----

  function VaultKey(kdf: Kdf, p: Passphrase): Bytes {
    kdf(p.passphrase, p.salt, DEFAULT_KDF)
  }

  /** The key under which a user's data keys are wrapped, according to the log. */
  function UserKey(h: History, user: UserId): Bytes
    requires LastSetup(h.log, user).Some?
  {
    VaultKey(h.state.cfg.kdf, LastSetup(h.log, user).value)
  }

  ghost predicate UsersOk(db: Database) {
    db.vaults.Keys <= db.users && db.users !! db.retired
  }

  ghost predicate VaultsOk(h: History) {
    forall user | user in h.state.db.vaults ::
      && LastSetup(h.log, user).Some?
      && var p := LastSetup(h.log, user).value;
         h.state.db.vaults[user] == NewVault(h.state.cfg.kdf, p.passphrase, p.salt, p.nonce)
  }

  /** A session holds its user's vault key; sessions of deleted users may linger, but their ids never return. */
  ghost predicate SessionsOk(h: History) {
    forall user, id | Holds(h.state.sessions, user, id) ::
      if user in h.state.db.vaults
      then LastSetup(h.log, user).Some? && h.state.sessions[user][id].userKey == UserKey(h, user)
      else user in h.state.db.retired
  }

  ghost predicate RowOk(h: History, id: SecretId, row: Row) {
    && row.owner in h.state.db.users
    && (LoadBlob(row).None? <==> LastWritten(h.log, id).None?)
    && (LoadBlob(row).Some? ==>
          && row.owner in h.state.db.vaults
          && LastSetup(h.log, row.owner).Some?
          && exists r: Random ::
               LoadBlob(row) == Some(EncryptSecret(LastWritten(h.log, id).value, UserKey(h, row.owner), r)))
  }

  ghost predicate Inv(h: History) {
    && UsersOk(h.state.db)
    && VaultsOk(h)
    && SessionsOk(h)
    && forall id | id in h.state.db.secrets :: RowOk(h, id, h.state.db.secrets[id])
  }

  lemma LogGrows(log: seq<Entry>, e: Entry, id: SecretId, user: UserId)
    ensures LastWritten(log + [e], id) == if Wrote(e, id).Some? then Wrote(e, id) else LastWritten(log, id)
    ensures LastSetup(log + [e], user)
            == if e.event.Setup? && e.event.user == user && e.outcome == Done
               then Some(Passphrase(e.event.passphrase, e.event.salt, e.event.nonce)) else LastSetup(log, user)
  {
    assert (log + [e])[..|log|] == log;
  }

  ghost predicate SameKeys(h: History, h': History) {
    h'.state.cfg == h.state.cfg && forall user :: LastSetup(h'.log, user) == LastSetup(h.log, user)
  }

  ghost predicate Shrinks(n: Nested, n': Nested) {
    forall user, id | Holds(n', user, id) :: Holds(n, user, id) && n'[user][id] == n[user][id]
  }

  lemma EntriesKeepKeys(h: History, h': History, entry: Entry)
    requires h'.state.cfg == h.state.cfg && h'.log == h.log + [entry]
    requires !(entry.event.Setup? && entry.outcome == Done)
    ensures SameKeys(h, h')
  {
    forall user ensures LastSetup(h'.log, user) == LastSetup(h.log, user) {
      LogGrows(h.log, entry, 0, user);
    }
  }

  lemma EvictionShrinks(n: Nested, user: UserId, id: SessionId, now: int)
    ensures Shrinks(n, Drop(n, user, id))
    ensures Shrinks(n, GetActive(n, user, id, now).0)
  {
  }

  /** Users may only come, vaults and sessions may only go (a vault with its user). */
  ghost predicate OnlyLoses(h: History, h': History) {
    && UsersOk(h'.state.db)
    && (forall user | user in h'.state.db.vaults ::
          user in h.state.db.vaults && h'.state.db.vaults[user] == h.state.db.vaults[user])
    && (forall user | user in h.state.db.vaults && user !in h'.state.db.vaults :: user in h'.state.db.retired)
    && h.state.db.retired <= h'.state.db.retired
    && Shrinks(h.state.sessions, h'.state.sessions)
  }

  lemma KeysAndSessionsStay(h: History, h': History)
    requires Inv(h) && SameKeys(h, h') && OnlyLoses(h, h')
    ensures VaultsOk(h') && SessionsOk(h')
  {
  }

  /** A row whose secret was not written keeps its promise while its owner and the owner's vault stay. */
  lemma UnwrittenRowStays(h: History, h': History, id: SecretId, row: Row, row': Row)
    requires SameKeys(h, h') && RowOk(h, id, row)
    requires row'.owner == row.owner && LoadBlob(row') == LoadBlob(row)
    requires row.owner in h'.state.db.users && (row.owner in h.state.db.vaults ==> row.owner in h'.state.db.vaults)
    requires LastWritten(h'.log, id) == LastWritten(h.log, id)
    ensures RowOk(h', id, row')
  {
    if LoadBlob(row).Some? {
      var r: Random :| LoadBlob(row) == Some(EncryptSecret(LastWritten(h.log, id).value, UserKey(h, row.owner), r));
      assert LoadBlob(row') == Some(EncryptSecret(LastWritten(h'.log, id).value, UserKey(h', row.owner), r));
    }
  }

  /** A row just written holds the plaintext of the log's new entry under its owner's vault key. */
  lemma WrittenRowIsOk(h': History, id: SecretId, row: Row, plaintext: string, r: Random)
    requires row.owner in h'.state.db.users && row.owner in h'.state.db.vaults
    requires LastSetup(h'.log, row.owner).Some? && LastWritten(h'.log, id) == Some(plaintext)
    requires LoadBlob(row) == Some(EncryptSecret(plaintext, UserKey(h', row.owner), r))
    ensures RowOk(h', id, row)
  {
  }

  /** A step that touches no secret and no vault, except that rows may disappear. */
  lemma LosingStepKeepsInv(h: History, h': History, entry: Entry)
    requires Inv(h) && h'.state.cfg == h.state.cfg && h'.log == h.log + [entry]
    requires !(entry.event.Setup? && entry.outcome == Done) && forall id :: Wrote(entry, id).None?
    requires OnlyLoses(h, h')
    requires forall id | id in h'.state.db.secrets ::
               && id in h.state.db.secrets
               && h'.state.db.secrets[id].owner == h.state.db.secrets[id].owner
               && LoadBlob(h'.state.db.secrets[id]) == LoadBlob(h.state.db.secrets[id])
               && h.state.db.secrets[id].owner in h'.state.db.users
               && (h.state.db.secrets[id].owner in h.state.db.vaults ==>
                     h.state.db.secrets[id].owner in h'.state.db.vaults)
    ensures Inv(h')
  {
    EntriesKeepKeys(h, h', entry);
    KeysAndSessionsStay(h, h');
    forall id | id in h'.state.db.secrets ensures RowOk(h', id, h'.state.db.secrets[id]) {
      LogGrows(h.log, entry, id, 0);
      UnwrittenRowStays(h, h', id, h.state.db.secrets[id], h'.state.db.secrets[id]);
    }
  }

  lemma SetupKeepsInv(h: History, e: Event)
    requires Inv(h) && e.Setup? && Exec(h.state, e).1 == Done
    ensures Inv(Step(h, e))
  {
    var h' := Step(h, e);
    var entry := Entry(e, Done);
    forall user ensures user != e.user ==> LastSetup(h'.log, user) == LastSetup(h.log, user) {
      LogGrows(h.log, entry, 0, user);
    }
    LogGrows(h.log, entry, 0, e.user);
    forall id | id in h'.state.db.secrets ensures RowOk(h', id, h'.state.db.secrets[id]) {
      LogGrows(h.log, entry, id, 0);
      var row := h.state.db.secrets[id];
      assert RowOk(h, id, row);
      if LoadBlob(row).Some? {
        var r: Random :| LoadBlob(row) == Some(EncryptSecret(LastWritten(h.log, id).value, UserKey(h, row.owner), r));
        assert row.owner != e.user;
        WrittenRowIsOk(h', id, row, LastWritten(h.log, id).value, r);
      }
    }
  }

  lemma UnlockKeepsInv(h: History, e: Event)
    requires Inv(h) && e.Unlock? && Exec(h.state, e).1.Opened?
    ensures Inv(Step(h, e))
  {
    var h' := Step(h, e);
    EntriesKeepKeys(h, h', Entry(e, Exec(h.state, e).1));
    var vault := h.state.db.vaults[e.user];
    assert DerivedKey(h.state.cfg.kdf, vault, e.passphrase, e.freshSalt) == UserKey(h, e.user);
    forall user, id | Holds(h'.state.sessions, user, id)
      ensures if user in h'.state.db.vaults
              then LastSetup(h'.log, user).Some? && h'.state.sessions[user][id].userKey == UserKey(h', user)
              else user in h'.state.db.retired
    {
      assert (user == e.user && id == e.session) || Holds(h.state.sessions, user, id);
    }
    forall id | id in h'.state.db.secrets ensures RowOk(h', id, h'.state.db.secrets[id]) {
      LogGrows(h.log, Entry(e, Exec(h.state, e).1), id, 0);
      UnwrittenRowStays(h, h', id, h.state.db.secrets[id], h'.state.db.secrets[id]);
    }
  }

  /** The key that a session yields is its user's vault key. */
  lemma RequiredKeyIsTheVaultKey(h: History, user: UserId, session: Option<SessionId>)
    requires Inv(h)
    ensures var (sessions, key) := RequireUserKey(h.state, user, session);
            && Shrinks(h.state.sessions, sessions)
            && (key.Ok? ==> user in h.state.db.vaults && LastSetup(h.log, user).Some? && key.value == UserKey(h, user))
  {
    if session.Some? {
      EvictionShrinks(h.state.sessions, user, session.value, h.state.now);
    }
  }

  lemma CreateKeepsInv(h: History, e: Event)
    requires Inv(h) && e.CreateSecret?
    ensures Inv(Step(h, e))
  {
    var h' := Step(h, e);
    var entry := Entry(e, Exec(h.state, e).1);
    RequiredKeyIsTheVaultKey(h, e.user, e.vaultSession);
    if entry.outcome != Done {
      LosingStepKeepsInv(h, h', entry);
    } else {
      EntriesKeepKeys(h, h', entry);
      KeysAndSessionsStay(h, h');
      forall id | id in h'.state.db.secrets ensures RowOk(h', id, h'.state.db.secrets[id]) {
        LogGrows(h.log, entry, id, 0);
        if id == e.secretId {
          WrittenRowIsOk(h', id, h'.state.db.secrets[id], e.plaintext, e.random);
        } else {
          UnwrittenRowStays(h, h', id, h.state.db.secrets[id], h'.state.db.secrets[id]);
        }
      }
    }
  }

  lemma UpdateKeepsInv(h: History, e: Event)
    requires Inv(h) && e.UpdateSecret?
    ensures Inv(Step(h, e))
  {
    var h' := Step(h, e);
    var entry := Entry(e, Exec(h.state, e).1);
    RequiredKeyIsTheVaultKey(h, e.user, e.vaultSession);
    if entry.outcome != Done || e.newSecret.None? {
      LosingStepKeepsInv(h, h', entry);
    } else {
      EntriesKeepKeys(h, h', entry);
      KeysAndSessionsStay(h, h');
      forall id | id in h'.state.db.secrets ensures RowOk(h', id, h'.state.db.secrets[id]) {
        LogGrows(h.log, entry, id, 0);
        if id == e.secretId {
          WrittenRowIsOk(h', id, h'.state.db.secrets[id], e.newSecret.value, e.random);
        } else {
          UnwrittenRowStays(h, h', id, h.state.db.secrets[id], h'.state.db.secrets[id]);
        }
      }
    }
  }

  /** Using a secret changes its usage count and the audit log, and may evict an expired session. */
  lemma UseOnlyCounts(s: State, user: UserId, session: Option<SessionId>, id: SecretId)
    ensures var t := Use(s, user, session, id).0;
            && t.cfg == s.cfg && t.now == s.now
            && t.db.users == s.db.users && t.db.retired == s.db.retired && t.db.vaults == s.db.vaults
            && t.db.secrets.Keys == s.db.secrets.Keys
            && (forall i | i in t.db.secrets ::
                  && t.db.secrets[i].owner == s.db.secrets[i].owner
                  && LoadBlob(t.db.secrets[i]) == LoadBlob(s.db.secrets[i]))
            && (t.sessions == s.sessions || t.sessions == RequireUserKey(s, user, session).0)
  {
  }

  lemma UseKeepsInv(h: History, e: Event)
    requires Inv(h) && e.UseSecret?
    ensures Inv(Step(h, e))
  {
    RequiredKeyIsTheVaultKey(h, e.user, e.vaultSession);
    UseOnlyCounts(h.state, e.user, e.vaultSession, e.secretId);
    LosingStepKeepsInv(h, Step(h, e), Entry(e, Exec(h.state, e).1));
  }

  lemma StepWithoutKeysKeepsInv(h: History, e: Event)
    requires Inv(h) && (e.Lock? || e.Tick? || e.Restart? || e.AddUser? || e.DeleteUser? || e.DeleteSecret?)
    ensures Inv(Step(h, e))
  {
    if e.Lock? {
      EvictionShrinks(h.state.sessions, e.user, e.session, 0);
    }
    LosingStepKeepsInv(h, Step(h, e), Entry(e, Exec(h.state, e).1));
  }

  lemma StepKeepsInv(h: History, e: Event)
    requires Inv(h)
    ensures Inv(Step(h, e))
  {
    var h' := Step(h, e);
    var entry := Entry(e, Exec(h.state, e).1);
    match e
    case Setup(_, _, _, _) =>
      if entry.outcome == Done { SetupKeepsInv(h, e); } else { LosingStepKeepsInv(h, h', entry); }
    case Unlock(_, _, _, _) =>
      if entry.outcome.Opened? { UnlockKeepsInv(h, e); } else { LosingStepKeepsInv(h, h', entry); }
    case CreateSecret(_, _, _, _, _, _, _, _, _) => CreateKeepsInv(h, e);
    case UpdateSecret(_, _, _, _, _, _, _, _) => UpdateKeepsInv(h, e);
    case UseSecret(_, _, _) => UseKeepsInv(h, e);
    case _ => StepWithoutKeysKeepsInv(h, e);
  }

  lemma {:induction false} RunKeepsInv(h: History, es: seq<Event>)
    requires Inv(h)
    ensures Inv(Run(Step, h, es))
    decreases |es|
  {
    if es == [] {
    } else {
      StepKeepsInv(h, es[0]);
      RunKeepsInv(Step(h, es[0]), es[1..]);
    }
  }

  lemma InitIsOk(cfg: Config, now: int, users: set<UserId>, legacy: map<SecretId, Row>)
    requires LegacyOnly(users, legacy)
    ensures Inv(Init(cfg, now, users, legacy))
  {
  }

  // ----- what every history guarantees -----

  /** A user's session answers: it exists, was not locked or lost, and has not reached its expiry. */
  predicate Live(s: State, user: UserId, session: Option<SessionId>) {
    session.Some? && Holds(s.sessions, user, session.value) && s.now < s.sessions[user][session.value].expiresAt
  }

  /**
  Read-your-writes: after any history whatsoever, using a secret returns the plaintext most recently
  written for it, and says exactly why when it does not. In particular a secret written by the service
  and read by its owner with a live session never fails to decrypt.
  */
  lemma ReadYourWrites(cfg: Config, now: int, users: set<UserId>, legacy: map<SecretId, Row>, es: seq<Event>,
                       user: UserId, session: Option<SessionId>, id: SecretId)
    requires LegacyOnly(users, legacy)
    ensures var h := Run(Step, Init(cfg, now, users, legacy), es);
            Use(h.state, user, session, id).1 ==
              if !Accessible(h.state.db, user, id) then Failed(SecretNotAccessible)
              else if user !in h.state.db.vaults then Failed(VaultNotConfigured)
              else if session.None? then Failed(VaultLocked)
              else if !Live(h.state, user, session) then Failed(VaultSessionExpired)
              else match LastWritten(h.log, id)
                   case None => Failed(SecretDecryptionFailed)
                   case Some(plaintext) => Plaintext(plaintext)
  {
    InitIsOk(cfg, now, users, legacy);
    RunKeepsInv(Init(cfg, now, users, legacy), es);
    var h := Run(Step, Init(cfg, now, users, legacy), es);
    RequiredKeyIsTheVaultKey(h, user, session);
    if Accessible(h.state.db, user, id) {
      var row := h.state.db.secrets[id];
      assert RowOk(h, id, row);
      if LoadBlob(row).Some? {
        var r: Random :| LoadBlob(row) == Some(EncryptSecret(LastWritten(h.log, id).value, UserKey(h, row.owner), r));
        OnlyTheWrappingKeyDecrypts(LastWritten(h.log, id).value, UserKey(h, row.owner), UserKey(h, row.owner), r);
      }
    }
  }

  /**
  Unlocking succeeds exactly for passphrases that derive the same key as the one of the setup. An empty stored salt
  is falsy, so the key is then derived with a fresh one.
  */
  lemma UnlockChecksThePassphrase(cfg: Config, now: int, users: set<UserId>, legacy: map<SecretId, Row>, es: seq<Event>,
                                  user: UserId, passphrase: string, session: SessionId, freshSalt: Bytes)
    requires LegacyOnly(users, legacy)
    requires user in Run(Step, Init(cfg, now, users, legacy), es).state.db.vaults
    ensures var h := Run(Step, Init(cfg, now, users, legacy), es);
            && LastSetup(h.log, user).Some?
            && var setup := LastSetup(h.log, user).value;
               var salt := if setup.salt == "" then freshSalt else setup.salt;
               UnlockVault(h.state, user, passphrase, session, freshSalt).1 ==
                 if cfg.kdf(passphrase, salt, DEFAULT_KDF) == cfg.kdf(setup.passphrase, setup.salt, DEFAULT_KDF)
                 then Opened(session) else Failed(InvalidVaultPassphrase)
  {
    InitIsOk(cfg, now, users, legacy);
    RunKeepsInv(Init(cfg, now, users, legacy), es);
    ConfigStays(Init(cfg, now, users, legacy), es);
  }

  lemma {:induction false} ConfigStays(h: History, es: seq<Event>)
    ensures Run(Step, h, es).state.cfg == h.state.cfg
    decreases |es|
  {
    if es == [] {
    } else {
      ConfigStays(Step(h, es[0]), es[1..]);
    }
  }

  // ----- every release of a plaintext is audited -----

  /** A plaintext that left the service: whose, and of which secret. */
  datatype Release = Release(owner: UserId, secretId: SecretId)

  /** The releases of a log entry, and those an audit record testifies to. */
  function ReleasedBy(entry: Entry): seq<Release> {
    if entry.outcome.Plaintext? && entry.event.UseSecret? then [Release(entry.event.user, entry.event.secretId)] else []
  }

  function RecordedBy(record: AuditEntry): seq<Release> {
    if record.action == "user_secret.used" && record.target.Some?
    then [Release(record.actor, record.target.value)] else []
  }

  function Releases(log: seq<Entry>): seq<Release> {
    if log == [] then [] else Releases(log[..|log| - 1]) + ReleasedBy(log[|log| - 1])
  }

  function UseRecords(audit: seq<AuditEntry>): seq<Release> {
    if audit == [] then [] else UseRecords(audit[..|audit| - 1]) + RecordedBy(audit[|audit| - 1])
  }

  /** Only `get_secret_for_internal_use` gives out a plaintext. */
  lemma OnlyUseReleases(s: State, e: Event)
    ensures Exec(s, e).1.Plaintext? ==> e.UseSecret?
  {
  }

  /** A step writes at most one audit record, which testifies to exactly what the step released. */
  lemma ExecAuditsRelease(s: State, e: Event)
    ensures var (s', outcome) := Exec(s, e);
            || (s'.db.audit == s.db.audit && ReleasedBy(Entry(e, outcome)) == [])
            || (|s'.db.audit| == |s.db.audit| + 1 && s'.db.audit[..|s.db.audit|] == s.db.audit
                && RecordedBy(s'.db.audit[|s.db.audit|]) == ReleasedBy(Entry(e, outcome)))
  {
  }

  lemma StepAuditsRelease(h: History, e: Event)
    requires UseRecords(h.state.db.audit) == Releases(h.log)
    ensures UseRecords(Step(h, e).state.db.audit) == Releases(Step(h, e).log)
  {
    ExecAuditsRelease(h.state, e);
    ReleasesGrow(h.log, Entry(e, Exec(h.state, e).1));
  }

  lemma ReleasesGrow(log: seq<Entry>, entry: Entry)
    ensures Releases(log + [entry]) == Releases(log) + ReleasedBy(entry)
  {
    assert (log + [entry])[..|log|] == log;
  }

  lemma {:induction false} RunAuditsReleases(h: History, es: seq<Event>)
    requires UseRecords(h.state.db.audit) == Releases(h.log)
    ensures UseRecords(Run(Step, h, es).state.db.audit) == Releases(Run(Step, h, es).log)
    decreases |es|
  {
    if es == [] {
    } else {
      StepAuditsRelease(h, es[0]);
      RunAuditsReleases(Step(h, es[0]), es[1..]);
    }
  }

  /** The use records of the audit log name, in order, owner and secret of every plaintext that left the service. */
  lemma EveryReleaseIsAudited(cfg: Config, now: int, users: set<UserId>, legacy: map<SecretId, Row>, es: seq<Event>)
    ensures var h := Run(Step, Init(cfg, now, users, legacy), es);
            UseRecords(h.state.db.audit) == Releases(h.log)
  {
    RunAuditsReleases(Init(cfg, now, users, legacy), es);
  }
}
