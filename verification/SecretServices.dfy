/**
The vault service and the secrets service as objects over one database session and one
session store (src/services/vault_service.py, src/services/user_secrets_service.py).
Their methods do what the operations of SecretVault say, and serving any sequence of
requests is one of its histories.

A request works on its own copy of the rows and makes it visible when it commits; an
exception leaves the committed rows as they were.
*/
module SecretServices {
  import opened Runs
  import opened Wrappers
  import opened VaultSessions
  import V = SecretVault

  class AppDatabase {
    var committed: V.Database

    constructor (rows: V.Database)
      ensures committed == rows
    {
      committed := rows;
    }
  }

  class VaultService {
    const db: AppDatabase
    const store: VaultSessionStore
    const cfg: V.Config

    constructor (db: AppDatabase, store: VaultSessionStore, cfg: V.Config)
      ensures this.db == db && this.store == store && this.cfg == cfg
    {
      this.db, this.store, this.cfg := db, store, cfg;
    }

    ghost function State(now: int): V.State
      reads this, db, store
    {
      V.State(cfg, now, db.committed, store.sessions)
    }

    method SetupVault(user: UserId, passphrase: string, salt: Bytes, nonce: Bytes, ghost now: int)
      returns (r: V.Outcome)
      modifies db
      ensures (State(now), r) == V.SetupVault(old(State(now)), user, passphrase, salt, nonce)
    {
      var rows := db.committed;
      if user in rows.vaults {
        return V.Failed(V.VaultAlreadyConfigured);
      }
      var key := cfg.kdf(passphrase, salt, V.DEFAULT_KDF);
      var check := V.Enc(key, nonce, V.CHECK_PLAINTEXT);
      if user !in rows.users {
        return V.Failed(V.IntegrityError);
      }
      var row := V.VaultRow(Some(salt), Some(V.DEFAULT_KDF), Some(check), Some(nonce));
      rows := rows.(vaults := rows.vaults[user := row]);
      db.committed := V.Log(rows, user, "vault.setup", None);
      r := V.Done;
    }

    method UnlockVault(user: UserId, passphrase: string, session: SessionId, freshSalt: Bytes, now: int)
      returns (r: V.Outcome)
      modifies db, store
      ensures (State(now), r) == V.UnlockVault(old(State(now)), user, passphrase, session, freshSalt)
    {
      var rows := db.committed;
      if user !in rows.vaults {
        return V.Failed(V.VaultNotConfigured);
      }
      var vault := rows.vaults[user];
      if vault.salt.None? || vault.params.None? {
        return V.Failed(V.VaultNotConfigured);
      }
      var salt := if vault.salt.value == "" then freshSalt else vault.salt.value;
      var key := cfg.kdf(passphrase, salt, vault.params.value);
      if vault.check.None? || vault.checkNonce.None? {
        return V.Failed(V.VaultNotConfigured);
      }
      var checked := V.Decrypt(key, vault.checkNonce.value, vault.check.value);
      if checked != Some(V.CHECK_PLAINTEXT) {
        return V.Failed(V.InvalidVaultPassphrase);
      }
      var id := store.Create(user, key, cfg.sessionTtl, session, now);
      db.committed := V.Log(rows, user, "vault.unlock", None);
      r := V.Opened(id);
    }

    method LockVault(user: UserId, session: SessionId, ghost now: int) returns (r: V.Outcome)
      modifies db, store
      ensures (State(now), r) == V.LockVault(old(State(now)), user, session)
    {
      store.Invalidate(user, session);
      db.committed := V.Log(db.committed, user, "vault.lock", None);
      r := V.Done;
    }

    method IsUnlocked(user: UserId, session: Option<SessionId>, now: int) returns (unlocked: bool)
      modifies store
      ensures unlocked <==> V.Live(old(State(now)), user, session)
    {
      if session.None? {
        return false;
      }
      var key := store.GetUserKey(user, session.value, now);
      unlocked := key.Some?;
    }

    method RequireUserKey(user: UserId, session: Option<SessionId>, now: int) returns (r: Result<Bytes, V.Error>)
      modifies store
      ensures (store.sessions, r) == V.RequireUserKey(old(State(now)), user, session)
    {
      if user !in db.committed.vaults {
        return Err(V.VaultNotConfigured);
      }
      if session.None? {
        return Err(V.VaultLocked);
      }
      var key := store.GetUserKey(user, session.value, now);
      if key.None? {
        return Err(V.VaultSessionExpired);
      }
      r := Ok(key.value);
    }
  }

  class UserSecretsService {
    const vault: VaultService

    constructor (vault: VaultService)
      ensures this.vault == vault
    {
      this.vault := vault;
    }

    ghost function State(now: int): V.State
      reads vault, vault.db, vault.store
    {
      vault.State(now)
    }

    method CreateSecret(actor: UserId, user: UserId, session: Option<SessionId>, id: V.SecretId, kind: string,
                        alias: Option<string>, username: Option<string>, secret: string, random: V.Random, now: int)
      returns (r: V.Outcome)
      modifies vault.db, vault.store
      ensures (State(now), r) ==
              V.Create(old(State(now)),
                       V.CreateSecret(actor, user, session, id, kind, alias, username, secret, random))
    {
      var key := vault.RequireUserKey(user, session, now);
      if key.Err? {
        return V.Failed(key.error);
      }
      var blob := V.EncryptSecret(secret, key.value, random);
      var rows := vault.db.committed;
      if id in rows.secrets {
        return V.Failed(V.IntegrityError);
      }
      var row := V.Row(user, kind, alias, username, Some(blob.ciphertext), Some(blob.secretNonce),
                       Some(blob.wrappedDek), Some(blob.wrapNonce), Some(blob.version), 0);
      rows := rows.(secrets := rows.secrets[id := row]);
      vault.db.committed := V.Log(rows, actor, "user_secret.create", Some(id));
      r := V.Done;
    }

    method UpdateSecret(actor: UserId, user: UserId, session: Option<SessionId>, id: V.SecretId,
                        alias: V.Change<Option<string>>, username: V.Change<Option<string>>, secret: Option<string>,
                        random: V.Random, now: int)
      returns (r: V.Outcome)
      modifies vault.db, vault.store
      ensures (State(now), r)
              == V.UpdateRow(old(State(now)), V.UpdateSecret(actor, user, session, id, alias, username, secret, random))
    {
      var rows := vault.db.committed;
      if id !in rows.secrets {
        return V.Failed(V.SecretNotAccessible);
      }
      var row := rows.secrets[id];
      if row.owner != user {
        return V.Failed(V.SecretNotAccessible);
      }
      if alias.Set? {
        row := row.(alias := alias.value);
      }
      if username.Set? {
        row := row.(username := username.value);
      }
      if secret.Some? {
        var key := vault.RequireUserKey(user, session, now);
        if key.Err? {
          return V.Failed(key.error);
        }
        row := V.StoreBlob(row, V.EncryptSecret(secret.value, key.value, random));
      }
      rows := rows.(secrets := rows.secrets[id := row]);
      vault.db.committed := V.Log(rows, actor, "user_secret.update", Some(id));
      r := V.Done;
    }

    method DeleteSecret(actor: UserId, user: UserId, id: V.SecretId, ghost now: int) returns (r: V.Outcome)
      modifies vault.db
      ensures (State(now), r) == V.Delete(old(State(now)), V.DeleteSecret(actor, user, id))
    {
      var rows := vault.db.committed;
      if id !in rows.secrets {
        return V.Failed(V.SecretNotAccessible);
      }
      if rows.secrets[id].owner != user {
        return V.Failed(V.SecretNotAccessible);
      }
      rows := rows.(secrets := rows.secrets - {id});
      vault.db.committed := V.Log(rows, actor, "user_secret.delete", Some(id));
      r := V.Done;
    }

    method GetSecretForInternalUse(user: UserId, session: Option<SessionId>, id: V.SecretId, now: int)
      returns (r: V.Outcome)
      modifies vault.db, vault.store
      ensures (State(now), r) == V.Use(old(State(now)), user, session, id)
    {
      var rows := vault.db.committed;
      if id !in rows.secrets {
        return V.Failed(V.SecretNotAccessible);
      }
      var row := rows.secrets[id];
      if row.owner != user {
        return V.Failed(V.SecretNotAccessible);
      }
      var key := vault.RequireUserKey(user, session, now);
      if key.Err? {
        return V.Failed(key.error);
      }
      var blob := V.LoadBlob(row);
      if blob.None? {
        return V.Failed(V.SecretDecryptionFailed);
      }
      var plaintext := V.DecryptSecret(blob.value, key.value);
      if plaintext.None? {
        return V.Failed(V.SecretDecryptionFailed);
      }
      row := row.(usageCount := row.usageCount + 1);
      rows := rows.(secrets := rows.secrets[id := row]);
      vault.db.committed := V.Log(rows, row.owner, "user_secret.used", Some(id));
      r := V.Plaintext(plaintext.value);
    }

    // ----- serving requests -----

    /** One request, or what the environment does: time passes, the process restarts, users come and go. */
    method Serve(e: V.Event, now: int) returns (r: V.Outcome, later: int)
      modifies vault.db, vault.store
      ensures (State(later), r) == V.Exec(old(State(now)), e)
    {
      later, r := now, V.Done;
      match e
      case Tick(elapsed) => later := now + elapsed;
      case Restart => vault.store.sessions := map[];
      case AddUser(user) => ChangeUsers(e, now);
      case DeleteUser(user) => ChangeUsers(e, now);
      case Setup(user, passphrase, salt, nonce) => r := vault.SetupVault(user, passphrase, salt, nonce, now);
      case Unlock(user, passphrase, session, salt) => r := vault.UnlockVault(user, passphrase, session, salt, now);
      case Lock(user, session) => r := vault.LockVault(user, session, now);
      case CreateSecret(actor, user, session, id, kind, alias, username, secret, random) =>
        r := CreateSecret(actor, user, session, id, kind, alias, username, secret, random, now);
      case UpdateSecret(actor, user, session, id, alias, username, secret, random) =>
        r := UpdateSecret(actor, user, session, id, alias, username, secret, random, now);
      case DeleteSecret(actor, user, id) => r := DeleteSecret(actor, user, id, now);
      case UseSecret(user, session, id) => r := GetSecretForInternalUse(user, session, id, now);
    }

    /** What the user administration does to the rows. */
    method ChangeUsers(e: V.Event, ghost now: int)
      requires e.AddUser? || e.DeleteUser?
      modifies vault.db
      ensures (State(now), V.Done) == V.Exec(old(State(now)), e)
    {
      var rows := vault.db.committed;
      if e.AddUser? && e.user !in rows.users + rows.retired {
        vault.db.committed := rows.(users := rows.users + {e.user});
      } else if e.DeleteUser? && e.user in rows.users {
        rows := rows.(users := rows.users - {e.user});
        rows := rows.(retired := rows.retired + {e.user});
        rows := rows.(vaults := rows.vaults - {e.user});
        rows := rows.(secrets := map id | id in rows.secrets && rows.secrets[id].owner != e.user :: rows.secrets[id]);
        vault.db.committed := rows;
      }
    }

    /** Whatever is served, the objects go through the states of the history of those events. */
    method ServeAll(es: seq<V.Event>, now: int) returns (replies: seq<V.Outcome>, later: int)
      modifies vault.db, vault.store
      ensures var h := Run(V.Step, V.History(old(State(now)), []), es);
              && State(later) == h.state
              && |replies| == |es| == |h.log|
              && forall i | 0 <= i < |es| :: h.log[i] == V.Entry(es[i], replies[i])
    {
      replies, later := [], now;
      ghost var start := V.History(old(State(now)), []);
      for k := 0 to |es|
        invariant State(later) == Run(V.Step, start, es[..k]).state
        invariant |replies| == k == |Run(V.Step, start, es[..k]).log|
        invariant forall i | 0 <= i < k :: Run(V.Step, start, es[..k]).log[i] == V.Entry(es[i], replies[i])
      {
        ghost var before := Run(V.Step, start, es[..k]);
        var r;
        r, later := Serve(es[k], later);
        replies := replies + [r];
        RunSnoc(V.Step, start, es[..k], es[k]);
        assert es[..k + 1] == es[..k] + [es[k]];
        assert Run(V.Step, start, es[..k + 1]) == V.Step(before, es[k]);
      }
      assert es[..|es|] == es;
    }
  }
}
