/**
The in-memory vault sessions (src/services/vault_session_store.py): a map of users to
maps of sessions, which forgets an expired session only when somebody asks for it.
*/
module VaultSessions {
  import opened Wrappers

  type UserId = nat
  type SessionId = string
  type Bytes = string

  datatype Session = Session(userKey: Bytes, expiresAt: int)

  type Nested = map<UserId, map<SessionId, Session>>

  // ----- the nested map, operation by operation -----

  predicate Holds(n: Nested, user: UserId, id: SessionId) {
    user in n && id in n[user]
  }

  function Put(n: Nested, user: UserId, id: SessionId, session: Session): Nested {
    n[user := (if user in n then n[user] else map[])[id := session]]
  }

  /** Remove a session, and the user's map with it when it was the last one. */
  function Drop(n: Nested, user: UserId, id: SessionId): Nested {
    if user !in n then n
    else if n[user] - {id} == map[] then n - {user}
    else n[user := n[user] - {id}]
  }

  /** `_get_active_session`: the answer, and the map with an expired session evicted. */
  function GetActive(n: Nested, user: UserId, id: SessionId, now: int): (Nested, Option<Session>) {
    if !Holds(n, user, id) then (n, None)
    else if n[user][id].expiresAt <= now then (Drop(n, user, id), None)
    else (n, Some(n[user][id]))
  }

  class VaultSessionStore {
    var sessions: Nested

    constructor ()
      ensures sessions == map[]
    {
      sessions := map[];
    }

    method Create(user: UserId, userKey: Bytes, ttlSeconds: int, id: SessionId, now: int) returns (r: SessionId)
      modifies this
      ensures r == id
      ensures sessions == Put(old(sessions), user, id, Session(userKey, now + ttlSeconds))
    {
      var expiresAt := now + ttlSeconds;
      if user !in sessions {
        sessions := sessions[user := map[]];
      }
      sessions := sessions[user := sessions[user][id := Session(userKey, expiresAt)]];
      r := id;
    }

    method GetUserKey(user: UserId, id: SessionId, now: int) returns (key: Option<Bytes>)
      modifies this
      ensures sessions == GetActive(old(sessions), user, id, now).0
      ensures key == match GetActive(old(sessions), user, id, now).1 case None => None case Some(s) => Some(s.userKey)
    {
      var session := GetActiveSession(user, id, now);
      key := if session.None? then None else Some(session.value.userKey);
    }

    method GetExpiresAt(user: UserId, id: SessionId, now: int) returns (expiresAt: Option<int>)
      modifies this
      ensures sessions == GetActive(old(sessions), user, id, now).0
      ensures expiresAt == match GetActive(old(sessions), user, id, now).1
                           case None => None case Some(s) => Some(s.expiresAt)
    {
      var session := GetActiveSession(user, id, now);
      expiresAt := if session.None? then None else Some(session.value.expiresAt);
    }

    method Invalidate(user: UserId, id: SessionId)
      modifies this
      ensures sessions == Drop(old(sessions), user, id)
    {
      if user !in sessions {
        return;
      }
      sessions := sessions[user := sessions[user] - {id}];
      if sessions[user] == map[] {
        sessions := sessions - {user};
      }
      assert sessions == Drop(old(sessions), user, id);
    }

    method InvalidateAllForUser(user: UserId)
      modifies this
      ensures sessions == old(sessions) - {user}
    {
      sessions := sessions - {user};
    }

    method GetActiveSession(user: UserId, id: SessionId, now: int) returns (r: Option<Session>)
      modifies this
      ensures (sessions, r) == GetActive(old(sessions), user, id, now)
    {
      if user !in sessions {
        return None;
      }
      if id !in sessions[user] {
        return None;
      }
      var session := sessions[user][id];
      if session.expiresAt <= now {
        Invalidate(user, id);
        return None;
      }
      r := Some(session);
    }
  }

  // ----- the reference: a flat map that never forgets what was not invalidated -----

  type Flat = map<(UserId, SessionId), Session>

  function Lookup(f: Flat, user: UserId, id: SessionId, now: int): Option<Session> {
    if (user, id) in f && now < f[(user, id)].expiresAt then Some(f[(user, id)]) else None
  }

  datatype Op =
    | Create(user: UserId, id: SessionId, key: Bytes, ttl: int)
    | GetKey(user: UserId, id: SessionId)
    | GetExpiry(user: UserId, id: SessionId)
    | Invalidate(user: UserId, id: SessionId)
    | InvalidateAll(user: UserId)

  /** An operation with the clock reading at which it runs. */
  datatype TimedOp = At(now: int, op: Op)

  datatype Answer = NoAnswer | KeyIs(key: Option<Bytes>) | ExpiryIs(expiresAt: Option<int>)

  function AnswerWith(op: Op, session: Option<Session>): Answer {
    match op
    case GetKey(_, _) => KeyIs(if session.None? then None else Some(session.value.userKey))
    case GetExpiry(_, _) => ExpiryIs(if session.None? then None else Some(session.value.expiresAt))
    case _ => NoAnswer
  }

  function NestedStep(n: Nested, t: TimedOp): (Nested, Answer) {
    match t.op
    case Create(user, id, key, ttl) => (Put(n, user, id, Session(key, t.now + ttl)), NoAnswer)
    case GetKey(user, id) => var (n', s) := GetActive(n, user, id, t.now); (n', AnswerWith(t.op, s))
    case GetExpiry(user, id) => var (n', s) := GetActive(n, user, id, t.now); (n', AnswerWith(t.op, s))
    case Invalidate(user, id) => (Drop(n, user, id), NoAnswer)
    case InvalidateAll(user) => (n - {user}, NoAnswer)
  }

  ghost function FlatStep(f: Flat, t: TimedOp): (Flat, Answer) {
    match t.op
    case Create(user, id, key, ttl) => (f[(user, id) := Session(key, t.now + ttl)], NoAnswer)
    case GetKey(user, id) => (f, AnswerWith(t.op, Lookup(f, user, id, t.now)))
    case GetExpiry(user, id) => (f, AnswerWith(t.op, Lookup(f, user, id, t.now)))
    case Invalidate(user, id) => (f - {(user, id)}, NoAnswer)
    case InvalidateAll(user) => (map k | k in f && k.0 != user :: f[k], NoAnswer)
  }

  ghost function NestedAnswers(n: Nested, ops: seq<TimedOp>): seq<Answer>
    decreases |ops|
  {
    if ops == [] then [] else [NestedStep(n, ops[0]).1] + NestedAnswers(NestedStep(n, ops[0]).0, ops[1..])
  }

  ghost function FlatAnswers(f: Flat, ops: seq<TimedOp>): seq<Answer>
    decreases |ops|
  {
    if ops == [] then [] else [FlatStep(f, ops[0]).1] + FlatAnswers(FlatStep(f, ops[0]).0, ops[1..])
  }

  function NestedAfter(n: Nested, ops: seq<TimedOp>): Nested
    decreases |ops|
  {
    if ops == [] then n else NestedAfter(NestedStep(n, ops[0]).0, ops[1..])
  }

  ghost predicate NoEmptyUser(n: Nested) {
    forall user | user in n :: n[user] != map[]
  }

  /** What is nested is in the flat map; what is missing from it had expired. */
  ghost predicate Represents(n: Nested, f: Flat, now: int) {
    NoEmptyUser(n) && forall user, id :: RepresentsAt(n, f, now, user, id)
  }

  ghost predicate RepresentsAt(n: Nested, f: Flat, now: int, user: UserId, id: SessionId) {
    if Holds(n, user, id) then (user, id) in f && f[(user, id)] == n[user][id]
    else (user, id) in f ==> f[(user, id)].expiresAt <= now
  }

  ghost predicate ClockNeverGoesBack(start: int, ops: seq<TimedOp>)
    decreases |ops|
  {
    ops != [] ==> start <= ops[0].now && ClockNeverGoesBack(ops[0].now, ops[1..])
  }

  lemma DropKeepsTheRest(n: Nested, user: UserId, id: SessionId)
    requires NoEmptyUser(n)
    ensures NoEmptyUser(Drop(n, user, id))
    ensures forall u, i :: Holds(Drop(n, user, id), u, i) <==> Holds(n, u, i) && !(u == user && i == id)
    ensures forall u, i | Holds(Drop(n, user, id), u, i) :: Drop(n, user, id)[u][i] == n[u][i]
  {
    forall i | user in n && n[user] - {id} == map[] && i in n[user] ensures i == id {
      assert i !in n[user] - {id};
    }
  }

  lemma PutRefines(n: Nested, f: Flat, user: UserId, id: SessionId, session: Session, now: int)
    requires Represents(n, f, now)
    ensures Represents(Put(n, user, id, session), f[(user, id) := session], now)
  {
    var n', f' := Put(n, user, id, session), f[(user, id) := session];
    assert id in n'[user];
    forall u, i ensures RepresentsAt(n', f', now, u, i) {
      assert RepresentsAt(n, f, now, u, i);
    }
  }

  lemma DropRefines(n: Nested, f: Flat, user: UserId, id: SessionId, now: int)
    requires Represents(n, f, now)
    ensures Represents(Drop(n, user, id), f - {(user, id)}, now)
  {
    var n', f' := Drop(n, user, id), f - {(user, id)};
    DropKeepsTheRest(n, user, id);
    forall u, i ensures RepresentsAt(n', f', now, u, i) {
      assert RepresentsAt(n, f, now, u, i);
    }
  }

  /** Evicting what has expired is invisible. */
  lemma EvictionRefines(n: Nested, f: Flat, user: UserId, id: SessionId, now: int)
    requires Represents(n, f, now) && Holds(n, user, id) && n[user][id].expiresAt <= now
    ensures Represents(Drop(n, user, id), f, now)
  {
    var n' := Drop(n, user, id);
    DropKeepsTheRest(n, user, id);
    forall u, i ensures RepresentsAt(n', f, now, u, i) {
      assert RepresentsAt(n, f, now, u, i);
    }
  }

  lemma DropUserRefines(n: Nested, f: Flat, user: UserId, now: int)
    requires Represents(n, f, now)
    ensures Represents(n - {user}, map k | k in f && k.0 != user :: f[k], now)
  {
    var n', f' := n - {user}, map k | k in f && k.0 != user :: f[k];
    forall u, i ensures RepresentsAt(n', f', now, u, i) {
      assert RepresentsAt(n, f, now, u, i);
    }
  }

  lemma GetRefines(n: Nested, f: Flat, user: UserId, id: SessionId, now: int)
    requires Represents(n, f, now)
    ensures GetActive(n, user, id, now).1 == Lookup(f, user, id, now)
    ensures Represents(GetActive(n, user, id, now).0, f, now)
  {
    assert RepresentsAt(n, f, now, user, id);
    if Holds(n, user, id) && n[user][id].expiresAt <= now {
      EvictionRefines(n, f, user, id, now);
    }
  }

  lemma TimePasses(n: Nested, f: Flat, before: int, now: int)
    requires Represents(n, f, before) && before <= now
    ensures Represents(n, f, now)
  {
    forall u, i ensures RepresentsAt(n, f, now, u, i) {
      assert RepresentsAt(n, f, before, u, i);
    }
  }

  lemma CreateRefines(n: Nested, f: Flat, t: TimedOp)
    requires Represents(n, f, t.now) && t.op.Create?
    ensures NestedStep(n, t).1 == FlatStep(f, t).1
    ensures Represents(NestedStep(n, t).0, FlatStep(f, t).0, t.now)
  {
    PutRefines(n, f, t.op.user, t.op.id, Session(t.op.key, t.now + t.op.ttl), t.now);
  }

  lemma InvalidateRefines(n: Nested, f: Flat, t: TimedOp)
    requires Represents(n, f, t.now) && t.op.Invalidate?
    ensures NestedStep(n, t).1 == FlatStep(f, t).1
    ensures Represents(NestedStep(n, t).0, FlatStep(f, t).0, t.now)
  {
    DropRefines(n, f, t.op.user, t.op.id, t.now);
  }

  lemma InvalidateAllRefines(n: Nested, f: Flat, t: TimedOp)
    requires Represents(n, f, t.now) && t.op.InvalidateAll?
    ensures NestedStep(n, t).1 == FlatStep(f, t).1
    ensures Represents(NestedStep(n, t).0, FlatStep(f, t).0, t.now)
  {
    DropUserRefines(n, f, t.op.user, t.now);
  }

  lemma StepRefines(n: Nested, f: Flat, t: TimedOp)
    requires Represents(n, f, t.now)
    ensures NestedStep(n, t).1 == FlatStep(f, t).1
    ensures Represents(NestedStep(n, t).0, FlatStep(f, t).0, t.now)
  {
    match t.op
    case GetKey(user, id) => GetRefines(n, f, user, id, t.now);
    case GetExpiry(user, id) => GetRefines(n, f, user, id, t.now);
    case Create(_, _, _, _) => CreateRefines(n, f, t);
    case Invalidate(_, _) => InvalidateRefines(n, f, t);
    case InvalidateAll(_) => InvalidateAllRefines(n, f, t);
  }

  lemma {:induction false} RunRefines(n: Nested, f: Flat, ops: seq<TimedOp>, start: int)
    requires Represents(n, f, start) && ClockNeverGoesBack(start, ops)
    ensures NestedAnswers(n, ops) == FlatAnswers(f, ops)
    ensures NoEmptyUser(NestedAfter(n, ops))
    decreases |ops|
  {
    if ops == [] {
    } else {
      TimePasses(n, f, start, ops[0].now);
      StepRefines(n, f, ops[0]);
      RunRefines(NestedStep(n, ops[0]).0, FlatStep(f, ops[0]).0, ops[1..], ops[0].now);
    }
  }

  /**
  With a clock that never goes back, nobody can tell the store from the flat map: a session answers
  exactly when it was created, was not invalidated and has not reached its expiry. No user keeps an
  empty map.
  */
  lemma StoreRefinesFlatMap(ops: seq<TimedOp>, start: int)
    requires ClockNeverGoesBack(start, ops)
    ensures NestedAnswers(map[], ops) == FlatAnswers(map[], ops)
    ensures NoEmptyUser(NestedAfter(map[], ops))
  {
    RunRefines(map[], map[], ops, start);
  }

  /** If the clock is set back, eviction shows: a session looked up while expired stays gone. */
  lemma ClockSetBackIsVisible(key: Bytes)
    ensures var ops := [At(0, Create(1, "s", key, 10)), At(20, GetKey(1, "s")), At(5, GetKey(1, "s"))];
            && NestedAnswers(map[], ops) == [NoAnswer, KeyIs(None), KeyIs(None)]
            && FlatAnswers(map[], ops) == [NoAnswer, KeyIs(None), KeyIs(Some(key))]
  {
    var session := Session(key, 10);
    var o2 := [At(5, GetKey(1, "s"))];
    var o1 := [At(20, GetKey(1, "s"))] + o2;
    var ops := [At(0, Create(1, "s", key, 10)), At(20, GetKey(1, "s")), At(5, GetKey(1, "s"))];
    assert ops[1..] == o1 && o1[1..] == o2;
    assert map["s" := session] - {"s"} == map[];
    assert NestedStep(map[], ops[0]).0 == map[1 := map["s" := session]];
    assert NestedStep(map[1 := map["s" := session]], o1[0]).0 == map[];
    assert NestedAnswers(map[], ops) == [NoAnswer] + NestedAnswers(map[1 := map["s" := session]], o1);
    assert NestedAnswers(map[1 := map["s" := session]], o1) == [KeyIs(None)] + NestedAnswers(map[], o2);
    assert FlatAnswers(map[], ops) == [NoAnswer] + FlatAnswers(map[(1, "s") := session], o1);
    assert FlatAnswers(map[(1, "s") := session], o1) == [KeyIs(None)] + FlatAnswers(map[(1, "s") := session], o2);
  }
}
