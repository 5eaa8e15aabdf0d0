/** The locks of src/state-sqlite.ts under interleaving: each SQL statement is one
    atomic step, and a call reads the clock and draws its token before its first
    statement. */
module LockProtocol {
  import opened Prelude
  import opened ChatTables

  datatype Call =
    | ClearExpired(key: string, token: nat, now: int, expiresAt: int)  // first statement of acquireLock
    | TryInsert(key: string, token: nat, expiresAt: int)               // second statement of acquireLock
    | Release(key: string, token: nat)
    | Extend(key: string, token: nat, newExpiry: int)
    | ForceRelease(key: string)
    | Sweep(now: int)

  /** A lock handed to a caller. `lastExpiry` is the expiry last written for it;
      `ended` says that a release or force-release reached it. */
  datatype Grant = Grant(key: string, lastExpiry: int, ended: bool)

  datatype State = State(clock: int, locks: Locks, calls: map<nat, Call>, drawn: set<nat>, grants: map<nat, Grant>)

  datatype Event =
    | Tick(elapsed: nat)
    | BeginAcquire(id: nat, key: string, ttl: int, token: nat)
    | BeginRelease(id: nat, token: nat)
    | BeginExtend(id: nat, token: nat, ttl: int)
    | BeginForce(id: nat, key: string)
    | BeginSweep(id: nat)
    | Statement(id: nat)

  const INIT := State(0, map[], map[], {}, map[])

  /** Only the holder of a lock object can name its token; tokens are fresh UUIDs. */
  predicate Enabled(s: State, e: Event) {
    match e
    case Tick(_) => true
    case BeginAcquire(id, _, _, token) => id !in s.calls && token !in s.drawn
    case BeginRelease(id, token) => id !in s.calls && token in s.grants
    case BeginExtend(id, token, _) => id !in s.calls && token in s.grants
    case BeginForce(id, _) => id !in s.calls
    case BeginSweep(id) => id !in s.calls
    case Statement(id) => id in s.calls
  }

  function End(s: State, token: nat): State {
    if token in s.grants then s.(grants := s.grants[token := s.grants[token].(ended := true)]) else s
  }

  function RunStatement(s: State, id: nat): State
    requires id in s.calls
  {
    var done := s.(calls := s.calls - {id});
    match s.calls[id]
    case ClearExpired(k, token, now, expiresAt) =>
      s.(locks := DeleteExpiredLock(s.locks, k, now), calls := s.calls[id := TryInsert(k, token, expiresAt)])
    case TryInsert(k, token, expiresAt) =>
      if k in s.locks then done
      else done.(locks := InsertLockIfAbsent(s.locks, k, LockRow(token, expiresAt)),
                 grants := s.grants[token := Grant(k, expiresAt, false)])
    case Release(k, token) => End(done.(locks := DeleteLockOf(s.locks, k, token)), token)
    case Extend(k, token, newExpiry) =>
      if HoldsLock(s.locks, k, token) && token in s.grants then
        done.(locks := UpdateExpiry(s.locks, k, token, newExpiry),
              grants := s.grants[token := s.grants[token].(lastExpiry := newExpiry)])
      else done
    case ForceRelease(k) =>
      if k in s.locks then End(done.(locks := s.locks - {k}), s.locks[k].token) else done
    case Sweep(now) => done.(locks := SweepLocks(s.locks, now))
  }

  function Apply(s: State, e: Event): State
    requires Enabled(s, e)
  {
    match e
    case Tick(d) => s.(clock := s.clock + d)
    case BeginAcquire(id, k, ttl, token) =>
      s.(calls := s.calls[id := ClearExpired(k, token, s.clock, s.clock + ttl)], drawn := s.drawn + {token})
    case BeginRelease(id, token) => s.(calls := s.calls[id := Release(s.grants[token].key, token)])
    case BeginExtend(id, token, ttl) => s.(calls := s.calls[id := Extend(s.grants[token].key, token, s.clock + ttl)])
    case BeginForce(id, k) => s.(calls := s.calls[id := ForceRelease(k)])
    case BeginSweep(id) => s.(calls := s.calls[id := Sweep(s.clock)])
    case Statement(id) => RunStatement(s, id)
  }

  predicate Valid(s: State, es: seq<Event>)
    decreases |es|
  {
    es == [] || (Enabled(s, es[0]) && Valid(Apply(s, es[0]), es[1..]))
  }

  function Exec(s: State, es: seq<Event>): State
    requires Valid(s, es)
    decreases |es|
  {
    if es == [] then s else Exec(Apply(s, es[0]), es[1..])
  }

  // --- What every state keeps ---

  predicate Current(s: State, token: nat) {
    token in s.grants && HoldsLock(s.locks, s.grants[token].key, token)
  }

  predicate Over(s: State, token: nat)
    requires token in s.grants
  {
    s.grants[token].ended || s.grants[token].lastExpiry < s.clock
  }

  function Acquiring(s: State, id: nat): Option<nat> {
    if id in s.calls && (s.calls[id].ClearExpired? || s.calls[id].TryInsert?) then Some(s.calls[id].token) else None
  }

  predicate RowsGranted(s: State) {
    forall k :: k in s.locks ==>
      && s.locks[k].token in s.grants
      && s.grants[s.locks[k].token] == Grant(k, s.locks[k].expiresAt, false)
  }

  predicate GrantsOver(s: State) {
    forall t :: t in s.grants ==> Current(s, t) || Over(s, t)
  }

  ghost predicate TokensFresh(s: State) {
    && s.grants.Keys <= s.drawn
    && (forall i :: Acquiring(s, i).Some? ==> Acquiring(s, i).value in s.drawn && Acquiring(s, i).value !in s.grants)
    && (forall i, j :: Acquiring(s, i).Some? && Acquiring(s, i) == Acquiring(s, j) ==> i == j)
  }

  predicate ClocksPast(s: State) {
    && (forall i :: i in s.calls && s.calls[i].ClearExpired? ==> s.calls[i].now <= s.clock)
    && (forall i :: i in s.calls && s.calls[i].Sweep? ==> s.calls[i].now <= s.clock)
    && (forall i :: i in s.calls && s.calls[i].Release? ==>
          s.calls[i].token in s.grants && s.calls[i].key == s.grants[s.calls[i].token].key)
    && (forall i :: i in s.calls && s.calls[i].Extend? ==>
          s.calls[i].token in s.grants && s.calls[i].key == s.grants[s.calls[i].token].key)
  }

  ghost predicate Inv(s: State) {
    RowsGranted(s) && GrantsOver(s) && TokensFresh(s) && ClocksPast(s)
  }

  lemma StatementKeepsTokens(s: State, id: nat)
    requires Inv(s) && id in s.calls
    ensures TokensFresh(RunStatement(s, id)) && ClocksPast(RunStatement(s, id))
  {
    var s' := RunStatement(s, id);
    forall i
      ensures Acquiring(s', i) == if i == id && !s.calls[id].ClearExpired? then None else Acquiring(s, i)
    {
    }
    if s.calls[id].TryInsert? {
      assert Acquiring(s, id) == Some(s.calls[id].token);
    }
  }

  lemma StatementKeepsGrants(s: State, id: nat)
    requires Inv(s) && id in s.calls
    ensures RowsGranted(RunStatement(s, id)) && GrantsOver(RunStatement(s, id))
  {
    var s' := RunStatement(s, id);
    assert Acquiring(s, id).Some? ==> Acquiring(s, id).value !in s.grants;
    forall t | t in s'.grants
      ensures Current(s', t) || Over(s', t)
    {
      assert t in s.grants ==> Current(s, t) || Over(s, t);
    }
  }

  lemma StepKeepsInv(s: State, e: Event)
    requires Inv(s) && Enabled(s, e)
    ensures Inv(Apply(s, e))
  {
    var s' := Apply(s, e);
    if e.Statement? {
      StatementKeepsTokens(s, e.id);
      StatementKeepsGrants(s, e.id);
    } else if e.Tick? {
      forall t | t in s'.grants ensures Current(s', t) || Over(s', t) {
        assert Current(s, t) || Over(s, t);
      }
      forall i ensures Acquiring(s', i) == Acquiring(s, i) {}
    } else {
      forall t | t in s'.grants ensures Current(s', t) || Over(s', t) {
        assert Current(s, t) || Over(s, t);
      }
      forall i
        ensures Acquiring(s', i) == if e.BeginAcquire? && i == e.id then Some(e.token) else Acquiring(s, i)
      {
      }
      assert TokensFresh(s);
    }
  }

  lemma {:induction false} RunKeepsInv(s: State, es: seq<Event>)
    requires Inv(s) && Valid(s, es)
    ensures Inv(Exec(s, es))
    decreases |es|
  {
    if es != [] {
      StepKeepsInv(s, es[0]);
      RunKeepsInv(Apply(s, es[0]), es[1..]);
    }
  }

  /** A successful acquire implies that every earlier lock on the key was released,
      force-released, or has outlived the expiry last written for it. */
  lemma AcquireExcludes(es: seq<Event>, id: nat, earlier: nat)
    requires Valid(INIT, es)
    requires var s := Exec(INIT, es);
             && id in s.calls && s.calls[id].TryInsert?
             && s.calls[id].token in RunStatement(s, id).grants   // the acquire succeeds
             && earlier in s.grants && s.grants[earlier].key == s.calls[id].key
    ensures Over(Exec(INIT, es), earlier)
  {
    RunKeepsInv(INIT, es);
    var s := Exec(INIT, es);
    assert Acquiring(s, id) == Some(s.calls[id].token);
    assert s.calls[id].key !in s.locks;
    assert Current(s, earlier) || Over(s, earlier);
  }

  /** So no two live locks share a key. */
  lemma MutualExclusion(es: seq<Event>, t1: nat, t2: nat)
    requires Valid(INIT, es)
    requires var s := Exec(INIT, es);
             t1 in s.grants && t2 in s.grants && s.grants[t1].key == s.grants[t2].key && t1 != t2
    ensures Over(Exec(INIT, es), t1) || Over(Exec(INIT, es), t2)
  {
    RunKeepsInv(INIT, es);
    var s := Exec(INIT, es);
    assert (Current(s, t1) || Over(s, t1)) && (Current(s, t2) || Over(s, t2));
  }

  /** Once its row is gone a token never holds the lock again. */
  lemma {:induction false} SupersededForGood(s: State, es: seq<Event>, token: nat)
    requires Inv(s) && Valid(s, es) && token in s.grants && !Current(s, token)
    ensures token in Exec(s, es).grants && !Current(Exec(s, es), token)
    ensures Exec(s, es).grants[token].key == s.grants[token].key
    decreases |es|
  {
    if es != [] {
      var e := es[0];
      StepKeepsInv(s, e);
      if e.Statement? && s.calls[e.id].TryInsert? {
        assert Acquiring(s, e.id) == Some(s.calls[e.id].token);
      }
      SupersededForGood(Apply(s, e), es[1..], token);
    }
  }

  /** A superseded token's release and extend leave every lock row alone, however
      late they run. */
  lemma SupersededIsHarmless(s: State, es: seq<Event>, token: nat, id: nat)
    requires Inv(s) && Valid(s, es) && token in s.grants && !Current(s, token)
    requires var s' := Exec(s, es);
             id in s'.calls && (s'.calls[id].Release? || s'.calls[id].Extend?) && s'.calls[id].token == token
    ensures RunStatement(Exec(s, es), id).locks == Exec(s, es).locks
  {
    SupersededForGood(s, es, token);
    RunKeepsInv(s, es);
  }

  // --- What an acquire finds ---

  /** The two statements of an acquire, one after the other: it gets the lock exactly when no row
      holds the key or the row there had expired when the call began. Then the row is its own. */
  lemma AcquireIff(s: State, id: nat, key: string, ttl: int, token: nat)
    requires id !in s.calls && token !in s.drawn && s.grants.Keys <= s.drawn
    ensures var es := [BeginAcquire(id, key, ttl, token), Statement(id), Statement(id)];
            && Valid(s, es)
            && var s' := Exec(s, es);
               && s'.calls == s.calls && s'.clock == s.clock
               && (token in s'.grants <==> key !in s.locks || s.locks[key].expiresAt < s.clock)
               && (token in s'.grants ==>
                     && s'.grants == s.grants[token := Grant(key, s.clock + ttl, false)]
                     && s'.locks == s.locks[key := LockRow(token, s.clock + ttl)])
               && (token !in s'.grants ==> s'.grants == s.grants && s'.locks == s.locks)
  {
    var es := [BeginAcquire(id, key, ttl, token), Statement(id), Statement(id)];
    var s1 := Apply(s, es[0]);
    var s2 := Apply(s1, Statement(id));
    assert es[1..] == [Statement(id), Statement(id)] && es[1..][1..] == [Statement(id)] && es[1..][1..][1..] == [];
    var s3 := Apply(s2, Statement(id));
    assert Valid(s3, []) && Exec(s3, []) == s3;
    assert Valid(s2, [Statement(id)]) && Exec(s2, [Statement(id)]) == s3;
    assert Valid(s1, es[1..]) && Exec(s1, es[1..]) == s3;
    assert s3.calls == s.calls;
    if key in s.locks && s.locks[key].expiresAt >= s.clock {
      assert s2.locks == s.locks;
    } else {
      assert s3.locks == s.locks[key := LockRow(token, s.clock + ttl)];
    }
  }

  /** A release or an extend of a live lock: the row goes, or lives on until the new expiry. */
  lemma HolderActs(s: State, id: nat, token: nat, ttl: int)
    requires id !in s.calls && token in s.grants && Current(s, token)
    ensures var k, es := s.grants[token].key, [BeginRelease(id, token), Statement(id)];
            && Valid(s, es) && Exec(s, es).locks == s.locks - {k}
            && token in Exec(s, es).grants && Over(Exec(s, es), token)
    ensures var k, es := s.grants[token].key, [BeginExtend(id, token, ttl), Statement(id)];
            && Valid(s, es) && Exec(s, es).locks == s.locks[k := LockRow(token, s.clock + ttl)]
            && Current(Exec(s, es), token) && Exec(s, es).grants[token].lastExpiry == s.clock + ttl
  {
    TwoSteps(s, BeginRelease(id, token), Statement(id));
    TwoSteps(s, BeginExtend(id, token, ttl), Statement(id));
  }

  lemma TwoSteps(s: State, e1: Event, e2: Event)
    requires Enabled(s, e1) && Enabled(Apply(s, e1), e2)
    ensures Valid(s, [e1, e2]) && Exec(s, [e1, e2]) == Apply(Apply(s, e1), e2)
  {
    hide Enabled, Apply;
    var s1, s2 := Apply(s, e1), Apply(Apply(s, e1), e2);
    assert [e1, e2][1..] == [e2] && [e2][1..] == [];
    assert Valid(s2, []) && Exec(s2, []) == s2;
    assert Valid(s1, [e2]) && Exec(s1, [e2]) == s2;
  }

  /** Whoever comes after the expiry takes the lock over; the clock can get there. */
  lemma ExpiredIsTakenOver(s: State, id: nat, key: string, ttl: nat, wait: nat, token: nat)
    requires id !in s.calls && token !in s.drawn && s.grants.Keys <= s.drawn
    requires key in s.locks && s.locks[key].expiresAt < s.clock + wait
    ensures var es := [Tick(wait), BeginAcquire(id, key, ttl, token), Statement(id), Statement(id)];
            Valid(s, es) && Current(Exec(s, es), token) && Exec(s, es).grants[token].lastExpiry == s.clock + wait + ttl
  {
    var es := [Tick(wait), BeginAcquire(id, key, ttl, token), Statement(id), Statement(id)];
    assert es[1..] == [BeginAcquire(id, key, ttl, token), Statement(id), Statement(id)];
    var s1 := Apply(s, Tick(wait));
    AcquireIff(s1, id, key, ttl, token);
    hide RunStatement;
  }

  /** A forced release ends whatever lock holds the key; a sweep drops every row that has expired. */
  lemma OthersAct(s: State, id: nat, k: string)
    requires id !in s.calls
    ensures var es := [BeginForce(id, k), Statement(id)];
            && Valid(s, es) && Exec(s, es).locks == s.locks - {k}
            && (k in s.locks && s.locks[k].token in s.grants ==>
                  s.locks[k].token in Exec(s, es).grants && Over(Exec(s, es), s.locks[k].token))
    ensures var es := [BeginSweep(id), Statement(id)];
            && Valid(s, es) && Exec(s, es).grants == s.grants
            && (k in Exec(s, es).locks <==> k in s.locks && s.locks[k].expiresAt >= s.clock)
  {
    TwoSteps(s, BeginForce(id, k), Statement(id));
    TwoSteps(s, BeginSweep(id), Statement(id));
    SweptIff(s.locks, map[], s.clock, k, (k, 0));
    hide SweepLocks;
  }
}
