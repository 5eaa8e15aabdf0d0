/** src/session-manager.ts between its awaits: the map of creation locks and the sessions table,
    updated in place. Whatever order the event loop resumes the calls in, the object goes
    through a run of SessionManager's machine. */
module SessionStore {
  import opened Prelude
  import opened SessionManager

  /** `callers` is what the suspended calls hold; resolved and arrivals are history. */
  class Store {
    var sessionCreationLocks: map<string, nat>
    var rows: seq<Row>
    var callers: map<nat, Caller>
    ghost var resolved: set<nat>
    var arrivals: map<string, seq<nat>>

    constructor (rows: seq<Row>)
      ensures Now() == InitState(rows)
    {
      this.rows := rows;
      sessionCreationLocks, callers, resolved, arrivals := map[], map[], {}, map[];
    }

    ghost function Now(): State
      reads this
    {
      State(LockState(sessionCreationLocks, callers, resolved, arrivals), rows)
    }

    /** withSessionCreationLock up to `await previous`. */
    method EnterQueue(c: nat, r: Request)
      requires Enabled(Now(), Enter(c, r))
      modifies this
      ensures Now() == Apply(old(Now()), Enter(c, r))
    {
      var key := CreationKey(r);
      var previous := if key in sessionCreationLocks then Some(sessionCreationLocks[key]) else None;
      sessionCreationLocks := sessionCreationLocks[key := c];
      var q := if key in arrivals then arrivals[key] else [];
      callers := callers[c := Caller(r, key, previous, |q|, Waiting)];
      arrivals := arrivals[key := q + [c]];
    }

    method Suspend(c: nat, phase: Phase)
      requires c in callers
      modifies `callers
      ensures callers == old(callers)[c := old(callers)[c].(phase := phase)]
    {
      callers := callers[c := callers[c].(phase := phase)];
    }

    /** The finally block. */
    method Release(c: nat, o: Outcome)
      requires c in callers
      modifies this
      ensures Now() == old(Now()).(lk := Leave(old(Now()).lk, c, o))
    {
      var key := callers[c].key;
      Suspend(c, Done(o));
      if key in sessionCreationLocks && sessionCreationLocks[key] == c {
        sessionCreationLocks := sessionCreationLocks - {key};
      }
    }

    /** The first lookup has answered. */
    method AfterLookup(c: nat, newId: nat)
      requires Enabled(Now(), Lookup(c, newId))
      modifies this
      ensures Now() == Apply(old(Now()), Lookup(c, newId))
    {
      var existing := Find(rows, callers[c].req);
      if existing.Some? { Release(c, Got(existing.value, false)); } else { Suspend(c, Creating(newId)); }
    }

    /** createSession went through; folderOk: initSessionFolder did not throw. */
    method AfterInsert(c: nat, folderOk: bool)
      requires Enabled(Now(), Insert(c, folderOk))
      modifies this
      ensures Now() == Apply(old(Now()), Insert(c, folderOk))
    {
      var id := callers[c].phase.id;
      rows := rows + [RowOf(callers[c].req, id)];
      Release(c, if folderOk then Got(id, true) else FolderThrew(id));
    }

    /** The lookup after a unique violation has answered. */
    method AfterRecheck(c: nat)
      requires Enabled(Now(), Recheck(c))
      modifies this
      ensures Now() == Apply(old(Now()), Recheck(c))
    {
      var existing := Find(rows, callers[c].req);
      Release(c, if existing.Some? then Got(existing.value, false) else Threw);
    }

    method Resume(e: Event)
      requires Enabled(Now(), e)
      modifies this
      ensures Now() == Apply(old(Now()), e)
    {
      match e {
        case Enter(c, r) => EnterQueue(c, r);
        case ResolveTail(c) => resolved := resolved + {c};
        case Acquire(c) => Suspend(c, Looking);
        case Lookup(c, newId) => AfterLookup(c, newId);
        case Insert(c, folderOk) => AfterInsert(c, folderOk);
        case Conflict(c) => Suspend(c, Rechecking);
        case Recheck(c) => AfterRecheck(c);
        case Fail(c) => Release(c, Threw);
        case InsertTask(id, agent, series) => rows := rows + [Row(id, agent, None, Some("system:tasks:" + series))];
      }
    }

    /** Concurrent calls of resolveSession over requests that keep a key private, resumed in any
        possible order: in the object's final state the key's callers share one session that at
        most one of them inserted. */
    method Interleave(es: seq<Event>, ghost rs: set<Request>, ghost key: string)
      requires Now() == InitState(rows)
      requires Valid(Now(), es) && From(rs, es) && Private(rs, key)
      modifies this
      ensures Now() == Exec(old(Now()), es)
      ensures OneSession(Now(), key) && OneCreator(Now(), old(rows), key)
    {
      hide Apply, Enabled, Private, OneSession, OneCreator;
      ghost var s0 := Now();
      var i := 0;
      while i < |es|
        invariant i <= |es| && Valid(Now(), es[i..]) && Exec(Now(), es[i..]) == Exec(s0, es)
      {
        assert es[i..][0] == es[i] && es[i..][1..] == es[i + 1..];
        Resume(es[i]);
        i := i + 1;
      }
      PrivateRuns(rs, key, s0.rows, es);
    }
  }
}
