/** src/session-manager.ts: the promise-chain lock around session creation, and
    resolveSession under it. Each await is a point where other callers may run. */
module SessionManager {
  import opened Prelude

  datatype Mode = Shared | PerThread | AgentShared

  datatype Request = Request(agent: string, group: Option<string>, thread: Option<string>, mode: Mode)

  /** A row of the sessions table; every row here is active. */
  datatype Row = Row(id: nat, agent: string, group: Option<string>, thread: Option<string>)

  function OrEmpty(s: Option<string>): string {
    if s.Some? then s.value else ""
  }

  /** Where a routed request's key puts its thread. */
  function KeyThread(r: Request): string {
    if r.mode == Shared then "" else OrEmpty(r.thread)
  }

  /** sessionCreationKey */
  function CreationKey(r: Request): string {
    if r.mode == AgentShared then "agent\0" + r.agent
    else "route\0" + (r.agent + "\0" + (OrEmpty(r.group) + "\0" + KeyThread(r)))
  }

  /** The row that createSession inserts for a request. */
  function RowOf(r: Request, id: nat): Row {
    Row(id, r.agent, r.group, if r.mode == PerThread then r.thread else None)
  }

  function LowerChar(c: char): char {
    if 'A' <= c <= 'Z' then c - 'A' + 'a' else c
  }

  /** thread_id LIKE 'system:%' (LIKE ignores ASCII case) */
  predicate SystemThread(t: string) {
    |t| >= 7 && forall i :: 0 <= i < 7 ==> LowerChar(t[i]) == "system:"[i]
  }

  /** The WHERE clause of the lookup a request makes. An empty thread id is falsy in
      findSessionForAgent, so it asks for thread_id IS NULL; an empty or missing
      group skips the lookup. */
  predicate Matches(row: Row, r: Request) {
    && row.agent == r.agent
    && if r.mode == AgentShared then
         !(row.group == None && row.thread.Some? && SystemThread(row.thread.value))
       else
         && r.group.Some? && r.group.value != ""
         && row.group == r.group
         && row.thread == (if r.mode == Shared || r.thread == Some("") then None else r.thread)
  }

  /** findSessionByAgentGroup takes the newest match, findSessionForAgent the first. */
  function Find(rows: seq<Row>, r: Request): Option<nat> {
    if rows == [] then None
    else if r.mode == AgentShared then
      if Matches(rows[|rows| - 1], r) then Some(rows[|rows| - 1].id) else Find(rows[..|rows| - 1], r)
    else
      if Find(rows[..|rows| - 1], r).Some? then Find(rows[..|rows| - 1], r)
      else if Matches(rows[|rows| - 1], r) then Some(rows[|rows| - 1].id) else None
  }

  lemma {:induction false} FindSomeIff(rows: seq<Row>, r: Request)
    ensures Find(rows, r).Some? <==> exists i :: 0 <= i < |rows| && Matches(rows[i], r)
  {
    if rows != [] {
      var init := rows[..|rows| - 1];
      FindSomeIff(init, r);
      if i :| 0 <= i < |rows| && Matches(rows[i], r) {
        assert i < |init| ==> init[i] == rows[i];
      }
    }
  }

  lemma FindAfterInsert(rows: seq<Row>, row: Row, r: Request)
    ensures !Matches(row, r) ==> Find(rows + [row], r) == Find(rows, r)
    ensures Matches(row, r) && Find(rows, r) == None ==> Find(rows + [row], r) == Some(row.id)
  {
    assert (rows + [row])[..|rows|] == rows;
  }

  /** Of several matches the agent-shared lookup takes the last, the other the first. */
  lemma {:induction false} FindReads(rows: seq<Row>, r: Request, i: nat)
    requires i < |rows| && Matches(rows[i], r)
    requires forall j :: 0 <= j < |rows| && (if r.mode == AgentShared then j > i else j < i) ==> !Matches(rows[j], r)
    ensures Find(rows, r) == Some(rows[i].id)
  {
    hide Matches;
    var init := rows[..|rows| - 1];
    if i < |init| {
      assert init[i] == rows[i];
      FindReads(init, r, i);
    } else {
      FindSomeIff(init, r);
    }
  }

  /** The threads that belong to the system, in any case of letters. */
  lemma SystemThreadIff(t: string)
    ensures SystemThread(t) <==>
            && |t| >= 7 && t[0] in "sS" && t[1] in "yY" && t[2] in "sS" && t[3] in "tT" && t[4] in "eE" && t[5] in "mM"
            && t[6] == ':'
  {
  }

  /** No request finds a row that a scheduled task made. */
  lemma TasksAreInvisible(id: nat, agent: string, series: string, r: Request)
    ensures !Matches(Row(id, agent, None, Some("system:tasks:" + series)), r)
  {
    var t := "system:tasks:" + series;
    assert t[..7] == "system:";
    assert forall i :: 0 <= i < 7 ==> t[i] == t[..7][i];
    SystemThreadIff(t);
    hide SystemThread;
  }

  // --- Which requests find the row they create ---

  /** A later call of the same request finds the created row exactly when the mode
      is agent-shared, or the group is non-empty and the thread is not the empty
      string under per-thread. */
  predicate Findable(r: Request) {
    r.mode == AgentShared || (r.group.Some? && r.group.value != "" && !(r.mode == PerThread && r.thread == Some("")))
  }

  lemma FindableIff(r: Request, id: nat)
    ensures Matches(RowOf(r, id), r) <==> Findable(r)
  {
  }

  // --- The lock ---

  /** FolderThrew: the row was inserted, then initSessionFolder threw. */
  datatype Outcome = Got(id: nat, created: bool) | Threw | FolderThrew(id: nat)

  datatype Phase =
    | Waiting
    | Looking            // inside the lock, the first lookup pending
    | Creating(id: nat)  // the lookup missed, the INSERT pending
    | Rechecking         // the INSERT hit a unique constraint, the second lookup pending
    | Done(outcome: Outcome)

  /** `key` is the request's creation key, `prev` whose tail the caller awaits, `pos`
      its place in the arrivals. */
  datatype Caller = Caller(req: Request, key: string, prev: Option<nat>, pos: nat, phase: Phase)

  /** `locks` maps a key to the caller that owns its tail promise; `resolved` holds
      the callers whose tails have resolved; `arrivals` is the history of a key. */
  datatype LockState = LockState(
    locks: map<string, nat>,
    callers: map<nat, Caller>,
    resolved: set<nat>,
    arrivals: map<string, seq<nat>>)

  datatype State = State(lk: LockState, rows: seq<Row>)

  datatype Event =
    | Enter(c: nat, req: Request)
    | ResolveTail(c: nat)
    | Acquire(c: nat)
    | Lookup(c: nat, newId: nat)
    | Insert(c: nat, folderOk: bool)
    | Conflict(c: nat)
    | Recheck(c: nat)
    | Fail(c: nat)                     // a lookup or the INSERT throws
    | InsertTask(id: nat, agent: string, series: string)

  function InitState(rows: seq<Row>): State {
    State(LockState(map[], map[], {}, map[]), rows)
  }

  predicate Resolved(l: LockState, prev: Option<nat>) {
    prev.Some? ==> prev.value in l.resolved
  }

  predicate Inside(p: Phase) {
    p.Looking? || p.Creating? || p.Rechecking?
  }

  predicate Enabled(s: State, e: Event) {
    var l := s.lk;
    match e
    case Enter(c, _) => c !in l.callers
    case ResolveTail(c) => c in l.callers && l.callers[c].phase.Done? && Resolved(l, l.callers[c].prev)
    case Acquire(c) => c in l.callers && l.callers[c].phase.Waiting? && Resolved(l, l.callers[c].prev)
    case Lookup(c, _) => c in l.callers && l.callers[c].phase.Looking?
    case Insert(c, _) => c in l.callers && l.callers[c].phase.Creating?
    case Conflict(c) => c in l.callers && l.callers[c].phase.Creating?
    case Recheck(c) => c in l.callers && l.callers[c].phase.Rechecking?
    case Fail(c) => c in l.callers && Inside(l.callers[c].phase)
    case InsertTask(_, _, _) => true
  }

  function SetPhase(l: LockState, c: nat, p: Phase): LockState
    requires c in l.callers
  {
    l.(callers := l.callers[c := l.callers[c].(phase := p)])
  }

  /** The finally block: release, and drop the key if the tail is still this one. */
  function Leave(l: LockState, c: nat, o: Outcome): LockState
    requires c in l.callers
  {
    var k := l.callers[c].key;
    var l1 := SetPhase(l, c, Done(o));
    if k in l.locks && l.locks[k] == c then l1.(locks := l.locks - {k}) else l1
  }

  function Arrivals(l: LockState, k: string): seq<nat> {
    if k in l.arrivals then l.arrivals[k] else []
  }

  /** Up to the first await: chain behind the tail that is there, become the tail. */
  function EnterLock(l: LockState, c: nat, r: Request): LockState {
    var k := CreationKey(r);
    var prev := if k in l.locks then Some(l.locks[k]) else None;
    l.(locks := l.locks[k := c],
       callers := l.callers[c := Caller(r, k, prev, |Arrivals(l, k)|, Waiting)],
       arrivals := l.arrivals[k := Arrivals(l, k) + [c]])
  }

  function Apply(s: State, e: Event): State
    requires Enabled(s, e)
  {
    match e
    case Enter(c, r) => s.(lk := EnterLock(s.lk, c, r))
    case ResolveTail(c) => s.(lk := s.lk.(resolved := s.lk.resolved + {c}))
    case Acquire(c) => s.(lk := SetPhase(s.lk, c, Looking))
    case Lookup(c, newId) =>
      var found := Find(s.rows, s.lk.callers[c].req);
      s.(lk := if found.Some? then Leave(s.lk, c, Got(found.value, false)) else SetPhase(s.lk, c, Creating(newId)))
    case Insert(c, folderOk) =>
      var id := s.lk.callers[c].phase.id;
      State(Leave(s.lk, c, if folderOk then Got(id, true) else FolderThrew(id)), s.rows + [RowOf(s.lk.callers[c].req, id)])
    case Conflict(c) => s.(lk := SetPhase(s.lk, c, Rechecking))
    case Recheck(c) =>
      var found := Find(s.rows, s.lk.callers[c].req);
      s.(lk := Leave(s.lk, c, if found.Some? then Got(found.value, false) else Threw))
    case Fail(c) => s.(lk := Leave(s.lk, c, Threw))
    case InsertTask(id, agent, series) =>
      s.(rows := s.rows + [Row(id, agent, None, Some("system:tasks:" + series))])
  }

  predicate Valid(s: State, es: seq<Event>)
    decreases |es|
  {
    es == [] || (Enabled(s, es[0]) && Valid(Apply(s, es[0]), es[1..]))
  }

  function Exec(s: State, es: seq<Event>): State
    requires Valid(s, es)
    decreases |es|
  {
    if es == [] then s else Exec(Apply(s, es[0]), es[1..])
  }

  predicate IsDone(l: LockState, c: nat) {
    c in l.callers && l.callers[c].phase.Done?
  }

  /** Everybody who arrived for the key before position `n` has left. */
  predicate AllDone(l: LockState, k: string, n: nat) {
    n <= |Arrivals(l, k)| && forall i :: 0 <= i < n ==> IsDone(l, Arrivals(l, k)[i])
  }

  predicate Placed(l: LockState, c: nat)
    requires c in l.callers
  {
    var k := l.callers[c].key;
    l.callers[c].pos < |Arrivals(l, k)| && Arrivals(l, k)[l.callers[c].pos] == c
  }

  /** The caller awaits its predecessor in arrival order, unless all before it had
      left when it came. */
  predicate PrevOk(l: LockState, c: nat)
    requires c in l.callers
  {
    var k := l.callers[c].key;
    var pos := l.callers[c].pos;
    if l.callers[c].prev.None? then AllDone(l, k, pos)
    else pos > 0 && pos <= |Arrivals(l, k)| && Arrivals(l, k)[pos - 1] == l.callers[c].prev.value
  }

  predicate CallerOk(l: LockState, c: nat)
    requires c in l.callers
  {
    && Placed(l, c) && PrevOk(l, c)
    && (!l.callers[c].phase.Waiting? ==> AllDone(l, l.callers[c].key, l.callers[c].pos))
    && (c in l.resolved ==> l.callers[c].phase.Done?)
  }

  predicate KeyOk(l: LockState, k: string) {
    var q := Arrivals(l, k);
    && (forall i :: 0 <= i < |q| ==> q[i] in l.callers && l.callers[q[i]].key == k && l.callers[q[i]].pos == i)
    && (k in l.locks <==> q != [] && !IsDone(l, q[|q| - 1]))
    && (k in l.locks ==> l.locks[k] == q[|q| - 1])
  }

  ghost predicate LockInv(l: LockState) {
    && l.resolved <= l.callers.Keys
    && (forall c {:trigger CallerOk(l, c)} :: c in l.callers ==> CallerOk(l, c))
    && (forall k {:trigger KeyOk(l, k)} :: KeyOk(l, k))
  }

  lemma EnterKeeps(l: LockState, c: nat, r: Request)
    requires LockInv(l) && c !in l.callers
    ensures LockInv(EnterLock(l, c, r))
  {
    var l' := EnterLock(l, c, r);
    var k := CreationKey(r);
    assert KeyOk(l, k);
    forall k2 ensures KeyOk(l', k2) {
      assert KeyOk(l, k2);
    }
    forall d | d in l'.callers ensures CallerOk(l', d) {
      if d == c {
        var q := Arrivals(l, k);
        if k !in l.locks && q != [] {
          var last := q[|q| - 1];
          assert CallerOk(l, last);
        }
      } else {
        assert CallerOk(l, d);
      }
    }
  }

  /** A caller that has not left moves on, possibly out of the lock. */
  lemma MoveKeepsDone(l: LockState, l': LockState, c: nat, k: string, n: nat)
    requires c in l.callers && !l.callers[c].phase.Done?
    requires l'.callers.Keys == l.callers.Keys && l'.arrivals == l.arrivals
    requires forall d :: d in l.callers && d != c ==> l'.callers[d] == l.callers[d]
    requires AllDone(l, k, n)
    ensures AllDone(l', k, n)
  {
    forall i | 0 <= i < n ensures IsDone(l', Arrivals(l', k)[i]) {
      assert IsDone(l, Arrivals(l, k)[i]);
    }
  }

  lemma MoveKeepsCaller(l: LockState, l': LockState, c: nat, p: Phase, d: nat)
    requires LockInv(l) && c in l.callers && !l.callers[c].phase.Done?
    requires !p.Waiting? && AllDone(l, l.callers[c].key, l.callers[c].pos)
    requires l'.callers == l.callers[c := l.callers[c].(phase := p)] && l'.arrivals == l.arrivals && l'.resolved == l.resolved
    requires d in l'.callers
    ensures CallerOk(l', d)
  {
    assert CallerOk(l, d) && CallerOk(l, c);
    var k := l.callers[d].key;
    var pos := l.callers[d].pos;
    if l.callers[d].prev.None? { MoveKeepsDone(l, l', c, k, pos); }
    if !l'.callers[d].phase.Waiting? { MoveKeepsDone(l, l', c, k, pos); }
  }

  lemma MoveKeepsKey(l: LockState, l': LockState, c: nat, p: Phase, k: string)
    requires KeyOk(l, k) && c in l.callers && !l.callers[c].phase.Done? && !p.Done?
    requires l'.callers == l.callers[c := l.callers[c].(phase := p)] && l'.arrivals == l.arrivals && l'.locks == l.locks
    ensures KeyOk(l', k)
  {
  }

  lemma LeaveKeepsKey(l: LockState, c: nat, o: Outcome, k: string)
    requires KeyOk(l, k) && c in l.callers && !l.callers[c].phase.Done? && Placed(l, c)
    ensures KeyOk(Leave(l, c, o), k)
  {
    var l' := Leave(l, c, o);
    var q := Arrivals(l, k);
    assert Arrivals(l', k) == q;
    forall i | 0 <= i < |q|
      ensures q[i] in l'.callers && l'.callers[q[i]].key == k && l'.callers[q[i]].pos == i
    {
    }
    if q != [] {
      assert IsDone(l', q[|q| - 1]) == (IsDone(l, q[|q| - 1]) || q[|q| - 1] == c);
    }
  }

  lemma SetPhaseKeeps(l: LockState, c: nat, p: Phase)
    requires LockInv(l) && c in l.callers && !l.callers[c].phase.Done?
    requires Inside(p) && AllDone(l, l.callers[c].key, l.callers[c].pos)
    ensures LockInv(SetPhase(l, c, p))
  {
    var l' := SetPhase(l, c, p);
    forall d | d in l'.callers ensures CallerOk(l', d) {
      MoveKeepsCaller(l, l', c, p, d);
    }
    forall k ensures KeyOk(l', k) {
      MoveKeepsKey(l, l', c, p, k);
    }
  }

  lemma LeaveKeeps(l: LockState, c: nat, o: Outcome)
    requires LockInv(l) && c in l.callers && Inside(l.callers[c].phase)
    ensures LockInv(Leave(l, c, o))
  {
    var l' := Leave(l, c, o);
    assert CallerOk(l, c);
    forall d | d in l'.callers ensures CallerOk(l', d) {
      MoveKeepsCaller(l, l', c, Done(o), d);
    }
    forall k ensures KeyOk(l', k) {
      LeaveKeepsKey(l, c, o, k);
    }
  }

  lemma AcquireKeeps(l: LockState, c: nat)
    requires LockInv(l) && c in l.callers && l.callers[c].phase.Waiting? && Resolved(l, l.callers[c].prev)
    ensures LockInv(SetPhase(l, c, Looking))
  {
    var k := l.callers[c].key;
    assert CallerOk(l, c);
    if l.callers[c].prev.Some? {
      var p := l.callers[c].prev.value;
      assert CallerOk(l, p) && KeyOk(l, k);
      assert AllDone(l, k, l.callers[c].pos);
    }
    SetPhaseKeeps(l, c, Looking);
  }

  lemma ResolveKeepsCaller(l: LockState, c: nat, d: nat)
    requires c in l.callers && l.callers[c].phase.Done? && d in l.callers && CallerOk(l, d)
    ensures CallerOk(l.(resolved := l.resolved + {c}), d)
  {
    var l' := l.(resolved := l.resolved + {c});
    assert AllDone(l, l.callers[d].key, l.callers[d].pos) == AllDone(l', l.callers[d].key, l.callers[d].pos);
  }

  lemma ResolveKeepsKey(l: LockState, c: nat, k: string)
    requires KeyOk(l, k)
    ensures KeyOk(l.(resolved := l.resolved + {c}), k)
  {
  }

  lemma ResolveKeeps(l: LockState, c: nat)
    requires LockInv(l) && c in l.callers && l.callers[c].phase.Done?
    ensures LockInv(l.(resolved := l.resolved + {c}))
  {
    hide CallerOk, KeyOk;
    var l' := l.(resolved := l.resolved + {c});
    forall d | d in l'.callers ensures CallerOk(l', d) {
      assert CallerOk(l, d);
      ResolveKeepsCaller(l, c, d);
    }
    forall k ensures KeyOk(l', k) {
      assert KeyOk(l, k);
      ResolveKeepsKey(l, c, k);
    }
  }

  lemma LockStep(s: State, e: Event)
    requires LockInv(s.lk) && Enabled(s, e)
    ensures LockInv(Apply(s, e).lk)
  {
    match e
    case Enter(c, r) => EnterKeeps(s.lk, c, r);
    case ResolveTail(c) => ResolveKeeps(s.lk, c);
    case Acquire(c) => AcquireKeeps(s.lk, c);
    case Lookup(c, newId) =>
      assert CallerOk(s.lk, c);
      if Find(s.rows, s.lk.callers[c].req).Some? {
        LeaveKeeps(s.lk, c, Got(Find(s.rows, s.lk.callers[c].req).value, false));
      } else {
        SetPhaseKeeps(s.lk, c, Creating(newId));
      }
    case Insert(c, folderOk) =>
      var id := s.lk.callers[c].phase.id;
      LeaveKeeps(s.lk, c, if folderOk then Got(id, true) else FolderThrew(id));
    case Conflict(c) =>
      assert CallerOk(s.lk, c);
      SetPhaseKeeps(s.lk, c, Rechecking);
    case Recheck(c) =>
      var found := Find(s.rows, s.lk.callers[c].req);
      LeaveKeeps(s.lk, c, if found.Some? then Got(found.value, false) else Threw);
    case Fail(c) => LeaveKeeps(s.lk, c, Threw);
    case InsertTask(_, _, _) =>
  }

  lemma {:induction false} RunKeepsLock(s: State, es: seq<Event>)
    requires LockInv(s.lk) && Valid(s, es)
    ensures LockInv(Exec(s, es).lk)
    decreases |es|
  {
    if es != [] {
      LockStep(s, es[0]);
      RunKeepsLock(Apply(s, es[0]), es[1..]);
    }
  }

  lemma EarlierDone(s: State, c: nat, d: nat)
    requires LockInv(s.lk) && c in s.lk.callers && d in s.lk.callers && s.lk.callers[c].key == s.lk.callers[d].key
    requires !s.lk.callers[c].phase.Waiting? && s.lk.callers[d].pos < s.lk.callers[c].pos
    ensures IsDone(s.lk, d)
  {
    assert CallerOk(s.lk, c) && CallerOk(s.lk, d);
    assert IsDone(s.lk, Arrivals(s.lk, s.lk.callers[c].key)[s.lk.callers[d].pos]);
  }

  lemma OneInside(s: State, c: nat, d: nat)
    requires LockInv(s.lk) && c in s.lk.callers && d in s.lk.callers && s.lk.callers[c].key == s.lk.callers[d].key
    requires Inside(s.lk.callers[c].phase) && Inside(s.lk.callers[d].phase)
    ensures c == d
  {
    assert CallerOk(s.lk, c) && CallerOk(s.lk, d);
    if s.lk.callers[d].pos < s.lk.callers[c].pos { EarlierDone(s, c, d); }
    if s.lk.callers[c].pos < s.lk.callers[d].pos { EarlierDone(s, d, c); }
  }

  /** One caller at a time per key, and in order of arrival: whoever is past the
      wait has seen everyone before it leave. */
  lemma ExclusiveAndFifo(rows: seq<Row>, es: seq<Event>, c: nat, d: nat)
    requires Valid(InitState(rows), es)
    requires var s := Exec(InitState(rows), es);
             && c in s.lk.callers && d in s.lk.callers && c != d
             && s.lk.callers[c].key == s.lk.callers[d].key
             && !s.lk.callers[c].phase.Waiting?
             && s.lk.callers[d].pos < s.lk.callers[c].pos
    ensures IsDone(Exec(InitState(rows), es).lk, d)
  {
    RunKeepsLock(InitState(rows), es);
    EarlierDone(Exec(InitState(rows), es), c, d);
  }

  lemma MutualExclusion(rows: seq<Row>, es: seq<Event>, c: nat, d: nat)
    requires Valid(InitState(rows), es)
    requires var s := Exec(InitState(rows), es);
             && c in s.lk.callers && d in s.lk.callers
             && s.lk.callers[c].key == s.lk.callers[d].key
             && Inside(s.lk.callers[c].phase) && Inside(s.lk.callers[d].phase)
    ensures c == d
  {
    RunKeepsLock(InitState(rows), es);
    OneInside(Exec(InitState(rows), es), c, d);
  }

  lemma LastDoneAllDone(s: State, k: string, c: nat)
    requires LockInv(s.lk) && k !in s.lk.locks && c in s.lk.callers && s.lk.callers[c].key == k
    ensures IsDone(s.lk, c)
  {
    assert KeyOk(s.lk, k) && CallerOk(s.lk, c);
    var q := Arrivals(s.lk, k);
    var last := q[|q| - 1];
    assert CallerOk(s.lk, last);
    assert IsDone(s.lk, q[s.lk.callers[c].pos]);
  }

  /** The lock map holds a key exactly while someone waits for it or holds it. */
  lemma KeyHeldIffBusy(rows: seq<Row>, es: seq<Event>, k: string)
    requires Valid(InitState(rows), es)
    ensures var s := Exec(InitState(rows), es);
            k in s.lk.locks <==> exists c :: c in s.lk.callers && s.lk.callers[c].key == k && !IsDone(s.lk, c)
  {
    RunKeepsLock(InitState(rows), es);
    var s := Exec(InitState(rows), es);
    assert KeyOk(s.lk, k);
    var q := Arrivals(s.lk, k);
    if k in s.lk.locks {
      assert q[|q| - 1] in s.lk.callers;
    } else if c :| c in s.lk.callers && s.lk.callers[c].key == k && !IsDone(s.lk, c) {
      LastDoneAllDone(s, k, c);
      assert false;
    }
  }

  // --- resolveSession under the lock ---

  /** What a lookup asks for: the agent and, unless agent-shared, the group and thread. */
  predicate OneTarget(r1: Request, r2: Request) {
    && (r1.mode == AgentShared <==> r2.mode == AgentShared)
    && r1.agent == r2.agent
    && (r1.mode != AgentShared ==> r1.group == r2.group && KeyThread(r1) == KeyThread(r2))
  }

  lemma {:induction false} SameFind(rows: seq<Row>, r1: Request, r2: Request)
    requires OneTarget(r1, r2)
    ensures Find(rows, r1) == Find(rows, r2)
  {
    if rows != [] {
      assert Matches(rows[|rows| - 1], r1) == Matches(rows[|rows| - 1], r2);
      SameFind(rows[..|rows| - 1], r1, r2);
    }
  }

  /** A key's requests each find the row they create and all look for the same one, and no
      request of another key makes a row that answers them. */
  predicate Private(rs: set<Request>, key: string) {
    && (forall r :: r in rs && CreationKey(r) == key ==> Findable(r))
    && (forall r1, r2 :: r1 in rs && r2 in rs && CreationKey(r1) == key && CreationKey(r2) == key ==> OneTarget(r1, r2))
    && (forall r, other :: r in rs && other in rs && CreationKey(r) == key && CreationKey(other) != key ==>
          !Matches(RowOf(other, 0), r))
  }

  predicate NulFree(s: string) {
    forall i :: 0 <= i < |s| ==> s[i] != '\0'
  }

  predicate NulFreeIds(r: Request) {
    NulFree(r.agent) && NulFree(OrEmpty(r.group)) && NulFree(OrEmpty(r.thread))
  }

  function FirstNul(s: string): nat {
    if s == "" || s[0] == '\0' then 0 else 1 + FirstNul(s[1..])
  }

  lemma {:induction false} FirstNulAfter(a: string, x: string)
    requires NulFree(a)
    ensures FirstNul(a + "\0" + x) == |a|
  {
    if a != "" {
      FirstNulAfter(a[1..], x);
      assert (a + "\0" + x)[1..] == a[1..] + "\0" + x;
    }
  }

  lemma SplitAtNul(a: string, x: string, b: string, y: string)
    requires NulFree(a) && NulFree(b) && a + "\0" + x == b + "\0" + y
    ensures a == b && x == y
  {
    var s := a + "\0" + x;
    FirstNulAfter(a, x);
    FirstNulAfter(b, y);
    assert a == s[..|a|] && b == s[..|b|];
    assert x == s[|a| + 1..] && y == s[|b| + 1..];
  }

  lemma RouteKeyInjective(r1: Request, r2: Request)
    requires r1.mode != AgentShared && r2.mode != AgentShared && CreationKey(r1) == CreationKey(r2)
    requires NulFree(r1.agent) && NulFree(r2.agent) && NulFree(OrEmpty(r1.group)) && NulFree(OrEmpty(r2.group))
    ensures r1.agent == r2.agent && OrEmpty(r1.group) == OrEmpty(r2.group) && KeyThread(r1) == KeyThread(r2)
  {
    var x1, x2 := OrEmpty(r1.group) + "\0" + KeyThread(r1), OrEmpty(r2.group) + "\0" + KeyThread(r2);
    assert CreationKey(r1)[6..] == r1.agent + "\0" + x1;
    assert CreationKey(r2)[6..] == r2.agent + "\0" + x2;
    SplitAtNul(r1.agent, x1, r2.agent, x2);
    SplitAtNul(OrEmpty(r1.group), KeyThread(r1), OrEmpty(r2.group), KeyThread(r2));
  }

  lemma KeyKinds(r1: Request, r2: Request)
    requires CreationKey(r1) == CreationKey(r2)
    ensures r1.mode == AgentShared <==> r2.mode == AgentShared
    ensures r1.mode == AgentShared ==> r1.agent == r2.agent
  {
    assert CreationKey(r1)[0] == if r1.mode == AgentShared then 'a' else 'r';
    assert CreationKey(r2)[0] == if r2.mode == AgentShared then 'a' else 'r';
    if r1.mode == AgentShared {
      assert CreationKey(r1)[6..] == r1.agent && CreationKey(r2)[6..] == r2.agent;
    }
  }

  /** For ids without NUL characters a key is private exactly when its requests are findable
      and none of them can see the row of a request of the other kind: agent-shared beside
      routed, for the same agent. */
  lemma PrivateIff(rs: set<Request>, key: string)
    requires forall r :: r in rs ==> NulFreeIds(r)
    ensures Private(rs, key) <==>
            forall r :: r in rs && CreationKey(r) == key ==>
              && Findable(r)
              && forall other :: other in rs && (other.mode == AgentShared) != (r.mode == AgentShared) ==>
                   !Matches(RowOf(other, 0), r)
  {
    forall r, other | r in rs && other in rs && CreationKey(r) == key && Findable(r)
      ensures (CreationKey(other) == key ==>
                 (other.mode == AgentShared <==> r.mode == AgentShared) && (Findable(other) ==> OneTarget(r, other)))
      ensures (other.mode == AgentShared <==> r.mode == AgentShared) && Matches(RowOf(other, 0), r) ==>
                CreationKey(other) == key
    {
      if CreationKey(other) == key {
        KeyKinds(r, other);
        if r.mode != AgentShared { RouteKeyInjective(r, other); }
      }
    }
  }

  function Result(s: State, c: nat): Option<Outcome> {
    if c in s.lk.callers && s.lk.callers[c].phase.Done? then Some(s.lk.callers[c].phase.outcome) else None
  }

  /** The caller inserted the row; it returns created = true unless the folder set-up threw. */
  predicate Created(s: State, c: nat) {
    && Result(s, c).Some?
    && (Result(s, c).value.FolderThrew? || (Result(s, c).value.Got? && Result(s, c).value.created))
  }

  predicate GotOne(s: State, c: nat, key: string) {
    Result(s, c).Some? && Result(s, c).value.Got? && s.lk.callers[c].key == key
  }

  /** All callers of the key that return a session return the same one. */
  predicate OneSession(s: State, key: string) {
    forall c, d :: c in s.lk.callers && d in s.lk.callers && GotOne(s, c, key) && GotOne(s, d, key) ==>
      Result(s, c).value.id == Result(s, d).value.id
  }

  predicate CreatedFor(s: State, c: nat, key: string) {
    Created(s, c) && s.lk.callers[c].key == key
  }

  predicate AtMostOneCreated(s: State, key: string) {
    forall c, d :: c in s.lk.callers && d in s.lk.callers && CreatedFor(s, c, key) && CreatedFor(s, d, key) ==> c == d
  }

  /** If some caller of the key returns a session, then exactly one caller of the key inserted
      it when no row answered the lookup at the start, and none did otherwise. */
  ghost predicate OneCreator(s: State, rows0: seq<Row>, key: string) {
    && AtMostOneCreated(s, key)
    && (forall c :: c in s.lk.callers && GotOne(s, c, key) ==>
          (Find(rows0, s.lk.callers[c].req) == None <==>
           exists d :: d in s.lk.callers && s.lk.callers[d].key == key && Created(s, d)))
  }

  predicate From(rs: set<Request>, es: seq<Event>) {
    forall i :: 0 <= i < |es| && es[i].Enter? ==> es[i].req in rs
  }

  /** What a caller knows about the row its lookup finds. */
  predicate CallerSees(s: State, rows0: seq<Row>, c: nat)
    requires c in s.lk.callers
  {
    var r := s.lk.callers[c].req;
    && (s.lk.callers[c].phase.Creating? ==> Find(s.rows, r) == None)
    && (Result(s, c).Some? && !Result(s, c).value.Threw? ==> Find(s.rows, r) == Some(Result(s, c).value.id))
    && (Created(s, c) ==> Find(rows0, r) == None)
  }

  ghost predicate KeySees(s: State, rows0: seq<Row>, r: Request) {
    && (Find(rows0, r).Some? ==> Find(s.rows, r) == Find(rows0, r))
    && (Find(rows0, r) == None && Find(s.rows, r).Some? ==>
          exists c :: c in s.lk.callers && s.lk.callers[c].key == CreationKey(r) && Created(s, c))
  }

  predicate CallerFrom(s: State, rs: set<Request>, key: string, rows0: seq<Row>, c: nat)
    requires c in s.lk.callers
  {
    && s.lk.callers[c].req in rs && s.lk.callers[c].key == CreationKey(s.lk.callers[c].req)
    && (s.lk.callers[c].key == key ==> CallerSees(s, rows0, c))
  }

  ghost predicate SessInv(s: State, rs: set<Request>, key: string, rows0: seq<Row>) {
    && LockInv(s.lk)
    && (forall c {:trigger CallerFrom(s, rs, key, rows0, c)} :: c in s.lk.callers ==> CallerFrom(s, rs, key, rows0, c))
    && (forall r {:trigger KeySees(s, rows0, r)} :: r in rs && CreationKey(r) == key ==> KeySees(s, rows0, r))
    && AtMostOneCreated(s, key)
  }

  lemma InsertFinds(s: State, rs: set<Request>, key: string, rows0: seq<Row>, c: nat, r: Request)
    requires SessInv(s, rs, key, rows0) && Private(rs, key) && Enabled(s, Insert(c, true)) && r in rs && CreationKey(r) == key
    ensures var row := RowOf(s.lk.callers[c].req, s.lk.callers[c].phase.id);
            Find(s.rows + [row], r) == if s.lk.callers[c].key == key then Some(row.id) else Find(s.rows, r)
    ensures s.lk.callers[c].key == key ==> Find(s.rows, r) == None && Find(rows0, r) == None
  {
    var cr := s.lk.callers[c].req;
    var row := RowOf(cr, s.lk.callers[c].phase.id);
    assert CallerFrom(s, rs, key, rows0, c);
    FindAfterInsert(s.rows, row, r);
    if s.lk.callers[c].key == key {
      assert OneTarget(cr, r);
      SameFind(s.rows, cr, r);
      assert Matches(row, r) == Matches(row, cr);
      FindableIff(cr, row.id);
      assert KeySees(s, rows0, r);
    } else {
      assert Matches(row, r) == Matches(RowOf(cr, 0), r);
    }
  }

  lemma NobodyCreatedYet(s: State, rs: set<Request>, key: string, rows0: seq<Row>, c: nat)
    requires SessInv(s, rs, key, rows0) && Private(rs, key) && Enabled(s, Insert(c, true)) && s.lk.callers[c].key == key
    ensures forall d :: d in s.lk.callers && Created(s, d) ==> s.lk.callers[d].key != key
  {
    forall d | d in s.lk.callers && Created(s, d) ensures s.lk.callers[d].key != key {
      assert CallerFrom(s, rs, key, rows0, d);
      if s.lk.callers[d].key == key { InsertFinds(s, rs, key, rows0, c, s.lk.callers[d].req); }
    }
  }

  lemma InsertOther(s: State, rs: set<Request>, key: string, rows0: seq<Row>, c: nat, ok: bool, d: nat)
    requires SessInv(s, rs, key, rows0) && Private(rs, key) && Enabled(s, Insert(c, ok)) && d in s.lk.callers && d != c
    ensures var s' := Apply(s, Insert(c, ok));
            && d in s'.lk.callers && s'.lk.callers[d] == s.lk.callers[d]
            && CallerFrom(s', rs, key, rows0, d) && Created(s', d) == Created(s, d)
  {
    assert CallerFrom(s, rs, key, rows0, d) && CallerFrom(s, rs, key, rows0, c);
    if s.lk.callers[d].key == key {
      InsertFinds(s, rs, key, rows0, c, s.lk.callers[d].req);
      if s.lk.callers[d].phase.Creating? && s.lk.callers[c].key == key { OneInside(s, c, d); }
    }
  }

  lemma InsertSelf(s: State, rs: set<Request>, key: string, rows0: seq<Row>, c: nat, ok: bool)
    requires SessInv(s, rs, key, rows0) && Private(rs, key) && Enabled(s, Insert(c, ok))
    ensures var s' := Apply(s, Insert(c, ok));
            && c in s'.lk.callers && s'.lk.callers[c].req == s.lk.callers[c].req && s'.lk.callers[c].key == s.lk.callers[c].key
            && CallerFrom(s', rs, key, rows0, c) && Created(s', c)
  {
    assert CallerFrom(s, rs, key, rows0, c);
    if s.lk.callers[c].key == key { InsertFinds(s, rs, key, rows0, c, s.lk.callers[c].req); }
  }

  lemma InsertKey(s: State, rs: set<Request>, key: string, rows0: seq<Row>, c: nat, ok: bool, r: Request)
    requires SessInv(s, rs, key, rows0) && Private(rs, key) && Enabled(s, Insert(c, ok)) && r in rs && CreationKey(r) == key
    ensures KeySees(Apply(s, Insert(c, ok)), rows0, r)
  {
    var s' := Apply(s, Insert(c, ok));
    assert KeySees(s, rows0, r);
    InsertFinds(s, rs, key, rows0, c, r);
    InsertSelf(s, rs, key, rows0, c, ok);
    if s.lk.callers[c].key == key {
      assert Created(s', c) && s'.lk.callers[c].key == CreationKey(r);
    } else if d :| d in s.lk.callers && s.lk.callers[d].key == CreationKey(r) && Created(s, d) {
      InsertOther(s, rs, key, rows0, c, ok, d);
      assert Created(s', d) && s'.lk.callers[d].key == CreationKey(r);
    }
  }

  /** One more creator, or none, where none was before. */
  lemma OneMoreCreator(s: State, s': State, key: string, c: nat)
    requires AtMostOneCreated(s, key)
    requires forall d :: d in s'.lk.callers && d != c && CreatedFor(s', d, key) ==> d in s.lk.callers && CreatedFor(s, d, key)
    requires c in s'.lk.callers && CreatedFor(s', c, key) ==> forall d :: d in s.lk.callers ==> !CreatedFor(s, d, key)
    ensures AtMostOneCreated(s', key)
  {
  }

  lemma InsertKeeps(s: State, rs: set<Request>, key: string, rows0: seq<Row>, c: nat, ok: bool)
    requires SessInv(s, rs, key, rows0) && Private(rs, key) && Enabled(s, Insert(c, ok))
    ensures SessInv(Apply(s, Insert(c, ok)), rs, key, rows0)
  {
    var s' := Apply(s, Insert(c, ok));
    LockStep(s, Insert(c, ok));
    assert Enabled(s, Insert(c, true));
    InsertSelf(s, rs, key, rows0, c, ok);
    if s.lk.callers[c].key == key { NobodyCreatedYet(s, rs, key, rows0, c); }
    assert s'.lk.callers.Keys == s.lk.callers.Keys;
    hide Find, CallerFrom, LockInv, Private, Apply, Enabled, KeySees, AtMostOneCreated, Created;
    forall d | d in s'.lk.callers
      ensures CallerFrom(s', rs, key, rows0, d)
      ensures d != c ==> s'.lk.callers[d] == s.lk.callers[d] && Created(s', d) == Created(s, d)
    {
      if d != c { InsertOther(s, rs, key, rows0, c, ok, d); }
    }
    forall r | r in rs && CreationKey(r) == key ensures KeySees(s', rows0, r) {
      InsertKey(s, rs, key, rows0, c, ok, r);
    }
    OneMoreCreator(s, s', key, c);
  }

  /** Steps that leave the lookups as they were. */
  lemma QuietFind(s: State, e: Event, r: Request)
    requires Enabled(s, e) && !e.Insert?
    ensures Find(Apply(s, e).rows, r) == Find(s.rows, r)
  {
    if e.InsertTask? { FindAfterInsert(s.rows, Row(e.id, e.agent, None, Some("system:tasks:" + e.series)), r); }
  }

  lemma QuietCaller(s: State, rs: set<Request>, key: string, rows0: seq<Row>, e: Event, d: nat)
    requires Enabled(s, e) && !e.Insert? && d in s.lk.callers && CallerFrom(s, rs, key, rows0, d)
    ensures var s' := Apply(s, e);
            && d in s'.lk.callers && s'.lk.callers[d].req == s.lk.callers[d].req && s'.lk.callers[d].key == s.lk.callers[d].key
            && CallerFrom(s', rs, key, rows0, d) && Created(s', d) == Created(s, d)
  {
    QuietFind(s, e, s.lk.callers[d].req);
  }

  lemma QuietNewcomer(s: State, rs: set<Request>, key: string, rows0: seq<Row>, e: Event, d: nat)
    requires Enabled(s, e) && d !in s.lk.callers && d in Apply(s, e).lk.callers && (e.Enter? ==> e.req in rs)
    ensures e.Enter? && d == e.c && CallerFrom(Apply(s, e), rs, key, rows0, d) && !Created(Apply(s, e), d)
  {
  }

  lemma QuietKey(s: State, s': State, rows0: seq<Row>, r: Request)
    requires KeySees(s, rows0, r) && Find(s'.rows, r) == Find(s.rows, r)
    requires forall d :: d in s.lk.callers ==>
               d in s'.lk.callers && s'.lk.callers[d].key == s.lk.callers[d].key && Created(s', d) == Created(s, d)
    ensures KeySees(s', rows0, r)
  {
    if d :| d in s.lk.callers && s.lk.callers[d].key == CreationKey(r) && Created(s, d) {
      assert Created(s', d) && s'.lk.callers[d].key == CreationKey(r);
    }
  }

  lemma NoMoreCreators(s: State, s': State, key: string)
    requires AtMostOneCreated(s, key)
    requires forall d :: d in s'.lk.callers && CreatedFor(s', d, key) ==> d in s.lk.callers && CreatedFor(s, d, key)
    ensures AtMostOneCreated(s', key)
  {
  }

  lemma QuietKeeps(s: State, rs: set<Request>, key: string, rows0: seq<Row>, e: Event)
    requires SessInv(s, rs, key, rows0) && Enabled(s, e) && !e.Insert? && (e.Enter? ==> e.req in rs)
    ensures SessInv(Apply(s, e), rs, key, rows0)
  {
    var s' := Apply(s, e);
    LockStep(s, e);
    hide Find, Apply, Enabled, LockInv, CallerFrom, KeySees, AtMostOneCreated, Created;
    forall d | d in s.lk.callers
      ensures d in s'.lk.callers && s'.lk.callers[d].req == s.lk.callers[d].req && s'.lk.callers[d].key == s.lk.callers[d].key
      ensures CallerFrom(s', rs, key, rows0, d) && Created(s', d) == Created(s, d)
    {
      assert CallerFrom(s, rs, key, rows0, d);
      QuietCaller(s, rs, key, rows0, e, d);
    }
    forall d | d in s'.lk.callers && d !in s.lk.callers
      ensures CallerFrom(s', rs, key, rows0, d) && !Created(s', d)
    {
      QuietNewcomer(s, rs, key, rows0, e, d);
    }
    forall r | r in rs && CreationKey(r) == key ensures KeySees(s', rows0, r) {
      assert KeySees(s, rows0, r);
      QuietFind(s, e, r);
      QuietKey(s, s', rows0, r);
    }
    NoMoreCreators(s, s', key);
  }

  lemma {:induction false} RunKeepsSessions(s: State, rs: set<Request>, key: string, rows0: seq<Row>, es: seq<Event>)
    requires SessInv(s, rs, key, rows0) && Private(rs, key) && Valid(s, es) && From(rs, es)
    ensures SessInv(Exec(s, es), rs, key, rows0)
    decreases |es|
  {
    hide SessInv, Private, Apply, Enabled;
    if es != [] {
      var e := es[0];
      if e.Insert? { InsertKeeps(s, rs, key, rows0, e.c, e.folderOk); } else { QuietKeeps(s, rs, key, rows0, e); }
      RunKeepsSessions(Apply(s, e), rs, key, rows0, es[1..]);
    }
  }

  lemma InitSessions(rs: set<Request>, key: string, rows: seq<Row>)
    ensures SessInv(InitState(rows), rs, key, rows)
  {
    var s := InitState(rows);
    forall k ensures KeyOk(s.lk, k) {}
    forall r | r in rs ensures KeySees(s, rows, r) {}
  }

  lemma PrivateRuns(rs: set<Request>, key: string, rows: seq<Row>, es: seq<Event>)
    requires Private(rs, key) && Valid(InitState(rows), es) && From(rs, es)
    ensures OneSession(Exec(InitState(rows), es), key) && OneCreator(Exec(InitState(rows), es), rows, key)
  {
    InitSessions(rs, key, rows);
    RunKeepsSessions(InitState(rows), rs, key, rows, es);
    var s := Exec(InitState(rows), es);
    forall c | c in s.lk.callers && s.lk.callers[c].key == key
      ensures s.lk.callers[c].req in rs && CreationKey(s.lk.callers[c].req) == key && CallerSees(s, rows, c)
      ensures KeySees(s, rows, s.lk.callers[c].req)
    {
      assert CallerFrom(s, rs, key, rows, c);
      assert KeySees(s, rows, s.lk.callers[c].req);
    }
    forall c, d | c in s.lk.callers && d in s.lk.callers && s.lk.callers[c].key == key && s.lk.callers[d].key == key
      ensures Find(s.rows, s.lk.callers[c].req) == Find(s.rows, s.lk.callers[d].req)
      ensures Find(rows, s.lk.callers[c].req) == Find(rows, s.lk.callers[d].req)
    {
      SameFind(s.rows, s.lk.callers[c].req, s.lk.callers[d].req);
      SameFind(rows, s.lk.callers[c].req, s.lk.callers[d].req);
    }
    hide Find, SessInv, LockInv, Valid, Exec;
  }

  // --- Without privacy it fails ---

  lemma {:induction false} Append(s: State, a: seq<Event>, b: seq<Event>)
    requires Valid(s, a) && Valid(Exec(s, a), b)
    ensures Valid(s, a + b) && Exec(s, a + b) == Exec(Exec(s, a), b)
    decreases |a|
  {
    hide Apply, Enabled;
    if a == [] {
      assert a + b == b;
    } else {
      Append(Apply(s, a[0]), a[1..], b);
      assert (a + b)[1..] == a[1..] + b && (a + b)[0] == a[0];
    }
  }

  lemma Step(s: State, e: Event)
    requires Enabled(s, e)
    ensures Valid(s, [e]) && Exec(s, [e]) == Apply(s, e)
  {
    assert [e][1..] == [];
    assert Valid(Apply(s, e), []);
  }

  /** A call of a free key up to its first answer. */
  ghost function Arrive(s: State, c: nat, r: Request, id: nat, rs: set<Request>): (es: seq<Event>)
    requires r in rs && c !in s.lk.callers && CreationKey(r) !in s.lk.locks
    ensures Valid(s, es) && From(rs, es)
    ensures var s' := Exec(s, es);
            var key := CreationKey(r);
            && s'.rows == s.rows && c in s'.lk.callers && s'.lk.callers[c].req == r && s'.lk.callers[c].key == key
            && s'.lk.callers == s.lk.callers[c := s'.lk.callers[c]]
            && if Find(s.rows, r).Some?
               then s'.lk.locks == s.lk.locks && s'.lk.callers[c].phase == Done(Got(Find(s.rows, r).value, false))
               else s'.lk.locks == s.lk.locks[key := c] && s'.lk.callers[c].phase == Creating(id)
  {
    var e1, e2, e3 := Enter(c, r), Acquire(c), Lookup(c, id);
    var s1 := Apply(s, e1);
    Step(s, e1);
    assert Enabled(s1, e2);
    var s2 := Apply(s1, e2);
    Step(s1, e2);
    Append(s, [e1], [e2]);
    assert Enabled(s2, e3);
    Step(s2, e3);
    Append(s, [e1] + [e2], [e3]);
    assert s.lk.locks[CreationKey(r) := c] - {CreationKey(r)} == s.lk.locks;
    [e1] + [e2] + [e3]
  }

  lemma FromConcat(rs: set<Request>, a: seq<Event>, b: seq<Event>)
    requires From(rs, a) && From(rs, b)
    ensures From(rs, a + b)
  {
  }

  /** The INSERT of a caller that looked in vain, its key's tail still its own. */
  ghost function Complete(s: State, c: nat, rs: set<Request>): (es: seq<Event>)
    requires c in s.lk.callers && s.lk.callers[c].phase.Creating?
    requires s.lk.callers[c].key in s.lk.locks && s.lk.locks[s.lk.callers[c].key] == c
    ensures Valid(s, es) && From(rs, es)
    ensures var s', id, key := Exec(s, es), s.lk.callers[c].phase.id, s.lk.callers[c].key;
            && s'.rows == s.rows + [RowOf(s.lk.callers[c].req, id)]
            && s'.lk.locks == s.lk.locks - {key}
            && s'.lk.callers == s.lk.callers[c := s.lk.callers[c].(phase := Done(Got(id, true)))]
  {
    Step(s, Insert(c, true));
    [Insert(c, true)]
  }

  /** A call that finds nothing and has its key to itself creates. */
  lemma CreateAlone(s: State, c: nat, r: Request, id: nat, rs: set<Request>) returns (es: seq<Event>)
    requires r in rs && c !in s.lk.callers && CreationKey(r) !in s.lk.locks && Find(s.rows, r) == None
    ensures Valid(s, es) && From(rs, es)
    ensures var s' := Exec(s, es);
            && s'.rows == s.rows + [RowOf(r, id)] && s'.lk.locks == s.lk.locks
            && s'.lk.callers.Keys == s.lk.callers.Keys + {c}
            && (forall d :: d in s.lk.callers ==> s'.lk.callers[d] == s.lk.callers[d])
            && s'.lk.callers[c].key == CreationKey(r) && s'.lk.callers[c].phase == Done(Got(id, true))
  {
    hide Valid, Exec, Matches, CreationKey, Enabled, Apply, Find;
    var a := Arrive(s, c, r, id, rs);
    var b := Complete(Exec(s, a), c, rs);
    Append(s, a, b);
    FromConcat(rs, a, b);
    es := a + b;
    assert s.lk.locks[CreationKey(r) := c] - {CreationKey(r)} == s.lk.locks;
  }

  lemma BothCreated(s: State, key: string)
    requires s.lk.callers.Keys == {0, 1} && s.lk.callers[0].key == key && s.lk.callers[1].key == key
    requires s.lk.callers[0].phase == Done(Got(1, true)) && s.lk.callers[1].phase == Done(Got(2, true))
    ensures !OneSession(s, key) && !OneCreator(s, [], key)
  {
    assert GotOne(s, 0, key) && GotOne(s, 1, key) && CreatedFor(s, 0, key) && CreatedFor(s, 1, key);
  }

  /** An empty table and two calls, one after the other, of requests that do not see each
      other's rows: both create. */
  lemma TwoCreators(r1: Request, r2: Request, rs: set<Request>) returns (es: seq<Event>)
    requires r1 in rs && r2 in rs && CreationKey(r1) == CreationKey(r2) && !Matches(RowOf(r1, 1), r2)
    ensures Valid(InitState([]), es) && From(rs, es)
    ensures !OneSession(Exec(InitState([]), es), CreationKey(r1))
    ensures !OneCreator(Exec(InitState([]), es), [], CreationKey(r1))
  {
    hide Valid, Exec, CreationKey, Enabled, Apply, OneSession, OneCreator, From;
    var s0 := InitState([]);
    var a := CreateAlone(s0, 0, r1, 1, rs);
    var s1 := Exec(s0, a);
    assert s1.rows == [RowOf(r1, 1)];
    LoneRow(RowOf(r1, 1), r2);
    hide Find, Matches, RowOf;
    var b := CreateAlone(s1, 1, r2, 2, rs);
    Append(s0, a, b);
    FromConcat(rs, a, b);
    es := a + b;
    BothCreated(Exec(s0, es), CreationKey(r1));
  }

  lemma LoneRow(row: Row, r: Request)
    ensures Find([row], r) == if Matches(row, r) then Some(row.id) else None
  {
    assert [row][..0] == [];
  }

  lemma Uncreated(s: State, key: string)
    requires s.lk.callers.Keys == {0, 1} && s.lk.callers[0].key != key
    requires s.lk.callers[1].key == key && s.lk.callers[1].phase == Done(Got(1, false))
    requires Find([], s.lk.callers[1].req) == None
    ensures !OneCreator(s, [], key)
  {
    assert GotOne(s, 1, key);
  }

  /** A row of another key comes first: a key's only caller finds it and creates nothing. */
  lemma NoCreator(r: Request, other: Request, rs: set<Request>) returns (es: seq<Event>)
    requires r in rs && other in rs && CreationKey(r) != CreationKey(other) && Matches(RowOf(other, 1), r)
    ensures Valid(InitState([]), es) && From(rs, es)
    ensures !OneCreator(Exec(InitState([]), es), [], CreationKey(r))
  {
    hide Valid, Exec, CreationKey, Enabled, Apply, OneCreator, From;
    var s0 := InitState([]);
    var a := CreateAlone(s0, 0, other, 1, rs);
    var s1 := Exec(s0, a);
    assert s1.rows == [RowOf(other, 1)];
    LoneRow(RowOf(other, 1), r);
    assert Find([], r) == None;
    hide Find, Matches;
    var b := Arrive(s1, 1, r, 2, rs);
    Append(s0, a, b);
    FromConcat(rs, a, b);
    es := a + b;
    Uncreated(Exec(s0, es), CreationKey(r));
  }

  /** Both have looked in vain. */
  lemma BothLooked(r: Request, other: Request, rs: set<Request>) returns (es: seq<Event>)
    requires r in rs && other in rs && CreationKey(r) != CreationKey(other)
    ensures Valid(InitState([]), es) && From(rs, es)
    ensures LookedInVain(Exec(InitState([]), es), r, other)
  {
    hide Valid, Exec, Matches, CreationKey, Enabled, Apply;
    var s0 := InitState([]);
    var a := Arrive(s0, 0, r, 1, rs);
    var b := Arrive(Exec(s0, a), 1, other, 2, rs);
    Append(s0, a, b);
    FromConcat(rs, a, b);
    es := a + b;
  }

  predicate LookedInVain(s: State, r: Request, other: Request) {
    && s.rows == [] && s.lk.callers.Keys == {0, 1}
    && s.lk.callers[0].req == r && s.lk.callers[0].key == CreationKey(r) && s.lk.callers[0].phase == Creating(1)
    && s.lk.callers[1].req == other && s.lk.callers[1].key == CreationKey(other) && s.lk.callers[1].phase == Creating(2)
    && s.lk.locks == map[CreationKey(r) := 0, CreationKey(other) := 1]
  }

  lemma TheirsIsFound(mine: Row, theirs: Row, r: Request)
    requires Matches(mine, r) && Matches(theirs, r)
    ensures Find(if r.mode == AgentShared then [mine, theirs] else [theirs, mine], r) == Some(theirs.id)
  {
    hide Matches;
    if r.mode != AgentShared {
      assert [theirs, mine][..1] == [theirs] && [theirs][..0] == [];
      assert Find([theirs], r) == Some(theirs.id);
    }
  }

  /** Then they insert, in the order that leaves the other key's row to be found. */
  lemma BothInserted(s: State, r: Request, other: Request, rs: set<Request>) returns (es: seq<Event>)
    requires CreationKey(r) != CreationKey(other) && LookedInVain(s, r, other)
    requires Matches(RowOf(r, 1), r) && Matches(RowOf(other, 2), r)
    ensures Valid(s, es) && From(rs, es)
    ensures var s' := Exec(s, es);
            && s'.lk.locks == map[] && Find(s'.rows, r) == Some(2)
            && s'.lk.callers.Keys == {0, 1} && GotOne(s', 0, CreationKey(r)) && Result(s', 0) == Some(Got(1, true))
  {
    hide Valid, Exec, Matches, CreationKey, Enabled, Apply;
    var mine, theirs := RowOf(r, 1), RowOf(other, 2);
    var first, second := if r.mode == AgentShared then 0 else 1, if r.mode == AgentShared then 1 else 0;
    var a := Complete(s, first, rs);
    var b := Complete(Exec(s, a), second, rs);
    Append(s, a, b);
    es := a + b;
    FromConcat(rs, a, b);
    assert Exec(s, es).rows == if r.mode == AgentShared then [mine, theirs] else [theirs, mine];
    TheirsIsFound(mine, theirs, r);
  }

  /** The row of another key arrives in between: of two callers of one key the first returns
      the row it created and the second the other key's. An agent-shared lookup takes the newest
      match, a routed one the first. */
  lemma TwoSessions(r: Request, other: Request, rs: set<Request>) returns (es: seq<Event>)
    requires r in rs && other in rs && CreationKey(r) != CreationKey(other) && Findable(r) && Matches(RowOf(other, 2), r)
    ensures Valid(InitState([]), es) && From(rs, es)
    ensures !OneSession(Exec(InitState([]), es), CreationKey(r))
  {
    FindableIff(r, 1);
    hide Valid, Exec, Matches, CreationKey, Enabled, Apply, Findable, RowOf, Find, LookedInVain;
    var s0 := InitState([]);
    var a := BothLooked(r, other, rs);
    var b := BothInserted(Exec(s0, a), r, other, rs);
    Append(s0, a, b);
    var s2 := Exec(s0, a + b);
    var c := Arrive(s2, 2, r, 3, rs);
    Append(s0, a + b, c);
    FromConcat(rs, a, b);
    FromConcat(rs, a + b, c);
    es := a + b + c;
    var s3 := Exec(s0, es);
    assert Result(s3, 0) == Some(Got(1, true)) && Result(s3, 2) == Some(Got(2, false));
    assert GotOne(s3, 0, CreationKey(r)) && GotOne(s3, 2, CreationKey(r));
  }

  lemma MatchesAnyId(other: Request, r: Request, id: nat)
    ensures Matches(RowOf(other, id), r) == Matches(RowOf(other, 0), r)
  {
  }

  ghost predicate KeepsOneSession(rs: set<Request>, key: string, rows: seq<Row>, es: seq<Event>) {
    Valid(InitState(rows), es) && From(rs, es) ==> OneSession(Exec(InitState(rows), es), key)
  }

  ghost predicate KeepsOneCreator(rs: set<Request>, key: string, rows: seq<Row>, es: seq<Event>) {
    Valid(InitState(rows), es) && From(rs, es) ==> OneCreator(Exec(InitState(rows), es), rows, key)
  }

  /** What breaks a key that is not private. */
  lemma BreakingRuns(rs: set<Request>, key: string) returns (es: seq<Event>, fs: seq<Event>)
    requires !Private(rs, key)
    ensures !KeepsOneSession(rs, key, [], es) && !KeepsOneCreator(rs, key, [], fs)
  {
    hide Valid, Exec, Matches, CreationKey, OneSession, OneCreator, RowOf;
    if r :| r in rs && CreationKey(r) == key && !Findable(r) {
      FindableIff(r, 1);
      es := TwoCreators(r, r, rs);
      fs := es;
    } else if r, other :| r in rs && other in rs && CreationKey(r) == key && CreationKey(other) == key && !OneTarget(r, other) {
      KeyKinds(r, other);
      TargetsApart(r, other);
      es := TwoCreators(r, other, rs);
      fs := es;
    } else {
      var r, other :| r in rs && other in rs && CreationKey(r) == key && CreationKey(other) != key && Matches(RowOf(other, 0), r);
      MatchesAnyId(other, r, 1);
      MatchesAnyId(other, r, 2);
      es := TwoSessions(r, other, rs);
      fs := NoCreator(r, other, rs);
    }
  }

  lemma TargetsApart(r1: Request, r2: Request)
    requires Findable(r1) && Findable(r2) && !OneTarget(r1, r2)
    requires r1.mode == AgentShared <==> r2.mode == AgentShared
    requires r1.mode == AgentShared ==> r1.agent == r2.agent
    ensures !Matches(RowOf(r1, 1), r2)
  {
  }

  /** All callers of a key return the same session, in every run over these requests and from
      every table, exactly when the key is private. */
  lemma SameSessionIff(rs: set<Request>, key: string)
    ensures Private(rs, key) <==>
            forall rows, es {:trigger KeepsOneSession(rs, key, rows, es)} :: KeepsOneSession(rs, key, rows, es)
  {
    hide Private, OneSession, OneCreator, Valid, Exec, From;
    if Private(rs, key) {
      forall rows, es ensures KeepsOneSession(rs, key, rows, es) {
        if Valid(InitState(rows), es) && From(rs, es) { PrivateRuns(rs, key, rows, es); }
      }
    } else {
      var es, fs := BreakingRuns(rs, key);
    }
  }

  /** And so for the promise that exactly one of them creates it when there was none. */
  lemma CreatedExactlyOnceIff(rs: set<Request>, key: string)
    ensures Private(rs, key) <==>
            forall rows, es {:trigger KeepsOneCreator(rs, key, rows, es)} :: KeepsOneCreator(rs, key, rows, es)
  {
    hide Private, OneSession, OneCreator, Valid, Exec, From;
    if Private(rs, key) {
      forall rows, es ensures KeepsOneCreator(rs, key, rows, es) {
        if Valid(InitState(rows), es) && From(rs, es) { PrivateRuns(rs, key, rows, es); }
      }
    } else {
      var es, fs := BreakingRuns(rs, key);
    }
  }

  /** The ordinary case that breaks: one agent, an agent-shared wiring and a shared one. The two
      agent-shared callers get different sessions. */
  lemma AgentSharedBesideShared(agent: string, g1: string, g2: string)
    ensures var r, other := Request(agent, Some(g1), None, AgentShared), Request(agent, Some(g2), None, Shared);
            && !Private({r, other}, CreationKey(r))
            && exists es :: && Valid(InitState([]), es) && From({r, other}, es)
                            && !OneSession(Exec(InitState([]), es), CreationKey(r))
  {
    var r, other := Request(agent, Some(g1), None, AgentShared), Request(agent, Some(g2), None, Shared);
    if CreationKey(r) == CreationKey(other) { KeyKinds(r, other); }
    assert Matches(RowOf(other, 0), r);
    hide Valid, Exec, CreationKey, OneSession;
    var es := TwoSessions(r, other, {r, other});
  }

  /** A task may be filed at any time; it adds its own row, and no request finds it. */
  lemma TaskStep(s: State, id: nat, agent: string, series: string, r: Request)
    ensures Enabled(s, InsertTask(id, agent, series))
    ensures var s' := Apply(s, InsertTask(id, agent, series));
            && s'.lk == s.lk && |s'.rows| == |s.rows| + 1 && s'.rows[..|s.rows|] == s.rows && s'.rows[|s.rows|].agent == agent
            && Find(s'.rows, r) == Find(s.rows, r)
  {
    TasksAreInvisible(id, agent, series, r);
    FindAfterInsert(s.rows, Row(id, agent, None, Some("system:tasks:" + series)), r);
    hide Matches, Find;
  }
}
