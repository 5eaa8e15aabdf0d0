/** src/container-runner.ts: waking, spawning, killing and finalizing session
    containers. Code between two awaits is one atomic step; every order of the
    steps is a run. Session, spawn, runtime, stop and callback ids are numbers. */
module ContainerRunner {
  import opened Prelude

  datatype Container = NotStarted | Live | Dead

  /** `finished` is the single-shot flag, `settled` that finishedPromise resolved. */
  datatype Runtime = Runtime(sid: nat, box: Container, finished: bool, settled: bool, callbacks: seq<nat>)

  /** How far a call of spawnContainer is. */
  datatype Phase =
    | SettingUp
    | Starting(rid: nat)       // registered, handle.start() pending
    | Recording(rid: nat)      // start() returned, afterStart pending
    | AwaitingFinish(rid: nat) // the catch block waits for finishedPromise
    | Settled

  datatype Spawn = Spawn(sid: nat, phase: Phase)

  /** Where a kill callback is: waiting on a runtime, run, or dropped with it. */
  datatype Fate = Waiting(rid: nat) | Ran | Lost

  /** `active` is activeContainers, `wakes` is wakePromises. `ran` lists the
      callbacks in the order they ran, with whether the session was registered then. */
  datatype State = State(
    active: map<nat, nat>,
    wakes: map<nat, nat>,
    spawns: map<nat, Spawn>,
    runtimes: map<nat, Runtime>,
    finishing: set<nat>,
    stops: map<nat, nat>,
    fates: map<nat, Fate>,
    ran: seq<(nat, bool)>,
    finalized: seq<nat>)

  datatype Event =
    | Wake(sid: nat, sp: nat)
    | SetupEnds(sp: nat)             // setup threw, or the agent group is missing
    | Register(sp: nat, rid: nat)
    | ContainerUp(rid: nat)
    | ContainerDies(rid: nat)
    | StartReturns(sp: nat)
    | StartThrows(sp: nat)
    | Recorded(sp: nat)
    | RecordThrows(sp: nat)
    | Unblock(sp: nat)
    | ClearWake(sp: nat)
    | Terminal(rid: nat)
    | Kill(sid: nat, stop: nat, onExit: Option<nat>)
    | StopReports(stop: nat)
    | Finish(rid: nat)               // markContainerStopped settled; the rest is synchronous
    | Adopt(sid: nat, rid: nat)

  const INIT := State(map[], map[], map[], map[], {}, map[], map[], [], [])

  datatype WakeOutcome = AlreadyRunning | Joined | Spawning

  function WakeOutcomeOf(s: State, sid: nat): WakeOutcome {
    if sid in s.active then AlreadyRunning else if sid in s.wakes then Joined else Spawning
  }

  /** What the surroundings promise: ids are fresh, `stop` and a terminal report
      only on a dead container, a failing start() leaves nothing running, and
      adoption happens at startup. */
  ghost predicate Enabled(s: State, e: Event) {
    match e
    case Wake(_, sp) => sp !in s.spawns
    case SetupEnds(sp) => sp in s.spawns && s.spawns[sp].phase == SettingUp
    case Register(sp, rid) => sp in s.spawns && s.spawns[sp].phase == SettingUp && rid !in s.runtimes
    case ContainerUp(rid) =>
      && rid in s.runtimes && s.runtimes[rid].box == NotStarted
      && exists sp :: sp in s.spawns && s.spawns[sp].phase == Starting(rid)
    case ContainerDies(rid) => rid in s.runtimes && s.runtimes[rid].box == Live
    case StartReturns(sp) =>
      && sp in s.spawns && s.spawns[sp].phase.Starting? && s.spawns[sp].phase.rid in s.runtimes
      && s.runtimes[s.spawns[sp].phase.rid].box != NotStarted
    case StartThrows(sp) =>
      && sp in s.spawns && s.spawns[sp].phase.Starting? && s.spawns[sp].phase.rid in s.runtimes
      && s.runtimes[s.spawns[sp].phase.rid].box != Live
    case Recorded(sp) => sp in s.spawns && s.spawns[sp].phase.Recording?
    case RecordThrows(sp) =>
      sp in s.spawns && s.spawns[sp].phase.Recording? && s.spawns[sp].phase.rid in s.runtimes
    case Unblock(sp) =>
      && sp in s.spawns && s.spawns[sp].phase.AwaitingFinish? && s.spawns[sp].phase.rid in s.runtimes
      && s.runtimes[s.spawns[sp].phase.rid].settled
    case ClearWake(sp) => sp in s.spawns && s.spawns[sp].phase == Settled
    case Terminal(rid) => rid in s.runtimes && s.runtimes[rid].box == Dead
    case Kill(sid, stop, onExit) =>
      && stop !in s.stops && (onExit.Some? ==> onExit.value !in s.fates)
      && (sid in s.active ==> s.active[sid] in s.runtimes)
    case StopReports(stop) =>
      stop in s.stops && s.stops[stop] in s.runtimes && s.runtimes[s.stops[stop]].box == Dead
    case Finish(rid) => rid in s.finishing && rid in s.runtimes
    case Adopt(sid, rid) =>
      && sid !in s.active && sid !in s.wakes && rid !in s.runtimes
      && forall r :: r in s.runtimes && s.runtimes[r].sid == sid ==> s.runtimes[r].box == Dead
  }

  function SetPhase(s: State, sp: nat, p: Phase): State
    requires sp in s.spawns
  {
    s.(spawns := s.spawns[sp := s.spawns[sp].(phase := p)])
  }

  /** finishAndResolve up to its first await; it looks the runtime up by session. */
  function FinishAndResolve(s: State, sid: nat): State {
    if sid in s.active && s.active[sid] in s.runtimes && !s.runtimes[s.active[sid]].finished then
      var rid := s.active[sid];
      s.(runtimes := s.runtimes[rid := s.runtimes[rid].(finished := true)], finishing := s.finishing + {rid})
    else s
  }

  function Fated(fates: map<nat, Fate>, cbs: seq<nat>, f: Fate): (r: map<nat, Fate>)
    ensures forall c :: c in r <==> c in fates || c in cbs
    ensures forall c :: c in r ==> r[c] == if c in cbs then f else fates[c]
  {
    map c | c in fates.Keys + (set x | x in cbs) :: if c in cbs then f else fates[c]
  }

  function Tag(cbs: seq<nat>, registered: bool): (r: seq<(nat, bool)>)
    ensures |r| == |cbs| && forall i :: 0 <= i < |cbs| ==> r[i] == (cbs[i], registered)
  {
    seq(|cbs|, i requires 0 <= i < |cbs| => (cbs[i], registered))
  }

  /** The catch block of spawnContainer. A runtime that is still registered and
      unfinished is dropped together with its callbacks. */
  function CatchSpawn(s: State, sp: nat, rid: nat): State
    requires sp in s.spawns && rid in s.runtimes
  {
    var rt := s.runtimes[rid];
    if rt.sid in s.active && s.active[rt.sid] == rid && !rt.finished then
      SetPhase(s.(active := s.active - {rt.sid},
                  runtimes := s.runtimes[rid := rt.(settled := true, callbacks := [])],
                  fates := Fated(s.fates, rt.callbacks, Lost)), sp, Settled)
    else SetPhase(s, sp, AwaitingFinish(rid))
  }

  /** finish() after its await, then resolveFinished(). */
  function RunFinish(s: State, rid: nat): State
    requires rid in s.runtimes
  {
    var rt := s.runtimes[rid];
    var active' := if rt.sid in s.active && s.active[rt.sid] == rid then s.active - {rt.sid} else s.active;
    s.(active := active',
       runtimes := s.runtimes[rid := rt.(settled := true, callbacks := [])],
       finishing := s.finishing - {rid},
       fates := Fated(s.fates, rt.callbacks, Ran),
       ran := s.ran + Tag(rt.callbacks, rt.sid in active'),
       finalized := s.finalized + [rid])
  }

  function NewRuntime(sid: nat, box: Container): Runtime {
    Runtime(sid, box, false, false, [])
  }

  ghost function Apply(s: State, e: Event): State
    requires Enabled(s, e)
  {
    match e
    case Wake(sid, sp) =>
      if WakeOutcomeOf(s, sid) != Spawning then s
      else s.(spawns := s.spawns[sp := Spawn(sid, SettingUp)], wakes := s.wakes[sid := sp])
    case SetupEnds(sp) => SetPhase(s, sp, Settled)
    case Register(sp, rid) =>
      var sid := s.spawns[sp].sid;
      SetPhase(s.(active := s.active[sid := rid], runtimes := s.runtimes[rid := NewRuntime(sid, NotStarted)]), sp, Starting(rid))
    case ContainerUp(rid) => s.(runtimes := s.runtimes[rid := s.runtimes[rid].(box := Live)])
    case ContainerDies(rid) => s.(runtimes := s.runtimes[rid := s.runtimes[rid].(box := Dead)])
    case StartReturns(sp) => SetPhase(s, sp, Recording(s.spawns[sp].phase.rid))
    case StartThrows(sp) =>
      var rid := s.spawns[sp].phase.rid;
      CatchSpawn(s.(runtimes := s.runtimes[rid := s.runtimes[rid].(box := Dead)]), sp, rid)
    case Recorded(sp) => SetPhase(s, sp, Settled)
    case RecordThrows(sp) => CatchSpawn(s, sp, s.spawns[sp].phase.rid)
    case Unblock(sp) => SetPhase(s, sp, Settled)
    case ClearWake(sp) => s.(wakes := s.wakes - {s.spawns[sp].sid}, spawns := s.spawns - {sp})
    case Terminal(rid) => FinishAndResolve(s, s.runtimes[rid].sid)
    case Kill(sid, stop, onExit) =>
      if sid !in s.active then s
      else
        var rid := s.active[sid];
        var s1 := s.(stops := s.stops[stop := rid]);
        if onExit.None? then s1
        else s1.(runtimes := s.runtimes[rid := s.runtimes[rid].(callbacks := s.runtimes[rid].callbacks + [onExit.value])],
                 fates := s.fates[onExit.value := Waiting(rid)])
    case StopReports(stop) =>
      var rid := s.stops[stop];
      var s1 := s.(stops := s.stops - {stop});
      if s.runtimes[rid].finished then s1 else FinishAndResolve(s1, s.runtimes[rid].sid)
    case Finish(rid) => RunFinish(s, rid)
    case Adopt(sid, rid) =>
      s.(active := s.active[sid := rid], runtimes := s.runtimes[rid := NewRuntime(sid, Live)])
  }

  ghost predicate Valid(s: State, es: seq<Event>)
    decreases |es|
  {
    es == [] || (Enabled(s, es[0]) && Valid(Apply(s, es[0]), es[1..]))
  }

  ghost function Exec(s: State, es: seq<Event>): State
    requires Valid(s, es)
    decreases |es|
  {
    if es == [] then s else Exec(Apply(s, es[0]), es[1..])
  }

  // --- What every state keeps ---

  type Runtimes = map<nat, Runtime>

  /** The unsettled runtimes are exactly the registered ones. */
  predicate Registry(active: map<nat, nat>, rts: Runtimes) {
    && (forall sid :: sid in active ==>
          active[sid] in rts && rts[active[sid]].sid == sid && !rts[active[sid]].settled)
    && (forall rid :: rid in rts && !rts[rid].settled ==>
          rts[rid].sid in active && active[rts[rid].sid] == rid)
  }

  /** One wake promise per spawn in flight, and one spawn in flight per session. */
  predicate OneSpawn(wakes: map<nat, nat>, spawns: map<nat, Spawn>) {
    && (forall sid :: sid in wakes ==> wakes[sid] in spawns && spawns[wakes[sid]].sid == sid)
    && (forall sp :: sp in spawns ==> spawns[sp].sid in wakes && wakes[spawns[sp].sid] == sp)
  }

  predicate PhaseOk(active: map<nat, nat>, rts: Runtimes, sp: Spawn) {
    match sp.phase
    case SettingUp => sp.sid !in active
    case Starting(rid) => rid in rts && rts[rid].sid == sp.sid && (rts[rid].settled ==> rts[rid].finished)
    case Recording(rid) => rid in rts && rts[rid].sid == sp.sid && (rts[rid].settled ==> rts[rid].finished)
    case AwaitingFinish(rid) => rid in rts && rts[rid].sid == sp.sid && rts[rid].finished
    case Settled => true
  }

  predicate Phases(active: map<nat, nat>, rts: Runtimes, spawns: map<nat, Spawn>) {
    forall sp :: sp in spawns ==> PhaseOk(active, rts, spawns[sp])
  }

  /** A finalization in progress is the only way to be finished but not settled. */
  predicate Finishing(finishing: set<nat>, rts: Runtimes) {
    && finishing <= rts.Keys
    && (forall rid :: rid in rts ==> (rid in finishing <==> rts[rid].finished && !rts[rid].settled))
  }

  predicate Finalized(finalized: seq<nat>, rts: Runtimes) {
    && (forall i, j :: 0 <= i < j < |finalized| ==> finalized[i] != finalized[j])
    && (forall rid :: rid in finalized ==> rid in rts && rts[rid].settled)
  }

  predicate NoRepeats(q: seq<nat>) {
    forall i, j :: 0 <= i < j < |q| ==> q[i] != q[j]
  }

  /** Each waiting callback is on one runtime, once; a settled runtime has none. */
  ghost predicate Callbacks(rts: Runtimes, fates: map<nat, Fate>) {
    && (forall rid :: rid in rts ==> NoRepeats(rts[rid].callbacks) && (rts[rid].settled ==> rts[rid].callbacks == []))
    && (forall rid, c :: rid in rts && c in rts[rid].callbacks ==> c in fates && fates[c] == Waiting(rid))
    && (forall c :: c in fates && fates[c].Waiting? ==> fates[c].rid in rts && c in rts[fates[c].rid].callbacks)
  }

  /** No callback runs twice, and none runs while its session is registered. */
  ghost predicate RanOnce(ran: seq<(nat, bool)>, fates: map<nat, Fate>) {
    && (forall i :: 0 <= i < |ran| ==> ran[i].0 in fates && fates[ran[i].0] == Ran && !ran[i].1)
    && (forall i, j :: 0 <= i < j < |ran| ==> ran[i].0 != ran[j].0)
    && (forall c :: c in fates && fates[c] == Ran ==> (c, false) in ran)
  }

  /** A runtime with waiting callbacks is on its way out. */
  ghost predicate Stopping(stops: map<nat, nat>, rts: Runtimes) {
    && (forall k :: k in stops ==> stops[k] in rts)
    && (forall rid :: rid in rts && rts[rid].callbacks != [] && !rts[rid].finished ==> rid in stops.Values)
  }

  ghost predicate Core(s: State) {
    && Registry(s.active, s.runtimes)
    && OneSpawn(s.wakes, s.spawns)
    && Phases(s.active, s.runtimes, s.spawns)
    && Finishing(s.finishing, s.runtimes)
  }

  ghost predicate Inv(s: State) {
    && Core(s)
    && Finalized(s.finalized, s.runtimes)
    && Callbacks(s.runtimes, s.fates)
    && RanOnce(s.ran, s.fates)
    && Stopping(s.stops, s.runtimes)
  }

  /** `rt` differs from `was` in its container or in having become finished. */
  predicate SameOwner(was: Runtime, rt: Runtime) {
    rt.sid == was.sid && rt.settled == was.settled && rt.callbacks == was.callbacks && (was.finished ==> rt.finished)
  }

  lemma UpdateRegistry(active: map<nat, nat>, rts: Runtimes, rid: nat, rt: Runtime)
    requires Registry(active, rts) && rid in rts && SameOwner(rts[rid], rt)
    ensures Registry(active, rts[rid := rt])
  {
  }

  lemma UpdatePhases(active: map<nat, nat>, rts: Runtimes, spawns: map<nat, Spawn>, rid: nat, rt: Runtime)
    requires Phases(active, rts, spawns) && rid in rts && SameOwner(rts[rid], rt)
    ensures Phases(active, rts[rid := rt], spawns)
  {
    forall sp | sp in spawns ensures PhaseOk(active, rts[rid := rt], spawns[sp]) {
      assert PhaseOk(active, rts, spawns[sp]);
    }
  }

  lemma UpdateCallbacks(rts: Runtimes, fates: map<nat, Fate>, rid: nat, rt: Runtime)
    requires Callbacks(rts, fates) && rid in rts && SameOwner(rts[rid], rt)
    ensures Callbacks(rts[rid := rt], fates)
  {
  }

  lemma UpdateStopping(stops: map<nat, nat>, rts: Runtimes, rid: nat, rt: Runtime)
    requires Stopping(stops, rts) && rid in rts && SameOwner(rts[rid], rt)
    ensures Stopping(stops, rts[rid := rt])
  {
  }

  lemma UpdateRuntime(s: State, rid: nat, rt: Runtime)
    requires Inv(s) && rid in s.runtimes && SameOwner(s.runtimes[rid], rt)
    ensures var rts := s.runtimes[rid := rt];
            && Registry(s.active, rts) && Phases(s.active, rts, s.spawns) && Finalized(s.finalized, rts)
            && Callbacks(rts, s.fates) && Stopping(s.stops, rts)
  {
    UpdateRegistry(s.active, s.runtimes, rid, rt);
    UpdatePhases(s.active, s.runtimes, s.spawns, rid, rt);
    UpdateCallbacks(s.runtimes, s.fates, rid, rt);
    UpdateStopping(s.stops, s.runtimes, rid, rt);
  }

  lemma FinishAndResolveKeeps(s: State, sid: nat)
    requires Inv(s)
    ensures Inv(FinishAndResolve(s, sid))
  {
    if sid in s.active && !s.runtimes[s.active[sid]].finished {
      var rid := s.active[sid];
      UpdateRuntime(s, rid, s.runtimes[rid].(finished := true));
    }
  }

  lemma BoxKeeps(s: State, rid: nat, box: Container)
    requires Inv(s) && rid in s.runtimes
    ensures Inv(s.(runtimes := s.runtimes[rid := s.runtimes[rid].(box := box)]))
  {
    UpdateRuntime(s, rid, s.runtimes[rid].(box := box));
  }

  lemma SetPhaseKeeps(s: State, sp: nat, p: Phase)
    requires Inv(s) && sp in s.spawns && PhaseOk(s.active, s.runtimes, s.spawns[sp].(phase := p))
    ensures Inv(SetPhase(s, sp, p))
  {
    var spawns := s.spawns[sp := s.spawns[sp].(phase := p)];
    forall k | k in spawns ensures PhaseOk(s.active, s.runtimes, spawns[k]) {
      if k != sp { assert PhaseOk(s.active, s.runtimes, s.spawns[k]); }
    }
    assert OneSpawn(s.wakes, spawns);
  }

  /** A registered runtime leaves the registry for good. */
  lemma SettleKeepsCore(s: State, rid: nat)
    requires Inv(s) && rid in s.runtimes && !s.runtimes[rid].settled
    requires s.runtimes[rid].finished
          || forall k :: k in s.spawns && s.spawns[k].sid == s.runtimes[rid].sid ==> s.spawns[k].phase == Settled
    ensures var active := s.active - {s.runtimes[rid].sid};
            var rts := s.runtimes[rid := s.runtimes[rid].(settled := true, callbacks := [])];
            && Registry(active, rts) && Phases(active, rts, s.spawns)
            && Finishing(s.finishing - {rid}, rts) && Finalized(s.finalized, rts) && Stopping(s.stops, rts)
  {
    var active := s.active - {s.runtimes[rid].sid};
    var rts := s.runtimes[rid := s.runtimes[rid].(settled := true, callbacks := [])];
    forall k | k in s.spawns ensures PhaseOk(active, rts, s.spawns[k]) {
      assert PhaseOk(s.active, s.runtimes, s.spawns[k]);
    }
  }

  lemma SettleKeepsCallbacks(rts: Runtimes, fates: map<nat, Fate>, rid: nat, f: Fate)
    requires Callbacks(rts, fates) && rid in rts && !f.Waiting?
    ensures Callbacks(rts[rid := rts[rid].(settled := true, callbacks := [])], Fated(fates, rts[rid].callbacks, f))
  {
    var rts' := rts[rid := rts[rid].(settled := true, callbacks := [])];
    var fates' := Fated(fates, rts[rid].callbacks, f);
    forall r, c | r in rts' && c in rts'[r].callbacks
      ensures c in fates' && fates'[c] == Waiting(r)
    {
      assert r != rid && fates[c] == Waiting(r);
    }
  }

  lemma LostKeepsRan(s: State, rid: nat)
    requires Inv(s) && rid in s.runtimes
    ensures RanOnce(s.ran, Fated(s.fates, s.runtimes[rid].callbacks, Lost))
  {
    var fates := Fated(s.fates, s.runtimes[rid].callbacks, Lost);
    forall i | 0 <= i < |s.ran| ensures s.ran[i].0 in fates && fates[s.ran[i].0] == Ran {
      assert s.fates[s.ran[i].0] == Ran;
    }
  }

  lemma OnlySpawnOf(s: State, sp: nat, k: nat)
    requires OneSpawn(s.wakes, s.spawns) && sp in s.spawns && k in s.spawns && s.spawns[k].sid == s.spawns[sp].sid
    ensures k == sp
  {
  }

  lemma DropKeeps(s: State, sp: nat, rid: nat)
    requires Inv(s) && sp in s.spawns && s.spawns[sp].phase == Settled && rid in s.runtimes
    requires s.runtimes[rid].sid == s.spawns[sp].sid && !s.runtimes[rid].settled && !s.runtimes[rid].finished
    ensures Inv(s.(active := s.active - {s.runtimes[rid].sid},
                   runtimes := s.runtimes[rid := s.runtimes[rid].(settled := true, callbacks := [])],
                   fates := Fated(s.fates, s.runtimes[rid].callbacks, Lost)))
  {
    forall k | k in s.spawns && s.spawns[k].sid == s.runtimes[rid].sid ensures s.spawns[k].phase == Settled {
      OnlySpawnOf(s, sp, k);
    }
    SettleKeepsCore(s, rid);
    SettleKeepsCallbacks(s.runtimes, s.fates, rid, Lost);
    LostKeepsRan(s, rid);
    assert s.finishing == s.finishing - {rid};
  }

  lemma CatchSpawnKeeps(s: State, sp: nat)
    requires Inv(s) && sp in s.spawns && (s.spawns[sp].phase.Starting? || s.spawns[sp].phase.Recording?)
    ensures s.spawns[sp].phase.rid in s.runtimes && Inv(CatchSpawn(s, sp, s.spawns[sp].phase.rid))
  {
    var rid := s.spawns[sp].phase.rid;
    assert PhaseOk(s.active, s.runtimes, s.spawns[sp]);
    var rt := s.runtimes[rid];
    if rt.sid in s.active && s.active[rt.sid] == rid && !rt.finished {
      SetPhaseKeeps(s, sp, Settled);
      DropKeeps(SetPhase(s, sp, Settled), sp, rid);
    } else {
      SetPhaseKeeps(s, sp, AwaitingFinish(rid));
    }
  }

  lemma RanExtend(ran: seq<(nat, bool)>, fates: map<nat, Fate>, cbs: seq<nat>)
    requires RanOnce(ran, fates) && NoRepeats(cbs)
    requires forall c :: c in cbs ==> c in fates && fates[c] != Ran
    ensures RanOnce(ran + Tag(cbs, false), Fated(fates, cbs, Ran))
  {
    var ran', fates' := ran + Tag(cbs, false), Fated(fates, cbs, Ran);
    forall i | 0 <= i < |ran'|
      ensures ran'[i].0 in fates' && fates'[ran'[i].0] == Ran && !ran'[i].1
    {
      if i >= |ran| { assert ran'[i] == (cbs[i - |ran|], false); }
    }
    forall i, j | 0 <= i < j < |ran'| ensures ran'[i].0 != ran'[j].0 {
      if j >= |ran| {
        assert ran'[j].0 == cbs[j - |ran|] && cbs[j - |ran|] in cbs;
        if i >= |ran| { assert ran'[i].0 == cbs[i - |ran|]; }
      }
    }
    forall c | c in fates' && fates'[c] == Ran
      ensures (c, false) in ran'
    {
      if c in cbs {
        var i :| 0 <= i < |cbs| && cbs[i] == c;
        assert ran'[|ran| + i] == (c, false);
      } else {
        assert (c, false) in ran;
      }
    }
  }

  lemma RunFinishKeeps(s: State, rid: nat)
    requires Inv(s) && rid in s.finishing
    ensures Inv(RunFinish(s, rid))
  {
    SettleKeepsCore(s, rid);
    SettleKeepsCallbacks(s.runtimes, s.fates, rid, Ran);
    assert s.active[s.runtimes[rid].sid] == rid;
    RanExtend(s.ran, s.fates, s.runtimes[rid].callbacks);
    assert rid !in s.finalized;
  }

  lemma AddToRegistry(active: map<nat, nat>, rts: Runtimes, sid: nat, rid: nat, box: Container)
    requires Registry(active, rts) && rid !in rts && sid !in active
    ensures Registry(active[sid := rid], rts[rid := NewRuntime(sid, box)])
  {
  }

  lemma AddKeepsCallbacks(rts: Runtimes, fates: map<nat, Fate>, rid: nat, rt: Runtime)
    requires Callbacks(rts, fates) && rid !in rts && rt.callbacks == []
    ensures Callbacks(rts[rid := rt], fates)
  {
  }

  lemma AddKeepsPhase(active: map<nat, nat>, rts: Runtimes, sp: Spawn, sid: nat, rid: nat, rt: Runtime)
    requires PhaseOk(active, rts, sp) && rid !in rts && (sp.sid != sid || sp.phase != SettingUp)
    ensures PhaseOk(active[sid := rid], rts[rid := rt], sp)
  {
  }

  lemma AddRuntime(s: State, sid: nat, rid: nat, box: Container)
    requires Inv(s) && rid !in s.runtimes && sid !in s.active
    ensures var active, rts := s.active[sid := rid], s.runtimes[rid := NewRuntime(sid, box)];
            && Registry(active, rts) && Finishing(s.finishing, rts) && Finalized(s.finalized, rts)
            && Callbacks(rts, s.fates) && Stopping(s.stops, rts)
  {
    AddToRegistry(s.active, s.runtimes, sid, rid, box);
    AddKeepsCallbacks(s.runtimes, s.fates, rid, NewRuntime(sid, box));
  }

  lemma StopsAdded(stops: map<nat, nat>, stop: nat, rid: nat)
    requires stop !in stops
    ensures stops[stop := rid].Values == stops.Values + {rid}
  {
    var stops' := stops[stop := rid];
    assert stops'[stop] == rid;
    forall r | r in stops.Values ensures r in stops'.Values {
      var k :| k in stops && stops[k] == r;
      assert stops'[k] == r;
    }
  }

  lemma StopsRemoved(stops: map<nat, nat>, stop: nat, r: nat)
    requires stop in stops && r != stops[stop] && r in stops.Values
    ensures r in (stops - {stop}).Values
  {
    var k :| k in stops && stops[k] == r;
    assert (stops - {stop})[k] == r;
  }

  lemma PushKeepsCallbacks(rts: Runtimes, fates: map<nat, Fate>, rid: nat, c: nat)
    requires Callbacks(rts, fates) && rid in rts && !rts[rid].settled && c !in fates
    ensures Callbacks(rts[rid := rts[rid].(callbacks := rts[rid].callbacks + [c])], fates[c := Waiting(rid)])
  {
    assert c !in rts[rid].callbacks;
  }

  lemma PushKeepsPhases(active: map<nat, nat>, rts: Runtimes, spawns: map<nat, Spawn>, rid: nat, cbs: seq<nat>)
    requires Phases(active, rts, spawns) && rid in rts
    ensures Phases(active, rts[rid := rts[rid].(callbacks := cbs)], spawns)
  {
    forall sp | sp in spawns ensures PhaseOk(active, rts[rid := rts[rid].(callbacks := cbs)], spawns[sp]) {
      assert PhaseOk(active, rts, spawns[sp]);
    }
  }

  lemma PushCallbackKeeps(s: State, rid: nat, c: nat)
    requires Inv(s) && rid in s.runtimes && rid in s.stops.Values && !s.runtimes[rid].settled && c !in s.fates
    ensures Inv(s.(runtimes := s.runtimes[rid := s.runtimes[rid].(callbacks := s.runtimes[rid].callbacks + [c])],
                   fates := s.fates[c := Waiting(rid)]))
  {
    PushKeepsCallbacks(s.runtimes, s.fates, rid, c);
    PushKeepsPhases(s.active, s.runtimes, s.spawns, rid, s.runtimes[rid].callbacks + [c]);
  }

  lemma KillKeeps(s: State, e: Event)
    requires Inv(s) && Enabled(s, e) && e.Kill? && e.sid in s.active
    ensures Inv(Apply(s, e))
  {
    var rid := s.active[e.sid];
    StopsAdded(s.stops, e.stop, rid);
    var s1 := s.(stops := s.stops[e.stop := rid]);
    assert Inv(s1);
    if e.onExit.Some? { PushCallbackKeeps(s1, rid, e.onExit.value); }
  }

  lemma StopReportKeeps(s: State, stop: nat)
    requires Inv(s) && Enabled(s, StopReports(stop))
    ensures Inv(Apply(s, StopReports(stop)))
  {
    var rid := s.stops[stop];
    var s2 := if s.runtimes[rid].finished then s else FinishAndResolve(s, s.runtimes[rid].sid);
    FinishAndResolveKeeps(s, s.runtimes[rid].sid);
    var stops := s.stops - {stop};
    assert !s.runtimes[rid].settled ==> s2.runtimes[rid].finished;
    forall r | r in s2.runtimes && s2.runtimes[r].callbacks != [] && !s2.runtimes[r].finished
      ensures r in stops.Values
    {
      StopsRemoved(s.stops, stop, r);
    }
    assert Stopping(stops, s2.runtimes);
  }

  lemma WakeKeeps(s: State, sid: nat, sp: nat)
    requires Inv(s) && Enabled(s, Wake(sid, sp))
    ensures Inv(Apply(s, Wake(sid, sp)))
  {
    if WakeOutcomeOf(s, sid) == Spawning {
      var spawns := s.spawns[sp := Spawn(sid, SettingUp)];
      assert OneSpawn(s.wakes[sid := sp], spawns);
      forall k | k in spawns ensures PhaseOk(s.active, s.runtimes, spawns[k]) {
        assert k != sp ==> PhaseOk(s.active, s.runtimes, s.spawns[k]);
      }
    }
  }

  lemma ClearWakeKeeps(s: State, sp: nat)
    requires Inv(s) && Enabled(s, ClearWake(sp))
    ensures Inv(Apply(s, ClearWake(sp)))
  {
    var wakes, spawns := s.wakes - {s.spawns[sp].sid}, s.spawns - {sp};
    forall k | k in spawns ensures k in s.spawns && spawns[k] == s.spawns[k] && PhaseOk(s.active, s.runtimes, s.spawns[k]) {}
    assert OneSpawn(wakes, spawns);
  }

  lemma RegisterStepKeeps(s: State, sp: nat, rid: nat)
    requires Inv(s) && Enabled(s, Register(sp, rid))
    ensures Inv(Apply(s, Register(sp, rid)))
  {
    var sid := s.spawns[sp].sid;
    assert PhaseOk(s.active, s.runtimes, s.spawns[sp]);
    AddRuntime(s, sid, rid, NotStarted);
    var s' := Apply(s, Register(sp, rid));
    forall k | k in s'.spawns ensures PhaseOk(s'.active, s'.runtimes, s'.spawns[k]) {
      if k != sp {
        assert s.spawns[k].sid != sid;
        AddKeepsPhase(s.active, s.runtimes, s.spawns[k], sid, rid, NewRuntime(sid, NotStarted));
      }
    }
    assert OneSpawn(s'.wakes, s'.spawns);
  }

  lemma AdoptStepKeeps(s: State, sid: nat, rid: nat)
    requires Inv(s) && Enabled(s, Adopt(sid, rid))
    ensures Inv(Apply(s, Adopt(sid, rid)))
  {
    AddRuntime(s, sid, rid, Live);
    var s' := Apply(s, Adopt(sid, rid));
    forall k | k in s'.spawns ensures PhaseOk(s'.active, s'.runtimes, s'.spawns[k]) {
      assert s.spawns[k].sid in s.wakes;
      AddKeepsPhase(s.active, s.runtimes, s.spawns[k], sid, rid, NewRuntime(sid, Live));
    }
  }

  lemma SpawnStepKeeps(s: State, e: Event)
    requires Inv(s) && Enabled(s, e)
    requires e.StartReturns? || e.StartThrows? || e.Recorded? || e.RecordThrows? || e.Unblock? || e.SetupEnds?
    ensures Inv(Apply(s, e))
  {
    assert PhaseOk(s.active, s.runtimes, s.spawns[e.sp]);
    if e.StartThrows? {
      var rid := s.spawns[e.sp].phase.rid;
      BoxKeeps(s, rid, Dead);
      CatchSpawnKeeps(s.(runtimes := s.runtimes[rid := s.runtimes[rid].(box := Dead)]), e.sp);
    } else if e.RecordThrows? {
      CatchSpawnKeeps(s, e.sp);
    } else {
      SetPhaseKeeps(s, e.sp, if e.StartReturns? then Recording(s.spawns[e.sp].phase.rid) else Settled);
    }
  }

  lemma StepKeepsInv(s: State, e: Event)
    requires Inv(s) && Enabled(s, e)
    ensures Inv(Apply(s, e))
  {
    match e
    case Wake(sid, sp) => WakeKeeps(s, sid, sp);
    case ClearWake(sp) => ClearWakeKeeps(s, sp);
    case Register(sp, rid) => RegisterStepKeeps(s, sp, rid);
    case ContainerUp(rid) => BoxKeeps(s, rid, Live);
    case ContainerDies(rid) => BoxKeeps(s, rid, Dead);
    case Terminal(rid) => FinishAndResolveKeeps(s, s.runtimes[rid].sid);
    case Kill(sid, _, _) => if sid in s.active { KillKeeps(s, e); }
    case StopReports(stop) => StopReportKeeps(s, stop);
    case Finish(rid) => RunFinishKeeps(s, rid);
    case Adopt(sid, rid) => AdoptStepKeeps(s, sid, rid);
    case _ => SpawnStepKeeps(s, e);
  }

  lemma {:induction false} RunKeepsInv(s: State, es: seq<Event>)
    requires Inv(s) && Valid(s, es)
    ensures Inv(Exec(s, es))
    decreases |es|
  {
    if es != [] {
      StepKeepsInv(s, es[0]);
      RunKeepsInv(Apply(s, es[0]), es[1..]);
    }
  }

  // --- Results over all runs ---

  lemma OneSpawnInFlight(es: seq<Event>, sp1: nat, sp2: nat)
    requires Valid(INIT, es)
    requires var s := Exec(INIT, es);
             sp1 in s.spawns && sp2 in s.spawns && s.spawns[sp1].sid == s.spawns[sp2].sid
    ensures sp1 == sp2
  {
    RunKeepsInv(INIT, es);
  }

  lemma FinalizedAtMostOnce(es: seq<Event>)
    requires Valid(INIT, es)
    ensures NoRepeats(Exec(INIT, es).finalized)
  {
    RunKeepsInv(INIT, es);
  }

  /** Every container of the session that runs, or still may, belongs to a registered runtime
      that nothing has begun to finalize. */
  predicate Alive(s: State, sid: nat) {
    forall rid :: rid in s.runtimes && s.runtimes[rid].sid == sid && s.runtimes[rid].box != Dead ==>
      !s.runtimes[rid].finished && !s.runtimes[rid].settled
  }

  /** afterStart failed on a container of the session that runs: the catch block forgets it. */
  predicate DropsLive(s: State, e: Event, sid: nat) {
    && e.RecordThrows? && e.sp in s.spawns && s.spawns[e.sp].phase.Recording?
    && s.spawns[e.sp].phase.rid in s.runtimes
    && s.runtimes[s.spawns[e.sp].phase.rid].sid == sid
    && s.runtimes[s.spawns[e.sp].phase.rid].box != Dead
  }

  /** The runtime that a terminal or stop report is about. */
  function Reported(s: State, e: Event): Option<nat> {
    if e.Terminal? then Some(e.rid) else if e.StopReports? && e.stop in s.stops then Some(s.stops[e.stop]) else None
  }

  /** The report acts: a stop report of a finished runtime does nothing. */
  predicate Acts(s: State, e: Event, sid: nat) {
    && Reported(s, e).Some? && Reported(s, e).value in s.runtimes
    && s.runtimes[Reported(s, e).value].sid == sid
    && (e.StopReports? ==> !s.runtimes[Reported(s, e).value].finished)
  }

  /** A report about one runtime reaches a successor whose container still runs:
      the lookup is by session. */
  predicate Misdirected(s: State, e: Event, sid: nat) {
    Acts(s, e, sid) && sid in s.active && s.active[sid] in s.runtimes && s.runtimes[s.active[sid]].box != Dead
  }

  lemma CatchSpawnAlive(s: State, sp: nat, sid: nat)
    requires Inv(s) && Alive(s, sid) && sp in s.spawns && (s.spawns[sp].phase.Starting? || s.spawns[sp].phase.Recording?)
    ensures s.spawns[sp].phase.rid in s.runtimes
    ensures var rt := s.runtimes[s.spawns[sp].phase.rid];
            Alive(CatchSpawn(s, sp, s.spawns[sp].phase.rid), sid) <==> rt.box == Dead || rt.sid != sid
  {
    var rid := s.spawns[sp].phase.rid;
    assert PhaseOk(s.active, s.runtimes, s.spawns[sp]);
    var s' := CatchSpawn(s, sp, rid);
    if s.runtimes[rid].sid == sid && s.runtimes[rid].box != Dead {
      assert s'.runtimes[rid].settled && s'.runtimes[rid].box != Dead;
    }
  }

  lemma FinishAndResolveAlive(s: State, target: nat, sid: nat)
    requires Inv(s) && Alive(s, sid)
    ensures Alive(FinishAndResolve(s, target), sid) <==>
            !(target == sid && sid in s.active && s.runtimes[s.active[sid]].box != Dead)
  {
    if target == sid && sid in s.active && s.runtimes[s.active[sid]].box != Dead {
      assert FinishAndResolve(s, sid).runtimes[s.active[sid]].finished;
    }
  }

  predicate Reporting(e: Event) {
    e.StartThrows? || e.RecordThrows? || e.Terminal? || e.StopReports?
  }

  lemma OtherStepAlive(s: State, e: Event, sid: nat)
    requires Core(s) && Alive(s, sid) && Enabled(s, e) && !Reporting(e)
    ensures Alive(Apply(s, e), sid)
  {
    var s' := Apply(s, e);
    forall rid | rid in s'.runtimes && s'.runtimes[rid].sid == sid && s'.runtimes[rid].box != Dead
      ensures !s'.runtimes[rid].finished && !s'.runtimes[rid].settled
    {
      if rid in s.runtimes {
        assert s.runtimes[rid].box != Dead;
      }
    }
  }

  lemma StartThrowsAlive(s: State, sp: nat, sid: nat)
    requires Inv(s) && Alive(s, sid) && Enabled(s, StartThrows(sp))
    ensures Alive(Apply(s, StartThrows(sp)), sid)
  {
    var rid := s.spawns[sp].phase.rid;
    BoxKeeps(s, rid, Dead);
    CatchSpawnAlive(s.(runtimes := s.runtimes[rid := s.runtimes[rid].(box := Dead)]), sp, sid);
  }

  lemma StopReportsAlive(s: State, stop: nat, sid: nat)
    requires Inv(s) && Alive(s, sid) && Enabled(s, StopReports(stop))
    ensures Alive(Apply(s, StopReports(stop)), sid) <==> !Misdirected(s, StopReports(stop), sid)
  {
    var rid := s.stops[stop];
    if !s.runtimes[rid].finished {
      FinishAndResolveAlive(s, s.runtimes[rid].sid, sid);
      assert Apply(s, StopReports(stop)).runtimes == FinishAndResolve(s, s.runtimes[rid].sid).runtimes;
    }
  }

  /** Exactly two kinds of step break it. */
  lemma AliveStepIff(s: State, e: Event, sid: nat)
    requires Inv(s) && Alive(s, sid) && Enabled(s, e)
    ensures Alive(Apply(s, e), sid) <==> !DropsLive(s, e, sid) && !Misdirected(s, e, sid)
  {
    if e.StartThrows? {
      StartThrowsAlive(s, e.sp, sid);
    } else if e.RecordThrows? {
      CatchSpawnAlive(s, e.sp, sid);
    } else if e.Terminal? {
      FinishAndResolveAlive(s, s.runtimes[e.rid].sid, sid);
    } else if e.StopReports? {
      StopReportsAlive(s, e.stop, sid);
    } else {
      OtherStepAlive(s, e, sid);
    }
  }

  /** A report that comes when its own runtime has already left the registry: a further terminal
      event, or the stop report of a runtime dropped by the catch block. */
  predicate Late(s: State, e: Event, sid: nat) {
    Acts(s, e, sid) && s.runtimes[Reported(s, e).value].settled
  }

  /** Only a late report can go astray: until then the session's entry is the reported one. */
  lemma MisdirectedIsLate(s: State, e: Event, sid: nat)
    requires Inv(s) && Enabled(s, e) && Misdirected(s, e, sid)
    ensures Late(s, e, sid)
  {
  }

  /** Nothing goes astray: afterStart throws on none of the session's live containers and no
      report of it reaches a live successor. */
  ghost predicate Straight(s: State, es: seq<Event>, sid: nat)
    requires Valid(s, es)
    decreases |es|
  {
    es == [] || (!DropsLive(s, es[0], sid) && !Misdirected(s, es[0], sid) && Straight(Apply(s, es[0]), es[1..], sid))
  }

  /** No report of the session is late at all, and afterStart throws on none of its live
      containers. */
  ghost predicate Timely(s: State, es: seq<Event>, sid: nat)
    requires Valid(s, es)
    decreases |es|
  {
    es == [] || (!DropsLive(s, es[0], sid) && !Late(s, es[0], sid) && Timely(Apply(s, es[0]), es[1..], sid))
  }

  lemma {:induction false} TimelyIsStraight(s: State, es: seq<Event>, sid: nat)
    requires Inv(s) && Valid(s, es) && Timely(s, es, sid)
    ensures Straight(s, es, sid)
    decreases |es|
  {
    hide Inv, Enabled, Apply, Late, Misdirected, DropsLive;
    if es != [] {
      if Misdirected(s, es[0], sid) { MisdirectedIsLate(s, es[0], sid); }
      StepKeepsInv(s, es[0]);
      TimelyIsStraight(Apply(s, es[0]), es[1..], sid);
    }
  }

  lemma {:induction false} RunKeepsAlive(s: State, es: seq<Event>, sid: nat)
    requires Inv(s) && Alive(s, sid) && Valid(s, es) && Straight(s, es, sid)
    ensures Inv(Exec(s, es)) && Alive(Exec(s, es), sid)
    decreases |es|
  {
    hide Inv, Enabled, Apply, Alive, Misdirected, DropsLive;
    if es != [] {
      StepKeepsInv(s, es[0]);
      AliveStepIff(s, es[0], sid);
      RunKeepsAlive(Apply(s, es[0]), es[1..], sid);
    }
  }

  predicate MayRun(rt: Runtime, sid: nat) {
    rt.sid == sid && rt.box != Dead
  }

  /** Two runtimes of the session whose containers run, or still may, are the same. */
  predicate OneLive(s: State, sid: nat) {
    forall r1, r2 :: r1 in s.runtimes && r2 in s.runtimes && MayRun(s.runtimes[r1], sid) && MayRun(s.runtimes[r2], sid) ==>
      r1 == r2
  }

  lemma AliveIsOne(s: State, sid: nat)
    requires Inv(s) && Alive(s, sid)
    ensures OneLive(s, sid)
  {
  }

  /** A session of whose own events none goes astray never has two containers, whatever happens
      to the others. */
  lemma OneLiveRuntime(es: seq<Event>, sid: nat)
    requires Valid(INIT, es) && Straight(INIT, es, sid)
    ensures OneLive(Exec(INIT, es), sid)
  {
    hide Enabled, Apply, Misdirected, DropsLive;
    RunKeepsAlive(INIT, es, sid);
    AliveIsOne(Exec(INIT, es), sid);
  }

  // --- And otherwise a second container is within reach ---

  /** Timely events that end with two containers. */
  ghost predicate Leads(s: State, es: seq<Event>, sid: nat) {
    Valid(s, es) && Timely(s, es, sid) && !OneLive(Exec(s, es), sid)
  }

  lemma LeadsOn(s: State, e: Event, es: seq<Event>, sid: nat)
    requires Enabled(s, e) && !DropsLive(s, e, sid) && !Late(s, e, sid) && Leads(Apply(s, e), es, sid)
    ensures Leads(s, [e] + es, sid)
  {
    hide Enabled, Apply, DropsLive, Late, OneLive;
    assert ([e] + es)[1..] == es && ([e] + es)[0] == e;
  }

  lemma LeadsAlready(s: State, sid: nat, r1: nat, r2: nat)
    requires r1 in s.runtimes && r2 in s.runtimes && r1 != r2 && MayRun(s.runtimes[r1], sid) && MayRun(s.runtimes[r2], sid)
    ensures Leads(s, [], sid)
  {
  }

  /** rid may still run, and nobody counts on it any more. */
  ghost predicate Stranded(s: State, sid: nat, rid: nat) {
    && Inv(s) && rid in s.runtimes && MayRun(s.runtimes[rid], sid)
    && (s.runtimes[rid].finished || s.runtimes[rid].settled)
  }

  lemma {:induction false} FreshId(ids: set<nat>) returns (n: nat)
    ensures forall i :: i in ids ==> i < n
  {
    if ids == {} {
      n := 0;
    } else {
      var x :| x in ids;
      var m := FreshId(ids - {x});
      n := if x < m then m else x + 1;
      forall i | i in ids ensures i < n { if i != x { assert i in ids - {x}; } }
    }
  }

  lemma FromSettingUp(s: State, sid: nat, rid: nat, sp: nat) returns (es: seq<Event>)
    requires Stranded(s, sid, rid) && sp in s.spawns && s.spawns[sp] == Spawn(sid, SettingUp)
    ensures Leads(s, es, sid)
  {
    var r := FreshId(s.runtimes.Keys);
    var e := Register(sp, r);
    LeadsAlready(Apply(s, e), sid, rid, r);
    LeadsOn(s, e, [], sid);
    es := [e] + [];
  }

  lemma FromFree(s: State, sid: nat, rid: nat) returns (es: seq<Event>)
    requires Stranded(s, sid, rid) && sid !in s.active && sid !in s.wakes
    ensures Leads(s, es, sid)
  {
    var sp := FreshId(s.spawns.Keys);
    var e := Wake(sid, sp);
    StepKeepsInv(s, e);
    hide Inv;
    var rest := FromSettingUp(Apply(s, e), sid, rid, sp);
    LeadsOn(s, e, rest, sid);
    es := [e] + rest;
  }

  lemma FromSettled(s: State, sid: nat, rid: nat, sp: nat) returns (es: seq<Event>)
    requires Stranded(s, sid, rid) && sid !in s.active && sp in s.spawns && s.spawns[sp] == Spawn(sid, Settled)
    ensures Leads(s, es, sid)
  {
    var e := ClearWake(sp);
    StepKeepsInv(s, e);
    hide Inv;
    var rest := FromFree(Apply(s, e), sid, rid);
    LeadsOn(s, e, rest, sid);
    es := [e] + rest;
  }

  /** A step that only moves the spawn on to its end. */
  lemma ThenSettled(s: State, sid: nat, rid: nat, sp: nat, e: Event) returns (es: seq<Event>)
    requires Stranded(s, sid, rid) && sid !in s.active && sp in s.spawns && s.spawns[sp].sid == sid
    requires Enabled(s, e) && !Reporting(e) && Apply(s, e) == SetPhase(s, sp, Settled)
    ensures Leads(s, es, sid)
  {
    StepKeepsInv(s, e);
    hide Inv, Enabled, Apply;
    var rest := FromSettled(Apply(s, e), sid, rid, sp);
    LeadsOn(s, e, rest, sid);
    es := [e] + rest;
  }

  lemma FromRecording(s: State, sid: nat, rid: nat, sp: nat) returns (es: seq<Event>)
    requires Stranded(s, sid, rid) && sid !in s.active && sp in s.spawns && s.spawns[sp].sid == sid
    requires s.spawns[sp].phase.Recording?
    ensures Leads(s, es, sid)
  {
    hide Inv;
    es := ThenSettled(s, sid, rid, sp, Recorded(sp));
  }

  lemma FromStarted(s: State, sid: nat, rid: nat, sp: nat) returns (es: seq<Event>)
    requires Stranded(s, sid, rid) && sid !in s.active && sp in s.spawns && s.spawns[sp].sid == sid
    requires s.spawns[sp].phase.Starting? && Enabled(s, StartReturns(sp))
    ensures Leads(s, es, sid)
  {
    var e := StartReturns(sp);
    StepKeepsInv(s, e);
    hide Inv;
    var rest := FromRecording(Apply(s, e), sid, rid, sp);
    LeadsOn(s, e, rest, sid);
    es := [e] + rest;
  }

  lemma FromStarting(s: State, sid: nat, rid: nat, sp: nat) returns (es: seq<Event>)
    requires Stranded(s, sid, rid) && sid !in s.active && sp in s.spawns && s.spawns[sp].sid == sid
    requires s.spawns[sp].phase.Starting?
    ensures Leads(s, es, sid)
  {
    var r := s.spawns[sp].phase.rid;
    assert PhaseOk(s.active, s.runtimes, s.spawns[sp]);
    if s.runtimes[r].box == NotStarted {
      var e := ContainerUp(r);
      assert Enabled(s, e);
      StepKeepsInv(s, e);
      hide Inv;
      var rest := FromStarted(Apply(s, e), sid, rid, sp);
      LeadsOn(s, e, rest, sid);
      es := [e] + rest;
    } else {
      es := FromStarted(s, sid, rid, sp);
    }
  }

  lemma FromAwaiting(s: State, sid: nat, rid: nat, sp: nat) returns (es: seq<Event>)
    requires Stranded(s, sid, rid) && sid !in s.active && sp in s.spawns && s.spawns[sp].sid == sid
    requires s.spawns[sp].phase.AwaitingFinish?
    ensures Leads(s, es, sid)
  {
    assert PhaseOk(s.active, s.runtimes, s.spawns[sp]);
    es := ThenSettled(s, sid, rid, sp, Unblock(sp));
  }

  /** Out of the registry: the spawn in flight, if any, comes to its end. */
  lemma FromUnregistered(s: State, sid: nat, rid: nat) returns (es: seq<Event>)
    requires Stranded(s, sid, rid) && sid !in s.active
    ensures Leads(s, es, sid)
  {
    if sid !in s.wakes {
      es := FromFree(s, sid, rid);
    } else {
      var sp := s.wakes[sid];
      assert sp in s.spawns && s.spawns[sp].sid == sid;
      hide Inv;
      match s.spawns[sp].phase {
        case SettingUp => es := FromSettingUp(s, sid, rid, sp);
        case Starting(_) => es := FromStarting(s, sid, rid, sp);
        case Recording(_) => es := FromRecording(s, sid, rid, sp);
        case AwaitingFinish(_) => es := FromAwaiting(s, sid, rid, sp);
        case Settled => es := FromSettled(s, sid, rid, sp);
      }
    }
  }

  lemma FromFinished(s: State, sid: nat, rid: nat) returns (es: seq<Event>)
    requires Stranded(s, sid, rid) && sid in s.active && s.active[sid] in s.runtimes && s.runtimes[s.active[sid]].finished
    ensures Leads(s, es, sid)
  {
    var e := Finish(s.active[sid]);
    assert !s.runtimes[s.active[sid]].settled && s.runtimes[s.active[sid]].sid == sid;
    assert s.active[sid] in s.finishing;
    StepKeepsInv(s, e);
    hide Inv, Fated, Tag;
    var rest := FromUnregistered(Apply(s, e), sid, rid);
    LeadsOn(s, e, rest, sid);
    es := [e] + rest;
  }

  /** From a stranded container the registered runtime, if any, is taken out and a new one
      comes in. */
  lemma FromStranded(s: State, sid: nat, rid: nat) returns (es: seq<Event>)
    requires Stranded(s, sid, rid)
    ensures Leads(s, es, sid)
  {
    if sid !in s.active {
      es := FromUnregistered(s, sid, rid);
    } else {
      var r := s.active[sid];
      assert r in s.runtimes && s.runtimes[r].sid == sid && !s.runtimes[r].settled;
      if s.runtimes[r].finished {
        es := FromFinished(s, sid, rid);
      } else if s.runtimes[r].box != Dead {
        LeadsAlready(s, sid, r, rid);
        es := [];
      } else {
        var e := Terminal(r);
        StepKeepsInv(s, e);
        hide Inv;
        var rest := FromFinished(Apply(s, e), sid, rid);
        LeadsOn(s, e, rest, sid);
        es := [e] + rest;
      }
    }
  }

  /** Whatever timely events follow, the session keeps one container, exactly when all its
      containers are alive now; the same when only straying events are ruled out. */
  lemma StaysOneIff(s: State, sid: nat)
    requires Inv(s)
    ensures Alive(s, sid) <==> forall es :: Valid(s, es) && Timely(s, es, sid) ==> OneLive(Exec(s, es), sid)
    ensures Alive(s, sid) <==> forall es :: Valid(s, es) && Straight(s, es, sid) ==> OneLive(Exec(s, es), sid)
  {
    hide Inv, Enabled, Apply, OneLive, Late, Misdirected, DropsLive;
    if Alive(s, sid) {
      forall es | Valid(s, es) && Straight(s, es, sid) ensures OneLive(Exec(s, es), sid) {
        RunKeepsAlive(s, es, sid);
        AliveIsOne(Exec(s, es), sid);
      }
      forall es | Valid(s, es) && Timely(s, es, sid) ensures OneLive(Exec(s, es), sid) {
        TimelyIsStraight(s, es, sid);
      }
    } else {
      var rid :| rid in s.runtimes && s.runtimes[rid].sid == sid && s.runtimes[rid].box != Dead
                 && (s.runtimes[rid].finished || s.runtimes[rid].settled);
      assert Stranded(s, sid, rid);
      var es := FromStranded(s, sid, rid);
      TimelyIsStraight(s, es, sid);
    }
  }

  /** So exactly two kinds of step break the promise: after any other the session keeps one
      container as long as its events are timely, and after one of these timely events lead to
      two. */
  lemma BreaksIff(s: State, e: Event, sid: nat)
    requires Inv(s) && Alive(s, sid) && Enabled(s, e)
    ensures (exists es :: Leads(Apply(s, e), es, sid)) <==> DropsLive(s, e, sid) || Misdirected(s, e, sid)
  {
    hide Inv, Enabled, Apply, OneLive, Misdirected, DropsLive, Alive;
    StepKeepsInv(s, e);
    AliveStepIff(s, e, sid);
    var s' := Apply(s, e);
    StaysOneIff(s', sid);
    if !Alive(s', sid) {
      var es :| Valid(s', es) && Timely(s', es, sid) && !OneLive(Exec(s', es), sid);
      assert Leads(s', es, sid);
    } else {
      forall es ensures !Leads(s', es, sid) {
        if Valid(s', es) && Timely(s', es, sid) { assert OneLive(Exec(s', es), sid); }
      }
    }
  }

  // --- What becomes of a kill callback ---

  /** The start or the afterStart of the callback's own runtime fails before anything has begun
      to finalize it. */
  predicate FailsOwnStart(s: State, e: Event, c: nat) {
    && (e.StartThrows? || e.RecordThrows?) && e.sp in s.spawns
    && (s.spawns[e.sp].phase.Starting? || s.spawns[e.sp].phase.Recording?)
    && s.spawns[e.sp].phase.rid in s.runtimes && !s.runtimes[s.spawns[e.sp].phase.rid].finished
    && c in s.fates && s.fates[c] == Waiting(s.spawns[e.sp].phase.rid)
  }

  /** The catch block forgets the runtime. */
  predicate Forgets(s: State, rid: nat) {
    && rid in s.runtimes && s.runtimes[rid].sid in s.active && s.active[s.runtimes[rid].sid] == rid
    && !s.runtimes[rid].finished
  }

  ghost function FatesAfter(s: State, e: Event): map<nat, Fate>
    requires Enabled(s, e)
  {
    if e.StartThrows? || e.RecordThrows? then
      var rid := s.spawns[e.sp].phase.rid;
      if Forgets(s, rid) then Fated(s.fates, s.runtimes[rid].callbacks, Lost) else s.fates
    else if e.Finish? then Fated(s.fates, s.runtimes[e.rid].callbacks, Ran)
    else if e.Kill? && e.sid in s.active && e.onExit.Some? then s.fates[e.onExit.value := Waiting(s.active[e.sid])]
    else s.fates
  }

  lemma FatesStep(s: State, e: Event)
    requires Enabled(s, e)
    ensures Apply(s, e).fates == FatesAfter(s, e)
  {
    hide Fated, Tag;
    if e.StartThrows? || e.RecordThrows? { assert s.spawns[e.sp].phase.rid in s.runtimes; }
    hide Enabled;
  }

  lemma WaitsIff(rts: Runtimes, fates: map<nat, Fate>, rid: nat, c: nat)
    requires Callbacks(rts, fates) && rid in rts && c in fates
    ensures c in rts[rid].callbacks <==> fates[c] == Waiting(rid)
  {
  }

  /** A callback is lost by exactly that step. */
  lemma LostStepIff(s: State, e: Event, c: nat)
    requires Inv(s) && Enabled(s, e) && c in s.fates
    ensures c in Apply(s, e).fates
    ensures Apply(s, e).fates[c] == Lost <==> s.fates[c] == Lost || FailsOwnStart(s, e, c)
  {
    FatesStep(s, e);
    var rid := if e.StartThrows? || e.RecordThrows? then s.spawns[e.sp].phase.rid else if e.Finish? then e.rid else 0;
    if e.StartThrows? || e.RecordThrows? {
      assert PhaseOk(s.active, s.runtimes, s.spawns[e.sp]);
      assert Forgets(s, rid) <==> !s.runtimes[rid].finished;
      assert FailsOwnStart(s, e, c) <==> Forgets(s, rid) && s.fates[c] == Waiting(rid);
    }
    assert e.StartThrows? || e.RecordThrows? || e.Finish? ==> rid in s.runtimes;
    hide Apply, Enabled, Inv, Forgets, PhaseOk, Callbacks;
    if rid in s.runtimes { WaitsIff(s.runtimes, s.fates, rid, c) by { InvCallbacks(s); } }
  }

  lemma InvCallbacks(s: State)
    requires Inv(s)
    ensures Callbacks(s.runtimes, s.fates)
  {
  }

  lemma NewcomerWaits(s: State, e: Event, c: nat)
    requires Inv(s) && Enabled(s, e) && c !in s.fates
    ensures c in Apply(s, e).fates ==> Apply(s, e).fates[c].Waiting?
  {
    FatesStep(s, e);
    assert Callbacks(s.runtimes, s.fates);
    if e.StartThrows? || e.RecordThrows? { assert s.spawns[e.sp].phase.rid in s.runtimes; }
    if e.Finish? { assert e.rid in s.runtimes; }
    hide Apply, Enabled, Inv;
  }

  /** At some step of the run. */
  ghost predicate StartFailed(s: State, es: seq<Event>, c: nat)
    requires Valid(s, es)
    decreases |es|
  {
    es != [] && (FailsOwnStart(s, es[0], c) || StartFailed(Apply(s, es[0]), es[1..], c))
  }

  lemma {:induction false} LostRunIff(s: State, es: seq<Event>, c: nat)
    requires Inv(s) && Valid(s, es) && c in Exec(s, es).fates
    ensures Exec(s, es).fates[c] == Lost <==> (c in s.fates && s.fates[c] == Lost) || StartFailed(s, es, c)
    decreases |es|
  {
    hide Inv, Enabled, Apply, FailsOwnStart;
    if es != [] {
      StepKeepsInv(s, es[0]);
      if c in s.fates {
        LostStepIff(s, es[0], c);
      } else {
        assert !FailsOwnStart(s, es[0], c) by { NotKnownNotFailed(s, es[0], c); }
        NewcomerWaits(s, es[0], c);
      }
      LostRunIff(Apply(s, es[0]), es[1..], c);
    }
  }

  lemma NotKnownNotFailed(s: State, e: Event, c: nat)
    requires c !in s.fates
    ensures !FailsOwnStart(s, e, c)
  {
  }

  predicate RanExactlyOnce(s: State, c: nat) {
    exists i :: 0 <= i < |s.ran| && s.ran[i] == (c, false)
                && forall j :: 0 <= j < |s.ran| && s.ran[j].0 == c ==> j == i
  }

  /** A callback that ran did so once, its session out of the registry; one that waits has a
      finalization or a stop of its own runtime under way, and has not run; a lost one never ran. */
  predicate HandedOff(s: State, c: nat)
    requires c in s.fates
  {
    match s.fates[c]
    case Ran => RanExactlyOnce(s, c)
    case Waiting(rid) => (rid in s.finishing || rid in s.stops.Values) && forall i :: 0 <= i < |s.ran| ==> s.ran[i].0 != c
    case Lost => forall i :: 0 <= i < |s.ran| ==> s.ran[i].0 != c
  }

  lemma HandOffFromInv(s: State, c: nat)
    requires Inv(s) && c in s.fates
    ensures HandedOff(s, c)
  {
    if s.fates[c] == Ran {
      assert (c, false) in s.ran;
      var i :| 0 <= i < |s.ran| && s.ran[i] == (c, false);
      assert RanExactlyOnce(s, c);
    }
  }

  lemma InitInv()
    ensures Inv(INIT)
  {
  }

  lemma PendingOrRan(s: State, c: nat)
    requires c in s.fates && HandedOff(s, c) && s.fates[c] != Lost
    ensures s.fates[c].Waiting? && s.fates[c].rid !in s.finishing && s.fates[c].rid !in s.stops.Values ==> RanExactlyOnce(s, c)
    ensures s.fates[c] == Ran ==> RanExactlyOnce(s, c)
  {
  }

  /** Exit hand-off, for each callback of every run: it is lost exactly when its own runtime's
      start failed first, and otherwise it has run exactly once as soon as neither a stop nor
      the finalization of its runtime is pending. */
  lemma ExitHandOff(es: seq<Event>, c: nat)
    requires Valid(INIT, es) && c in Exec(INIT, es).fates
    ensures var s := Exec(INIT, es);
            && HandedOff(s, c)
            && (s.fates[c] == Lost <==> StartFailed(INIT, es, c))
            && (!StartFailed(INIT, es, c)
                && (s.fates[c].Waiting? ==> s.fates[c].rid !in s.finishing && s.fates[c].rid !in s.stops.Values)
                ==> RanExactlyOnce(s, c))
  {
    hide Inv, Apply, Enabled, HandedOff, RanExactlyOnce;
    assert Inv(INIT) by { InitInv(); }
    RunKeepsInv(INIT, es);
    LostRunIff(INIT, es, c);
    HandOffFromInv(Exec(INIT, es), c);
    if Exec(INIT, es).fates[c] != Lost { PendingOrRan(Exec(INIT, es), c); }
  }

  /** A wake issued from an exit callback of runtime rid: it starts a container exactly when the
      spawn that started rid has been cleared. Otherwise it joins that spawn, which is past
      its registration and starts nothing more. */
  lemma WakeFromCallback(es: seq<Event>, rid: nat)
    requires Valid(INIT, es) && Enabled(Exec(INIT, es), Finish(rid))
    ensures var s := Exec(INIT, es);
            var sid := s.runtimes[rid].sid;
            var outcome := WakeOutcomeOf(Apply(s, Finish(rid)), sid);
            && outcome != AlreadyRunning
            && (outcome == Spawning <==> sid !in s.wakes)
            && (outcome == Joined ==> s.wakes[sid] in s.spawns && s.spawns[s.wakes[sid]].phase != SettingUp
                                      && forall r :: !Enabled(Apply(s, Finish(rid)), Register(s.wakes[sid], r)))
  {
    RunKeepsInv(INIT, es);
    var s := Exec(INIT, es);
    var sid := s.runtimes[rid].sid;
    assert s.active[sid] == rid;
    if sid in s.wakes { assert PhaseOk(s.active, s.runtimes, s.spawns[s.wakes[sid]]); }
  }

  // --- The two exceptions happen ---

  lemma ThenStep(s: State, es: seq<Event>, e: Event)
    requires Valid(s, es) && Enabled(Exec(s, es), e)
    ensures Valid(s, es + [e]) && Exec(s, es + [e]) == Apply(Exec(s, es), e)
    decreases |es|
  {
    if es == [] {
      assert es + [e] == [e];
      assert Valid(Apply(s, e), []);
    } else {
      ThenStep(Apply(s, es[0]), es[1..], e);
      assert (es + [e])[1..] == es[1..] + [e];
    }
  }

  /** A session's first container, up and running. */
  lemma FirstContainer() returns (es: seq<Event>)
    ensures Valid(INIT, es)
    ensures Exec(INIT, es) == State(map[0 := 0], map[0 := 0], map[0 := Spawn(0, Starting(0))],
                                    map[0 := Runtime(0, Live, false, false, [])], {}, map[], map[], [], [])
  {
    es := [];
    ThenStep(INIT, es, Wake(0, 0));
    es := es + [Wake(0, 0)];
    ThenStep(INIT, es, Register(0, 0));
    es := es + [Register(0, 0)];
    assert Exec(INIT, es).spawns[0].phase == Starting(0);
    ThenStep(INIT, es, ContainerUp(0));
    es := es + [ContainerUp(0)];
  }

  /** When afterStart throws, the next wake starts a second container beside the
      first. */
  lemma TwoContainersAfterRecordThrows() returns (es: seq<Event>)
    ensures Valid(INIT, es)
    ensures var s := Exec(INIT, es);
            && 0 in s.runtimes && 1 in s.runtimes && s.runtimes[0].sid == s.runtimes[1].sid
            && s.runtimes[0].box == Live && s.runtimes[1].box == Live
  {
    es := FirstContainer();
    ThenStep(INIT, es, StartReturns(0));
    es := es + [StartReturns(0)];
    ThenStep(INIT, es, RecordThrows(0));
    es := es + [RecordThrows(0)];
    ThenStep(INIT, es, ClearWake(0));
    es := es + [ClearWake(0)];
    ThenStep(INIT, es, Wake(0, 1));
    es := es + [Wake(0, 1)];
    ThenStep(INIT, es, Register(1, 1));
    es := es + [Register(1, 1)];
    assert Exec(INIT, es).spawns[1].phase == Starting(1);
    ThenStep(INIT, es, ContainerUp(1));
    es := es + [ContainerUp(1)];
  }

  lemma DroppedWhileKilled() returns (es: seq<Event>)
    ensures Valid(INIT, es)
    ensures Exec(INIT, es) == State(map[], map[], map[], map[0 := Runtime(0, Dead, false, true, [])], {},
                                    map[0 := 0], map[], [], [])
  {
    es := [];
    ThenStep(INIT, es, Wake(0, 0));
    es := es + [Wake(0, 0)];
    ThenStep(INIT, es, Register(0, 0));
    es := es + [Register(0, 0)];
    ThenStep(INIT, es, Kill(0, 0, None));
    es := es + [Kill(0, 0, None)];
    ThenStep(INIT, es, StartThrows(0));
    es := es + [StartThrows(0)];
    ThenStep(INIT, es, ClearWake(0));
    es := es + [ClearWake(0)];
  }

  /** A container killed while its start fails is forgotten; its late stop report
      then finalizes the successor, whose container still runs. */
  lemma LateStopFinalizesSuccessor() returns (es: seq<Event>)
    ensures Valid(INIT, es)
    ensures var s := Exec(INIT, es);
            1 in s.runtimes && s.runtimes[1].box == Live && s.runtimes[1].finished
  {
    es := DroppedWhileKilled();
    ThenStep(INIT, es, Wake(0, 1));
    es := es + [Wake(0, 1)];
    ThenStep(INIT, es, Register(1, 1));
    es := es + [Register(1, 1)];
    assert Exec(INIT, es).spawns[1].phase == Starting(1);
    ThenStep(INIT, es, ContainerUp(1));
    es := es + [ContainerUp(1)];
    ThenStep(INIT, es, StopReports(0));
    es := es + [StopReports(0)];
  }

  lemma FirstHasStarted() returns (es: seq<Event>)
    ensures Valid(INIT, es)
    ensures Exec(INIT, es) == State(map[0 := 0], map[], map[], map[0 := Runtime(0, Live, false, false, [])], {},
                                    map[], map[], [], [])
  {
    es := FirstContainer();
    ThenStep(INIT, es, StartReturns(0));
    es := es + [StartReturns(0)];
    ThenStep(INIT, es, Recorded(0));
    es := es + [Recorded(0)];
    ThenStep(INIT, es, ClearWake(0));
    es := es + [ClearWake(0)];
  }

  /** The first container has died, been finalized and been cleared. */
  lemma FirstIsOver() returns (es: seq<Event>)
    ensures Valid(INIT, es)
    ensures Exec(INIT, es) == State(map[], map[], map[], map[0 := Runtime(0, Dead, true, true, [])], {}, map[], map[], [], [0])
  {
    es := FirstHasStarted();
    ThenStep(INIT, es, ContainerDies(0));
    es := es + [ContainerDies(0)];
    ThenStep(INIT, es, Terminal(0));
    es := es + [Terminal(0)];
    assert Exec(INIT, es).runtimes == map[0 := Runtime(0, Dead, true, false, [])];
    ThenStep(INIT, es, Finish(0));
    es := es + [Finish(0)];
    assert Fated(map[], [], Ran) == map[];
  }

  /** A second terminal event of a container that is over finalizes the successor as well. */
  lemma LateTerminalFinalizesSuccessor() returns (es: seq<Event>)
    ensures Valid(INIT, es)
    ensures var s := Exec(INIT, es);
            1 in s.runtimes && s.runtimes[1].box == Live && s.runtimes[1].finished
  {
    es := FirstIsOver();
    ThenStep(INIT, es, Wake(0, 1));
    es := es + [Wake(0, 1)];
    ThenStep(INIT, es, Register(1, 1));
    es := es + [Register(1, 1)];
    assert Exec(INIT, es).spawns[1].phase == Starting(1);
    ThenStep(INIT, es, ContainerUp(1));
    es := es + [ContainerUp(1)];
    ThenStep(INIT, es, Terminal(0));
    es := es + [Terminal(0)];
  }

  /** A container that dies during its own start: the wake from its exit callback joins the
      spawn that is ending, and no container follows. */
  lemma WakeJoinsDyingSpawn() returns (es: seq<Event>)
    ensures Valid(INIT, es) && Enabled(Exec(INIT, es), Finish(0))
    ensures var s := Exec(INIT, es);
            s.runtimes[0].callbacks == [7] && WakeOutcomeOf(Apply(s, Finish(0)), 0) == Joined
  {
    es := FirstContainer();
    ThenStep(INIT, es, Kill(0, 0, Some(7)));
    es := es + [Kill(0, 0, Some(7))];
    ThenStep(INIT, es, ContainerDies(0));
    es := es + [ContainerDies(0)];
    ThenStep(INIT, es, StopReports(0));
    es := es + [StopReports(0)];
  }
}
