/** src/container-runner.ts between its awaits: the module's two maps and the runtime records,
    updated in place. Whatever order the event loop resumes the calls in, the object goes
    through a run of ContainerRunner's machine. */
module ContainerRegistry {
  import opened Prelude
  import opened ContainerRunner

  /** `spawns`, `finishing` and `stops` are what the suspended calls of spawnContainer, finish
      and killContainer hold; the rest is history. */
  class Runner {
    var activeContainers: map<nat, nat>
    var wakePromises: map<nat, nat>
    var runtimes: map<nat, Runtime>
    var spawns: map<nat, Spawn>
    var finishing: set<nat>
    var stops: map<nat, nat>
    ghost var fates: map<nat, Fate>
    ghost var ran: seq<(nat, bool)>
    ghost var finalized: seq<nat>

    constructor ()
      ensures Now() == INIT
    {
      activeContainers, wakePromises, runtimes := map[], map[], map[];
      spawns, finishing, stops, fates, ran, finalized := map[], {}, map[], map[], [], [];
    }

    ghost function Now(): State
      reads this
    {
      State(activeContainers, wakePromises, spawns, runtimes, finishing, stops, fates, ran, finalized)
    }

    method WakeContainer(sid: nat, sp: nat) returns (o: WakeOutcome)
      requires Enabled(Now(), Wake(sid, sp))
      modifies this
      ensures Now() == Apply(old(Now()), Wake(sid, sp)) && o == WakeOutcomeOf(old(Now()), sid)
    {
      if sid in activeContainers { return AlreadyRunning; }
      if sid in wakePromises { return Joined; }
      spawns := spawns[sp := Spawn(sid, SettingUp)];
      wakePromises := wakePromises[sid := sp];
      return Spawning;
    }

    method Suspend(sp: nat, phase: Phase)
      requires sp in spawns
      modifies `spawns
      ensures Now() == SetPhase(old(Now()), sp, phase)
    {
      spawns := spawns[sp := spawns[sp].(phase := phase)];
    }

    /** registerRuntime */
    method RegisterRuntime(sp: nat, rid: nat)
      requires Enabled(Now(), Register(sp, rid))
      modifies this
      ensures Now() == Apply(old(Now()), Register(sp, rid))
    {
      var sid := spawns[sp].sid;
      activeContainers := activeContainers[sid := rid];
      runtimes := runtimes[rid := NewRuntime(sid, NotStarted)];
      Suspend(sp, Starting(rid));
    }

    /** The catch block of spawnContainer. */
    method CatchArm(sp: nat, rid: nat)
      requires sp in spawns && rid in runtimes
      modifies this
      ensures Now() == CatchSpawn(old(Now()), sp, rid)
    {
      var rt := runtimes[rid];
      if rt.sid in activeContainers && activeContainers[rt.sid] == rid && !rt.finished {
        activeContainers := activeContainers - {rt.sid};
        runtimes := runtimes[rid := rt.(settled := true, callbacks := [])];
        fates := Fated(fates, rt.callbacks, Lost);
        Suspend(sp, Settled);
      } else {
        Suspend(sp, AwaitingFinish(rid));
      }
    }

    method SetBox(rid: nat, box: Container)
      requires rid in runtimes
      modifies `runtimes
      ensures runtimes == old(runtimes)[rid := old(runtimes)[rid].(box := box)]
    {
      runtimes := runtimes[rid := runtimes[rid].(box := box)];
    }

    /** finishAndResolve up to the first await of finish. */
    method BeginFinish(sid: nat)
      modifies this
      ensures Now() == FinishAndResolve(old(Now()), sid)
    {
      if sid !in activeContainers { return; }
      var rid := activeContainers[sid];
      if rid !in runtimes || runtimes[rid].finished { return; }
      runtimes := runtimes[rid := runtimes[rid].(finished := true)];
      finishing := finishing + {rid};
    }

    /** Every callback, in order; what they throw is caught. */
    method RunCallbacks(callbacks: seq<nat>, registered: bool)
      modifies `ran
      ensures ran == old(ran) + Tag(callbacks, registered)
    {
      var i := 0;
      while i < |callbacks|
        invariant i <= |callbacks| && ran == old(ran) + Tag(callbacks, registered)[..i]
      {
        ran := ran + [(callbacks[i], registered)];
        i := i + 1;
      }
      assert Tag(callbacks, registered)[..i] == Tag(callbacks, registered);
    }

    /** finish after its await: out of the registry, the callbacks, then resolveFinished. */
    method EndFinish(rid: nat)
      requires Enabled(Now(), Finish(rid))
      modifies this
      ensures Now() == Apply(old(Now()), Finish(rid))
    {
      hide Fated, Tag;
      var rt := runtimes[rid];
      if rt.sid in activeContainers && activeContainers[rt.sid] == rid {
        activeContainers := activeContainers - {rt.sid};
      }
      RunCallbacks(rt.callbacks, rt.sid in activeContainers);
      fates := Fated(fates, rt.callbacks, Ran);
      runtimes := runtimes[rid := rt.(settled := true, callbacks := [])];
      finishing := finishing - {rid};
      finalized := finalized + [rid];
    }

    method KillContainer(sid: nat, stop: nat, onExit: Option<nat>)
      requires Enabled(Now(), Kill(sid, stop, onExit))
      modifies this
      ensures Now() == Apply(old(Now()), Kill(sid, stop, onExit))
    {
      if sid !in activeContainers { return; }
      var rid := activeContainers[sid];
      if onExit.Some? {
        runtimes := runtimes[rid := runtimes[rid].(callbacks := runtimes[rid].callbacks + [onExit.value])];
        fates := fates[onExit.value := Waiting(rid)];
      }
      stops := stops[stop := rid];
    }

    /** stop() has settled, either way. */
    method StopSettled(stop: nat)
      requires Enabled(Now(), StopReports(stop))
      modifies this
      ensures Now() == Apply(old(Now()), StopReports(stop))
    {
      var entry := stops[stop];
      stops := stops - {stop};
      if !runtimes[entry].finished { BeginFinish(runtimes[entry].sid); }
    }

    method AdoptSession(sid: nat, rid: nat)
      requires Enabled(Now(), Adopt(sid, rid))
      modifies this
      ensures Now() == Apply(old(Now()), Adopt(sid, rid))
    {
      activeContainers := activeContainers[sid := rid];
      runtimes := runtimes[rid := NewRuntime(sid, Live)];
    }

    method Resume(e: Event)
      requires Enabled(Now(), e)
      modifies this
      ensures Now() == Apply(old(Now()), e)
    {
      match e {
        case Wake(sid, sp) => var _ := WakeContainer(sid, sp);
        case SetupEnds(sp) => Suspend(sp, Settled);
        case Register(sp, rid) => RegisterRuntime(sp, rid);
        case ContainerUp(rid) => SetBox(rid, Live);
        case ContainerDies(rid) => SetBox(rid, Dead);
        case StartReturns(sp) => Suspend(sp, Recording(spawns[sp].phase.rid));
        case StartThrows(sp) =>
          var rid := spawns[sp].phase.rid;
          SetBox(rid, Dead);
          CatchArm(sp, rid);
        case Recorded(sp) => Suspend(sp, Settled);
        case RecordThrows(sp) => CatchArm(sp, spawns[sp].phase.rid);
        case Unblock(sp) => Suspend(sp, Settled);
        case ClearWake(sp) =>
          wakePromises := wakePromises - {spawns[sp].sid};
          spawns := spawns - {sp};
        case Terminal(rid) => BeginFinish(runtimes[rid].sid);
        case Kill(sid, stop, onExit) => KillContainer(sid, stop, onExit);
        case StopReports(stop) => StopSettled(stop);
        case Finish(rid) => EndFinish(rid);
        case Adopt(sid, rid) => AdoptSession(sid, rid);
      }
    }

    /** The module's calls and the driver's reports, in any possible order. In the object's final
        state every kill callback has been handed off or is pending or was lost to its own
        runtime's failed start, each runtime finalized at most once, and a session of whose own
        events none went astray has one container at most. */
    method Interleave(es: seq<Event>)
      requires Now() == INIT && Valid(INIT, es)
      modifies this
      ensures Now() == Exec(INIT, es)
      ensures forall c :: c in fates ==> HandedOff(Now(), c) && (fates[c] == Lost <==> StartFailed(INIT, es, c))
      ensures NoRepeats(finalized)
      ensures forall sid :: Straight(INIT, es, sid) ==> OneLive(Now(), sid)
    {
      hide Apply, Enabled, HandedOff, OneLive, NoRepeats;
      var i := 0;
      while i < |es|
        invariant i <= |es| && Valid(Now(), es[i..]) && Exec(Now(), es[i..]) == Exec(INIT, es)
      {
        assert es[i..][0] == es[i] && es[i..][1..] == es[i + 1..];
        Resume(es[i]);
        i := i + 1;
      }
      FinalizedAtMostOnce(es);
      forall c | c in fates ensures HandedOff(Now(), c) && (fates[c] == Lost <==> StartFailed(INIT, es, c)) {
        ExitHandOff(es, c);
      }
      forall sid | Straight(INIT, es, sid) ensures OneLive(Now(), sid) { OneLiveRuntime(es, sid); }
    }
  }
}
