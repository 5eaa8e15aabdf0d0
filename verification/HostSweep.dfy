/** src/host-sweep.ts: when a running container counts as stuck, and the retries of the
    messages that a crashed or killed one left claimed. Times are milliseconds. */
module HostSweep {
  import opened Prelude

  const ABSOLUTE_CEILING_MS := 30 * 60 * 1000
  const CLAIM_STUCK_MS := 60 * 1000
  const MAX_TRIES := 5
  const BACKOFF_BASE_MS := 5000

  function Max(a: int, b: int): int { if a >= b then a else b }

  function OrElse(x: Option<int>, d: int): int { if x.Some? then x.value else d }

  // ---- decideStuckAction ------------------------------------------------------

  /** at: the parsed claim time, None when it does not parse. */
  datatype Claim = Claim(id: string, at: Option<int>)

  datatype Decision =
    | Ok
    | KillCeiling(age: int, ceiling: int)
    | KillClaim(id: string, age: int, tolerance: int)

  /** bash: the declared timeout of a running Bash tool. */
  datatype Sighting = Sighting(heartbeat: int, startedAt: Option<int>, bash: Option<int>, claims: seq<Claim>)

  function LastSeen(s: Sighting): int {
    if s.heartbeat != 0 then s.heartbeat else OrElse(s.startedAt, 0)
  }

  function Ceiling(s: Sighting): int { Max(ABSOLUTE_CEILING_MS, OrElse(s.bash, 0)) }

  function Tolerance(s: Sighting): int { Max(CLAIM_STUCK_MS, OrElse(s.bash, 0)) }

  predicate TooOld(s: Sighting, now: int) {
    LastSeen(s) != 0 && now - LastSeen(s) > Ceiling(s)
  }

  /** Claimed longer ago than the tolerance, and no heartbeat since. */
  predicate Stuck(s: Sighting, now: int, c: Claim) {
    c.at.Some? && now - c.at.value > Tolerance(s) && s.heartbeat <= c.at.value
  }

  /** In numbers: silent for half an hour, or a message claimed for a minute with no heartbeat
      since; a declared Bash timeout stretches either limit. A container never seen has no age. */
  lemma KillRules(s: Sighting, now: int, c: Claim)
    ensures TooOld(s, now) <==>
            match (s.heartbeat, s.startedAt)
            case (0, None) => false
            case (0, Some(t)) => t != 0 && now - t > 1_800_000 && (s.bash.Some? ==> now - t > s.bash.value)
            case (beat, _) => now - beat > 1_800_000 && (s.bash.Some? ==> now - beat > s.bash.value)
    ensures Stuck(s, now, c) <==>
            match c.at
            case None => false
            case Some(t) => now - t > 60_000 && (s.bash.Some? ==> now - t > s.bash.value) && s.heartbeat <= t
  {
  }

  method DecideStuckAction(s: Sighting, now: int) returns (d: Decision)
    ensures d.KillCeiling? <==> TooOld(s, now)
    ensures d.KillCeiling? ==>
              && d.age == now - (if s.heartbeat != 0 then s.heartbeat else OrElse(s.startedAt, 0)) > d.ceiling >= 1_800_000
              && (d.ceiling == 1_800_000 || s.bash == Some(d.ceiling)) && (s.bash.Some? ==> d.ceiling >= s.bash.value)
    ensures d.KillClaim? <==> !TooOld(s, now) && exists i :: 0 <= i < |s.claims| && Stuck(s, now, s.claims[i])
    ensures d.KillClaim? ==>
              exists i :: 0 <= i < |s.claims| && Stuck(s, now, s.claims[i])
                          && (forall j :: 0 <= j < i ==> !Stuck(s, now, s.claims[j]))
                          && d == KillClaim(s.claims[i].id, now - s.claims[i].at.value, Tolerance(s))
  {
    var effective := if s.heartbeat != 0 then s.heartbeat else OrElse(s.startedAt, 0);
    if effective != 0 {
      var age := now - effective;
      var ceiling := Max(ABSOLUTE_CEILING_MS, OrElse(s.bash, 0));
      if age > ceiling { return KillCeiling(age, ceiling); }
    }
    var tolerance := Max(CLAIM_STUCK_MS, OrElse(s.bash, 0));
    var i := 0;
    while i < |s.claims|
      invariant i <= |s.claims| && !TooOld(s, now)
      invariant forall j :: 0 <= j < i ==> !Stuck(s, now, s.claims[j])
    {
      var c := s.claims[i];
      if c.at.Some? && now - c.at.value > tolerance && s.heartbeat <= c.at.value {
        assert Stuck(s, now, s.claims[i]);
        return KillClaim(c.id, now - c.at.value, tolerance);
      }
      i := i + 1;
    }
    return Ok;
  }

  predicate Kills(s: Sighting, now: int) {
    TooOld(s, now) || exists i :: 0 <= i < |s.claims| && Stuck(s, now, s.claims[i])
  }

  /** Silence only gets worse; a later heartbeat or a longer declared timeout never does. */
  lemma KillsIsMonotone(s: Sighting, s': Sighting, now: int, now': int)
    requires now <= now' && s'.claims == s.claims
    requires LastSeen(s) != 0 ==> LastSeen(s') != 0 && LastSeen(s') <= LastSeen(s)
    requires s'.heartbeat <= s.heartbeat && OrElse(s'.bash, 0) <= OrElse(s.bash, 0)
    requires Kills(s, now)
    ensures Kills(s', now')
  {
    if !TooOld(s, now) {
      var i :| 0 <= i < |s.claims| && Stuck(s, now, s.claims[i]);
      assert Stuck(s', now', s'.claims[i]);
    }
  }

  // ---- resetStuckProcessingRows -----------------------------------------------

  type Id = string

  datatype Status = Pending | Paused | Cancelled | Completed | Failed

  /** processAfter: the parsed time, None when it is NULL or does not parse. */
  datatype Msg = Msg(status: Status, tries: nat, processAfter: Option<int>)

  /** msgs and claims are the two databases. bumps and gaveUp record when a reset changed a
      message: the times of its retries, and whether it was then marked failed. moved records
      what a task edit made of process_after, under the number of retries before it. */
  datatype State = State(
    msgs: map<Id, Msg>,
    claims: seq<Id>,
    clock: int,
    bumps: map<Id, seq<int>>,
    gaveUp: map<Id, int>,
    moved: map<(Id, nat), Option<int>>)

  function Pow2(n: nat): (r: nat)
    ensures r > 0
  {
    if n == 0 then 1 else 2 * Pow2(n - 1)
  }

  function Backoff(tries: nat): int { BACKOFF_BASE_MS * Pow2(tries) }

  function BumpsOf(s: State, m: Id): seq<int> {
    if m in s.bumps then s.bumps[m] else []
  }

  predicate Effective(s: State, m: Id, now: int) {
    && m in s.msgs && s.msgs[m].status == Pending
    && (s.msgs[m].processAfter.Some? ==> s.msgs[m].processAfter.value <= now)
  }

  /** One claim: now is read before the loop, at when the row is written. */
  function ResetOne(s: State, m: Id, now: int, at: int): State {
    if !Effective(s, m, now) then s
    else
      var msg := s.msgs[m];
      if msg.tries >= MAX_TRIES then
        s.(msgs := s.msgs[m := msg.(status := Failed)], gaveUp := s.gaveUp[m := at])
      else
        s.(msgs := s.msgs[m := Msg(Pending, msg.tries + 1, Some(at + Backoff(msg.tries)))],
           bumps := s.bumps[m := BumpsOf(s, m) + [at]])
  }

  function ResetFrom(s: State, claims: seq<Id>, k: nat, now: int, times: seq<int>): State
    requires k <= |claims| == |times|
    decreases |claims| - k
  {
    if k == |claims| then s
    else ResetFrom(ResetOne(s, claims[k], now, times[k]), claims, k + 1, now, times)
  }

  /** Clock readings never go back. */
  predicate Ticks(from: int, times: seq<int>) {
    && (forall i :: 0 <= i < |times| ==> from <= times[i])
    && (forall i, j :: 0 <= i < j < |times| ==> times[i] <= times[j])
  }

  class SessionDbs {
    var msgs: map<Id, Msg>
    var claims: seq<Id>
    ghost var state: State

    ghost predicate Matches()
      reads this
    {
      state.msgs == msgs && state.claims == claims
    }

    constructor ()
      ensures Matches() && state == State(map[], [], 0, map[], map[], map[])
    {
      msgs, claims := map[], [];
      state := State(map[], [], 0, map[], map[], map[]);
    }

    method ResetStuckProcessingRows(now: int, times: seq<int>, deleteOk: bool)
      requires Matches() && |times| == |claims|
      modifies this
      ensures Matches()
      ensures state == ResetFrom(old(state), old(claims), 0, now, times).(claims := claims)
      ensures claims == if deleteOk then [] else old(claims)
    {
      var k := 0;
      while k < |claims|
        invariant k <= |claims| && claims == old(claims) && Matches()
        invariant ResetFrom(state, claims, k, now, times) == ResetFrom(old(state), claims, 0, now, times)
      {
        var m := claims[k];
        ghost var before := state;
        if m in msgs && msgs[m].status == Pending {
          var msg := msgs[m];
          if !(msg.processAfter.Some? && msg.processAfter.value > now) {
            if msg.tries >= MAX_TRIES {
              msgs := msgs[m := msg.(status := Failed)];
            } else {
              msgs := msgs[m := Msg(Pending, msg.tries + 1, Some(times[k] + Backoff(msg.tries)))];
            }
          }
        }
        state := ResetOne(state, m, now, times[k]);
        k := k + 1;
      }
      if deleteOk {
        claims := [];
        state := state.(claims := []);
      }
    }
  }

  // ---- Runs -------------------------------------------------------------------

  /** Insert: a new message. Claim: a container takes one. Ack: the sweep copies a result.
      Clear: a fresh container drops stale claims. Reset: one call of the function above. The
      rest are the edits of a scheduled task. */
  datatype Event =
    | Insert(m: Id, processAfter: Option<int>)
    | TakeClaim(m: Id)
    | Ack(m: Id, failed: bool)
    | Clear
    | Reset(now: int, times: seq<int>, deleteOk: bool)
    | Reschedule(m: Id, processAfter: Option<int>)
    | Pause(m: Id)
    | Resume(m: Id)
    | Cancel(m: Id)
    | Delete(m: Id)

  predicate InStatus(s: State, m: Id, statuses: set<Status>) {
    m in s.msgs && s.msgs[m].status in statuses
  }

  function SetStatus(s: State, m: Id, from: set<Status>, status: Status): State {
    if InStatus(s, m, from) then s.(msgs := s.msgs[m := s.msgs[m].(status := status)]) else s
  }

  ghost predicate Enabled(s: State, e: Event) {
    match e
    case Insert(m, _) => m !in s.msgs && m !in s.bumps && m !in s.gaveUp && forall i: nat :: (m, i) !in s.moved
    case Reset(now, times, _) => s.clock <= now && |times| == |s.claims| && Ticks(now, times)
    case _ => true
  }

  ghost function Apply(s: State, e: Event): State
    requires Enabled(s, e)
  {
    match e
    case Insert(m, after) => s.(msgs := s.msgs[m := Msg(Pending, 0, after)])
    case TakeClaim(m) => s.(claims := s.claims + [m])
    case Ack(m, failed) => SetStatus(s, m, {Pending, Paused, Cancelled}, if failed then Failed else Completed)
    case Clear => s.(claims := [])
    case Reset(now, times, deleteOk) =>
      var s1 := ResetFrom(s, s.claims, 0, now, times);
      s1.(claims := if deleteOk then [] else s.claims,
          clock := if times == [] then now else times[|times| - 1])
    case Reschedule(m, after) =>
      if InStatus(s, m, {Pending, Paused})
      then s.(msgs := s.msgs[m := s.msgs[m].(processAfter := after)], moved := s.moved[(m, s.msgs[m].tries) := after]) else s
    case Pause(m) => SetStatus(s, m, {Pending}, Paused)
    case Resume(m) => SetStatus(s, m, {Paused}, Pending)
    case Cancel(m) => SetStatus(s, m, {Pending, Paused}, Cancelled)
    case Delete(m) => s.(msgs := s.msgs - {m})
  }

  /** What an acknowledgement and the task edits make of a live message's status; one that is over
      stays as it is. */
  lemma StatusReads(s: State, m: Id, failed: bool)
    requires m in s.msgs
    ensures var was := s.msgs[m].status;
            var live := was == Pending || was == Paused || was == Cancelled;
            && Apply(s, Ack(m, failed)).msgs[m].status == (if !live then was else if failed then Failed else Completed)
            && Apply(s, Pause(m)).msgs[m].status == (if was == Pending then Paused else was)
            && Apply(s, Resume(m)).msgs[m].status == (if was == Paused then Pending else was)
            && Apply(s, Cancel(m)).msgs[m].status == (if was == Pending || was == Paused then Cancelled else was)
    ensures forall e :: e in {Ack(m, failed), Pause(m), Resume(m), Cancel(m)} ==>
              Apply(s, e) == s.(msgs := s.msgs[m := s.msgs[m].(status := Apply(s, e).msgs[m].status)])
  {
  }

  ghost predicate Valid(s: State, es: seq<Event>)
    decreases |es|, 0
  {
    es == [] || (Valid(s, es[..|es| - 1]) && Enabled(Exec(s, es[..|es| - 1]), es[|es| - 1]))
  }

  ghost function Exec(s: State, es: seq<Event>): State
    requires Valid(s, es)
    decreases |es|, 1
  {
    if es == [] then s else Apply(Exec(s, es[..|es| - 1]), es[|es| - 1])
  }

  const EMPTY: State := State(map[], [], 0, map[], map[], map[])

  /** When retry i may come at the earliest: a full backoff after the one before, unless the
      task was rescheduled in between. */
  function Due(b: seq<int>, moved: map<(Id, nat), Option<int>>, m: Id, i: nat): Option<int>
    requires 0 < i <= |b|
  {
    if (m, i) in moved then moved[(m, i)] else Some(b[i - 1] + Backoff(i - 1))
  }

  predicate NotBefore(due: Option<int>, at: int) {
    due.Some? ==> due.value <= at
  }

  /** Each retry comes after the one before, and when it was due. */
  predicate Spaced(b: seq<int>, moved: map<(Id, nat), Option<int>>, m: Id) {
    forall i :: 1 <= i < |b| ==> b[i - 1] <= b[i] && NotBefore(Due(b, moved, m, i), b[i])
  }

  /** What a message's history is like at time t, and what its row says of it. */
  predicate MsgOk(s: State, m: Id, t: int) {
    var b := BumpsOf(s, m);
    && |b| <= MAX_TRIES && Spaced(b, s.moved, m)
    && (b != [] ==> b[|b| - 1] <= t)
    && (forall k :: k in s.moved && k.0 == m ==> k.1 <= |b|)
    && (m in s.gaveUp ==> |b| == MAX_TRIES && b[MAX_TRIES - 1] <= s.gaveUp[m]
                          && NotBefore(Due(b, s.moved, m, MAX_TRIES), s.gaveUp[m]))
    && (m in s.msgs ==>
          && s.msgs[m].tries == |b|
          && (b != [] ==> s.msgs[m].processAfter == Due(b, s.moved, m, |b|))
          && (m in s.gaveUp ==> s.msgs[m].status == Failed))
  }

  ghost predicate Inv(s: State, t: int) {
    forall m {:trigger MsgOk(s, m, t)} :: MsgOk(s, m, t)
  }

  lemma SpacedMore(b: seq<int>, moved: map<(Id, nat), Option<int>>, m: Id, at: int)
    requires Spaced(b, moved, m)
    requires b != [] ==> b[|b| - 1] <= at && NotBefore(Due(b, moved, m, |b|), at)
    ensures Spaced(b + [at], moved, m)
  {
    hide Backoff;
    var b' := b + [at];
    forall i | 1 <= i < |b'| ensures b'[i - 1] <= b'[i] && NotBefore(Due(b', moved, m, i), b'[i]) {
      assert b'[i - 1] == b[i - 1];
      if i < |b| { assert b'[i] == b[i] && NotBefore(Due(b, moved, m, i), b[i]); }
    }
  }

  lemma ResetOneKeeps(s: State, m: Id, now: int, at: int, t: int, x: Id)
    requires MsgOk(s, x, t) && now <= at && t <= at
    ensures MsgOk(ResetOne(s, m, now, at), x, at)
  {
    hide Spaced;
    if Effective(s, m, now) && x == m && s.msgs[m].tries < MAX_TRIES {
      var b := BumpsOf(s, x);
      SpacedMore(b, s.moved, x, at);
      assert (x, |b + [at]|) !in s.moved;
      assert (b + [at])[|b|] == at;
    }
  }

  /** A reset keeps every row's story; the clock moves from t to the last write. */
  lemma {:induction false} ResetTail(s: State, claims: seq<Id>, k: nat, now: int, times: seq<int>, t: int)
    requires k < |claims| == |times| && Ticks(now, times) && Inv(s, t) && t <= times[k]
    ensures Inv(ResetFrom(s, claims, k, now, times), times[|times| - 1])
    decreases |claims| - k
  {
    hide MsgOk, ResetOne;
    var s' := ResetOne(s, claims[k], now, times[k]);
    forall x ensures MsgOk(s', x, times[k]) {
      assert MsgOk(s, x, t);
      ResetOneKeeps(s, claims[k], now, times[k], t, x);
    }
    if k + 1 < |claims| { ResetTail(s', claims, k + 1, now, times, times[k]); }
  }

  /** The clock and the claims are not part of a row's story. */
  lemma SameRow(s: State, s': State, m: Id, t: int)
    requires s'.msgs == s.msgs && s'.bumps == s.bumps && s'.gaveUp == s.gaveUp && s'.moved == s.moved && MsgOk(s, m, t)
    ensures MsgOk(s', m, t)
  {
    hide Spaced;
  }

  lemma ResetStepKeeps(s: State, e: Event)
    requires e.Reset? && Enabled(s, e) && Inv(s, s.clock)
    ensures Inv(Apply(s, e), Apply(s, e).clock)
  {
    var s' := Apply(s, e);
    if |e.times| > 0 {
      ResetTail(s, s.claims, 0, e.now, e.times, s.clock);
      var s1 := ResetFrom(s, s.claims, 0, e.now, e.times);
      hide MsgOk, ResetFrom;
      forall m ensures MsgOk(s', m, s'.clock) {
        assert MsgOk(s1, m, s'.clock);
        SameRow(s1, s', m, s'.clock);
      }
    } else {
      forall m ensures MsgOk(s', m, s'.clock) { assert MsgOk(s, m, s.clock); }
    }
  }

  lemma InsertKeeps(s: State, m: Id, after: Option<int>, x: Id)
    requires Enabled(s, Insert(m, after)) && MsgOk(s, x, s.clock)
    ensures MsgOk(Apply(s, Insert(m, after)), x, s.clock)
  {
    hide ResetFrom;
  }

  /** An edit of another message, or of the time after the last retry, leaves the past alone. */
  lemma SpacedStill(b: seq<int>, moved: map<(Id, nat), Option<int>>, x: Id, m: Id, k: nat, after: Option<int>)
    requires Spaced(b, moved, x) && (m != x || k >= |b|)
    ensures Spaced(b, moved[(m, k) := after], x)
    ensures forall i :: 0 < i <= |b| ==> Due(b, moved[(m, k) := after], x, i) == if m == x && i == k then after else Due(b, moved, x, i)
  {
    hide Backoff;
    var moved' := moved[(m, k) := after];
    forall i | 1 <= i < |b| ensures NotBefore(Due(b, moved', x, i), b[i]) {
      assert NotBefore(Due(b, moved, x, i), b[i]);
      assert (x, i) != (m, k);
    }
    forall i | 0 < i <= |b|
      ensures Due(b, moved', x, i) == if m == x && i == k then after else Due(b, moved, x, i)
    {
      assert (x, i) == (m, k) <==> m == x && i == k;
    }
  }

  lemma RescheduleKeeps(s: State, m: Id, after: Option<int>, x: Id)
    requires MsgOk(s, x, s.clock)
    ensures MsgOk(Apply(s, Reschedule(m, after)), x, s.clock)
  {
    hide ResetFrom, Spaced, Due, NotBefore;
    if InStatus(s, m, {Pending, Paused}) {
      SpacedStill(BumpsOf(s, x), s.moved, x, m, s.msgs[m].tries, after);
    }
  }

  lemma StatusKeeps(s: State, m: Id, from: set<Status>, status: Status, x: Id)
    requires MsgOk(s, x, s.clock) && Failed !in from
    ensures MsgOk(SetStatus(s, m, from, status), x, s.clock)
  {
    hide Spaced, Due;
  }

  lemma DeleteKeeps(s: State, m: Id, x: Id)
    requires MsgOk(s, x, s.clock)
    ensures MsgOk(s.(msgs := s.msgs - {m}), x, s.clock)
  {
    hide Spaced, Due;
  }

  lemma StepKeeps(s: State, e: Event)
    requires Enabled(s, e) && Inv(s, s.clock)
    ensures Inv(Apply(s, e), Apply(s, e).clock)
  {
    if e.Reset? {
      ResetStepKeeps(s, e);
    } else {
      var s' := Apply(s, e);
      hide MsgOk, ResetFrom, SetStatus;
      forall x ensures MsgOk(s', x, s'.clock) {
        assert MsgOk(s, x, s.clock);
        match e {
          case Insert(m, after) => InsertKeeps(s, m, after, x);
          case Ack(m, failed) =>
            StatusKeeps(s, m, {Pending, Paused, Cancelled}, if failed then Failed else Completed, x);
          case Reschedule(m, after) => RescheduleKeeps(s, m, after, x);
          case Pause(m) => StatusKeeps(s, m, {Pending}, Paused, x);
          case Resume(m) => StatusKeeps(s, m, {Paused}, Pending, x);
          case Cancel(m) => StatusKeeps(s, m, {Pending, Paused}, Cancelled, x);
          case Delete(m) => DeleteKeeps(s, m, x);
          case _ => SameRow(s, s', x, s.clock);
        }
        SameClock(s, e);
      }
    }
  }

  lemma SameClock(s: State, e: Event)
    requires Enabled(s, e) && !e.Reset?
    ensures Apply(s, e).clock == s.clock
  {
    hide ResetFrom;
  }

  lemma {:induction false} RunKeepsInv(es: seq<Event>)
    requires Valid(EMPTY, es)
    ensures Inv(Exec(EMPTY, es), Exec(EMPTY, es).clock)
    decreases |es|
  {
    hide Inv, Apply, Enabled;
    if es == [] {
      EmptyInv();
    } else {
      RunKeepsInv(es[..|es| - 1]);
      StepKeeps(Exec(EMPTY, es[..|es| - 1]), es[|es| - 1]);
    }
  }

  lemma EmptyInv()
    ensures Inv(EMPTY, EMPTY.clock)
  {
  }

  // ---- The bounds -------------------------------------------------------------

  /** Over every run, also when deleting the claims fails and whatever edits a task sees: at most
      five retries, none before it was due, and the row says when the next is. It is due a full
      backoff of 5 s times 2^n after the one before, unless the task was rescheduled since. */
  lemma RetriesBounded(es: seq<Event>, m: Id)
    requires Valid(EMPTY, es)
    ensures var s := Exec(EMPTY, es);
            var b := BumpsOf(s, m);
            && |b| <= 5
            && (forall i :: 1 <= i < |b| ==>
                  && b[i - 1] <= b[i] && NotBefore(Due(b, s.moved, m, i), b[i])
                  && ((m, i) !in s.moved ==> b[i] - b[i - 1] >= Backoff(i - 1)))
            && (m in s.msgs ==> s.msgs[m].tries == |b| && (b != [] ==> s.msgs[m].processAfter == Due(b, s.moved, m, |b|)))
  {
    hide Valid, Exec;
    RunKeepsInv(es);
    var s := Exec(EMPTY, es);
    assert MsgOk(s, m, s.clock);
    var b := BumpsOf(s, m);
    forall i | 1 <= i < |b| && (m, i) !in s.moved ensures b[i] - b[i - 1] >= Backoff(i - 1) {
      assert NotBefore(Due(b, s.moved, m, i), b[i]);
    }
  }

  /** An edit can cut a backoff short: a retry at 0 ms, the task put to now, the next at 1 ms. */
  lemma RescheduleCutsShort(m: Id)
    ensures exists es :: Valid(EMPTY, es) && BumpsOf(Exec(EMPTY, es), m) == [0, 1]
  {
    var e1 := [Insert(m, None)];
    var e2 := e1 + [TakeClaim(m)];
    var e3 := e2 + [Reset(0, [0], false)];
    var e4 := e3 + [Reschedule(m, Some(1))];
    var e5 := e4 + [Reset(1, [1], false)];
    assert Valid(EMPTY, []) && Exec(EMPTY, []) == EMPTY;
    Snoc([], Insert(m, None));
    assert [] + [Insert(m, None)] == e1;
    Snoc(e1, TakeClaim(m));
    var s2 := Exec(EMPTY, e2);
    assert s2.claims == [m] && s2.msgs == map[m := Msg(Pending, 0, None)];
    OneClaim(s2, m, 0, 0);
    Snoc(e2, Reset(0, [0], false));
    Snoc(e3, Reschedule(m, Some(1)));
    var s4 := Exec(EMPTY, e4);
    assert s4.claims == [m] && s4.msgs == map[m := Msg(Pending, 1, Some(1))] && BumpsOf(s4, m) == [0];
    OneClaim(s4, m, 1, 1);
    Snoc(e4, Reset(1, [1], false));
    assert BumpsOf(Exec(EMPTY, e5), m) == [0] + [1];
  }

  lemma Snoc(es: seq<Event>, e: Event)
    requires Valid(EMPTY, es) && Enabled(Exec(EMPTY, es), e)
    ensures Valid(EMPTY, es + [e]) && Exec(EMPTY, es + [e]) == Apply(Exec(EMPTY, es), e)
  {
    hide Enabled, Apply;
    assert (es + [e])[..|es|] == es;
  }

  lemma OneClaim(s: State, m: Id, now: int, at: int)
    ensures ResetFrom(s, [m], 0, now, [at]) == ResetOne(s, m, now, at)
  {
    hide ResetOne;
    assert ResetFrom(ResetOne(s, m, now, at), [m], 1, now, [at]) == ResetOne(s, m, now, at);
  }

  lemma Backoffs()
    ensures Backoff(0) == 5000 && Backoff(1) == 10000 && Backoff(2) == 20000 && Backoff(3) == 40000
            && Backoff(4) == 80000
  {
    assert Pow2(1) == 2 && Pow2(2) == 4;
    assert Pow2(3) == 8;
    assert Pow2(4) == 16;
  }

  /** A message is given up on its sixth effective reset, when that is due; 155 s or more after its
      first if it was not rescheduled in between. */
  lemma GivenUpAfter155Seconds(es: seq<Event>, m: Id)
    requires Valid(EMPTY, es) && m in Exec(EMPTY, es).gaveUp
    ensures var s := Exec(EMPTY, es);
            var b := BumpsOf(s, m);
            && |b| == 5 && (m in s.msgs ==> s.msgs[m].status == Failed)
            && b[4] <= s.gaveUp[m] && NotBefore(Due(b, s.moved, m, 5), s.gaveUp[m])
            && ((forall i :: 1 <= i <= 5 ==> (m, i) !in s.moved) ==> s.gaveUp[m] - b[0] >= 155_000)
  {
    hide Valid, Exec;
    RunKeepsInv(es);
    var s := Exec(EMPTY, es);
    assert MsgOk(s, m, s.clock);
    var b := BumpsOf(s, m);
    if forall i :: 1 <= i <= MAX_TRIES ==> (m, i) !in s.moved {
      RetriesBounded(es, m);
      Backoffs();
      assert b[1] - b[0] >= Backoff(0) && b[2] - b[1] >= Backoff(1) && b[3] - b[2] >= Backoff(2)
             && b[4] - b[3] >= Backoff(3);
    }
  }

  /** How many effective resets a message has left. */
  function Left(s: State, m: Id): int {
    MAX_TRIES + 1 - |BumpsOf(s, m)| - (if m in s.gaveUp then 1 else 0)
  }

  lemma LeftOfOne(s: State, k: Id, now: int, at: int, t: int, m: Id)
    requires MsgOk(s, m, t)
    ensures Left(ResetOne(s, k, now, at), m) == Left(s, m) - (if m == k && Effective(s, m, now) then 1 else 0)
  {
  }

  /** A reset of a claimed, due message leaves one fewer; it acts once however often the
      message is claimed, and on no other message. */
  lemma {:induction false} ResetUsesOne(s: State, claims: seq<Id>, k: nat, now: int, times: seq<int>, t: int, m: Id)
    requires k <= |claims| == |times| && Ticks(now, times) && Inv(s, t)
    requires forall i :: k <= i < |times| ==> t <= times[i]
    ensures var s' := ResetFrom(s, claims, k, now, times);
            && Left(s', m) == Left(s, m) - (if Effective(s, m, now) && m in claims[k..] then 1 else 0)
            && (!Effective(s, m, now) || m in claims[k..] ==> !Effective(s', m, now))
    decreases |claims| - k
  {
    hide MsgOk, Spaced;
    if k < |claims| {
      var s1 := ResetOne(s, claims[k], now, times[k]);
      assert MsgOk(s, m, t);
      LeftOfOne(s, claims[k], now, times[k], t, m);
      forall x ensures MsgOk(s1, x, times[k]) {
        assert MsgOk(s, x, t);
        ResetOneKeeps(s, claims[k], now, times[k], t, x);
      }
      ResetUsesOne(s1, claims, k + 1, now, times, times[k], m);
      OneIsEnough(s, claims[k], now, times[k], m);
      assert claims[k..] == [claims[k]] + claims[k + 1..];
    }
  }

  lemma OneIsEnough(s: State, k: Id, now: int, at: int, m: Id)
    requires now <= at
    ensures m == k ==> !Effective(ResetOne(s, k, now, at), m, now)
    ensures m != k ==> Effective(ResetOne(s, k, now, at), m, now) == Effective(s, m, now)
  {
  }

  /** Until its backoff has passed, no reset touches a retried message. */
  lemma NotBeforeBackoff(s: State, m: Id, now: int, at: int)
    requires m in s.msgs && s.msgs[m].processAfter.Some? && now < s.msgs[m].processAfter.value
    ensures ResetOne(s, m, now, at) == s
  {
  }

  /** Nothing but a reset moves a message's tries, and only a due message it has claimed. */
  lemma OnlyResetsRetry(s: State, e: Event, m: Id)
    requires Inv(s, s.clock) && Enabled(s, e) && m in s.msgs
    ensures var s' := Apply(s, e);
            (m in s'.msgs || e == Delete(m)) && (m in s'.msgs && s'.msgs[m].tries != s.msgs[m].tries ==>
              e.Reset? && m in s.claims && Effective(s, m, e.now) && s'.msgs[m].tries == s.msgs[m].tries + 1)
  {
    var s' := Apply(s, e);
    assert MsgOk(s, m, s.clock);
    StepKeeps(s, e);
    if e.Reset? {
      ResetUsesOne(s, s.claims, 0, e.now, e.times, s.clock, m);
      assert s.claims[0..] == s.claims;
      KeepsRow(s, s.claims, 0, e.now, e.times, m);
      assert MsgOk(s', m, s'.clock);
      assert Left(s', m) == Left(ResetFrom(s, s.claims, 0, e.now, e.times), m);
    } else {
      OthersKeepTries(s, e, m);
    }
    hide Spaced, Due, ResetFrom, Apply;
  }

  lemma OthersKeepTries(s: State, e: Event, m: Id)
    requires Enabled(s, e) && !e.Reset? && m in s.msgs
    ensures var s' := Apply(s, e); if e == Delete(m) then m !in s'.msgs else m in s'.msgs && s'.msgs[m].tries == s.msgs[m].tries
  {
    hide ResetFrom;
  }

  lemma {:induction false} KeepsRow(s: State, claims: seq<Id>, k: nat, now: int, times: seq<int>, m: Id)
    requires k <= |claims| == |times| && m in s.msgs
    ensures m in ResetFrom(s, claims, k, now, times).msgs
    decreases |claims| - k
  {
    if k < |claims| { KeepsRow(ResetOne(s, claims[k], now, times[k]), claims, k + 1, now, times, m); }
  }

  // ---- The order of one tick --------------------------------------------------

  /** What a tick found and did: whether it woke a container, killed it, reset its claims. */
  datatype Tick = Tick(woke: bool, killed: bool, reset: bool)

  /** Steps 2 to 4 of sweepSession; alive is read again after the wake, which may fail. */
  method SweepContainer(due: nat, running: bool, aliveAfter: bool, hasOutDb: bool, s: Sighting, now: int)
    returns (t: Tick)
    requires !(due > 0 && !running) ==> aliveAfter == running
    ensures t.woke <==> due > 0 && !running
    ensures t.killed <==> running && hasOutDb && Kills(s, now)
    ensures t.reset <==> hasOutDb && (!aliveAfter || t.killed)
    ensures t.woke ==> !t.killed
  {
    t := Tick(false, false, false);
    if due > 0 && !running { t := t.(woke := true); }
    if aliveAfter && hasOutDb && !t.woke {
      var d := DecideStuckAction(s, now);
      if d != Ok { t := t.(killed := true, reset := true); }
    }
    if !aliveAfter && hasOutDb { t := t.(reset := true); }
  }
}
