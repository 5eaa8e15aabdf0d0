/** Device-grant polling as in section 3.5 of RFC 8628: setup/registry-login.ts and its twin
    in scripts/photon-setup.ts. Times are milliseconds. */
module DeviceGrant {
  import opened Prelude

  const MAX_DEVICE_WAIT_MS := 900_000
  const SLOW_DOWN_STEP_MS := 5_000
  const TOO_MANY_STEP_MS := 10_000
  const MAX_POLL_TRANSPORT_FAILURES := 10
  const TIMEOUT_MAX_MS := 0x7fff_ffff

  /** What a request comes back with. Refused: any error that ends the wait; Odd: a status
      that only the twin waits out, as it does TooMany (429). */
  datatype Reply = Transport | Approved(token: bool) | Pending | SlowDown | TooMany | Refused | Odd

  datatype Client = Registry | Photon

  /** The world at one poll: how much longer the sleep and the request took. */
  datatype Poll = Poll(overslept: nat, took: nat, reply: Reply)

  datatype Request = Request(at: int, reply: Reply)

  datatype Outcome = Token | NoToken | TimedOut | LostContact | Ended

  predicate GoesOn(c: Client, r: Reply) {
    r == Transport || r == Pending || r == SlowDown || (c == Photon && (r == TooMany || r == Odd))
  }

  function Added(c: Client, r: Reply): nat {
    if r == SlowDown then SLOW_DOWN_STEP_MS else if c == Photon && r == TooMany then TOO_MANY_STEP_MS else 0
  }

  /** How much the interval has grown before request i. */
  function Grown(c: Client, log: seq<Request>, i: nat): nat
    requires i <= |log|
  {
    if i == 0 then 0 else Grown(c, log, i - 1) + Added(c, log[i - 1].reply)
  }

  function Previous(start: int, log: seq<Request>, i: nat): int
    requires i <= |log|
  {
    if i == 0 then start else log[i - 1].at
  }

  /** The gap before each request is at least the initial interval and all that was added. */
  predicate WellSpaced(c: Client, start: int, initial: int, log: seq<Request>) {
    forall i {:trigger log[i]} :: 0 <= i < |log| ==>
      log[i].at - Previous(start, log, i) >= initial + Grown(c, log, i)
  }

  /** The least time that n requests take. */
  function Least(c: Client, initial: int, log: seq<Request>, n: nat): int
    requires n <= |log|
  {
    if n == 0 then 0 else Least(c, initial, log, n - 1) + initial + Grown(c, log, n - 1)
  }

  /** How many transport failures the log ends with. */
  function Trailing(log: seq<Request>): nat {
    if log == [] || log[|log| - 1].reply != Transport then 0 else 1 + Trailing(log[..|log| - 1])
  }

  /** setTimeout: a delay below a millisecond or above 2^31-1 of them becomes one millisecond. */
  function Nap(interval: int): int { if 1 <= interval <= TIMEOUT_MAX_MS then interval else 1 }

  function Min(a: int, b: int): int { if a <= b then a else b }

  function InitialMs(interval: Option<int>): int {
    1000 * (if interval.Some? then (if interval.value > 1 then interval.value else 1) else 5)
  }

  function WindowMs(expiresIn: Option<int>): int {
    Min(1000 * (if expiresIn.Some? then expiresIn.value else 300), MAX_DEVICE_WAIT_MS)
  }

  lemma {:induction false} GrownPrefix(c: Client, log: seq<Request>, r: Request, i: nat)
    requires i <= |log|
    ensures Grown(c, log + [r], i) == Grown(c, log, i)
  {
    if i > 0 { GrownPrefix(c, log, r, i - 1); }
  }

  lemma LeastPrefix(c: Client, initial: int, log: seq<Request>, r: Request, n: nat)
    requires n <= |log|
    ensures Least(c, initial, log + [r], n) == Least(c, initial, log, n)
  {
    if n > 0 {
      LeastPrefix(c, initial, log, r, n - 1);
      GrownPrefix(c, log, r, n - 1);
    }
  }

  lemma WellSpacedSnoc(c: Client, start: int, initial: int, log: seq<Request>, r: Request)
    requires WellSpaced(c, start, initial, log)
    requires r.at - Previous(start, log, |log|) >= initial + Grown(c, log, |log|)
    ensures WellSpaced(c, start, initial, log + [r])
  {
    forall i | 0 <= i < |log + [r]|
      ensures (log + [r])[i].at - Previous(start, log + [r], i) >= initial + Grown(c, log + [r], i)
    {
      GrownPrefix(c, log, r, i);
      if i < |log| { assert (log + [r])[i] == log[i]; }
    }
  }

  lemma TrailingSnoc(log: seq<Request>, r: Request)
    ensures Trailing(log + [r]) == if r.reply == Transport then 1 + Trailing(log) else 0
  {
    assert (log + [r])[..|log|] == log;
  }

  /** Every request but the last fell due inside the window, and none came too early. */
  predicate Timely(c: Client, start: int, initial: int, window: int, log: seq<Request>) {
    && (|log| > 0 ==> Least(c, initial, log, |log| - 1) < window)
    && Previous(start, log, |log|) - start >= Least(c, initial, log, |log|)
  }

  /** Everything a log of either loop satisfies: its spacing, its span, and that only its last
      reply can end the wait. */
  predicate Story(c: Client, start: int, initial: int, window: int, log: seq<Request>) {
    && WellSpaced(c, start, initial, log)
    && Timely(c, start, initial, window, log)
    && forall i :: 0 <= i < |log| - 1 ==> GoesOn(c, log[i].reply)
  }

  lemma TimelySnoc(c: Client, start: int, initial: int, window: int, log: seq<Request>, r: Request, now: int)
    requires Timely(c, start, initial, window, log)
    requires Previous(start, log, |log|) <= now < start + window
    requires r.at >= now + initial + Grown(c, log, |log|)
    ensures Timely(c, start, initial, window, log + [r])
  {
    LeastPrefix(c, initial, log, r, |log|);
    GrownPrefix(c, log, r, |log|);
    hide Grown;
    var l := log + [r];
    assert |l| == |log| + 1 && l[|log|] == r;
    assert Least(c, initial, l, |l|) == Least(c, initial, log, |log|) + initial + Grown(c, log, |log|);
  }

  lemma StorySnoc(c: Client, start: int, initial: int, window: int, log: seq<Request>, r: Request, now: int)
    requires Story(c, start, initial, window, log)
    requires forall i :: 0 <= i < |log| ==> GoesOn(c, log[i].reply)
    requires Previous(start, log, |log|) <= now < start + window
    requires r.at >= now + initial + Grown(c, log, |log|)
    ensures Story(c, start, initial, window, log + [r])
  {
    WellSpacedSnoc(c, start, initial, log, r);
    TimelySnoc(c, start, initial, window, log, r, now);
    hide WellSpaced, Timely, Grown;
    forall i | 0 <= i < |log + [r]| - 1 ensures GoesOn(c, (log + [r])[i].reply) { assert (log + [r])[i] == log[i]; }
  }

  /** Still polling: the state of either loop at its head. */
  predicate Running(c: Client, start: int, initial: int, window: int, log: seq<Request>, intervalMs: int, now: int) {
    && Story(c, start, initial, window, log)
    && (forall i :: 0 <= i < |log| ==> GoesOn(c, log[i].reply))
    && intervalMs == initial + Grown(c, log, |log|)
    && Previous(start, log, |log|) <= now
  }

  lemma RunningAtFirst(c: Client, start: int, initial: int, window: int)
    ensures Running(c, start, initial, window, [], initial, start)
  {
  }

  /** One request: the log it ends or goes on with. */
  lemma Turn(c: Client, start: int, initial: int, window: int, log: seq<Request>, intervalMs: int, now: int,
             r: Request, later: int)
    requires Running(c, start, initial, window, log, intervalMs, now) && now < start + window
    requires now + intervalMs <= r.at <= later
    ensures Story(c, start, initial, window, log + [r])
    ensures GoesOn(c, r.reply) ==>
              Running(c, start, initial, window, log + [r], intervalMs + Added(c, r.reply), later)
  {
    hide WellSpaced, Least;
    StorySnoc(c, start, initial, window, log, r, now);
    GrownPrefix(c, log, r, |log|);
    hide Story;
    forall i | 0 <= i < |log + [r]|
      ensures GoesOn(c, r.reply) ==> GoesOn(c, (log + [r])[i].reply)
    {
      if i < |log| { assert (log + [r])[i] == log[i]; }
    }
  }

  lemma RunningIsStory(c: Client, start: int, initial: int, window: int, log: seq<Request>, intervalMs: int, now: int)
    requires Running(c, start, initial, window, log, intervalMs, now)
    ensures Story(c, start, initial, window, log)
    ensures forall i :: 0 <= i < |log| ==> GoesOn(c, log[i].reply)
  {
  }

  /** No run of transport failures before the end was too long. */
  predicate InTouch(log: seq<Request>) {
    forall k :: 0 <= k < |log| ==> Trailing(log[..k]) <= MAX_POLL_TRANSPORT_FAILURES
  }

  lemma InTouchSnoc(log: seq<Request>, r: Request)
    requires InTouch(log) && Trailing(log) <= MAX_POLL_TRANSPORT_FAILURES
    ensures InTouch(log + [r])
    ensures Trailing(log + [r]) == if r.reply == Transport then 1 + Trailing(log) else 0
  {
    TrailingSnoc(log, r);
    forall k | 0 <= k < |log + [r]| ensures Trailing((log + [r])[..k]) <= MAX_POLL_TRANSPORT_FAILURES {
      assert (log + [r])[..k] == log[..k];
      if k == |log| { assert log[..k] == log; }
    }
  }

  // ---- The requests of a run --------------------------------------------------

  /** The reply ends the wait, or it is the registry's eleventh transport failure in a row. */
  predicate Stops(c: Client, reply: Reply, failures: nat) {
    !GoesOn(c, reply) || (c == Registry && reply == Transport && failures + 1 > MAX_POLL_TRANSPORT_FAILURES)
  }

  function Failures(reply: Reply, failures: nat): nat {
    if reply == Transport then failures + 1 else 0
  }

  /** What the loop requests from poll n on. */
  function Polls(c: Client, interval: int, now: int, deadline: int, n: nat, failures: nat, env: nat -> Poll): seq<Request>
    decreases deadline - now
  {
    if now >= deadline then []
    else
      var poll := env(n);
      var at := now + Nap(interval) + poll.overslept;
      [Request(at, poll.reply)]
      + if Stops(c, poll.reply, failures) then []
        else Polls(c, interval + Added(c, poll.reply), at + poll.took, deadline, n + 1, Failures(poll.reply, failures), env)
  }

  function Asked(interval: int, now: int, poll: Poll): Request {
    Request(now + Nap(interval) + poll.overslept, poll.reply)
  }

  function Rest(c: Client, interval: int, now: int, deadline: int, n: nat, failures: nat, env: nat -> Poll): seq<Request>
    requires now < deadline
  {
    var poll := env(n);
    if Stops(c, poll.reply, failures) then []
    else
      Polls(c, interval + Added(c, poll.reply), Asked(interval, now, poll).at + poll.took, deadline, n + 1,
            Failures(poll.reply, failures), env)
  }

  lemma PollsStep(c: Client, interval: int, now: int, deadline: int, n: nat, failures: nat, env: nat -> Poll)
    requires now < deadline
    ensures Polls(c, interval, now, deadline, n, failures, env)
         == [Asked(interval, now, env(n))] + Rest(c, interval, now, deadline, n, failures, env)
  {
    hide GoesOn, Nap, Added;
  }

  lemma PollsEnd(c: Client, interval: int, now: int, deadline: int, n: nat, failures: nat, env: nat -> Poll)
    requires now >= deadline
    ensures Polls(c, interval, now, deadline, n, failures, env) == []
  {
  }

  lemma RestIs(c: Client, interval: int, now: int, deadline: int, n: nat, failures: nat, env: nat -> Poll)
    requires now < deadline
    ensures Rest(c, interval, now, deadline, n, failures, env)
         == if Stops(c, env(n).reply, failures) then []
            else Polls(c, interval + Added(c, env(n).reply), now + Nap(interval) + env(n).overslept + env(n).took, deadline, n + 1,
                       Failures(env(n).reply, failures), env)
  {
  }

  // ---- When the spacing holds -------------------------------------------------

  function Wait(x: int): int { if x >= 1 then x else 1 }

  /** The soonest that the interval can have grown by m steps of 5 s. */
  function Soonest(c: Client, initial: int, m: nat): int {
    if m == 0 then 0
    else if c == Registry then Soonest(c, initial, m - 1) + Wait(initial + (m - 1) * SLOW_DOWN_STEP_MS)
    else if m == 1 then Wait(initial)
    else Soonest(c, initial, m - 2) + Wait(initial + (m - 2) * SLOW_DOWN_STEP_MS)
  }

  /** The steps after which the interval is more than setTimeout takes. */
  function StepsOver(initial: int): nat {
    if initial > TIMEOUT_MAX_MS then 0 else (TIMEOUT_MAX_MS - initial) / SLOW_DOWN_STEP_MS + 1
  }

  function Steps(c: Client, r: Reply): nat { Added(c, r) / SLOW_DOWN_STEP_MS }

  /** One more step, or two at once, take at most one more wait. */
  lemma {:induction false} SoonestGrows(c: Client, initial: int, m: nat)
    ensures 0 <= Soonest(c, initial, m + 1) - Soonest(c, initial, m) <= Wait(initial + m * SLOW_DOWN_STEP_MS)
  {
    if c == Photon && m >= 2 { SoonestGrows(c, initial, m - 2); }
  }

  lemma {:induction false} SoonestMonotone(c: Client, initial: int, m: nat, k: nat)
    requires m <= k
    ensures Soonest(c, initial, m) <= Soonest(c, initial, k)
    decreases k - m
  {
    if m < k {
      SoonestMonotone(c, initial, m, k - 1);
      SoonestGrows(c, initial, k - 1);
    }
  }

  lemma NextSoonest(c: Client, initial: int, m: nat, r: Reply)
    ensures Soonest(c, initial, m + Steps(c, r)) <= Soonest(c, initial, m) + Wait(initial + m * SLOW_DOWN_STEP_MS)
  {
    SoonestGrows(c, initial, m);
  }

  lemma OverIff(initial: int, m: nat)
    ensures initial + m * SLOW_DOWN_STEP_MS > TIMEOUT_MAX_MS <==> m >= StepsOver(initial)
  {
  }

  /** No interval that the window leaves time to reach is too long for setTimeout. */
  predicate InReach(c: Client, initial: int, window: int) {
    window <= Soonest(c, initial, StepsOver(initial))
  }

  /** From any point of a run whose window is in reach: the whole log keeps its story. */
  lemma {:induction false} PollsStory(c: Client, initial: int, window: int, start: int, pre: seq<Request>, m: nat, now: int,
                                      n: nat, failures: nat, env: nat -> Poll)
    requires InReach(c, initial, window)
    requires Running(c, start, initial, window, pre, initial + m * SLOW_DOWN_STEP_MS, now)
    requires now - start >= Soonest(c, initial, m)
    ensures Story(c, start, initial, window,
                  pre + Polls(c, initial + m * SLOW_DOWN_STEP_MS, now, start + window, n, failures, env))
    decreases start + window - now
  {
    hide Story, Soonest, InReach, StepsOver, Polls, Running;
    var interval, deadline := initial + m * SLOW_DOWN_STEP_MS, start + window;
    if now >= deadline {
      RunningIsStory(c, start, initial, window, pre, interval, now);
      PollsEnd(c, interval, now, deadline, n, failures, env);
      assert pre + [] == pre;
    } else {
      PollsStep(c, interval, now, deadline, n, failures, env);
      var poll := env(n);
      var r := Asked(interval, now, poll);
      var later := r.at + poll.took;
      InReachNap(c, initial, window, m, now - start);
      NextSoonest(c, initial, m, poll.reply);
      assert r.at >= now + Wait(interval);
      Turn(c, start, initial, window, pre, interval, now, r, later);
      var m' := m + Steps(c, poll.reply);
      assert interval + Added(c, poll.reply) == initial + m' * SLOW_DOWN_STEP_MS;
      hide Nap, Wait, GoesOn;
      var rest := Rest(c, interval, now, deadline, n, failures, env);
      Regroup(pre, r, rest);
      if Stops(c, poll.reply, failures) {
        assert pre + [r] + [] == pre + [r];
      } else {
        PollsStory(c, initial, window, start, pre + [r], m', later, n + 1, Failures(poll.reply, failures), env);
      }
    }
  }

  lemma InReachNap(c: Client, initial: int, window: int, m: nat, elapsed: int)
    requires InReach(c, initial, window) && Soonest(c, initial, m) <= elapsed < window
    ensures Nap(initial + m * SLOW_DOWN_STEP_MS) == Wait(initial + m * SLOW_DOWN_STEP_MS)
  {
    OverIff(initial, m);
    if m >= StepsOver(initial) { SoonestMonotone(c, initial, StepsOver(initial), m); }
  }

  /** The world that drives the interval up as fast as it goes: no time lost, and the longest
      steps, after one short one if their number is odd. */
  function Fastest(c: Client, m: nat): nat -> Poll {
    n => Poll(0, 0, if c == Registry || (m % 2 == 1 && n == 0) then SlowDown else TooMany)
  }

  lemma {:induction false} GrownAlong(c: Client, log: seq<Request>, more: seq<Request>, i: nat)
    requires i <= |log|
    ensures Grown(c, log + more, i) == Grown(c, log, i)
  {
    if i > 0 { GrownAlong(c, log, more, i - 1); }
  }

  /** At the first interval that is too long the next request comes a millisecond later. */
  lemma TooSoon(c: Client, initial: int, window: int, start: int, pre: seq<Request>, m: nat, n: nat, env: nat -> Poll)
    requires m >= StepsOver(initial) && Soonest(c, initial, m) < window && env(n).overslept == 0
    requires Previous(start, pre, |pre|) == start + Soonest(c, initial, m)
    requires Grown(c, pre, |pre|) == m * SLOW_DOWN_STEP_MS
    ensures !WellSpaced(c, start, initial,
                        pre + Polls(c, initial + m * SLOW_DOWN_STEP_MS, start + Soonest(c, initial, m), start + window, n, 0, env))
  {
    OverIff(initial, m);
    var now, interval := start + Soonest(c, initial, m), initial + m * SLOW_DOWN_STEP_MS;
    var rest := Polls(c, interval, now, start + window, n, 0, env);
    var log := pre + rest;
    assert rest[0].at == now + 1;
    GrownAlong(c, pre, rest, |pre|);
    assert log[|pre|] == rest[0];
    assert |pre| > 0 ==> log[|pre| - 1] == pre[|pre| - 1];
    assert log[|pre|].at - Previous(start, log, |pre|) == 1;
  }

  /** Along the fastest world. */
  lemma {:induction false} FastestOverruns(c: Client, initial: int, window: int, start: int, pre: seq<Request>, m: nat)
    requires var over := StepsOver(initial);
             && m <= over && Soonest(c, initial, over) < window
             && (c == Photon ==> if |pre| == 0 then m == 0 else (over - m) % 2 == 0)
    requires Previous(start, pre, |pre|) == start + Soonest(c, initial, m)
    requires Grown(c, pre, |pre|) == m * SLOW_DOWN_STEP_MS
    ensures !WellSpaced(c, start, initial,
                        pre + Polls(c, initial + m * SLOW_DOWN_STEP_MS, start + Soonest(c, initial, m), start + window, |pre|, 0,
                                    Fastest(c, StepsOver(initial))))
    decreases StepsOver(initial) - m
  {
    hide Soonest, StepsOver, WellSpaced, Polls, Fastest;
    var over := StepsOver(initial);
    var env := Fastest(c, over);
    SoonestMonotone(c, initial, m, over);
    if m == over {
      assert env(|pre|).overslept == 0 by { FastestLosesNoTime(c, over, |pre|); }
      TooSoon(c, initial, window, start, pre, m, |pre|, env);
    } else {
      var now, interval := start + Soonest(c, initial, m), initial + m * SLOW_DOWN_STEP_MS;
      var poll := env(|pre|);
      var r := Asked(interval, now, poll);
      var m' := m + Steps(c, poll.reply);
      FastStep(c, initial, m, |pre|);
      GrownAlong(c, pre, [r], |pre|);
      assert (pre + [r])[|pre|] == r;
      hide Nap;
      FastestOverruns(c, initial, window, start, pre + [r], m');
      PollsStep(c, interval, now, start + window, |pre|, 0, env);
      Regroup(pre, r, Rest(c, interval, now, start + window, |pre|, 0, env));
    }
  }

  lemma FastestLosesNoTime(c: Client, m: nat, n: nat)
    ensures Fastest(c, m)(n).overslept == 0
  {
  }

  lemma FastStep(c: Client, initial: int, m: nat, n: nat)
    requires var over := StepsOver(initial);
             m < over && (c == Photon ==> if n == 0 then m == 0 else (over - m) % 2 == 0)
    ensures var over := StepsOver(initial);
            var poll := Fastest(c, over)(n);
            var m' := m + Steps(c, poll.reply);
            && poll.overslept == 0 && poll.took == 0 && GoesOn(c, poll.reply) && poll.reply != Transport
            && m < m' <= over && (c == Photon ==> (over - m') % 2 == 0)
            && Soonest(c, initial, m') == Soonest(c, initial, m) + Nap(initial + m * SLOW_DOWN_STEP_MS)
            && Added(c, poll.reply) == Steps(c, poll.reply) * SLOW_DOWN_STEP_MS
  {
    OverIff(initial, m);
    hide StepsOver, Soonest;
    FastReply(c, m, StepsOver(initial), n);
    SoonestTwo(c, initial, m);
  }

  lemma FastReply(c: Client, m: nat, over: nat, n: nat)
    requires m < over && (c == Photon ==> if n == 0 then m == 0 else (over - m) % 2 == 0)
    ensures var poll := Fastest(c, over)(n);
            && poll.overslept == 0 && poll.took == 0 && GoesOn(c, poll.reply) && poll.reply != Transport
            && Added(c, poll.reply) == Steps(c, poll.reply) * SLOW_DOWN_STEP_MS
            && (c == Photon ==> (over - m - Steps(c, poll.reply)) % 2 == 0)
            && Steps(c, poll.reply) == (if c == Registry || (m == 0 && n == 0 && over % 2 == 1) then 1 else 2)
            && m + Steps(c, poll.reply) <= over
  {
  }

  lemma SoonestTwo(c: Client, initial: int, m: nat)
    ensures c == Registry ==> Soonest(c, initial, m + 1) == Soonest(c, initial, m) + Wait(initial + m * SLOW_DOWN_STEP_MS)
    ensures c == Photon ==> Soonest(c, initial, m + 2) == Soonest(c, initial, m) + Wait(initial + m * SLOW_DOWN_STEP_MS)
    ensures m == 0 ==> Soonest(c, initial, 1) == Soonest(c, initial, 0) + Wait(initial)
  {
  }

  ghost predicate SpacedRun(c: Client, initial: int, window: int, start: int, env: nat -> Poll) {
    WellSpaced(c, start, initial, Polls(c, initial, start, start + window, 0, 0, env))
  }

  /** The spacing holds in every world exactly when the window ends before the interval can have
      grown past what setTimeout takes. */
  lemma SpacingIff(c: Client, initial: int, window: int)
    ensures (forall start: int, env: nat -> Poll {:trigger SpacedRun(c, initial, window, start, env)} ::
               SpacedRun(c, initial, window, start, env))
            <==> InReach(c, initial, window)
  {
    hide WellSpaced, Polls, Soonest, StepsOver;
    assert Soonest(c, initial, 0) == 0 by { SoonestStart(c, initial); }
    if InReach(c, initial, window) {
      forall start: int, env: nat -> Poll ensures SpacedRun(c, initial, window, start, env) {
        StoryOfPolls(c, initial, window, start, env);
      }
    } else {
      var env := Fastest(c, StepsOver(initial));
      SoonestMonotone(c, initial, 0, StepsOver(initial));
      FastestOverruns(c, initial, window, 0, [], 0);
      assert [] + Polls(c, initial, 0, window, 0, 0, env) == Polls(c, initial, 0, window, 0, 0, env);
      assert !SpacedRun(c, initial, window, 0, env);
    }
  }

  lemma SoonestStart(c: Client, initial: int)
    ensures Soonest(c, initial, 0) == 0
  {
  }

  lemma StoryOfPolls(c: Client, initial: int, window: int, start: int, env: nat -> Poll)
    requires InReach(c, initial, window)
    ensures Story(c, start, initial, window, Polls(c, initial, start, start + window, 0, 0, env))
  {
    RunningAtFirst(c, start, initial, window);
    SoonestStart(c, initial);
    hide Story, Running, Polls, Soonest, InReach;
    PollsStory(c, initial, window, start, [], 0, start, 0, 0, env);
    assert [] + Polls(c, initial, start, start + window, 0, 0, env) == Polls(c, initial, start, start + window, 0, 0, env);
  }

  lemma LastWait(initial: int, over: nat)
    requires over > 0 && initial + over * SLOW_DOWN_STEP_MS > TIMEOUT_MAX_MS
    requires Soonest(Registry, initial, over - 1) >= 0
    ensures Soonest(Registry, initial, over) >= MAX_DEVICE_WAIT_MS
  {
    assert initial + (over - 1) * SLOW_DOWN_STEP_MS > MAX_DEVICE_WAIT_MS;
  }

  /** For the registry, whose window is capped: exactly when the first interval is not too long,
      up to 2147483 s, or there is no window at all. */
  lemma RegistryInReachIff(interval: Option<int>, expiresIn: Option<int>)
    ensures InReach(Registry, InitialMs(interval), WindowMs(expiresIn)) <==>
            InitialMs(interval) <= TIMEOUT_MAX_MS || WindowMs(expiresIn) <= 0
  {
    var initial, over := InitialMs(interval), StepsOver(InitialMs(interval));
    RegistryBounds(interval, expiresIn);
    OverIff(initial, 0);
    assert over == 0 <==> initial > TIMEOUT_MAX_MS;
    assert Soonest(Registry, initial, 0) == 0;
    if over > 0 {
      OverIff(initial, over);
      hide StepsOver, InitialMs, WindowMs;
      SoonestMonotone(Registry, initial, 0, over - 1);
      LastWait(initial, over);
    }
  }

  /** Beyond it a provider that answers at once is asked every millisecond. */
  lemma {:induction false} TooLongFloods(c: Client, interval: int, now: int, deadline: int, n: nat)
    requires interval > TIMEOUT_MAX_MS && now <= deadline
    ensures |Polls(c, interval, now, deadline, n, 0, _ => Poll(0, 0, Pending))| == deadline - now
    decreases deadline - now
  {
    if now < deadline { TooLongFloods(c, interval, now + 1, deadline, n + 1); }
  }

  /** The last reply, None before any. */
  function Last(log: seq<Request>): Option<Reply> {
    if log == [] then None else Some(log[|log| - 1].reply)
  }

  /** The replies are the world's, in order. */
  predicate Answered(log: seq<Request>, env: nat -> Poll) {
    forall i :: 0 <= i < |log| ==> log[i].reply == env(i).reply
  }

  predicate AllGoOn(c: Client, log: seq<Request>) {
    forall i :: 0 <= i < |log| ==> GoesOn(c, log[i].reply)
  }

  // ---- The loops, turn by turn ------------------------------------------------

  /** log has been asked and answered, none of it ends the wait, and the rest of whole is to come. */
  predicate Asking(c: Client, whole: seq<Request>, log: seq<Request>, interval: int, now: int, deadline: int, failures: nat,
                   env: nat -> Poll) {
    && whole == log + Polls(c, interval, now, deadline, |log|, failures, env)
    && Answered(log, env) && AllGoOn(c, log)
  }

  lemma AskingAtFirst(c: Client, interval: int, start: int, deadline: int, env: nat -> Poll)
    ensures Asking(c, Polls(c, interval, start, deadline, 0, 0, env), [], interval, start, deadline, 0, env)
  {
  }

  /** One more request: the log goes on, or it is whole. */
  lemma AskOn(c: Client, whole: seq<Request>, log: seq<Request>, interval: int, now: int, deadline: int, failures: nat,
              env: nat -> Poll)
    requires Asking(c, whole, log, interval, now, deadline, failures, env) && now < deadline
    ensures var poll := env(|log|);
            var log', later := log + [Asked(interval, now, poll)], now + Nap(interval) + poll.overslept + poll.took;
            && later > now
            && Answered(log', env) && Last(log') == Some(poll.reply)
            && if Stops(c, poll.reply, failures) then whole == log'
               else Asking(c, whole, log', interval + Added(c, poll.reply), later, deadline, Failures(poll.reply, failures), env)
  {
    hide Polls, Rest;
    var r := Asked(interval, now, env(|log|));
    PollsStep(c, interval, now, deadline, |log|, failures, env);
    RestIs(c, interval, now, deadline, |log|, failures, env);
    Regroup(log, r, Rest(c, interval, now, deadline, |log|, failures, env));
    hide Nap, GoesOn;
    LaterStill(interval, now, env(|log|));
    assert forall i :: 0 <= i < |log| ==> (log + [r])[i] == log[i];
    assert (log + [r])[|log|] == r;
    assert log + [r] + [] == log + [r];
  }

  lemma AskedAll(c: Client, whole: seq<Request>, log: seq<Request>, interval: int, now: int, deadline: int, failures: nat,
                 env: nat -> Poll)
    requires Asking(c, whole, log, interval, now, deadline, failures, env) && now >= deadline
    ensures whole == log && Answered(log, env) && AllGoOn(c, log)
    ensures Last(log).Some? ==> GoesOn(c, Last(log).value)
  {
    hide Polls;
    PollsEnd(c, interval, now, deadline, |log|, failures, env);
    assert log + [] == log;
  }

  lemma Regroup(log: seq<Request>, r: Request, rest: seq<Request>)
    ensures log + ([r] + rest) == (log + [r]) + rest && ([r] + rest)[1..] == rest
  {
  }

  function Told(log: seq<Request>, i: nat, r: Reply): set<nat>
    requires i <= |log|
  {
    set j: nat | j < i && log[j].reply == r
  }

  lemma ToldNext(log: seq<Request>, i: nat, r: Reply)
    requires i < |log|
    ensures |Told(log, i + 1, r)| == |Told(log, i, r)| + if log[i].reply == r then 1 else 0
  {
    assert Told(log, i + 1, r) == Told(log, i, r) + if log[i].reply == r then {i} else {};
  }

  /** What the spacing adds up to: 5 s for every slow_down so far, and for the twin 10 s for every
      429. */
  lemma {:induction false} GrownIs(c: Client, log: seq<Request>, i: nat)
    requires i <= |log|
    ensures Grown(c, log, i) ==
            5000 * |Told(log, i, SlowDown)| + if c == Photon then 10000 * |Told(log, i, TooMany)| else 0
  {
    if i == 0 {
      assert Told(log, 0, SlowDown) == {} && Told(log, 0, TooMany) == {};
    } else {
      GrownIs(c, log, i - 1);
      ToldNext(log, i - 1, SlowDown);
      ToldNext(log, i - 1, TooMany);
    }
  }

  // ---- setup/registry-login.ts ------------------------------------------------

  method PollForIdpToken(interval: Option<int>, expiresIn: Option<int>, start: int, env: nat -> Poll)
    returns (outcome: Outcome, ghost log: seq<Request>, end: int)
    ensures log == Polls(Registry, InitialMs(interval), start, start + WindowMs(expiresIn), 0, 0, env)
    ensures log != [] && interval == None ==> log[0].at >= start + 5000
    ensures log != [] && interval.Some? && 1000 * interval.value <= 2147483647 ==>
              log[0].at >= start + 1000 && log[0].at >= start + 1000 * interval.value
    ensures log == [] <==> expiresIn.Some? && expiresIn.value <= 0
    ensures forall i :: 0 <= i < |log| - 1 ==>
              log[i].at < start + 900_000 && log[i].at < start + 1000 * (if expiresIn == None then 300 else expiresIn.value)
    ensures InitialMs(interval) <= TIMEOUT_MAX_MS ==> Story(Registry, start, InitialMs(interval), WindowMs(expiresIn), log)
    ensures outcome == Token <==> Last(log) == Some(Approved(true))
    ensures outcome == NoToken <==> Last(log) == Some(Approved(false))
    ensures Answered(log, env)
    ensures outcome == LostContact <==> Trailing(log) >= 11
    ensures forall k :: 0 <= k < |log| ==> Trailing(log[..k]) <= 10
    ensures outcome == TimedOut ==>
              end >= start + 900_000 || end >= start + 1000 * (if expiresIn == None then 300 else expiresIn.value)
    ensures outcome == TimedOut ==> AllGoOn(Registry, log)
    ensures outcome == Ended ==> Last(log).Some? && !GoesOn(Registry, Last(log).value)
  {
    hide Story, InTouch, Trailing, WindowMs, InReach, InitialMs, Polls, Nap, Asking, Last, Answered, AllGoOn;
    InTouchIs();
    var intervalMs := InitialMs(interval);
    ghost var initial := intervalMs;
    if initial <= TIMEOUT_MAX_MS {
      RegistryInReachIff(interval, expiresIn);
      StoryOfPolls(Registry, initial, WindowMs(expiresIn), start, env);
    }
    var deadline := start + WindowMs(expiresIn);
    FirstAndLast(Registry, initial, start, deadline, 0, 0, env);
    RegistryTimes(interval, expiresIn);
    ghost var whole := Polls(Registry, initial, start, deadline, 0, 0, env);
    var transportFailures := 0;
    var now, n := start, 0;
    log := [];
    NothingYet();
    AskingAtFirst(Registry, initial, start, deadline, env);
    while true
      invariant n == |log| && Asking(Registry, whole, log, intervalMs, now, deadline, transportFailures, env)
      invariant InTouch(log) && transportFailures == Trailing(log) <= MAX_POLL_TRANSPORT_FAILURES
      decreases deadline - now
    {
      if now >= deadline {
        AskedAll(Registry, whole, log, intervalMs, now, deadline, transportFailures, env);
        return TimedOut, log, now;
      }
      var poll := env(n);
      ghost var r := Asked(intervalMs, now, poll);
      AskOn(Registry, whole, log, intervalMs, now, deadline, transportFailures, env);
      InTouchSnoc(log, r);
      log := log + [r];
      now := now + Nap(intervalMs) + poll.overslept + poll.took;
      n := n + 1;
      match poll.reply {
        case Transport =>
          transportFailures := transportFailures + 1;
          if transportFailures > MAX_POLL_TRANSPORT_FAILURES { return LostContact, log, now; }
          continue;
        case Approved(token) => return if token then Token else NoToken, log, now;
        case Pending =>
        case SlowDown => intervalMs := intervalMs + SLOW_DOWN_STEP_MS;
        case _ => return Ended, log, now;
      }
      transportFailures := 0;
    }
  }

  /** No request before the first nap is over; none but the last after the deadline. */
  lemma {:induction false} FirstAndLast(c: Client, interval: int, now: int, deadline: int, n: nat, failures: nat, env: nat -> Poll)
    ensures var log := Polls(c, interval, now, deadline, n, failures, env);
            && (log == [] <==> now >= deadline)
            && (log != [] ==> log[0].at >= now + Nap(interval))
            && forall i :: 0 <= i < |log| - 1 ==> log[i].at < deadline
    decreases deadline - now
  {
    hide GoesOn, Added;
    if now < deadline {
      var poll := env(n);
      var at := now + Nap(interval) + poll.overslept;
      if !Stops(c, poll.reply, failures) {
        FirstAndLast(c, interval + Added(c, poll.reply), at + poll.took, deadline, n + 1, Failures(poll.reply, failures), env);
      }
    }
  }

  /** What the provider's two numbers mean. */
  lemma RegistryTimes(interval: Option<int>, expiresIn: Option<int>)
    ensures interval == None ==> Nap(InitialMs(interval)) == 5000
    ensures interval.Some? && 1000 * interval.value <= 2147483647 ==>
              Nap(InitialMs(interval)) >= 1000 && Nap(InitialMs(interval)) >= 1000 * interval.value
    ensures var asked := 1000 * (if expiresIn == None then 300 else expiresIn.value);
            WindowMs(expiresIn) <= 900_000 && WindowMs(expiresIn) <= asked
            && (WindowMs(expiresIn) == 900_000 || WindowMs(expiresIn) == asked)
  {
  }

  lemma InTouchIs()
    ensures forall log :: InTouch(log) ==> forall k :: 0 <= k < |log| ==> Trailing(log[..k]) <= 10
  {
  }

  lemma NothingYet()
    ensures InTouch([]) && Trailing([]) == 0
  {
  }

  // ---- scripts/photon-setup.ts ------------------------------------------------

  /** initial and window are the options' or the code's, with the defaults of 5 s and 1800 s. */
  method PollForToken(initial: int, window: int, start: int, env: nat -> Poll)
    returns (outcome: Outcome, ghost log: seq<Request>, end: int)
    ensures log == Polls(Photon, initial, start, start + window, 0, 0, env)
    ensures InReach(Photon, initial, window) ==> Story(Photon, start, initial, window, log)
    ensures outcome == Token <==> Last(log) == Some(Approved(true))
    ensures outcome == NoToken <==> Last(log) == Some(Approved(false))
    ensures outcome == Ended <==> Last(log) == Some(Refused)
    ensures Answered(log, env)
    ensures outcome == TimedOut ==> end >= start + window
    ensures outcome == TimedOut ==> AllGoOn(Photon, log)
    ensures outcome != LostContact
  {
    hide Story, InReach, Polls, Nap, Asking, Last, Answered, AllGoOn;
    if InReach(Photon, initial, window) { StoryOfPolls(Photon, initial, window, start, env); }
    var intervalMs := initial;
    var deadline := start + window;
    ghost var whole := Polls(Photon, initial, start, deadline, 0, 0, env);
    var now, n := start, 0;
    ghost var failures := 0;
    log := [];
    AskingAtFirst(Photon, initial, start, deadline, env);
    while now < deadline
      invariant n == |log| && Asking(Photon, whole, log, intervalMs, now, deadline, failures, env)
      decreases deadline - now
    {
      var poll := env(n);
      AskOn(Photon, whole, log, intervalMs, now, deadline, failures, env);
      log := log + [Asked(intervalMs, now, poll)];
      now := now + Nap(intervalMs) + poll.overslept + poll.took;
      n := n + 1;
      failures := Failures(poll.reply, failures);
      match poll.reply {
        case Approved(token) => return if token then Token else NoToken, log, now;
        case TooMany => intervalMs := intervalMs + TOO_MANY_STEP_MS;
        case SlowDown => intervalMs := intervalMs + SLOW_DOWN_STEP_MS;
        case Refused => return Ended, log, now;
        case _ =>
      }
    }
    AskedAll(Photon, whole, log, intervalMs, now, deadline, failures, env);
    return TimedOut, log, now;
  }

  // ---- How many requests ------------------------------------------------------

  lemma {:induction false} LeastIsLinear(c: Client, initial: int, log: seq<Request>, n: nat)
    requires n <= |log|
    ensures Least(c, initial, log, n) >= n * initial
  {
    if n > 0 { LeastIsLinear(c, initial, log, n - 1); }
  }

  /** The number of requests is linear in the window. */
  lemma RequestsAreLinear(c: Client, start: int, initial: int, window: int, log: seq<Request>)
    requires Story(c, start, initial, window, log) && log != []
    ensures (|log| - 1) * initial < window
  {
    LeastIsLinear(c, initial, log, |log| - 1);
  }

  /** The waits of n requests when all n were told to slow down. */
  lemma {:induction false} LeastIsQuadratic(c: Client, initial: int, log: seq<Request>, n: nat)
    requires n <= |log| && forall i :: 0 <= i < n ==> log[i].reply == SlowDown
    ensures Grown(c, log, n) == n * SLOW_DOWN_STEP_MS
    ensures 2 * Least(c, initial, log, n) == 2 * n * initial + n * (n - 1) * SLOW_DOWN_STEP_MS
  {
    if n > 0 {
      LeastIsQuadratic(c, initial, log, n - 1);
      Triangle(n);
      Spread(n, initial);
    }
  }

  lemma Triangle(n: nat)
    requires n > 0
    ensures (n - 1) * (n - 2) + 2 * (n - 1) == n * (n - 1)
  {
  }

  lemma Spread(n: int, x: int)
    ensures 2 * (n - 1) * x + 2 * x == 2 * n * x
  {
  }

  /** When every reply is slow_down the number of requests grows with the root of the window. */
  lemma SlowedRequestsAreFew(c: Client, start: int, initial: int, window: int, log: seq<Request>)
    requires Story(c, start, initial, window, log) && log != []
    requires forall i :: 0 <= i < |log| ==> log[i].reply == SlowDown
    ensures var k := |log| - 1;
            2 * k * initial + k * (k - 1) * SLOW_DOWN_STEP_MS < 2 * window
  {
    LeastIsQuadratic(c, initial, log, |log| - 1);
  }

  lemma SlowedLog(start: int, initial: int, window: int, log: seq<Request>)
    requires Story(Registry, start, initial, window, log) && initial >= 1000 && window <= MAX_DEVICE_WAIT_MS
    requires forall i :: 0 <= i < |log| ==> log[i].reply == SlowDown
    ensures |log| <= 20
  {
    if log != [] {
      SlowedRequestsAreFew(Registry, start, initial, window, log);
      hide Story;
      TwentyAtMost(|log| - 1, initial, window);
    }
  }

  lemma RegistryBounds(interval: Option<int>, expiresIn: Option<int>)
    ensures InitialMs(interval) >= 1000 && WindowMs(expiresIn) <= MAX_DEVICE_WAIT_MS
  {
  }

  /** In numbers, for the registry, any window, and any interval that setTimeout takes: at most
      20. */
  lemma AtMostTwentySlowed(start: int, interval: Option<int>, expiresIn: Option<int>, env: nat -> Poll)
    requires InitialMs(interval) <= TIMEOUT_MAX_MS
    requires forall n :: env(n).reply == SlowDown
    ensures |Polls(Registry, InitialMs(interval), start, start + WindowMs(expiresIn), 0, 0, env)| <= 20
  {
    hide Story, Polls, InReach, InitialMs, WindowMs;
    var initial, window := InitialMs(interval), WindowMs(expiresIn);
    var log := Polls(Registry, initial, start, start + window, 0, 0, env);
    RegistryBounds(interval, expiresIn);
    RegistryInReachIff(interval, expiresIn);
    StoryOfPolls(Registry, initial, window, start, env);
    RepliesAre(Registry, initial, start, start + window, 0, 0, env);
    SlowedLog(start, initial, window, log);
  }

  predicate AnsweredFrom(log: seq<Request>, n: nat, env: nat -> Poll) {
    forall i :: 0 <= i < |log| ==> log[i].reply == env(n + i).reply
  }

  lemma {:induction false} RepliesAre(c: Client, interval: int, now: int, deadline: int, n: nat, failures: nat, env: nat -> Poll)
    ensures AnsweredFrom(Polls(c, interval, now, deadline, n, failures, env), n, env)
    decreases deadline - now
  {
    hide Polls, Nap, GoesOn, AnsweredFrom, Rest;
    if now >= deadline {
      PollsEnd(c, interval, now, deadline, n, failures, env);
      NoneAnswered(n, env);
    } else {
      var poll := env(n);
      var r, rest := Asked(interval, now, poll), Rest(c, interval, now, deadline, n, failures, env);
      PollsStep(c, interval, now, deadline, n, failures, env);
      RestIs(c, interval, now, deadline, n, failures, env);
      LaterStill(interval, now, poll);
      if Stops(c, poll.reply, failures) {
        NoneAnswered(n + 1, env);
      } else {
        RepliesAre(c, interval + Added(c, poll.reply), now + Nap(interval) + poll.overslept + poll.took, deadline, n + 1,
                   Failures(poll.reply, failures), env);
      }
      RepliesOn(r, rest, n, env);
    }
  }

  lemma NoneAnswered(n: nat, env: nat -> Poll)
    ensures AnsweredFrom([], n, env)
  {
  }

  lemma RepliesOn(r: Request, rest: seq<Request>, n: nat, env: nat -> Poll)
    requires r.reply == env(n).reply && AnsweredFrom(rest, n + 1, env)
    ensures AnsweredFrom([r] + rest, n, env)
  {
    forall i | 0 < i < |[r] + rest| ensures ([r] + rest)[i].reply == env(n + i).reply {
      assert ([r] + rest)[i] == rest[i - 1];
      assert n + 1 + (i - 1) == n + i;
    }
  }

  lemma LaterStill(interval: int, now: int, poll: Poll)
    ensures Asked(interval, now, poll).at > now && Nap(interval) >= 1
  {
  }

  lemma TwentyAtMost(k: nat, initial: int, window: int)
    requires initial >= 1000 && window <= MAX_DEVICE_WAIT_MS
    requires 2 * k * initial + k * (k - 1) * SLOW_DOWN_STEP_MS < 2 * window
    ensures k < 20
  {
    if k >= 20 { TwentyOrMore(k, initial); }
  }

  lemma TwentyOrMore(k: nat, initial: int)
    requires k >= 20 && initial >= 1000
    ensures 2 * k * initial + k * (k - 1) * SLOW_DOWN_STEP_MS >= 1_940_000
  {
    var d := k - 20;
    assert k * (k - 1) == 380 + 39 * d + d * d;
    assert 2 * k * initial == 40 * initial + 2 * d * initial;
    NonNegative(d, initial);
    NonNegative(d, d);
  }

  lemma NonNegative(a: nat, b: nat)
    ensures a * b >= 0 && 2 * a * b >= 0
  {
  }
}
