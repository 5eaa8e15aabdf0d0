/** src/router.ts: which wired agents engage on a message. For mention-sticky wirings the
    sessions that routing itself created are the memory of earlier messages. */
module Router {
  import opened Prelude

  datatype EngageMode = Pattern | Mention | Sticky | Unknown
  datatype SessionMode = Shared | PerThread | AgentShared

  /** present: the agent group exists. threads: resolveThreadPolicy said yes. */
  datatype Wiring = Wiring(present: bool, engage: EngageMode, mode: SessionMode, isGroup: bool, threads: bool,
                           accumulate: bool)

  /** A message as one wiring sees it: hit is the pattern's verdict, access and scope the gates'. */
  datatype Message = Message(mention: bool, thread: Option<string>, hit: bool, access: bool, scope: bool)

  /** The thread ids of the active sessions of this agent in this messaging group. */
  type Sessions = seq<Option<string>>

  datatype Outcome = Engaged | Accumulated | Dropped

  function EffectiveThread(w: Wiring, m: Message): Option<string> {
    if w.threads then m.thread else None
  }

  /** findSessionForAgent: an empty thread id is falsy and asks for NULL. */
  function LookupThread(t: Option<string>): Option<string> {
    if t == Some("") then None else t
  }

  predicate Found(ss: Sessions, t: Option<string>) {
    LookupThread(t) in ss
  }

  /** evaluateEngage */
  predicate Engages(w: Wiring, m: Message, ss: Sessions) {
    match w.engage
    case Pattern => m.hit
    case Mention => m.mention
    case Sticky => m.mention || (w.isGroup && Found(ss, EffectiveThread(w, m)))
    case Unknown => false
  }

  function Decide(w: Wiring, m: Message, ss: Sessions): Outcome {
    var engages := Engages(w, m, ss);
    if engages && m.access && m.scope then Engaged
    else if w.accumulate && !engages then Accumulated
    else Dropped
  }

  function EffectiveMode(w: Wiring): SessionMode {
    if w.threads && w.mode != AgentShared && w.isGroup then PerThread else w.mode
  }

  /** resolveSession for a wiring that is not agent-shared. */
  function Resolve(w: Wiring, t: Option<string>, ss: Sessions): Sessions {
    var lookup := if EffectiveMode(w) == PerThread then t else None;
    if Found(ss, lookup) then ss else ss + [lookup]
  }

  function Route(w: Wiring, m: Message, ss: Sessions): Sessions {
    if Decide(w, m, ss) == Dropped then ss else Resolve(w, EffectiveThread(w, m), ss)
  }

  // ---- The fan-out loop -------------------------------------------------------

  /** The wiring engaged and wants its thread's follow-ups. */
  predicate Follows(w: Wiring, m: Message, outcome: Option<Outcome>) {
    outcome == Some(Engaged) && w.engage == Sticky && w.isGroup && w.threads && m.thread.Some?
  }

  lemma FollowsIff(w: Wiring, m: Message, outcome: Option<Outcome>)
    ensures Follows(w, m, outcome) <==>
            outcome == Some(Engaged) && w.engage == Sticky && EffectiveThread(w, m) != None && w.isGroup
  {
  }

  /** What becomes of a message at one wiring, in terms of its inputs. It engages when both
      gates pass and the mode fires: the pattern hits; it is a mention; for mention-sticky, it is a mention
      or the group has the session of its thread. It is stored when the policy is to accumulate and the
      mode did not fire. Either way its session is the one it finds, or a new one. */
  predicate Treated(w: Wiring, m: Message, ss: Sessions, outcome: Outcome, next: Sessions) {
    var remembered := (if w.threads && m.thread != Some("") then m.thread else None) in ss;
    var own := if w.threads && (w.mode == PerThread || (w.mode == Shared && w.isGroup)) then m.thread else None;
    && (outcome == Engaged <==>
        && m.access && m.scope
        && match w.engage
           case Pattern => m.hit
           case Mention => m.mention
           case Sticky => m.mention || (w.isGroup && remembered)
           case Unknown => false)
    && (outcome == Accumulated <==>
        && w.accumulate
        && match w.engage
           case Pattern => !m.hit
           case Mention => !m.mention
           case Sticky => !m.mention && !(w.isGroup && remembered)
           case Unknown => true)
    && next == if outcome == Dropped || (if own == Some("") then None else own) in ss then ss else ss + [own]
  }

  lemma DecideTreats(w: Wiring, m: Message, ss: Sessions)
    ensures Treated(w, m, ss, Decide(w, m, ss), Route(w, m, ss))
  {
  }

  /** One wiring of the loop. */
  method RouteOne(w: Wiring, m: Message, ss: Sessions) returns (outcome: Outcome, next: Sessions)
    ensures outcome == Decide(w, m, ss) && next == Route(w, m, ss)
    ensures Treated(w, m, ss, outcome, next)
  {
    DecideTreats(w, m, ss);
    hide Treated;
    hide Resolve;
    var engages := Engages(w, m, ss);
    if engages && m.access && m.scope {
      outcome, next := Engaged, Resolve(w, EffectiveThread(w, m), ss);
    } else if w.accumulate && !(engages && (!m.access || !m.scope)) {
      outcome, next := Accumulated, Resolve(w, EffectiveThread(w, m), ss);
    } else {
      outcome, next := Dropped, ss;
    }
  }

  /** In a direct chat only a mention engages a mention-sticky wiring; a mode that is none of
      the three never engages. */
  lemma NeverEngages(w: Wiring, m: Message, ss: Sessions, outcome: Outcome, next: Sessions)
    requires Treated(w, m, ss, outcome, next)
    ensures w.engage == Sticky && !w.isGroup ==> (outcome == Engaged <==> m.mention && m.access && m.scope)
    ensures w.engage == Unknown ==> outcome == if w.accumulate then Accumulated else Dropped
  {
  }

  /** The wirings so far, each treated on its own; one whose agent group is gone is passed over. */
  predicate EachTreated(ws: seq<Wiring>, ms: seq<Message>, sessions: seq<Sessions>, outcomes: seq<Option<Outcome>>,
                        after: seq<Sessions>)
    requires |ms| == |ws| == |sessions|
  {
    && |outcomes| == |after| <= |ws|
    && forall i :: 0 <= i < |outcomes| ==>
         if ws[i].present then outcomes[i].Some? && Treated(ws[i], ms[i], sessions[i], outcomes[i].value, after[i])
         else outcomes[i] == None && after[i] == sessions[i]
  }

  /** No wiring so far engaged or stored the message. */
  predicate NoneKept(outcomes: seq<Option<Outcome>>) {
    forall i :: 0 <= i < |outcomes| ==> outcomes[i] != Some(Engaged) && outcomes[i] != Some(Accumulated)
  }

  /** The first wiring that follows its thread, if any. */
  predicate IsSubscriber(ws: seq<Wiring>, ms: seq<Message>, outcomes: seq<Option<Outcome>>, subscriber: Option<nat>)
    requires |ms| == |ws| >= |outcomes|
  {
    var n := if subscriber.Some? then subscriber.value else |outcomes|;
    && n <= |outcomes| && (subscriber.Some? ==> n < |outcomes| && Follows(ws[n], ms[n], outcomes[n]))
    && forall j :: 0 <= j < n ==> !Follows(ws[j], ms[j], outcomes[j])
  }

  /** ms[i] is the message with the gates' verdicts for wiring i; sessions[i] its sessions. */
  method RouteInbound(ws: seq<Wiring>, ms: seq<Message>, sessions: seq<Sessions>)
    returns (outcomes: seq<Option<Outcome>>, after: seq<Sessions>, subscriber: Option<nat>, dropped: bool)
    requires |ms| == |ws| == |sessions|
    ensures |outcomes| == |ws| && EachTreated(ws, ms, sessions, outcomes, after)
    ensures dropped <==> NoneKept(outcomes)
    ensures IsSubscriber(ws, ms, outcomes, subscriber)
  {
    hide Decide, Route, EffectiveThread, Treated, Follows;
    outcomes, after, subscriber := [], [], None;
    var engagedCount, accumulatedCount := 0, 0;
    var i := 0;
    while i < |ws|
      invariant 0 <= i <= |ws| && |outcomes| == i && engagedCount >= 0 && accumulatedCount >= 0
      invariant EachTreated(ws, ms, sessions, outcomes, after)
      invariant engagedCount + accumulatedCount == 0 <==> NoneKept(outcomes)
      invariant IsSubscriber(ws, ms, outcomes, subscriber)
    {
      var w, m, ss := ws[i], ms[i], sessions[i];
      if w.present {
        var outcome, next := RouteOne(w, m, ss);
        if outcome == Engaged {
          engagedCount := engagedCount + 1;
          if subscriber == None && w.engage == Sticky && EffectiveThread(w, m) != None && w.isGroup {
            subscriber := Some(i);
          }
        } else if outcome == Accumulated {
          accumulatedCount := accumulatedCount + 1;
        }
        FollowsIff(w, m, Some(outcome));
        outcomes, after := outcomes + [Some(outcome)], after + [next];
      } else {
        FollowsIff(w, m, None);
        outcomes, after := outcomes + [None], after + [ss];
      }
      i := i + 1;
    }
    dropped := engagedCount + accumulatedCount == 0;
  }

  // ---- History ----------------------------------------------------------------

  /** The sessions of one wiring after the first n messages, none at first and none closed. */
  function After(w: Wiring, ms: seq<Message>, n: nat): Sessions
    requires n <= |ms|
  {
    if n == 0 then [] else Route(w, ms[n - 1], After(w, ms, n - 1))
  }

  /** Message i left a session for its thread behind it. */
  predicate Leaves(w: Wiring, ms: seq<Message>, i: nat)
    requires i < |ms|
  {
    Decide(w, ms[i], After(w, ms, i)) != Dropped
  }

  predicate Threaded(w: Wiring) {
    w.isGroup && w.mode != AgentShared
  }

  /** A session is found for a thread exactly when an earlier message of that very thread left one. */
  lemma {:induction false} FoundIff(w: Wiring, ms: seq<Message>, n: nat, t: Option<string>)
    requires n <= |ms| && Threaded(w)
    ensures Found(After(w, ms, n), t) <==>
            exists j :: 0 <= j < n && Leaves(w, ms, j) && EffectiveThread(w, ms[j]) == LookupThread(t)
  {
    hide Decide;
    if n > 0 {
      FoundIff(w, ms, n - 1, t);
      var ss := After(w, ms, n - 1);
      var u := EffectiveThread(w, ms[n - 1]);
      FoundIff(w, ms, n - 1, u);
      if Leaves(w, ms, n - 1) {
        assert Resolve(w, u, ss) == if Found(ss, u) then ss else ss + [u];
        if u == LookupThread(t) {
          assert Found(After(w, ms, n), t);
        } else if Found(ss, t) {
          assert Found(After(w, ms, n), t);
        }
      }
    }
  }

  /** A mention that got past both gates. */
  predicate Admitted(m: Message) {
    m.mention && m.access && m.scope
  }

  /** Sticky engagement under the drop policy is a function of history: an unmentioned message
      engages exactly when an earlier admitted mention belongs to the thread it looks up. */
  lemma {:induction false} StickyIff(w: Wiring, ms: seq<Message>, i: nat)
    requires i < |ms| && Threaded(w) && w.engage == Sticky && !w.accumulate && !ms[i].mention
    ensures Engages(w, ms[i], After(w, ms, i)) <==>
            exists j :: 0 <= j < i && Admitted(ms[j])
                        && EffectiveThread(w, ms[j]) == LookupThread(EffectiveThread(w, ms[i]))
  {
    var t := EffectiveThread(w, ms[i]);
    FoundIff(w, ms, i, t);
    if Found(After(w, ms, i), t) {
      var j :| 0 <= j < i && Leaves(w, ms, j) && EffectiveThread(w, ms[j]) == LookupThread(t);
      if !ms[j].mention {
        StickyIff(w, ms, j);
        var k :| 0 <= k < j && Admitted(ms[k])
                 && EffectiveThread(w, ms[k]) == LookupThread(EffectiveThread(w, ms[j]));
        assert EffectiveThread(w, ms[k]) == LookupThread(t);
      }
    }
    if j :| 0 <= j < i && Admitted(ms[j]) && EffectiveThread(w, ms[j]) == LookupThread(t) {
      assert Leaves(w, ms, j);
    }
  }

  /** In the source's own words, for a thread id that is not the empty string. */
  lemma StickyInThread(w: Wiring, ms: seq<Message>, i: nat)
    requires i < |ms| && Threaded(w) && w.engage == Sticky && !w.accumulate && !ms[i].mention
    requires EffectiveThread(w, ms[i]) != Some("")
    ensures Engages(w, ms[i], After(w, ms, i)) <==>
            exists j :: 0 <= j < i && Admitted(ms[j]) && EffectiveThread(w, ms[j]) == EffectiveThread(w, ms[i])
  {
    StickyIff(w, ms, i);
  }

  /** An accumulated message opens a session too, so under that policy any earlier message of
      the thread counts, but for a mention that a gate refused. */
  lemma AccumulateIff(w: Wiring, ms: seq<Message>, i: nat)
    requires i < |ms| && Threaded(w) && w.engage == Sticky && w.accumulate && !ms[i].mention
    ensures Engages(w, ms[i], After(w, ms, i)) <==>
            exists j :: 0 <= j < i && (!ms[j].mention || Admitted(ms[j]))
                        && EffectiveThread(w, ms[j]) == LookupThread(EffectiveThread(w, ms[i]))
  {
    var t := EffectiveThread(w, ms[i]);
    FoundIff(w, ms, i, t);
    if Found(After(w, ms, i), t) {
      var j :| 0 <= j < i && Leaves(w, ms, j) && EffectiveThread(w, ms[j]) == LookupThread(t);
      assert !ms[j].mention || Admitted(ms[j]);
    }
    if j :| 0 <= j < i && (!ms[j].mention || Admitted(ms[j])) && EffectiveThread(w, ms[j]) == LookupThread(t) {
      if !Leaves(w, ms, j) {
        // engaged without a mention, and refused: a session of this thread was there already
        FoundIff(w, ms, j, EffectiveThread(w, ms[j]));
        var k :| 0 <= k < j && Leaves(w, ms, k)
                 && EffectiveThread(w, ms[k]) == LookupThread(EffectiveThread(w, ms[j]));
        assert EffectiveThread(w, ms[k]) == LookupThread(t);
      }
    }
  }

  /** The empty thread id never remembers itself: a mention in it opens a session that no
      follow-up in it finds. */
  lemma EmptyThreadForgets(w: Wiring, m: Message)
    requires Threaded(w) && w.engage == Sticky && w.threads && m.thread == Some("") && Admitted(m)
    ensures var ms := [m, m.(mention := false)];
            Leaves(w, ms, 0) && !Engages(w, ms[1], After(w, ms, 1))
  {
    var ms := [m, m.(mention := false)];
    assert After(w, ms, 0) == [];
    assert After(w, ms, 1) == [Some("")];
  }
}
