/** The run-health latch, the bracketing of step events, and the accounting of an apply:
    for every document, host and starting file system. */
module SkillHealth {
  import opened Prelude
  import opened Text
  import opened SkillModel

  // ---- One turn ---------------------------------------------------------------

  predicate Command(n: nat, a: Act) {
    (a.Exec? || a.Stream?) && a.n == n
  }

  predicate Commands(n: nat, acts: seq<Act>) {
    forall i :: 0 <= i < |acts| ==> Command(n, acts[i])
  }

  predicate Latched(n: nat, acts: seq<Act>) {
    acts != [] && acts[|acts| - 1] == Bounced(n)
  }

  function Unlatched(n: nat, acts: seq<Act>): seq<Act> {
    if Latched(n, acts) then acts[..|acts| - 1] else acts
  }

  /** step-start, the commands, step-end; or a step-start whose handler threw. */
  predicate Bracketed(h: Host, n: nat, a: seq<Act>) {
    && a != [] && a[0] == Start(n)
    && if h.onStart(n).Some? then |a| == 1
       else |a| >= 2 && a[|a| - 1].End? && a[|a| - 1].n == n && Commands(n, a[1..|a| - 1])
  }

  /** What one turn may add to the trace. */
  predicate TurnActs(h: Host, d: Directive, n: nat, blocked: bool, acts: seq<Act>) {
    var a := Unlatched(n, acts);
    || a == []
    || (!blocked && |a| == 1 && a[0].Show? && a[0].n == n)
    || (!(blocked && SideEffect(d.action)) && Bracketed(h, n, a))
  }

  /** Exactly one of the five ledgers gains exactly one entry, about n. */
  predicate OneEntry(s: State, s': State, n: nat) {
    var quietBound, quietApplied, quietSkipped := s'.bound == s.bound, s'.applied == s.applied, s'.skipped == s.skipped;
    var quietDeferred, quietTasks := s'.deferred == s.deferred, s'.tasks == s.tasks;
    || (s'.bound == s.bound + [n] && quietApplied && quietSkipped && quietDeferred && quietTasks)
    || (quietBound && Gained(s.applied, s'.applied, n) && quietSkipped && quietDeferred && quietTasks)
    || (quietBound && quietApplied && Gained(s.skipped, s'.skipped, n) && quietDeferred && quietTasks)
    || (quietBound && quietApplied && quietSkipped && Gained(s.deferred, s'.deferred, n) && quietTasks)
    || (quietBound && quietApplied && quietSkipped && quietDeferred && Gained(s.tasks, s'.tasks, n))
  }

  predicate Gained(before: seq<Note>, after: seq<Note>, n: nat) {
    |after| == |before| + 1 && after[..|before|] == before && after[|before|].n == n
  }

  predicate Turn(h: Host, d: Directive, n: nat, s: State, s': State) {
    && s.trace <= s'.trace
    && var acts := s'.trace[|s.trace|..];
    && TurnActs(h, d, n, s.blocked, acts)
    && s'.blocked == (s.blocked || Latched(n, acts))
    && OneEntry(s, s', n)
  }

  predicate SameLedger(s: State, s': State) {
    && s'.blocked == s.blocked && s'.applied == s.applied && s'.skipped == s.skipped
    && s'.deferred == s.deferred && s'.tasks == s.tasks && s'.bound == s.bound
  }

  /** A handler only adds commands to the trace. */
  predicate Quiet(n: nat, s: State, s': State) {
    SameLedger(s, s') && s.trace <= s'.trace && Commands(n, s'.trace[|s.trace|..])
  }

  lemma QuietThen(n: nat, s: State, s': State, s'': State)
    requires Quiet(n, s, s') && Quiet(n, s', s'')
    ensures Quiet(n, s, s'')
  {
    assert s''.trace[|s.trace|..] == s'.trace[|s.trace|..] + s''.trace[|s'.trace|..];
  }

  lemma {:induction false} CopyQuiet(h: Host, n: nat, moves: seq<Move>, k: nat, s: State)
    requires k <= |moves|
    ensures var s' := CopyFrom(h, n, moves, k, s).s; SameLedger(s, s') && s'.trace == s.trace
    decreases |moves| - k
  {
    if k < |moves| && h.put(n, k).Done? {
      CopyQuiet(h, n, moves, k + 1, s.(files := s.files[moves[k].dst := h.put(n, k).content]));
    }
  }

  lemma AppendOneQuiet(to: Path, at: Option<string>, line: string, s: State)
    ensures var s' := AppendOne(to, at, line, s).s; SameLedger(s, s') && s'.trace == s.trace
  {
    hide MarkerIndex, InsertLine, Leading, AddText, Contains;
  }

  lemma {:induction false} AppendQuiet(to: Path, at: Option<string>, lines: seq<string>, k: nat, s: State)
    requires k <= |lines|
    ensures var s' := AppendFrom(to, at, lines, k, s).s; SameLedger(s, s') && s'.trace == s.trace
    decreases |lines| - k
  {
    hide AppendOne;
    if k < |lines| {
      AppendOneQuiet(to, at, lines[k], s);
      var one := AppendOne(to, at, lines[k], s);
      if one.threw == None { AppendQuiet(to, at, lines, k + 1, one.s); }
    }
  }

  lemma EnvOneQuiet(e: Entry, s: State)
    ensures var s' := EnvOne(e, s).s; SameLedger(s, s') && s'.trace == s.trace
  {
    hide Render, KeySet, AddText;
  }

  lemma {:induction false} EnvQuiet(entries: seq<Entry>, k: nat, s: State)
    requires k <= |entries|
    ensures var s' := EnvFrom(entries, k, s).s; SameLedger(s, s') && s'.trace == s.trace
    decreases |entries| - k
  {
    hide EnvOne;
    if k < |entries| {
      EnvOneQuiet(entries[k], s);
      var one := EnvOne(entries[k], s);
      if one.threw == None { EnvQuiet(entries, k + 1, one.s); }
    }
  }

  lemma {:induction false} CheckQuiet(h: Host, n: nat, cmds: seq<Template>, k: nat, s: State)
    requires k <= |cmds|
    ensures Quiet(n, s, CheckFrom(h, n, cmds, k, s).s)
    decreases |cmds| - k
  {
    hide Render;
    if k < |cmds| && Render(cmds[k], s.vars).Rendering? {
      var s1 := s.(trace := s.trace + [Exec(n, Render(cmds[k], s.vars).text)]);
      if h.exec(n, k).Out? {
        CheckQuiet(h, n, cmds, k + 1, s1);
        QuietThen(n, s, s1, CheckFrom(h, n, cmds, k + 1, s1).s);
      }
    }
  }

  lemma RunOneQuiet(h: Host, n: nat, a: Action, k: nat, s: State)
    requires a.Run? && k < |a.cmds|
    ensures Quiet(n, s, RunOne(h, n, a, k, s).s)
  {
    hide Render, BindCapture, Raw, Trim;
  }

  lemma {:induction false} RunQuiet(h: Host, n: nat, a: Action, k: nat, s: State)
    requires a.Run? && k <= |a.cmds|
    ensures Quiet(n, s, RunFrom(h, n, a, k, s).s)
    decreases |a.cmds| - k
  {
    hide RunOne, Quiet;
    if k < |a.cmds| {
      RunOneQuiet(h, n, a, k, s);
      var one := RunOne(h, n, a, k, s);
      if one.threw == None {
        RunQuiet(h, n, a, k + 1, one.s);
        QuietThen(n, s, one.s, RunFrom(h, n, a, k + 1, one.s).s);
      }
    } else {
      QuietSelf(n, s);
    }
  }

  lemma QuietSelf(n: nat, s: State)
    ensures Quiet(n, s, s)
  {
  }

  lemma StepQuiet(h: Host, n: nat, capture: Option<Capture>, cmds: seq<Template>, s: State)
    ensures Quiet(n, s, PerformStep(h, n, capture, cmds, s).s)
  {
    hide Render, BindFields, JoinTemplates, Raw;
  }

  lemma MergeQuiet(h: Host, into: Path, key: string, obj: Json, s: State)
    ensures var s' := PerformMerge(h, into, key, obj, s).s; SameLedger(s, s') && s'.trace == s.trace
  {
    hide FindIndex, Field, ParseFile;
  }

  lemma PerformQuiet(h: Host, d: Directive, n: nat, s: State)
    ensures Quiet(n, s, Perform(h, d, n, s).s)
  {
    hide CopyFrom, AppendFrom, CheckFrom, PerformStep, RunFrom, EnvFrom, PerformMerge;
    QuietSelf(n, s);
    match d.action {
      case Copy(_, moves) => CopyQuiet(h, n, moves, 0, s);
      case Append(to, at, lines) => AppendQuiet(to, at, lines, 0, s);
      case Run(_, capture, _, _, cmds) =>
        CheckQuiet(h, n, cmds, 0, s);
        StepQuiet(h, n, capture, cmds, s);
        RunQuiet(h, n, d.action, 0, s);
      case EnvSet(entries) => EnvQuiet(entries, 0, s);
      case JsonMerge(into, key, body) => if body.Some? { MergeQuiet(h, into, key, body.value, s); }
      case _ =>
    }
  }

  /** The catch clause adds one entry, and latches exactly when that is a task. */
  lemma FailEntry(s: State, n: nat, message: string)
    ensures var s' := Fail(s, n, message);
            && OneEntry(s, s', n)
            && (s'.trace == s.trace || s'.trace == s.trace + [Bounced(n)])
            && s'.blocked == (s.blocked || s'.trace != s.trace)
  {
    hide Deferrable;
  }

  lemma BracketTurn(h: Host, d: Directive, n: nat, detail: seq<string>, s: State)
    requires !(s.blocked && SideEffect(d.action))
    ensures Turn(h, d, n, s, Bracket(h, d, n, detail, s))
  {
    hide Perform, Fail;
    var s1 := s.(trace := s.trace + [Start(n)]);
    var done := Perform(h, d, n, s1);
    var s2 := done.s.(trace := done.s.trace + [End(n, done.threw == None)]);
    if h.onStart(n).Some? {
      FailEntry(s1, n, h.onStart(n).value);
    } else {
      PerformQuiet(h, d, n, s1);
      if done.threw.Some? { FailEntry(s2, n, done.threw.value); }
      if h.onEnd(n).Some? { FailEntry(s2, n, h.onEnd(n).value); }
      var a := s2.trace[|s.trace|..];
      assert a[1..|a| - 1] == done.s.trace[|s1.trace|..];
      assert Bracketed(h, n, a);
    }
    ClosedTurn(h, d, n, s, if h.onStart(n).Some? then s1 else s2, Bracket(h, d, n, detail, s));
  }

  /** A bracket, and at most the latch after it. */
  lemma ClosedTurn(h: Host, d: Directive, n: nat, s: State, mid: State, s': State)
    requires !(s.blocked && SideEffect(d.action)) && s.trace <= mid.trace && mid.blocked == s.blocked
    requires Bracketed(h, n, mid.trace[|s.trace|..]) && OneEntry(s, s', n)
    requires s'.trace == mid.trace || s'.trace == mid.trace + [Bounced(n)]
    requires s'.blocked == (mid.blocked || s'.trace != mid.trace)
    ensures Turn(h, d, n, s, s')
  {
    hide OneEntry;
    var a, acts := mid.trace[|s.trace|..], s'.trace[|s.trace|..];
    if s'.trace == mid.trace {
      assert acts == a;
    } else {
      assert acts == a + [Bounced(n)];
      assert Unlatched(n, acts) == a;
    }
  }

  lemma NoActsTurn(h: Host, d: Directive, n: nat, s: State, s': State)
    requires OneEntry(s, s', n)
    requires s'.trace == s.trace || s'.trace == s.trace + [Bounced(n)]
    requires s'.blocked == (s.blocked || s'.trace != s.trace)
    ensures Turn(h, d, n, s, s')
  {
    hide OneEntry;
    var acts := s'.trace[|s.trace|..];
    assert acts == [] || acts == [Bounced(n)];
  }

  lemma PromptTurn(h: Host, d: Directive, n: nat, s: State)
    requires d.action.Prompt?
    ensures Turn(h, d, n, s, VisitPrompt(h, d, n, s))
  {
    hide Fail, Normalize, Turn;
    var a := d.action;
    if a.name !in h.inputs && h.ask(n).AskThrew? { FailEntry(s, n, h.ask(n).message); }
    if a.valid.Some? {
      var broken := h.compile(a.valid.value.pattern, a.valid.value.flags);
      if broken.Some? { FailEntry(s, n, broken.value); }
    }
    NoActsTurn(h, d, n, s, VisitPrompt(h, d, n, s));
  }

  lemma OperatorTurn(h: Host, d: Directive, n: nat, s: State)
    requires d.action.Operator?
    ensures Turn(h, d, n, s, VisitOperator(h, d, n, s))
  {
    hide Fail, Render;
    var s' := VisitOperator(h, d, n, s);
    var rendered := Render(d.action.text, s.vars);
    if s.blocked {
      NoActsTurn(h, d, n, s, s');
    } else if rendered.Stuck? {
      FailEntry(s, n, Unresolved(rendered.name));
      NoActsTurn(h, d, n, s, s');
    } else {
      var text := rendered.text;
      var s1 := s.(messages := s.messages + [text], trace := s.trace + [Show(n, text)]);
      if h.onOperator(n).Some? { FailEntry(s1, n, h.onOperator(n).value); }
      var acts := s'.trace[|s.trace|..];
      assert acts == [Show(n, text)] || acts == [Show(n, text), Bounced(n)];
      assert Unlatched(n, acts) == [Show(n, text)];
    }
  }

  lemma StepTurn(h: Host, d: Directive, n: nat, s: State)
    ensures Turn(h, d, n, s, VisitStep(h, d, n, s))
  {
    hide StatusOf, Bracket, Turn;
    var status := StatusOf(h, d, n, s.files);
    var s' := VisitStep(h, d, n, s);
    if status.Apply? && !(SideEffect(d.action) && s.blocked) { BracketTurn(h, d, n, status.detail, s); }
    if s'.trace == s.trace || s'.trace == s.trace + [Bounced(n)] {
      if OneEntry(s, s', n) && s'.blocked == (s.blocked || s'.trace != s.trace) { NoActsTurn(h, d, n, s, s'); }
    }
  }

  lemma VisitTurn(h: Host, d: Directive, n: nat, s: State)
    ensures Turn(h, d, n, s, Visit(h, d, n, s))
  {
    hide VisitPrompt, VisitOperator, VisitStep, WhenMet, Turn;
    if d.action.Prompt? { PromptTurn(h, d, n, s); }
    else if d.action.Operator? { OperatorTurn(h, d, n, s); }
    else { StepTurn(h, d, n, s); }
    var s' := Visit(h, d, n, s);
    if s'.trace == s.trace && s'.blocked == s.blocked && OneEntry(s, s', n) { NoActsTurn(h, d, n, s, s'); }
  }

  // ---- Whole runs -------------------------------------------------------------

  /** After a bounce: nothing shown to the operator, no restart, step or wire begun. */
  predicate SafeAfter(ds: seq<Directive>, a: Act) {
    && !a.Show?
    && (a.Exec? || a.Stream? || a.Start? ==> a.n < |ds| && !SideEffect(ds[a.n].action))
  }

  predicate Safe(ds: seq<Directive>, trace: seq<Act>) {
    forall i, j :: 0 <= i < j < |trace| && trace[i].Bounced? ==> SafeAfter(ds, trace[j])
  }

  /** A step-start and the step-end that closes it, with only its commands between. */
  predicate Pair(trace: seq<Act>, i: nat, k: nat) {
    && i < k < |trace| && trace[i].Start? && trace[k].End? && trace[k].n == trace[i].n
    && Commands(trace[i].n, trace[i + 1..k])
  }

  predicate Closed(trace: seq<Act>, i: nat) {
    exists k: nat :: k < |trace| && Pair(trace, i, k)
  }

  predicate Opening(trace: seq<Act>, k: nat) {
    exists i: nat :: i < |trace| && Pair(trace, i, k)
  }

  predicate StartsClosed(h: Host, trace: seq<Act>) {
    forall i :: 0 <= i < |trace| && trace[i].Start? && h.onStart(trace[i].n) == None ==> Closed(trace, i)
  }

  predicate EndsOpened(trace: seq<Act>) {
    forall k :: 0 <= k < |trace| && trace[k].End? ==> Opening(trace, k)
  }

  predicate OnceEach(trace: seq<Act>) {
    && (forall i, k :: 0 <= i < k < |trace| && trace[i].End? && trace[k].End? ==> trace[i].n < trace[k].n)
    && (forall i, k :: 0 <= i < k < |trace| && trace[i].Start? && trace[k].Start? ==> trace[i].n < trace[k].n)
  }

  predicate Balanced(h: Host, trace: seq<Act>) {
    StartsClosed(h, trace) && EndsOpened(trace) && OnceEach(trace)
  }

  predicate HasBounce(trace: seq<Act>) {
    exists i :: 0 <= i < |trace| && trace[i].Bounced?
  }

  predicate Below(trace: seq<Act>, n: nat) {
    forall i :: 0 <= i < |trace| ==> trace[i].n < n
  }

  function Count(notes: seq<Note>, m: nat): nat {
    if notes == [] then 0
    else Count(notes[..|notes| - 1], m) + (if notes[|notes| - 1].n == m then 1 else 0)
  }

  function CountBound(bound: seq<nat>, m: nat): nat {
    if bound == [] then 0
    else CountBound(bound[..|bound| - 1], m) + (if bound[|bound| - 1] == m then 1 else 0)
  }

  function Entries(s: State, m: nat): nat {
    CountBound(s.bound, m) + Count(s.applied, m) + Count(s.skipped, m) + Count(s.deferred, m) + Count(s.tasks, m)
  }

  ghost predicate Accounted(s: State, n: nat) {
    forall m: nat :: Entries(s, m) == if m < n then 1 else 0
  }

  lemma UnlatchedActs(n: nat, acts: seq<Act>)
    ensures acts == Unlatched(n, acts) + (if Latched(n, acts) then [Bounced(n)] else [])
  {
  }

  lemma BracketedActs(h: Host, n: nat, a: seq<Act>)
    requires Bracketed(h, n, a)
    ensures forall i :: 0 <= i < |a| ==> a[i].n == n && !a[i].Bounced? && !a[i].Show?
    ensures forall i :: 1 <= i < |a| ==> !a[i].Start?
    ensures forall i :: 0 <= i < |a| - 1 ==> !a[i].End?
  {
    forall i | 0 < i < |a| - 1 ensures Command(n, a[i]) { assert a[i] == a[1..|a| - 1][i - 1]; }
  }

  /** Only the last act of a turn can be a bounce; all are about n. */
  lemma TurnActsOf(h: Host, d: Directive, n: nat, blocked: bool, acts: seq<Act>)
    requires TurnActs(h, d, n, blocked, acts)
    ensures forall i :: 0 <= i < |acts| ==> acts[i].n == n
    ensures forall i :: 0 <= i < |acts| - 1 ==> !acts[i].Bounced?
    ensures acts != [] && acts[|acts| - 1].Bounced? ==> Latched(n, acts)
    ensures blocked ==> forall i :: 0 <= i < |acts| ==>
              !acts[i].Show? && (SideEffect(d.action) ==> acts[i].Bounced?)
  {
    var a := Unlatched(n, acts);
    UnlatchedActs(n, acts);
    if Bracketed(h, n, a) { BracketedActs(h, n, a); }
    hide SideEffect, Bracketed, Latched, Unlatched;
  }

  lemma SafeExtends(h: Host, ds: seq<Directive>, n: nat, s: State, s': State)
    requires n < |ds| && Turn(h, ds[n], n, s, s')
    requires Safe(ds, s.trace) && (s.blocked <==> HasBounce(s.trace))
    ensures Safe(ds, s'.trace) && (s'.blocked <==> HasBounce(s'.trace))
  {
    hide TurnActs, OneEntry, SideEffect;
    var t, acts := |s.trace|, s'.trace[|s.trace|..];
    TurnActsOf(h, ds[n], n, s.blocked, acts);
    assert s'.trace == s.trace + acts;
    forall i, j | 0 <= i < j < |s'.trace| && s'.trace[i].Bounced? ensures SafeAfter(ds, s'.trace[j]) {
      if j >= t {
        assert s'.trace[j] == acts[j - t];
        if i < t {
          assert s.trace[i].Bounced?;
          assert s.blocked;
        }
      }
    }
    if HasBounce(s.trace) {
      var i :| 0 <= i < |s.trace| && s.trace[i].Bounced?;
      assert s'.trace[i].Bounced?;
    }
    if Latched(n, acts) { assert s'.trace[|s'.trace| - 1].Bounced?; }
    if HasBounce(s'.trace) && !HasBounce(s.trace) {
      var i :| 0 <= i < |s'.trace| && s'.trace[i].Bounced?;
      assert s'.trace[i] == acts[i - t];
    }
  }

  lemma PairExtends(trace: seq<Act>, acts: seq<Act>, i: nat, k: nat)
    requires Pair(trace, i, k)
    ensures Pair(trace + acts, i, k)
  {
    assert (trace + acts)[i + 1..k] == trace[i + 1..k];
  }

  lemma PairShifts(trace: seq<Act>, acts: seq<Act>, i: nat, k: nat)
    requires Pair(acts, i, k)
    ensures Pair(trace + acts, |trace| + i, |trace| + k)
  {
    assert (trace + acts)[|trace| + i + 1..|trace| + k] == acts[i + 1..k];
  }

  /** The starts and ends of one turn: none, or one pair, or one start whose handler threw. */
  ghost predicate OneBracket(h: Host, n: nat, acts: seq<Act>) {
    && (forall i :: 0 <= i < |acts| ==> acts[i].n == n)
    && (forall i :: 0 <= i < |acts| && acts[i].Start? ==> i == 0)
    && (forall k :: 0 <= k < |acts| && acts[k].End? ==> Pair(acts, 0, k))
    && (forall i, k :: 0 <= i < |acts| && 0 <= k < |acts| && acts[i].End? && acts[k].End? ==> i == k)
    && (acts != [] && acts[0].Start? && h.onStart(n) == None ==> Closed(acts, 0))
  }

  lemma TurnPairs(h: Host, d: Directive, n: nat, blocked: bool, acts: seq<Act>)
    requires TurnActs(h, d, n, blocked, acts)
    ensures OneBracket(h, n, acts)
  {
    hide SideEffect;
    var a := Unlatched(n, acts);
    TurnActsOf(h, d, n, blocked, acts);
    UnlatchedActs(n, acts);
    if a != [] && Bracketed(h, n, a) {
      BracketedActs(h, n, a);
      if |a| >= 2 {
        assert acts[1..|a| - 1] == a[1..|a| - 1];
        assert Pair(acts, 0, |a| - 1);
      }
    }
  }

  lemma StartsStayClosed(h: Host, n: nat, trace: seq<Act>, acts: seq<Act>)
    requires StartsClosed(h, trace) && OneBracket(h, n, acts)
    ensures StartsClosed(h, trace + acts)
  {
    hide Pair;
    var t, tr := |trace|, trace + acts;
    forall i | 0 <= i < |tr| && tr[i].Start? && h.onStart(tr[i].n) == None ensures Closed(tr, i) {
      if i < t {
        assert Closed(trace, i);
        var k: nat :| k < t && Pair(trace, i, k);
        PairExtends(trace, acts, i, k);
      } else {
        assert acts[i - t].Start?;
        var k: nat :| k < |acts| && Pair(acts, 0, k);
        PairShifts(trace, acts, 0, k);
      }
    }
  }

  lemma EndsStayOpened(h: Host, n: nat, trace: seq<Act>, acts: seq<Act>)
    requires EndsOpened(trace) && OneBracket(h, n, acts)
    ensures EndsOpened(trace + acts)
  {
    hide Pair, Closed;
    var t, tr := |trace|, trace + acts;
    forall k | 0 <= k < |tr| && tr[k].End? ensures Opening(tr, k) {
      if k < t {
        assert Opening(trace, k);
        var i: nat :| i < t && Pair(trace, i, k);
        PairExtends(trace, acts, i, k);
      } else {
        assert acts[k - t].End?;
        PairShifts(trace, acts, 0, k - t);
      }
    }
  }

  lemma OnceEachExtends(h: Host, n: nat, trace: seq<Act>, acts: seq<Act>)
    requires OnceEach(trace) && OneBracket(h, n, acts) && Below(trace, n)
    ensures Below(trace + acts, n + 1) && OnceEach(trace + acts)
  {
    hide Pair, Closed, Opening;
    var t, tr := |trace|, trace + acts;
    forall i, k | 0 <= i < k < |tr|
      ensures tr[i].End? && tr[k].End? ==> tr[i].n < tr[k].n
      ensures tr[i].Start? && tr[k].Start? ==> tr[i].n < tr[k].n
    {
      if i < t {
        assert tr[i] == trace[i];
        if k < t { assert tr[k] == trace[k]; } else { assert tr[k] == acts[k - t]; }
      } else {
        assert tr[i] == acts[i - t] && tr[k] == acts[k - t];
      }
    }
  }

  lemma BalancedExtends(h: Host, d: Directive, n: nat, s: State, s': State)
    requires Turn(h, d, n, s, s') && Balanced(h, s.trace) && Below(s.trace, n)
    ensures Balanced(h, s'.trace) && Below(s'.trace, n + 1)
  {
    var acts := s'.trace[|s.trace|..];
    TurnPairs(h, d, n, s.blocked, acts);
    hide TurnActs, OneEntry, OneBracket, StartsClosed, EndsOpened, OnceEach, Below;
    StartsStayClosed(h, n, s.trace, acts);
    EndsStayOpened(h, n, s.trace, acts);
    OnceEachExtends(h, n, s.trace, acts);
    assert s'.trace == s.trace + acts;
  }

  lemma CountGained(before: seq<Note>, after: seq<Note>, n: nat, m: nat)
    requires Gained(before, after, n)
    ensures Count(after, m) == Count(before, m) + if m == n then 1 else 0
  {
    assert after[..|after| - 1] == before;
  }

  lemma EntriesGain(s: State, s': State, n: nat, m: nat)
    requires OneEntry(s, s', n)
    ensures Entries(s', m) == Entries(s, m) + if m == n then 1 else 0
  {
    hide Count;
    if Gained(s.applied, s'.applied, n) { CountGained(s.applied, s'.applied, n, m); }
    if Gained(s.skipped, s'.skipped, n) { CountGained(s.skipped, s'.skipped, n, m); }
    if Gained(s.deferred, s'.deferred, n) { CountGained(s.deferred, s'.deferred, n, m); }
    if Gained(s.tasks, s'.tasks, n) { CountGained(s.tasks, s'.tasks, n, m); }
    if s'.bound == s.bound + [n] { assert s'.bound[..|s'.bound| - 1] == s.bound; }
  }

  ghost predicate Healthy(h: Host, ds: seq<Directive>, n: nat, s: State) {
    && Safe(ds, s.trace) && (s.blocked <==> HasBounce(s.trace))
    && Balanced(h, s.trace) && Below(s.trace, n)
    && Accounted(s, n)
  }

  lemma {:induction false} RunIsHealthy(h: Host, ds: seq<Directive>, n: nat, files: map<Path, Lines>)
    requires n <= |ds|
    ensures Healthy(h, ds, n, After(h, ds, n, Begin(files)))
  {
    hide Visit, Turn, Safe, Balanced, Below, HasBounce;
    if n == 0 {
      EmptyIsHealthy(h, ds, files);
    } else {
      RunIsHealthy(h, ds, n - 1, files);
      var s, s' := After(h, ds, n - 1, Begin(files)), After(h, ds, n, Begin(files));
      VisitTurn(h, ds[n - 1], n - 1, s);
      SafeExtends(h, ds, n - 1, s, s');
      BalancedExtends(h, ds[n - 1], n - 1, s, s');
      TurnEntry(h, ds[n - 1], n - 1, s, s');
      forall m: nat ensures Entries(s', m) == if m < n then 1 else 0 { EntriesGain(s, s', n - 1, m); }
    }
  }

  lemma TurnEntry(h: Host, d: Directive, n: nat, s: State, s': State)
    requires Turn(h, d, n, s, s')
    ensures OneEntry(s, s', n)
  {
  }

  lemma EmptyIsHealthy(h: Host, ds: seq<Directive>, files: map<Path, Lines>)
    ensures Healthy(h, ds, 0, Begin(files))
  {
  }

  /** The latch: past the first bounce no operator block is shown and no restart, step or
      wire run starts or executes a command. */
  lemma NothingDangerousAfterABounce(h: Host, ds: seq<Directive>, files: map<Path, Lines>)
    ensures var trace := After(h, ds, |ds|, Begin(files)).trace;
            forall i, j :: 0 <= i < j < |trace| && trace[i].Bounced? ==> SafeAfter(ds, trace[j])
  {
    RunIsHealthy(h, ds, |ds|, files);
  }

  /** Step events are balanced: a start whose handler returned is closed by one end, with
      only the step's own commands between; every end closes a start; each directive has at
      most one of either. */
  lemma StepEventsBalanced(h: Host, ds: seq<Directive>, files: map<Path, Lines>)
    ensures Balanced(h, After(h, ds, |ds|, Begin(files)).trace)
  {
    RunIsHealthy(h, ds, |ds|, files);
  }

  /** Every directive ends as exactly one of bound, applied, skipped, deferred, agent task. */
  lemma EveryDirectiveOnce(h: Host, ds: seq<Directive>, files: map<Path, Lines>, m: nat)
    ensures Entries(After(h, ds, |ds|, Begin(files)), m) == if m < |ds| then 1 else 0
  {
    RunIsHealthy(h, ds, |ds|, files);
  }

  lemma {:induction false} CountPositive(notes: seq<Note>, m: nat)
    ensures Count(notes, m) > 0 <==> exists i :: 0 <= i < |notes| && notes[i].n == m
  {
    if notes != [] {
      CountPositive(notes[..|notes| - 1], m);
      if i :| 0 <= i < |notes| && notes[i].n == m && i < |notes| - 1 { assert notes[..|notes| - 1][i].n == m; }
    }
  }

  /** Nothing is deferred and nothing left to an agent. */
  predicate FullyApplied(s: State) {
    s.deferred == [] && s.tasks == []
  }

  lemma AccountedFullyIff(s: State, n: nat)
    requires Accounted(s, n)
    ensures FullyApplied(s) <==>
            forall m: nat :: m < n ==> CountBound(s.bound, m) + Count(s.applied, m) + Count(s.skipped, m) == 1
  {
    if FullyApplied(s) {
      forall m: nat | m < n
        ensures CountBound(s.bound, m) + Count(s.applied, m) + Count(s.skipped, m) == 1
      {
        assert Entries(s, m) == 1;
      }
    } else {
      var m := if s.deferred != [] then s.deferred[0].n else s.tasks[0].n;
      CountPositive(s.deferred, m);
      CountPositive(s.tasks, m);
      assert Count(s.deferred, m) + Count(s.tasks, m) > 0 by {
        if s.deferred != [] { assert s.deferred[0].n == m; } else { assert s.tasks[0].n == m; }
      }
      assert Entries(s, m) == if m < n then 1 else 0;
      assert CountBound(s.bound, m) + Count(s.applied, m) + Count(s.skipped, m) != 1;
    }
  }

  /** fullyApplied exactly when every directive was applied, skipped or bound its prompt. */
  lemma FullyAppliedIff(h: Host, ds: seq<Directive>, files: map<Path, Lines>)
    ensures var s := After(h, ds, |ds|, Begin(files));
            FullyApplied(s) <==>
            forall m: nat :: m < |ds| ==> CountBound(s.bound, m) + Count(s.applied, m) + Count(s.skipped, m) == 1
  {
    RunIsHealthy(h, ds, |ds|, files);
    AccountedFullyIff(After(h, ds, |ds|, Begin(files)), |ds|);
  }
}
