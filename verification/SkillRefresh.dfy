/** What a refresh does: code-carrying directives run again, the rest is noted as skipped, for
    every document, host and start. */
module SkillRefresh {
  import opened Prelude
  import opened SkillModel
  import SkillUndo
  import SkillHealth

  /** One skipped entry about n, and nothing else. */
  predicate OnlySkipped(s: State, s': State, n: nat) {
    && |s'.skipped| == |s.skipped| + 1 && s'.skipped[..|s.skipped|] == s.skipped && s'.skipped[|s.skipped|].n == n
    && s' == s.(skipped := s'.skipped)
  }

  /** The handler of n has been started. */
  predicate Started(s: State, s': State, n: nat) {
    |s'.trace| > |s.trace| && s'.trace[..|s.trace|] == s.trace && s'.trace[|s.trace|] == SkillModel.Start(n)
  }

  predicate GuardHolds(d: Directive, vars: Vars) {
    match d.when
    case None => true
    case Some(Malformed) => true
    case Some(Cond(name, value)) => name in vars && vars[name].value == value
  }

  /** Prompts, operator blocks, env-sets and runs not marked refresh leave one skipped entry
      behind, whatever their guards. */
  lemma RefreshSkips(h: Host, d: Directive, n: nat, s: State)
    requires h.mode == Refresh
    ensures match d.action
            case Prompt(_, _, _, _) | Operator(_) | EnvSet(_) => OnlySkipped(s, Visit(h, d, n, s), n)
            case Run(effect, _, _, _, _) => effect != Some("refresh") ==> OnlySkipped(s, Visit(h, d, n, s), n)
            case _ => true
  {
  }

  /** Copies, dependencies, appends, merges and runs marked refresh are skipped for their guard,
      for the caller's wish, or because the line is there, and for nothing else: otherwise the
      handler starts. A merge without an object is the agent's. */
  lemma RefreshStarts(h: Host, d: Directive, n: nat, s: State)
    requires h.mode == Refresh
    ensures var s' := Visit(h, d, n, s);
            match d.action
            case Copy(_, _) | Dep(_, _, _) =>
              if GuardHolds(d, s.vars) then Started(s, s', n) else OnlySkipped(s, s', n)
            case Append(to, _, lines) =>
              if GuardHolds(d, s.vars) && !HasLine(Read(s.files, to), if lines == [] then "" else lines[0])
              then Started(s, s', n) else OnlySkipped(s, s', n)
            case JsonMerge(_, _, body) =>
              if !GuardHolds(d, s.vars) then OnlySkipped(s, s', n)
              else if body == None || body.value.Null? then
                s' == s.(blocked := true, tasks := s'.tasks, trace := s.trace + [Bounced(n)]) && |s'.tasks| == |s.tasks| + 1
              else Started(s, s', n)
            case Run(effect, _, _, _, _) =>
              effect == Some("refresh") ==>
                if GuardHolds(d, s.vars) && "refresh" !in h.skipEffects then Started(s, s', n) else OnlySkipped(s, s', n)
            case _ => true
  {
    hide Bracket, Absent, HasLine, JsonHas;
    forall detail ensures Started(s, Bracket(h, d, n, detail, s), n) { BracketStarted(h, d, n, detail, s); }
  }

  lemma BracketStarted(h: Host, d: Directive, n: nat, detail: seq<string>, s: State)
    ensures Started(s, Bracket(h, d, n, detail, s), n)
  {
    hide Perform, Deferrable;
    var s1 := s.(trace := s.trace + [SkillModel.Start(n)]);
    SkillHealth.PerformQuiet(h, d, n, s1);
  }

  /** What a refresh leaves alone in s since s0: prompts, the operator's screen, the .env keys. */
  predicate Untouched(s0: State, s: State) {
    && s.bound == s0.bound && s.messages == s0.messages
    && s0.trace <= s.trace && (forall i :: |s0.trace| <= i < |s.trace| ==> !s.trace[i].Show?)
    && s0.journal <= s.journal && forall i :: |s0.journal| <= i < |s.journal| ==> !s.journal[i].SetEnv?
  }

  /** The directives whose handlers a refresh may start. */
  predicate Code(a: Action) {
    a.Copy? || a.Append? || a.Dep? || a.JsonMerge? || a.Run? || a.Other?
  }

  lemma {:induction false} AppendSilent(to: Path, at: Option<string>, lines: seq<string>, k: nat, s: State)
    requires k <= |lines|
    ensures AppendFrom(to, at, lines, k, s).s.messages == s.messages
    decreases |lines| - k
  {
    if k < |lines| {
      var one := AppendOne(to, at, lines[k], s);
      if one.threw == None { AppendSilent(to, at, lines, k + 1, one.s); }
    }
  }

  lemma {:induction false} CopySilent(h: Host, n: nat, moves: seq<Move>, k: nat, s: State)
    requires k <= |moves|
    ensures CopyFrom(h, n, moves, k, s).s.messages == s.messages
    decreases |moves| - k
  {
    if k < |moves| && h.put(n, k).Done? {
      CopySilent(h, n, moves, k + 1, s.(files := s.files[moves[k].dst := h.put(n, k).content]));
    }
  }

  lemma {:induction false} RunSilent(h: Host, n: nat, a: Action, k: nat, s: State)
    requires a.Run? && k <= |a.cmds|
    ensures RunFrom(h, n, a, k, s).s.messages == s.messages
    decreases |a.cmds| - k
  {
    hide Render, BindCapture;
    if k < |a.cmds| {
      var one := RunOne(h, n, a, k, s);
      if one.threw == None { RunSilent(h, n, a, k + 1, one.s); }
    }
  }

  /** Handlers write no message. */
  lemma PerformSilent(h: Host, d: Directive, n: nat, s: State)
    requires Code(d.action)
    ensures Perform(h, d, n, s).s.messages == s.messages
  {
    match d.action {
      case Copy(_, moves) => CopySilent(h, n, moves, 0, s);
      case Append(to, at, lines) => AppendSilent(to, at, lines, 0, s);
      case Run(_, _, _, _, cmds) =>
        SkillUndo.CheckChangesNothing(h, n, cmds, 0, s);
        RunSilent(h, n, d.action, 0, s);
      case _ =>
    }
    hide Render, JoinTemplates, RunFrom, CheckFrom, CopyFrom, AppendFrom, ParseFile, Merge;
  }

  lemma BracketUntouched(h: Host, d: Directive, n: nat, detail: seq<string>, s: State)
    requires Code(d.action)
    ensures Untouched(s, Bracket(h, d, n, detail, s))
  {
    hide Perform, Fail, Untouched;
    var s1 := s.(trace := s.trace + [SkillModel.Start(n)]);
    var done := Perform(h, d, n, s1);
    var s2 := done.s.(trace := done.s.trace + [SkillModel.End(n, done.threw == None)]);
    StartedUntouched(s, n);
    if h.onStart(n).Some? {
      FailUntouched(s, s1, n, h.onStart(n).value);
    } else {
      PerformUntouched(h, d, n, s);
      if done.threw.Some? { FailUntouched(s, s2, n, done.threw.value); }
      if h.onEnd(n).Some? { FailUntouched(s, s2, n, h.onEnd(n).value); }
      AppliedUntouched(s, s2, Note(n, "applied", detail));
    }
  }

  lemma StartedUntouched(s: State, n: nat)
    ensures Untouched(s, s.(trace := s.trace + [SkillModel.Start(n)]))
  {
  }

  lemma FailUntouched(s0: State, s: State, n: nat, message: string)
    requires Untouched(s0, s)
    ensures Untouched(s0, Fail(s, n, message))
  {
    hide Deferrable;
  }

  lemma AppliedUntouched(s0: State, s: State, note: Note)
    requires Untouched(s0, s)
    ensures Untouched(s0, s.(applied := s.applied + [note]))
  {
  }

  lemma PerformUntouched(h: Host, d: Directive, n: nat, s: State)
    requires Code(d.action)
    ensures var done := Perform(h, d, n, s.(trace := s.trace + [SkillModel.Start(n)]));
            Untouched(s, done.s.(trace := done.s.trace + [SkillModel.End(n, done.threw == None)]))
  {
    hide Perform;
    var s1 := s.(trace := s.trace + [SkillModel.Start(n)]);
    SkillHealth.PerformQuiet(h, d, n, s1);
    SkillUndo.PerformExtends(h, d, n, s1);
    PerformSilent(h, d, n, s1);
    var done := Perform(h, d, n, s1).s;
    forall i | |s.trace| <= i < |done.trace| ensures !done.trace[i].Show? {
      if i > |s.trace| { assert done.trace[|s1.trace|..][i - |s1.trace|] == done.trace[i]; }
    }
  }

  lemma NotedUntouched(s: State, n: nat, why: string, detail: seq<string>)
    ensures Untouched(s, SkipNote(s, n, why, detail)) && Untouched(s, Bounce(s, n, why))
  {
  }

  lemma SkippedUntouched(s: State, s': State, n: nat)
    requires OnlySkipped(s, s', n)
    ensures Untouched(s, s')
  {
  }

  lemma StepUntouched(h: Host, d: Directive, n: nat, s: State)
    requires Code(d.action)
    ensures Untouched(s, VisitStep(h, d, n, s))
  {
    hide Bracket, StatusOf, SideEffect, Untouched, SkipNote, Bounce;
    var status := StatusOf(h, d, n, s.files);
    if status.Apply? { BracketUntouched(h, d, n, status.detail, s); }
    NotedUntouched(s, n, "owned by the caller", []);
    NotedUntouched(s, n, "an earlier step did not complete", []);
    NotedUntouched(s, n, "no deterministic handler", []);
    if status.Skip? { NotedUntouched(s, n, "present", status.detail); }
  }

  lemma TurnUntouched(h: Host, d: Directive, n: nat, s: State)
    requires h.mode == Refresh
    ensures Untouched(s, Visit(h, d, n, s))
  {
    hide VisitStep, VisitPrompt, VisitOperator, WhenMet, Untouched, SkipNote, OnlySkipped;
    RefreshSkips(h, d, n, s);
    if Code(d.action) {
      StepUntouched(h, d, n, s);
      NotedUntouched(s, n, "not part of code refresh", []);
      NotedUntouched(s, n, "guard not met", []);
    } else {
      SkippedUntouched(s, Visit(h, d, n, s), n);
    }
  }

  lemma UntouchedThen(s0: State, s: State, s': State)
    requires Untouched(s0, s) && Untouched(s, s')
    ensures Untouched(s0, s')
  {
  }

  /** A refresh binds no prompt, shows the operator nothing and sets no key. */
  lemma {:induction false} RefreshLeavesAlone(h: Host, ds: seq<Directive>, n: nat, s0: State)
    requires n <= |ds| && h.mode == Refresh
    ensures Untouched(s0, After(h, ds, n, s0))
  {
    hide Visit, Untouched;
    if n == 0 {
      assert Untouched(s0, s0) by { NothingTouched(s0); }
    } else {
      RefreshLeavesAlone(h, ds, n - 1, s0);
      var s := After(h, ds, n - 1, s0);
      TurnUntouched(h, ds[n - 1], n - 1, s);
      UntouchedThen(s0, s, Visit(h, ds[n - 1], n - 1, s));
    }
  }

  lemma NothingTouched(s: State)
    ensures Untouched(s, s)
  {
  }
}
