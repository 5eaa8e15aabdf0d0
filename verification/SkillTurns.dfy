/** What the handlers of scripts/skill-apply.ts leave behind, read off their inputs: texts that are
    substituted, prompts, commands and captures, dependencies, copies and merges. */
module SkillTurns {
  import opened Prelude
  import opened Text
  import opened SkillModel
  import SkillRefresh
  import SkillUndo

  // ---- Texts ------------------------------------------------------------------

  /** Substitution goes from left to right and stops at the first unbound name. */
  lemma {:induction false} RenderConcat(a: Template, b: Template, vars: Vars)
    ensures Render(a + b, vars) ==
            if Render(a, vars).Stuck? then Render(a, vars)
            else if Render(b, vars).Stuck? then Render(b, vars)
            else Rendering(Render(a, vars).text + Render(b, vars).text)
  {
    if a == [] {
      assert a + b == b;
      if Render(b, vars).Rendering? { assert "" + Render(b, vars).text == Render(b, vars).text; }
    } else {
      assert (a + b)[1..] == a[1..] + b && (a + b)[0] == a[0];
      RenderConcat(a[1..], b, vars);
      if Render(a, vars).Rendering? && Render(b, vars).Rendering? {
        var x := if a[0].Lit? then a[0].text else vars[a[0].name].value;
        assert x + (Render(a[1..], vars).text + Render(b, vars).text) == (x + Render(a[1..], vars).text) + Render(b, vars).text;
      }
    }
  }

  lemma RenderPiece(text: string, name: string, spelled: string, vars: Vars)
    ensures Render([Lit(text)], vars) == Rendering(text)
    ensures Render([Ref(name, spelled)], vars) == if name in vars then Rendering(vars[name].value) else Stuck(name)
  {
    var lit: Template := [Lit(text)];
    var ref: Template := [Ref(name, spelled)];
    assert lit[1..] == [] && ref[1..] == [] && text + "" == text;
    if name in vars { assert vars[name].value + "" == vars[name].value; }
  }

  /** The journal's form of a command keeps its references as they are written. */
  lemma {:induction false} RawConcat(a: Template, b: Template)
    ensures Raw(a + b) == Raw(a) + Raw(b)
  {
    if a == [] {
      assert a + b == b && "" + Raw(b) == Raw(b);
    } else {
      assert (a + b)[1..] == a[1..] + b;
      RawConcat(a[1..], b);
      var x := if a[0].Lit? then a[0].text else a[0].spelled;
      assert x + (Raw(a[1..]) + Raw(b)) == (x + Raw(a[1..])) + Raw(b);
    }
  }

  lemma RawPiece(text: string, name: string, spelled: string)
    ensures Raw([Lit(text)]) == text && Raw([Ref(name, spelled)]) == spelled
  {
    var lit: Template := [Lit(text)];
    var ref: Template := [Ref(name, spelled)];
    assert lit[1..] == [] && ref[1..] == [] && text + "" == text && spelled + "" == spelled;
  }

  // ---- Prompts ----------------------------------------------------------------

  /** What normalize: does to an answer; an unknown word does nothing. */
  lemma NormalizeReads(h: Host, value: string, how: string)
    ensures Normalize(h, "trim", value) == Trim(value) && Normalize(h, "lower", value) == h.lower(value)
    ensures var bare := Normalize(h, "rstrip-slash", value);
            && bare <= value && (bare != "" ==> bare[|bare| - 1] != '/')
            && forall i :: |bare| <= i < |value| ==> value[i] == '/'
    ensures how !in {"trim", "lower", "rstrip-slash"} ==> Normalize(h, how, value) == value
  {
    Slashes(value);
  }

  lemma {:induction false} Slashes(s: string)
    ensures var bare := StripSlashes(s);
            && bare <= s && (bare != "" ==> bare[|bare| - 1] != '/') && forall i :: |bare| <= i < |s| ==> s[i] == '/'
  {
    if s != "" && s[|s| - 1] == '/' { Slashes(s[..|s| - 1]); }
  }

  /** An input given beforehand is the answer; else the resolver is asked; an answer that passes
      the pattern is bound after normalizing, secret as declared, and nothing else changes. One that
      does not pass, or none, is deferred. */
  lemma PromptReads(h: Host, name: string, secret: bool, valid: Option<Shape>, how: string, n: nat, s: State)
    ensures var s' := VisitPrompt(h, Directive(None, Prompt(name, secret, valid, how), []), n, s);
            var asked := if name in h.inputs then Gave(h.inputs[name]) else h.ask(n);
            var broken := valid.Some? && h.compile(valid.value.pattern, valid.value.flags).Some?;
            match asked
            case Gave(text) =>
              var value := Normalize(h, how, text);
              if broken then s' == Fail(s, n, h.compile(valid.value.pattern, valid.value.flags).value)
              else if valid == None || h.test(valid.value.pattern, valid.value.flags, value) then
                s' == s.(vars := s.vars[name := Bound(value, secret)], bound := s.bound + [n])
              else Deferred(s, s', n)
            case Silent => Deferred(s, s', n) && s'.deferred[|s.deferred|].why == name
            case AskThrew(message) => s' == Fail(s, n, message)
  {
    hide Normalize, Fail;
  }

  /** One deferred entry about n, and nothing else. */
  predicate Deferred(s: State, s': State, n: nat) {
    && |s'.deferred| == |s.deferred| + 1 && s'.deferred[..|s.deferred|] == s.deferred && s'.deferred[|s.deferred|].n == n
    && s' == s.(deferred := s'.deferred)
  }

  /** An error that says unresolved {{ waits for an input; any other is a bounce, which blocks. */
  lemma FailReads(s: State, n: nat, message: string)
    ensures var s' := Fail(s, n, message);
            if exists i: nat :: Occurs(message, "unresolved {{", i) then
              Deferred(s, s', n) && s'.deferred[|s.deferred|].why == message
            else
              && |s'.tasks| == |s.tasks| + 1 && s'.tasks[..|s.tasks|] == s.tasks && s'.tasks[|s.tasks|].n == n
              && s' == s.(blocked := true, tasks := s'.tasks, trace := s.trace + [Bounced(n)])
  {
    ContainsIff(message, "unresolved {{");
    hide Contains, Occurs;
  }

  lemma UnresolvedWaits(s: State, n: nat, name: string)
    ensures Deferred(s, Fail(s, n, Unresolved(name)), n)
  {
    var message := Unresolved(name);
    FailReads(s, n, message);
    assert Occurs(message, "unresolved {{", 0);
  }

  // ---- Commands ---------------------------------------------------------------

  /** One command, add, is run; its undo is the other one. */
  lemma DepReads(h: Host, n: nat, add: string, remove: string, s: State)
    ensures var done := PerformDep(h, n, add, remove, s);
            match h.exec(n, 0)
            case Out(_) =>
              && done.threw == None
              && done.s == s.(trace := s.trace + [Exec(n, add)], journal := s.journal + [Ran(add, Some(remove))])
            case Threw(message) => done.threw == Some(message) && done.s == s.(trace := s.trace + [Exec(n, add)])
  {
  }

  /** A plain capture binds the trimmed output, not secret, unless the pattern is broken or says no. */
  lemma BareCapture(h: Host, name: string, out: string, shape: Option<string>, vars: Vars)
    ensures var b := BindCapture(h, Bare(name), out, shape, vars);
            if shape == None || shape == Some("") then b == Binding(vars[name := Bound(out, false)], None)
            else if h.compile(shape.value, "").Some? then b == Binding(vars, h.compile(shape.value, ""))
            else if h.test(shape.value, "", out) then b == Binding(vars[name := Bound(out, false)], None)
            else b.vars == vars && b.threw.Some?
  {
  }

  /** A capture list reads the output as JSON and binds its pairs from left to right: one more pair
      binds one more name, unless an earlier one failed. */
  lemma {:induction false} PairsSnoc(h: Host, pairs: seq<Pair>, p: Pair, json: Json, vars: Vars)
    ensures BindPairs(h, pairs, json, None, vars).threw == None
    ensures BindPairs(h, pairs + [p], json, None, vars) ==
            var b := BindPairs(h, pairs, json, None, vars);
            if p.Bind? then Binding(b.vars[p.name := Bound(h.pick(json, p.path), false)], None) else b
    decreases |pairs|
  {
    if pairs == [] {
      assert [p][1..] == [] && [] + [p] == [p];
    } else {
      assert (pairs + [p])[1..] == pairs[1..] + [p] && (pairs + [p])[0] == pairs[0];
      var next := if pairs[0].Bind? then vars[pairs[0].name := Bound(h.pick(json, pairs[0].path), false)] else vars;
      PairsSnoc(h, pairs[1..], p, json, next);
    }
  }

  lemma PairsCapture(h: Host, pairs: seq<Pair>, out: string, vars: Vars)
    ensures h.parse(Split(out)).Bad? ==>
              BindCapture(h, Pairs(pairs), out, None, vars) == Binding(vars, Some(h.parse(Split(out)).message))
    ensures h.parse(Split(out)).Value? ==>
              BindCapture(h, Pairs(pairs), out, None, vars) == BindPairs(h, pairs, h.parse(Split(out)).json, None, vars)
    ensures BindPairs(h, [], Null, None, vars) == Binding(vars, None)
  {
  }

  /** The named fields of a step, trimmed, a missing one empty. */
  lemma {:induction false} FieldsSnoc(pairs: seq<Pair>, p: Pair, fields: map<string, string>, vars: Vars)
    ensures BindFields([], fields, vars) == vars
    ensures BindFields(pairs + [p], fields, vars) ==
            var bound := BindFields(pairs, fields, vars);
            if p.Bind? then bound[p.name := Bound(if p.path in fields then Trim(fields[p.path]) else "", false)] else bound
    decreases |pairs|
  {
    hide Trim;
    if pairs == [] {
      assert [p][1..] == [] && [] + [p] == [p];
    } else {
      assert (pairs + [p])[1..] == pairs[1..] + [p] && (pairs + [p])[0] == pairs[0];
      var next := if pairs[0].Bind?
                  then vars[pairs[0].name := Bound(if pairs[0].path in fields then Trim(fields[pairs[0].path]) else "", false)]
                  else vars;
      FieldsSnoc(pairs[1..], p, fields, next);
    }
  }

  /** Command i can be sent and succeeds. */
  predicate Goes(h: Host, n: nat, cmds: seq<Template>, vars: Vars, i: nat)
    requires i < |cmds|
  {
    Render(cmds[i], vars).Rendering? && h.exec(n, i).Out?
  }

  /** trace goes on with the commands k..f, substituted. */
  predicate Sent(n: nat, cmds: seq<Template>, vars: Vars, k: nat, f: nat, before: seq<Act>, trace: seq<Act>) {
    && k <= f <= |cmds| && |trace| == |before| + (f - k) && before <= trace
    && forall j :: |before| <= j < |trace| ==>
         trace[j].Exec? && trace[j].n == n && Render(cmds[k + (j - |before|)], vars) == Rendering(trace[j].cmd)
  }

  /** journal goes on with those commands as they are written, undone by undo. */
  predicate Journaled(cmds: seq<Template>, undo: Option<string>, k: nat, f: nat, before: seq<Record>, journal: seq<Record>) {
    && k <= f <= |cmds| && |journal| == |before| + (f - k) && before <= journal
    && forall j :: |before| <= j < |journal| ==> journal[j] == Ran(Raw(cmds[k + (j - |before|)]), undo)
  }

  lemma SentNext(n: nat, cmds: seq<Template>, vars: Vars, k: nat, f: nat, before: seq<Act>, trace: seq<Act>, text: string)
    requires k < f <= |cmds| && Render(cmds[k], vars) == Rendering(text)
    requires Sent(n, cmds, vars, k + 1, f, before + [Exec(n, text)], trace)
    ensures Sent(n, cmds, vars, k, f, before, trace)
  {
    hide Render;
    var more := before + [Exec(n, text)];
    assert trace[|before|] == more[|before|];
    forall j | |before| <= j < |trace|
      ensures trace[j].Exec? && trace[j].n == n && Render(cmds[k + (j - |before|)], vars) == Rendering(trace[j].cmd)
    {
      if j > |before| { assert k + 1 + (j - |more|) == k + (j - |before|); }
    }
  }

  lemma JournaledNext(cmds: seq<Template>, undo: Option<string>, k: nat, f: nat, before: seq<Record>, journal: seq<Record>)
    requires k < f <= |cmds| && Journaled(cmds, undo, k + 1, f, before + [Ran(Raw(cmds[k]), undo)], journal)
    ensures Journaled(cmds, undo, k, f, before, journal)
  {
    hide Raw;
    var more := before + [Ran(Raw(cmds[k]), undo)];
    assert journal[|before|] == more[|before|];
    forall j | |before| <= j < |journal| ensures journal[j] == Ran(Raw(cmds[k + (j - |before|)]), undo) {
      if j > |before| { assert k + 1 + (j - |more|) == k + (j - |before|); }
    }
  }

  /** A run without a capture: commands go out in order, each journaled once it succeeded, with its
      undo only for effect:external; the first that cannot be sent or fails ends the run. f is
      that command, or the number of them. */
  lemma {:induction false} RunReads(h: Host, n: nat, a: Action, k: nat, f: nat, s: State)
    requires a.Run? && a.capture == None && k <= f <= |a.cmds|
    requires forall i :: k <= i < f ==> Goes(h, n, a.cmds, s.vars, i)
    requires f < |a.cmds| ==> !Goes(h, n, a.cmds, s.vars, f)
    ensures var done := RunFrom(h, n, a, k, s);
            var undo := if a.effect == Some("external") then a.undo else None;
            && done.s == s.(trace := done.s.trace, journal := done.s.journal)
            && Journaled(a.cmds, undo, k, f, s.journal, done.s.journal)
            && if f == |a.cmds| then done.threw == None && Sent(n, a.cmds, s.vars, k, f, s.trace, done.s.trace)
               else match Render(a.cmds[f], s.vars)
                    case Stuck(name) =>
                      done.threw == Some(Unresolved(name)) && Sent(n, a.cmds, s.vars, k, f, s.trace, done.s.trace)
                    case Rendering(_) =>
                      done.threw == Some(h.exec(n, f).message) && Sent(n, a.cmds, s.vars, k, f + 1, s.trace, done.s.trace)
    decreases f - k
  {
    hide Render, Raw, Sent, Journaled;
    if k < f {
      assert Goes(h, n, a.cmds, s.vars, k);
      var one := RunOne(h, n, a, k, s);
      RunReads(h, n, a, k + 1, f, one.s);
      var undo := if a.effect == Some("external") then a.undo else None;
      var done := RunFrom(h, n, a, k, s);
      JournaledNext(a.cmds, undo, k, f, s.journal, done.s.journal);
      var text := Render(a.cmds[k], s.vars).text;
      var last := if f < |a.cmds| && Render(a.cmds[f], s.vars).Rendering? then f + 1 else f;
      SentNext(n, a.cmds, s.vars, k, last, s.trace, done.s.trace, text);
    } else {
      NothingSent(n, a.cmds, s.vars, k, s.trace);
      NothingJournaled(a.cmds, if a.effect == Some("external") then a.undo else None, k, s.journal);
      if f < |a.cmds| && Render(a.cmds[f], s.vars).Rendering? {
        OneSent(n, a.cmds, s.vars, k, s.trace, Render(a.cmds[f], s.vars).text);
      }
    }
  }

  lemma NothingSent(n: nat, cmds: seq<Template>, vars: Vars, k: nat, trace: seq<Act>)
    requires k <= |cmds|
    ensures Sent(n, cmds, vars, k, k, trace, trace)
  {
  }

  lemma OneSent(n: nat, cmds: seq<Template>, vars: Vars, k: nat, trace: seq<Act>, text: string)
    requires k < |cmds| && Render(cmds[k], vars) == Rendering(text)
    ensures Sent(n, cmds, vars, k, k + 1, trace, trace + [Exec(n, text)])
  {
    hide Render;
  }

  lemma NothingJournaled(cmds: seq<Template>, undo: Option<string>, k: nat, journal: seq<Record>)
    requires k <= |cmds|
    ensures Journaled(cmds, undo, k, k, journal, journal)
  {
  }

  /** A check sends its commands the same way, and journals and binds nothing. */
  lemma {:induction false} CheckReads(h: Host, n: nat, cmds: seq<Template>, k: nat, f: nat, s: State)
    requires k <= f <= |cmds|
    requires forall i :: k <= i < f ==> Goes(h, n, cmds, s.vars, i)
    requires f < |cmds| ==> !Goes(h, n, cmds, s.vars, f)
    ensures var done := CheckFrom(h, n, cmds, k, s);
            && done.s == s.(trace := done.s.trace)
            && if f == |cmds| then done.threw == None && Sent(n, cmds, s.vars, k, f, s.trace, done.s.trace)
               else match Render(cmds[f], s.vars)
                    case Stuck(name) =>
                      done.threw == Some(Unresolved(name)) && Sent(n, cmds, s.vars, k, f, s.trace, done.s.trace)
                    case Rendering(_) =>
                      done.threw == Some(h.exec(n, f).message) && Sent(n, cmds, s.vars, k, f + 1, s.trace, done.s.trace)
    decreases f - k
  {
    hide Render, Sent;
    if k < f {
      assert Goes(h, n, cmds, s.vars, k);
      var text := Render(cmds[k], s.vars).text;
      CheckReads(h, n, cmds, k + 1, f, s.(trace := s.trace + [Exec(n, text)]));
      var last := if f < |cmds| && Render(cmds[f], s.vars).Rendering? then f + 1 else f;
      SentNext(n, cmds, s.vars, k, last, s.trace, CheckFrom(h, n, cmds, k, s).s.trace, text);
    } else {
      NothingSent(n, cmds, s.vars, k, s.trace);
      if f < |cmds| && Render(cmds[f], s.vars).Rendering? {
        OneSent(n, cmds, s.vars, k, s.trace, Render(cmds[f], s.vars).text);
      }
    }
  }

  /** A step is one stream of all its lines; when it completes, its capture binds the fields and one
      record without an undo is journaled. */
  lemma StepReads(h: Host, n: nat, capture: Option<Capture>, cmds: seq<Template>, s: State)
    ensures var done, text := PerformStep(h, n, capture, cmds, s), Render(JoinTemplates(cmds), s.vars);
            && (!h.streams ==> done.s == s && done.threw.Some?)
            && (h.streams && text.Stuck? ==> done == Step(s, Some(Unresolved(text.name))))
            && (h.streams && text.Rendering? ==>
                  var sent := s.(trace := s.trace + [Stream(n, text.text)]);
                  var reply := h.stream(n);
                  if reply.StepThrew? then done == Step(sent, Some(reply.message))
                  else if !reply.ok then done.s == sent && done.threw.Some?
                  else
                    && done.threw == None
                    && done.s == sent.(vars := done.s.vars, journal := s.journal + [Ran(Raw(JoinTemplates(cmds)), None)])
                    && done.s.vars == if capture.Some? && capture.value.Pairs?
                                      then BindFields(capture.value.pairs, reply.fields, s.vars) else s.vars)
  {
    hide Render, Raw, JoinTemplates, BindFields;
  }

  /** The lines of a body are joined by line breaks. */
  lemma JoinReads(t: Template, u: Template, ts: seq<Template>, vars: Vars)
    ensures JoinTemplates([]) == [] && JoinTemplates([t]) == t
    ensures Raw(JoinTemplates([t, u] + ts)) == Raw(t) + "\n" + Raw(JoinTemplates([u] + ts))
    ensures Render(t, vars).Rendering? && Render(JoinTemplates([u] + ts), vars).Rendering? ==>
              Render(JoinTemplates([t, u] + ts), vars) ==
              Rendering(Render(t, vars).text + "\n" + Render(JoinTemplates([u] + ts), vars).text)
  {
    var rest := JoinTemplates([u] + ts);
    assert ([t, u] + ts)[1..] == [u] + ts;
    assert JoinTemplates([t, u] + ts) == t + [Lit("\n")] + rest;
    RawConcat(t + [Lit("\n")], rest);
    RawConcat(t, [Lit("\n")]);
    RawPiece("\n", "", "");
    RenderConcat(t + [Lit("\n")], rest, vars);
    RenderConcat(t, [Lit("\n")], vars);
    RenderPiece("\n", "", "", vars);
    hide Raw, Render, JoinTemplates;
  }

  // ---- Copies -----------------------------------------------------------------

  /** The files after the first f copies. */
  function Copied(h: Host, n: nat, moves: seq<Move>, f: nat, files: map<Path, Lines>): map<Path, Lines>
    requires f <= |moves| && forall i :: 0 <= i < f ==> h.put(n, i).Done?
  {
    if f == 0 then files else Copied(h, n, moves, f - 1, files)[moves[f - 1].dst := h.put(n, f - 1).content]
  }

  lemma {:induction false} CopiesFrom(h: Host, n: nat, moves: seq<Move>, k: nat, f: nat, s: State, files: map<Path, Lines>)
    requires k <= f <= |moves| && (forall i :: 0 <= i < f ==> h.put(n, i).Done?)
    requires s.files == Copied(h, n, moves, k, files)
    ensures CopyFrom(h, n, moves, k, s) == CopyFrom(h, n, moves, f, s.(files := Copied(h, n, moves, f, files)))
    decreases f - k
  {
    if k < f {
      assert h.put(n, k).Done?;
      CopiesFrom(h, n, moves, k + 1, f, s.(files := s.files[moves[k].dst := h.put(n, k).content]), files);
    } else {
      assert s.(files := s.files) == s;
    }
  }

  lemma {:induction false} WroteEach(moves: seq<Move>)
    ensures |Wrotes(moves)| == |moves| && forall i :: 0 <= i < |moves| ==> Wrotes(moves)[i] == Wrote(moves[i].dst)
  {
    if moves != [] { WroteEach(moves[1..]); }
  }

  lemma {:induction false} DestsOf(moves: seq<Move>, p: Path)
    ensures p in DestSet(moves) <==> exists i :: 0 <= i < |moves| && moves[i].dst == p
  {
    if moves != [] {
      DestsOf(moves[1..], p);
      if i :| 0 <= i < |moves[1..]| && moves[1..][i].dst == p { assert moves[i + 1].dst == p; }
      if i :| 0 < i < |moves| && moves[i].dst == p { assert moves[1..][i - 1].dst == p; }
    }
  }

  /** Copies are made in order and journaled together after the last one. When copy f fails, the
      files before it, and what it left of its own, stay without a journal entry. */
  lemma CopyReads(h: Host, n: nat, branch: bool, moves: seq<Move>, f: nat, s: State, p: Path)
    requires f <= |moves| && (forall i :: 0 <= i < f ==> h.put(n, i).Done?) && (f < |moves| ==> h.put(n, f).Failed?)
    ensures var done, files := PerformCopy(h, n, branch, moves, s), Copied(h, n, moves, f, s.files);
            if branch && h.exec(n, 0).Threw? then done == Step(s, Some(h.exec(n, 0).message))
            else if f == |moves| then
              && done.threw == None && done.s == s.(files := files, journal := done.s.journal)
              && |done.s.journal| == |s.journal| + |moves| && s.journal <= done.s.journal
              && forall i :: |s.journal| <= i < |done.s.journal| ==> done.s.journal[i] == Wrote(moves[i - |s.journal|].dst)
            else
              var partial := h.put(n, f).partial;
              && done.threw == Some(h.put(n, f).message)
              && done.s == s.(files := if partial.Some? then files[moves[f].dst := partial.value] else files,
                              orphans := done.s.orphans)
              && (p in done.s.orphans <==>
                    p in s.orphans || exists i :: 0 <= i < |moves| && moves[i].dst == p && (i < f || (i == f && partial.Some?)))
  {
    hide CopyFrom, Copied;
    if !(branch && h.exec(n, 0).Threw?) {
      assert Copied(h, n, moves, 0, s.files) == s.files by { NoneCopied(h, n, moves, s.files); }
      CopiesFrom(h, n, moves, 0, f, s, s.files);
      CopyStep(h, n, moves, f, s.(files := Copied(h, n, moves, f, s.files)));
      WroteEach(moves);
      if f < |moves| { LeftBehind(moves, f, h.put(n, f).partial.Some?, p); }
    }
    hide DestSet, Wrotes;
  }

  lemma NoneCopied(h: Host, n: nat, moves: seq<Move>, files: map<Path, Lines>)
    ensures Copied(h, n, moves, 0, files) == files
  {
  }

  /** What happens at copy f. */
  lemma CopyStep(h: Host, n: nat, moves: seq<Move>, f: nat, s: State)
    requires f <= |moves| && (f < |moves| ==> h.put(n, f).Failed?)
    ensures CopyFrom(h, n, moves, f, s) ==
            if f == |moves| then Step(s.(journal := s.journal + Wrotes(moves)), None)
            else
              var partial := h.put(n, f).partial;
              Step(s.(files := if partial.Some? then s.files[moves[f].dst := partial.value] else s.files,
                      orphans := s.orphans + DestSet(moves[..if partial.Some? then f + 1 else f])),
                   Some(h.put(n, f).message))
  {
    hide DestSet, Wrotes;
  }

  lemma LeftBehind(moves: seq<Move>, f: nat, partly: bool, p: Path)
    requires f < |moves|
    ensures p in DestSet(moves[..if partly then f + 1 else f]) <==>
            exists i :: 0 <= i < |moves| && moves[i].dst == p && (i < f || (i == f && partly))
  {
    var end := if partly then f + 1 else f;
    DestsOf(moves[..end], p);
    hide DestSet;
    if i :| 0 <= i < |moves| && moves[i].dst == p && i < end { assert moves[..end][i].dst == p; }
  }

  // ---- Appends ----------------------------------------------------------------

  /** Lines are appended one after the other; the first that finds no marker ends it. */
  lemma {:induction false} AppendSnoc(to: Path, at: Option<string>, lines: seq<string>, line: string, k: nat, s: State)
    requires k <= |lines|
    ensures AppendFrom(to, at, lines, |lines|, s) == Step(s, None)
    ensures AppendFrom(to, at, lines + [line], k, s) ==
            var done := AppendFrom(to, at, lines, k, s);
            if done.threw.Some? then done else AppendOne(to, at, line, done.s)
    decreases |lines| - k
  {
    hide AppendOne;
    var all := lines + [line];
    if k < |lines| {
      assert all[k] == lines[k];
      var one := AppendOne(to, at, lines[k], s);
      if one.threw == None { AppendSnoc(to, at, lines, line, k + 1, one.s); }
    } else {
      assert all[k] == line;
      var one := AppendOne(to, at, line, s);
      assert AppendFrom(to, at, all, |all|, one.s) == Step(one.s, None);
    }
  }

  /** s' is s with lines at the end of the file to, in order, each with its record. */
  predicate AppendedAll(to: Path, lines: seq<string>, s: State, s': State) {
    && s' == s.(files := s'.files, journal := s'.journal)
    && Body(Read(s'.files, to)) == Body(Read(s.files, to)) + lines
    && s'.files - {to} == s.files - {to}
    && |s'.journal| == |s.journal| + |lines| && s.journal <= s'.journal
    && forall j :: 0 <= j < |lines| ==> s'.journal[|s.journal| + j] == Appended(to, lines[j])
  }

  lemma AppendedNext(to: Path, line: string, lines: seq<string>, s: State, s1: State, s': State)
    requires AppendedAll(to, [line], s, s1) && AppendedAll(to, lines, s1, s')
    ensures AppendedAll(to, [line] + lines, s, s')
  {
    hide Body, Read;
    assert s1.journal[|s.journal| + 0] == Appended(to, [line][0]);
    forall j | 0 <= j < |[line] + lines| ensures s'.journal[|s.journal| + j] == Appended(to, ([line] + lines)[j]) {
      if j > 0 { assert |s1.journal| + (j - 1) == |s.journal| + j; } else { assert s'.journal[|s.journal|] == s1.journal[|s.journal|]; }
    }
  }

  lemma AppendedOne(to: Path, line: string, s: State)
    requires '\n' !in line
    ensures var one := AppendOne(to, None, line, s); one.threw == None && AppendedAll(to, [line], s, one.s)
  {
    SplitSingle(line);
    AddedBody(Read(s.files, to), line);
    hide AddText, Split, Body;
  }

  lemma AppendStep(to: Path, at: Option<string>, lines: seq<string>, k: nat, s: State)
    requires k <= |lines|
    ensures AppendFrom(to, at, lines, k, s) ==
            if k == |lines| then Step(s, None)
            else if AppendOne(to, at, lines[k], s).threw.Some? then AppendOne(to, at, lines[k], s)
            else AppendFrom(to, at, lines, k + 1, AppendOne(to, at, lines[k], s).s)
  {
    hide AppendOne;
  }

  /** Without a marker they all go to the end. */
  lemma {:induction false} AppendReads(to: Path, lines: seq<string>, k: nat, s: State)
    requires k <= |lines| && forall i :: 0 <= i < |lines| ==> '\n' !in lines[i]
    ensures var done := AppendFrom(to, None, lines, k, s); done.threw == None && AppendedAll(to, lines[k..], s, done.s)
    decreases |lines| - k
  {
    hide AppendOne, AppendedAll, AppendFrom;
    AppendStep(to, None, lines, k, s);
    if k < |lines| {
      var one := AppendOne(to, None, lines[k], s);
      AppendedOne(to, lines[k], s);
      AppendReads(to, lines, k + 1, one.s);
      AppendedNext(to, lines[k], lines[k + 1..], s, one.s, AppendFrom(to, None, lines, k, s).s);
      assert [lines[k]] + lines[k + 1..] == lines[k..];
    } else {
      assert lines[k..] == [];
      NothingAppended(to, s);
    }
  }

  lemma NothingAppended(to: Path, s: State)
    ensures AppendedAll(to, [], s, s)
  {
    hide Body, Read;
  }

  lemma AddedBody(before: Lines, line: string)
    requires Split(line) == [line]
    ensures Body(AddText(before, line)) == Body(before) + [line]
  {
    hide Split;
  }

  // ---- json-merge -------------------------------------------------------------

  /** An object's own field, its first if a name comes twice; nothing else has fields. */
  lemma {:induction false} LookupReads(fields: seq<(string, Json)>, key: string)
    ensures Lookup(fields, key).Some? <==> exists i :: 0 <= i < |fields| && fields[i].0 == key
    ensures forall i :: 0 <= i < |fields| && fields[i].0 == key && (forall j :: 0 <= j < i ==> fields[j].0 != key) ==>
              Lookup(fields, key) == Some(fields[i].1)
  {
    if fields != [] {
      LookupReads(fields[1..], key);
      forall i | 0 <= i < |fields| && fields[i].0 == key && (forall j :: 0 <= j < i ==> fields[j].0 != key)
        ensures Lookup(fields, key) == Some(fields[i].1)
      {
        if i > 0 {
          assert fields[1..][i - 1] == fields[i];
          assert forall j :: 0 <= j < i - 1 ==> fields[1..][j] == fields[j + 1];
        }
      }
      if i :| 0 <= i < |fields[1..]| && fields[1..][i].0 == key { assert fields[i + 1].0 == key; }
      if i :| 0 < i < |fields| && fields[i].0 == key { assert fields[1..][i - 1].0 == key; }
    }
  }

  /** Which elements an entry of the journal or an object finds: === on fields, so never by an
      object or an array. */
  lemma HitReads(el: Json, key: string, value: Option<Json>)
    ensures el.Obj? ==>
              (Hit(el, key, value) <==>
               Lookup(el.fields, key) == value && (value.Some? ==> !value.value.Obj? && !value.value.Arr?))
    ensures el.Arr? ==> (Hit(el, key, value) <==> value == None)
    ensures !el.Obj? && !el.Arr? ==> !Hit(el, key, value)
  {
    hide Lookup;
  }

  /** The target is read as a JSON array, an empty file as an empty one. Without an element that
      the object's key finds it gets the object at its end; a refresh puts a changed object in the
      place of the first one found; both are journaled. Otherwise nothing happens. */
  lemma MergeReads(h: Host, into: Path, key: string, obj: Json, arr: seq<Json>, i: nat, s: State)
    requires var lines := Read(s.files, into);
             if lines == [""] then arr == [] else h.parse(lines) == Value(Arr(arr))
    requires i <= |arr| && (forall j :: 0 <= j < i ==> !Hit(arr[j], key, Field(obj, key)))
    requires i < |arr| ==> Hit(arr[i], key, Field(obj, key))
    ensures var done := PerformMerge(h, into, key, obj, s);
            && done.threw == None
            && done.s == (if i == |arr| then
                            s.(files := s.files[into := h.stringify(arr + [obj])],
                               journal := s.journal + [Merged(into, key, Field(obj, key), None)])
                          else if h.mode == Refresh && arr[i] != obj then
                            s.(files := s.files[into := h.stringify(arr[i := obj])],
                               journal := s.journal + [Merged(into, key, Field(obj, key), Some(arr[i]))])
                          else s)
  {
    hide Hit, Field;
    assert FindIndex(arr, key, Field(obj, key)) == i;
  }

  /** Anything but an array there is an error, and nothing is written. */
  lemma MergeRefuses(h: Host, into: Path, key: string, obj: Json, s: State)
    requires Read(s.files, into) != [""]
    ensures var done, parsed := PerformMerge(h, into, key, obj, s), h.parse(Read(s.files, into));
            && (parsed.Bad? ==> done == Step(s, Some(parsed.message)))
            && (parsed.Value? && !parsed.json.Arr? ==> done.s == s && done.threw.Some?)
  {
  }

  // ---- One turn ---------------------------------------------------------------

  /** step-start, the handler, step-end with its verdict, and the entry. A start that throws keeps
      the handler from running. The handler's error comes before that of step-end. */
  lemma BracketReads(h: Host, d: Directive, n: nat, detail: seq<string>, s: State)
    ensures var s1, s' := s.(trace := s.trace + [SkillModel.Start(n)]), Bracket(h, d, n, detail, s);
            var done := Perform(h, d, n, s1);
            var ended := done.s.(trace := done.s.trace + [SkillModel.End(n, done.threw == None)]);
            match h.onStart(n)
            case Some(message) => s' == Fail(s1, n, message)
            case None =>
              if done.threw.Some? then s' == Fail(ended, n, done.threw.value)
              else if h.onEnd(n).Some? then s' == Fail(ended, n, h.onEnd(n).value)
              else s' == ended.(applied := s'.applied) && |s'.applied| == |ended.applied| + 1
                   && s'.applied[..|ended.applied|] == ended.applied && s'.applied[|ended.applied|] == Note(n, "applied", detail)
  {
    hide Perform, Fail;
  }

  /** An operator block is shown, unless something bounced before; its handler's error bounces. */
  lemma OperatorReads(h: Host, text: Template, n: nat, s: State)
    ensures var s', r := VisitOperator(h, Directive(None, Operator(text), []), n, s), Render(text, s.vars);
            if s.blocked then s' == s.(skipped := s'.skipped) && |s'.skipped| == |s.skipped| + 1
            else if r.Stuck? then s' == Fail(s, n, Unresolved(r.name))
            else
              var shown := s.(messages := s.messages + [r.text], trace := s.trace + [Show(n, r.text)]);
              match h.onOperator(n)
              case Some(message) => s' == Fail(shown, n, message)
              case None => s' == shown.(applied := s'.applied) && |s'.applied| == |s.applied| + 1
  {
    hide Render, Fail;
  }

  /** In an install a copy runs when a destination is missing, an append when its first line is, a
      dependency when a package is, an env-set when one of its keys is not set, a merge when no
      element has its key; runs always, but for those the caller owns and, after a bounce,
      restarts, steps and wires. */
  predicate Due(h: Host, d: Directive, n: nat, s: State) {
    match d.action
    case Copy(_, moves) => exists i :: 0 <= i < |moves| && moves[i].dst !in s.files
    case Append(to, _, lines) => forall j :: 0 <= j < |Read(s.files, to)| ==>
        Trim(Read(s.files, to)[j]) != Trim(if lines == [] then "" else lines[0])
    case Dep(_, _, _) => h.missing(n) != []
    case EnvSet(entries) => exists i :: 0 <= i < |entries| && !KeySet(Read(s.files, ENV), entries[i].probe)
    case JsonMerge(into, key, body) =>
      && body.Some? && body.value != Null
      && var lines := Read(s.files, into);
         lines == [""] || !h.parse(lines).Value? || !h.parse(lines).json.Arr?
         || forall j :: 0 <= j < |h.parse(lines).json.items| ==> !Hit(h.parse(lines).json.items[j], key, Field(body.value, key))
    case Run(effect, _, _, _, _) =>
      && (effect.Some? ==> effect.value !in h.skipEffects)
      && !(s.blocked && (effect == Some("restart") || effect == Some("step") || effect == Some("wire")))
    case _ => false
  }

  lemma InstallStarts(h: Host, d: Directive, n: nat, s: State)
    requires h.mode == Install && d.when == None && !d.action.Prompt? && !d.action.Operator?
    ensures var s' := Visit(h, d, n, s);
            if Due(h, d, n, s) then
              && |s'.trace| > |s.trace| && s'.trace[..|s.trace|] == s.trace && s'.trace[|s.trace|] == SkillModel.Start(n)
            else s' == s.(skipped := s'.skipped, tasks := s'.tasks, blocked := s'.blocked, trace := s'.trace)
                 && (s'.trace == s.trace || s'.trace == s.trace + [Bounced(n)])
  {
    StatusIff(h, d, n, s);
    hide Bracket, StatusOf, Due, SideEffect;
    forall detail
      ensures var s' := Bracket(h, d, n, detail, s);
              |s'.trace| > |s.trace| && s'.trace[..|s.trace|] == s.trace && s'.trace[|s.trace|] == SkillModel.Start(n)
    {
      SkillRefresh.BracketStarted(h, d, n, detail, s);
    }
  }

  lemma StatusIff(h: Host, d: Directive, n: nat, s: State)
    requires h.mode == Install && !d.action.Prompt? && !d.action.Operator?
    ensures Due(h, d, n, s) <==>
            && !(d.action.Run? && d.action.effect.Some? && d.action.effect.value in h.skipEffects)
            && !(SideEffect(d.action) && s.blocked)
            && StatusOf(h, d, n, s.files).Apply?
  {
    hide FindIndex, KeySet, Trim, Hit, Field;
    match d.action {
      case Copy(_, moves) => AbsentIff(s.files, moves);
      case EnvSet(entries) => UnsetIff(Read(s.files, ENV), entries);
      case _ =>
    }
  }

  lemma {:induction false} AbsentIff(files: map<Path, Lines>, moves: seq<Move>)
    ensures Absent(files, Dests(moves)) != [] <==> exists i :: 0 <= i < |moves| && moves[i].dst !in files
  {
    if moves != [] {
      AbsentIff(files, moves[1..]);
      assert Dests(moves)[1..] == Dests(moves[1..]);
      if i :| 0 <= i < |moves[1..]| && moves[1..][i].dst !in files { assert moves[i + 1].dst !in files; }
      if i :| 0 < i < |moves| && moves[i].dst !in files { assert moves[1..][i - 1].dst !in files; }
    }
  }

  lemma {:induction false} UnsetIff(env: seq<string>, entries: seq<Entry>)
    ensures Unset(env, entries) != [] <==> exists i :: 0 <= i < |entries| && !KeySet(env, entries[i].probe)
  {
    hide KeySet;
    if entries != [] {
      UnsetIff(env, entries[1..]);
      if i :| 0 <= i < |entries[1..]| && !KeySet(env, entries[1..][i].probe) { assert !KeySet(env, entries[i + 1].probe); }
      if i :| 0 < i < |entries| && !KeySet(env, entries[i].probe) { assert !KeySet(env, entries[1..][i - 1].probe); }
    }
  }

  /** With a capture a command's trimmed output is bound before the record; a failed binding keeps
      what it had bound and leaves no record. */
  lemma CapturedRun(h: Host, n: nat, a: Action, k: nat, s: State)
    requires a.Run? && k < |a.cmds| && a.capture.Some? && Goes(h, n, a.cmds, s.vars, k)
    ensures var done, out := RunOne(h, n, a, k, s), Trim(h.exec(n, k).text);
            var b := BindCapture(h, a.capture.value, out, a.shape, s.vars);
            && done.threw == b.threw
            && done.s == s.(vars := b.vars, trace := s.trace + [Exec(n, Render(a.cmds[k], s.vars).text)],
                            journal := done.s.journal)
            && done.s.journal == if b.threw.Some? then s.journal
                                 else s.journal + [Ran(Raw(a.cmds[k]), if a.effect == Some("external") then a.undo else None)]
  {
    hide Render, Trim, BindCapture, Raw;
  }

  // ---- Removal ----------------------------------------------------------------

  /** A filter keeps every other line where it was. */
  lemma KeepReads(r: Record, a: seq<string>, line: string)
    ensures Keep(r, []) == []
    ensures Keep(r, a + [line]) == Keep(r, a) + if Drops(r, line) then [] else [line]
  {
    hide Drops;
    SkillUndo.KeepConcat(r, a, [line]);
    assert [line][1..] == [];
  }

  /** Which lines go: those that trim to an appended line, those that start with KEY=. */
  lemma DropsReads(path: Path, line: string, key: string, l: string)
    ensures Drops(Appended(path, line), l) <==> Trim(l) == Trim(line)
    ensures Drops(SetEnv(key), l) <==> |l| > |key| && l[..|key|] == key && l[|key|] == '='
  {
    hide Trim;
    var prefix := key + "=";
    if |l| > |key| && l[..|key|] == key && l[|key|] == '=' { assert l[..|prefix|] == prefix; }
    if prefix <= l { assert l[..|key|] == prefix[..|key|] && l[|key|] == prefix[|key|]; }
  }

  /** One record undone touches one path, as its kind says; a command changes no file here. */
  lemma UndoReads(h: Host, r: Record, files: map<Path, Lines>)
    ensures r.Wrote? ==> UndoOne(h, r, files) == Some(files - {r.path})
    ensures r.Appended? ==>
              && UndoOne(h, r, files).Some?
              && UndoOne(h, r, files).value - {r.path} == files - {r.path}
              && var kept := Keep(r, Read(files, r.path));
                 r.path in UndoOne(h, r, files).value && UndoOne(h, r, files).value[r.path] == if kept == [] then [""] else kept
    ensures r.SetEnv? ==>
              && UndoOne(h, r, files).Some?
              && UndoOne(h, r, files).value - {".env"} == files - {".env"}
              && var kept := Keep(r, Read(files, ".env"));
                 ".env" in UndoOne(h, r, files).value && UndoOne(h, r, files).value[".env"] == if kept == [] then [""] else kept
    ensures r.Ran? ==> UndoOne(h, r, files) == Some(files)
  {
    hide Keep;
  }
}
