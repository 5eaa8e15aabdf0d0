/** scripts/skill-directives.ts: validate, and what a clean report promises about an apply. */
module SkillLint {
  import opened Prelude
  import opened Text
  import opened SkillModel
  import SkillHealth
  import SkillReapply
  import SkillUndo

  // ---- validate ---------------------------------------------------------------

  datatype Fault =
    | UnknownKind(kind: string)
    | Empty
    | NotAnObject
    | NoKeyField(key: string)
    | BadPattern(pattern: string)
    | BadGuard
    | UndefinedRef(name: string)
    | UndefinedGuard(name: string)

  datatype Problem = Problem(n: nat, fault: Fault)

  function TemplateRefs(t: Template): seq<string> {
    if t == [] then []
    else (if t[0].Ref? then [t[0].name] else []) + TemplateRefs(t[1..])
  }

  function AllRefs(ts: seq<Template>): seq<string> {
    if ts == [] then [] else TemplateRefs(ts[0]) + AllRefs(ts[1..])
  }

  function EntryTemplates(entries: seq<Entry>): seq<Template> {
    if entries == [] then [] else [entries[0].value] + EntryTemplates(entries[1..])
  }

  /** The bodies that are substituted when the directive runs. */
  function Templates(d: Directive): seq<Template> {
    match d.action
    case Run(_, _, _, _, cmds) => cmds
    case EnvSet(entries) => EntryTemplates(entries)
    case Operator(text) => [text]
    case _ => []
  }

  /** referencedVars */
  function Refs(d: Directive): seq<string> {
    AllRefs(Templates(d)) + d.inert
  }

  /** captureVars, one pair: a token without '=' loses its last character, since
      slice(0, -1) is what slice(0, indexOf) becomes. */
  function PairName(p: Pair): string {
    match p
    case Bind(name, _) => name
    case NoName(_) => ""
    case NoEq(token) => if token == "" then "" else Trim(token[..|token| - 1])
  }

  function PairNames(pairs: seq<Pair>): set<string> {
    if pairs == [] then {}
    else (if PairName(pairs[0]) == "" then {} else {PairName(pairs[0])}) + PairNames(pairs[1..])
  }

  /** The names a directive adds to the lint's scope. */
  function Defines(d: Directive): set<string> {
    match d.action
    case Prompt(name, _, _, _) => if name == "" then {} else {name}
    case Run(_, capture, _, _, _) =>
      if capture == None then {}
      else if capture.value.Bare? then (if capture.value.name == "" then {} else {capture.value.name})
      else PairNames(capture.value.pairs)
    case _ => {}
  }

  function Defined(ds: seq<Directive>, n: nat): set<string>
    requires n <= |ds|
  {
    if n == 0 then {} else Defined(ds, n - 1) + Defines(ds[n - 1])
  }

  function RefFaults(n: nat, refs: seq<string>, defined: set<string>): seq<Problem> {
    if refs == [] then []
    else (if refs[0] in defined then [] else [Problem(n, UndefinedRef(refs[0]))]) + RefFaults(n, refs[1..], defined)
  }

  function GuardFaults(n: nat, when: Option<When>, defined: set<string>): seq<Problem> {
    if when == None then []
    else if when.value.Malformed? then [Problem(n, BadGuard)]
    else if when.value.name in defined then [] else [Problem(n, UndefinedGuard(when.value.name))]
  }

  function KindFaults(h: Host, n: nat, a: Action): seq<Problem> {
    match a
    case Other(kind) => [Problem(n, UnknownKind(kind))]
    case Copy(_, moves) => if moves == [] then [Problem(n, Empty)] else []
    case Append(_, _, lines) => if lines == [] then [Problem(n, Empty)] else []
    case Operator(text) => if text == [] then [Problem(n, Empty)] else []
    case JsonMerge(_, key, body) =>
      if body == None || !body.value.Obj? then [Problem(n, NotAnObject)]
      else if Lookup(body.value.fields, key) == None then [Problem(n, NoKeyField(key))] else []
    case Prompt(_, _, valid, _) =>
      if valid.Some? && h.compile(valid.value.pattern, valid.value.flags).Some?
      then [Problem(n, BadPattern(valid.value.pattern))] else []
    case _ => []
  }

  /** A run's validate pattern is checked last. */
  function ShapeFaults(h: Host, n: nat, a: Action): seq<Problem> {
    if a.Run? && a.shape.Some? && h.compile(a.shape.value, "").Some? then [Problem(n, BadPattern(a.shape.value))] else []
  }

  function Faults(h: Host, ds: seq<Directive>, n: nat): seq<Problem>
    requires n < |ds|
  {
    KindFaults(h, n, ds[n].action) + RefFaults(n, Refs(ds[n]), Defined(ds, n)) + GuardFaults(n, ds[n].when, Defined(ds, n))
    + ShapeFaults(h, n, ds[n].action)
  }

  function Report(h: Host, ds: seq<Directive>, n: nat): seq<Problem>
    requires n <= |ds|
  {
    if n == 0 then [] else Report(h, ds, n - 1) + Faults(h, ds, n - 1)
  }

  method ValidateRefs(n: nat, refs: seq<string>, defined: set<string>) returns (problems: seq<Problem>)
    ensures problems == RefFaults(n, refs, defined)
  {
    problems := [];
    var k := 0;
    while k < |refs|
      invariant k <= |refs|
      invariant problems + RefFaults(n, refs[k..], defined) == RefFaults(n, refs, defined)
    {
      if refs[k] !in defined { problems := problems + [Problem(n, UndefinedRef(refs[k]))]; }
      k := k + 1;
    }
  }

  method Validate(h: Host, ds: seq<Directive>) returns (problems: seq<Problem>)
    ensures problems == Report(h, ds, |ds|)
  {
    hide KindFaults, Refs, RefFaults, GuardFaults, ShapeFaults, Defines;
    problems := [];
    var defined: set<string> := {};
    var n := 0;
    while n < |ds|
      invariant n <= |ds|
      invariant problems == Report(h, ds, n)
      invariant defined == Defined(ds, n)
    {
      var d := ds[n];
      var undefinedRefs := ValidateRefs(n, Refs(d), defined);
      problems := problems + (KindFaults(h, n, d.action) + undefinedRefs + GuardFaults(n, d.when, defined)
                              + ShapeFaults(h, n, d.action));
      defined := defined + Defines(d);
      n := n + 1;
    }
  }

  /** Every reference and guard names something an earlier directive defines. */
  ghost predicate InScope(ds: seq<Directive>) {
    forall n :: 0 <= n < |ds| ==>
      && (forall r :: r in Refs(ds[n]) ==> r in Defined(ds, n))
      && (ds[n].when.Some? ==> ds[n].when.value.Cond? && ds[n].when.value.name in Defined(ds, n))
  }

  lemma {:induction false} RefFaultsIff(n: nat, refs: seq<string>, defined: set<string>)
    ensures RefFaults(n, refs, defined) == [] <==> forall r :: r in refs ==> r in defined
  {
    if refs != [] {
      RefFaultsIff(n, refs[1..], defined);
      assert refs == [refs[0]] + refs[1..];
    }
  }

  lemma {:induction false} ReportIff(h: Host, ds: seq<Directive>, n: nat)
    requires n <= |ds|
    ensures Report(h, ds, n) == [] <==> forall i :: 0 <= i < n ==> Faults(h, ds, i) == []
  {
    hide Faults;
    if n > 0 { ReportIff(h, ds, n - 1); }
  }

  /** A body where one is needed, an object that holds its key, patterns that compile, a known kind. */
  predicate WellFormed(h: Host, a: Action) {
    match a
    case Copy(_, moves) => moves != []
    case Append(_, _, lines) => lines != []
    case Operator(text) => text != []
    case JsonMerge(_, key, Some(Obj(fields))) => exists i :: 0 <= i < |fields| && fields[i].0 == key
    case JsonMerge(_, _, _) => false
    case Prompt(_, _, Some(shape), _) => h.compile(shape.pattern, shape.flags) == None
    case Run(_, _, Some(pattern), _, _) => h.compile(pattern, "") == None
    case Other(_) => false
    case _ => true
  }

  lemma WellFormedIff(h: Host, n: nat, a: Action)
    ensures WellFormed(h, a) <==> KindFaults(h, n, a) == [] && ShapeFaults(h, n, a) == []
  {
    match a {
      case JsonMerge(_, key, body) =>
        if body.Some? && body.value.Obj? { KeyIsField(body.value.fields, key); }
      case _ =>
    }
    hide Lookup;
  }

  lemma {:induction false} KeyIsField(fields: seq<(string, Json)>, key: string)
    ensures Lookup(fields, key).Some? <==> exists i :: 0 <= i < |fields| && fields[i].0 == key
  {
    if fields != [] {
      KeyIsField(fields[1..], key);
      if i :| 0 <= i < |fields[1..]| && fields[1..][i].0 == key { assert fields[i + 1].0 == key; }
      if i :| 0 < i < |fields| && fields[i].0 == key { assert fields[1..][i - 1].0 == key; }
    }
  }

  /** A clean report is exactly: every directive well formed, every name in scope. */
  lemma ReportCleanIff(h: Host, ds: seq<Directive>)
    ensures Report(h, ds, |ds|) == [] <==>
            InScope(ds)
            && forall n :: 0 <= n < |ds| ==> WellFormed(h, ds[n].action)
  {
    hide Refs, KindFaults, ShapeFaults, Defined, RefFaults, WellFormed;
    ReportIff(h, ds, |ds|);
    forall n | 0 <= n < |ds|
      ensures Faults(h, ds, n) == [] <==>
              && WellFormed(h, ds[n].action)
              && (forall r :: r in Refs(ds[n]) ==> r in Defined(ds, n))
              && (ds[n].when.Some? ==> ds[n].when.value.Cond? && ds[n].when.value.name in Defined(ds, n))
    {
      RefFaultsIff(n, Refs(ds[n]), Defined(ds, n));
      WellFormedIff(h, n, ds[n].action);
    }
  }

  // ---- What a run binds -------------------------------------------------------

  function BoundNames(pairs: seq<Pair>): set<string> {
    if pairs == [] then {} else (if pairs[0].Bind? then {pairs[0].name} else {}) + BoundNames(pairs[1..])
  }

  /** The names a handler may set. */
  function Touches(d: Directive): set<string> {
    match d.action
    case Prompt(name, _, _, _) => {name}
    case Run(_, capture, _, _, _) =>
      if capture == None then {} else if capture.value.Bare? then {capture.value.name} else BoundNames(capture.value.pairs)
    case _ => {}
  }

  /** The names a directive sets when all goes well: a check captures nothing, a step only
      pairs, and any other run nothing without a command. */
  function Binds(d: Directive): set<string> {
    if !d.action.Run? then Touches(d)
    else if d.action.effect == Some("check") then {}
    else if d.action.effect == Some("step") then
      if d.action.capture.Some? && d.action.capture.value.Pairs? then Touches(d) else {}
    else if d.action.cmds == [] then {} else Touches(d)
  }

  /** What the lint reads as the name of a token without '='. */
  function LooseName(p: Pair): string {
    if p.NoEq? then PairName(p) else ""
  }

  predicate Among(pairs: seq<Pair>, name: string) {
    exists i :: 0 <= i < |pairs| && pairs[i].Bind? && pairs[i].name == name
  }

  lemma {:induction false} PairNamesAre(pairs: seq<Pair>)
    ensures forall x :: x in BoundNames(pairs) <==> Among(pairs, x)
    ensures forall x :: x in PairNames(pairs) <==> x != "" && exists i :: 0 <= i < |pairs| && PairName(pairs[i]) == x
  {
    if pairs != [] {
      var rest := pairs[1..];
      PairNamesAre(rest);
      assert forall i :: 0 < i < |pairs| ==> pairs[i] == rest[i - 1];
      forall x ensures x in BoundNames(pairs) <==> Among(pairs, x) {
        if Among(rest, x) {
          var i :| 0 <= i < |rest| && rest[i].Bind? && rest[i].name == x;
          assert pairs[i + 1] == rest[i];
        }
      }
      forall x ensures x in PairNames(pairs) <==> x != "" && exists i :: 0 <= i < |pairs| && PairName(pairs[i]) == x {
        if x in PairNames(rest) {
          var i :| 0 <= i < |rest| && PairName(rest[i]) == x;
          assert pairs[i + 1] == rest[i];
        }
      }
    }
  }

  lemma TouchesDefined(d: Directive)
    ensures Touches(d) <= Defines(d) + {""} && "" !in Defines(d) && Binds(d) <= Touches(d)
  {
    if d.action.Run? && d.action.capture.Some? && d.action.capture.value.Pairs? {
      PairNamesAre(d.action.capture.value.pairs);
      hide PairNames, BoundNames;
    }
  }

  /** A check captures nothing, a step only fields, and a run without a command nothing. */
  predicate Captures(d: Directive)
    requires d.action.Run? && d.action.capture.Some?
  {
    if d.action.effect == Some("check") then false
    else if d.action.effect == Some("step") then d.action.capture.value.Pairs?
    else d.action.cmds != []
  }

  /** The lint reads no name at all in the capture. */
  predicate Nameless(capture: Capture) {
    match capture
    case Bare(name) => name == ""
    case Pairs(pairs) => forall i :: 0 <= i < |pairs| ==> PairName(pairs[i]) == ""
  }

  /** What the lint reads in a token without '=' is empty or the name of a pair that has one. */
  predicate LooseTokensBound(pairs: seq<Pair>) {
    forall i :: 0 <= i < |pairs| ==> LooseName(pairs[i]) == "" || Among(pairs, LooseName(pairs[i]))
  }

  predicate CaptureBinds(d: Directive) {
    d.action.Run? && d.action.capture.Some? ==>
      if Captures(d) then d.action.capture.value.Pairs? ==> LooseTokensBound(d.action.capture.value.pairs)
      else Nameless(d.action.capture.value)
  }

  /** A run that succeeds binds every name the lint counts on exactly when its kind captures and
      each loose token repeats a bound name, or the lint reads no name in it. */
  lemma DefinesBoundIff(d: Directive)
    ensures Defines(d) <= Binds(d) <==> CaptureBinds(d)
  {
    if d.action.Run? && d.action.capture.Some? && d.action.capture.value.Pairs? {
      var pairs := d.action.capture.value.pairs;
      PairNamesAre(pairs);
      hide PairNames, BoundNames;
      if Captures(d) {
        if Defines(d) <= Binds(d) {
          forall i | 0 <= i < |pairs| && LooseName(pairs[i]) != "" ensures Among(pairs, LooseName(pairs[i])) {
            assert PairName(pairs[i]) in PairNames(pairs);
          }
        }
        if LooseTokensBound(pairs) {
          forall x | x in PairNames(pairs) ensures Among(pairs, x) {
            var i :| 0 <= i < |pairs| && PairName(pairs[i]) == x;
            assert pairs[i].NoEq? ==> LooseName(pairs[i]) == x;
          }
        }
      } else if !Nameless(d.action.capture.value) {
        var i :| 0 <= i < |pairs| && PairName(pairs[i]) != "";
        assert PairName(pairs[i]) in PairNames(pairs);
      }
    }
  }

  /** The four ways to fail it: a token without '=', a check with a capture, a step with a bare
      one, a run without a command. */
  lemma UnboundCaptures(effect: Option<string>, cmds: seq<Template>, cmd: Template)
    requires effect != Some("check") && effect != Some("step")
    ensures var loose := Directive(None, Run(None, Some(Pairs([Bind("a", ".x"), NoEq("foo")])), None, None, cmds), []);
            "fo" in Defines(loose) && "fo" !in Binds(loose)
    ensures var check := Directive(None, Run(Some("check"), Some(Bare("v")), None, None, [cmd]), []);
            "v" in Defines(check) && "v" !in Binds(check)
    ensures var step := Directive(None, Run(Some("step"), Some(Bare("v")), None, None, [cmd]), []);
            "v" in Defines(step) && "v" !in Binds(step)
    ensures var empty := Directive(None, Run(effect, Some(Bare("v")), None, None, []), []);
            "v" in Defines(empty) && "v" !in Binds(empty)
  {
    var pairs := [Bind("a", ".x"), NoEq("foo")];
    assert "foo"[..2] == "fo";
    assert Trimmed("fo") by { assert !IsSpace('f') && !IsSpace('o'); }
    TrimOfTrimmed("fo");
    assert pairs[1..] == [NoEq("foo")];
    assert PairNames(pairs[1..]) == {"fo"} + PairNames(pairs[1..][1..]);
    assert BoundNames(pairs[1..]) == {} + BoundNames(pairs[1..][1..]);
  }

  // ---- How variables change ---------------------------------------------------

  /** Only names may be added or changed; nothing is unbound. */
  predicate Framed(v: Vars, v': Vars, names: set<string>) {
    && v.Keys <= v'.Keys && v'.Keys <= v.Keys + names
    && forall x :: x in v && x !in names ==> v'[x] == v[x]
  }

  lemma FramedThen(v: Vars, v': Vars, v'': Vars, names: set<string>)
    requires Framed(v, v', names) && Framed(v', v'', names)
    ensures Framed(v, v'', names)
  {
  }

  lemma FramedSelf(v: Vars, names: set<string>)
    ensures Framed(v, v, names)
  {
  }

  lemma BindOneFramed(h: Host, name: string, value: string, shape: Option<string>, v: Vars, names: set<string>)
    requires name in names
    ensures var b := BindOne(h, name, value, shape, v);
            Framed(v, b.vars, names) && (b.threw == None ==> name in b.vars)
  {
  }

  lemma {:induction false} PairsFramed(h: Host, pairs: seq<Pair>, json: Json, shape: Option<string>, v: Vars,
                                       names: set<string>)
    requires BoundNames(pairs) <= names
    ensures var b := BindPairs(h, pairs, json, shape, v);
            Framed(v, b.vars, names) && (b.threw == None ==> BoundNames(pairs) <= b.vars.Keys)
    decreases |pairs|
  {
    hide Framed, BindOne;
    if pairs == [] {
      FramedSelf(v, names);
    } else if !pairs[0].Bind? {
      PairsFramed(h, pairs[1..], json, shape, v, names);
    } else {
      var value := h.pick(json, pairs[0].path);
      var one := BindOne(h, pairs[0].name, value, shape, v);
      BindOneFramed(h, pairs[0].name, value, shape, v, names);
      if one.threw == None {
        PairsFramed(h, pairs[1..], json, shape, one.vars, names);
        var b := BindPairs(h, pairs[1..], json, shape, one.vars);
        FramedThen(v, one.vars, b.vars, names);
        FramedKeys(one.vars, b.vars, names);
      }
    }
  }

  lemma FramedKeys(v: Vars, v': Vars, names: set<string>)
    requires Framed(v, v', names)
    ensures v.Keys <= v'.Keys
  {
  }

  lemma {:induction false} FieldsFramed(pairs: seq<Pair>, fields: map<string, string>, v: Vars, names: set<string>)
    requires BoundNames(pairs) <= names
    ensures var v' := BindFields(pairs, fields, v); Framed(v, v', names) && BoundNames(pairs) <= v'.Keys
    decreases |pairs|
  {
    hide Trim;
    if pairs != [] {
      if !pairs[0].Bind? {
        FieldsFramed(pairs[1..], fields, v, names);
      } else {
        var value := if pairs[0].path in fields then Trim(fields[pairs[0].path]) else "";
        FieldsFramed(pairs[1..], fields, v[pairs[0].name := Bound(value, false)], names);
      }
    }
  }

  /** What a capture sets, all of it when it does not throw. */
  lemma CaptureFramed(h: Host, d: Directive, stdout: string, v: Vars)
    requires d.action.Run? && d.action.capture.Some?
    ensures var b := BindCapture(h, d.action.capture.value, stdout, d.action.shape, v);
            Framed(v, b.vars, Touches(d)) && (b.threw == None ==> Touches(d) <= b.vars.Keys)
  {
    hide Framed, BindOne, BindPairs, Split;
    FramedSelf(v, Touches(d));
    match d.action.capture.value {
      case Bare(name) => BindOneFramed(h, name, stdout, d.action.shape, v, Touches(d));
      case Pairs(pairs) =>
        var parsed := h.parse(Split(stdout));
        if parsed.Value? { PairsFramed(h, pairs, parsed.json, d.action.shape, v, Touches(d)); }
    }
  }

  lemma RunOneFramed(h: Host, n: nat, d: Directive, k: nat, s: State)
    requires d.action.Run? && k < |d.action.cmds|
    ensures var one := RunOne(h, n, d.action, k, s);
            Framed(s.vars, one.s.vars, Touches(d)) && (one.threw == None ==> Touches(d) <= one.s.vars.Keys)
  {
    FramedSelf(s.vars, Touches(d));
    if d.action.capture.Some? && h.exec(n, k).Out? { CaptureFramed(h, d, Trim(h.exec(n, k).text), s.vars); }
    hide Framed, Render, BindCapture, Trim, Raw;
  }

  lemma {:induction false} RunFramed(h: Host, n: nat, d: Directive, k: nat, s: State)
    requires d.action.Run? && k <= |d.action.cmds|
    ensures Framed(s.vars, RunFrom(h, n, d.action, k, s).s.vars, Touches(d))
    decreases |d.action.cmds| - k
  {
    hide Framed, RunOne;
    if k == |d.action.cmds| {
      FramedSelf(s.vars, Touches(d));
    } else {
      var one := RunOne(h, n, d.action, k, s);
      RunOneFramed(h, n, d, k, s);
      if one.threw == None {
        RunFramed(h, n, d, k + 1, one.s);
        FramedThen(s.vars, one.s.vars, RunFrom(h, n, d.action, k + 1, one.s).s.vars, Touches(d));
      }
    }
  }

  lemma StepFramed(h: Host, n: nat, d: Directive, s: State)
    requires d.action.Run?
    ensures Framed(s.vars, PerformStep(h, n, d.action.capture, d.action.cmds, s).s.vars, Touches(d))
  {
    FramedSelf(s.vars, Touches(d));
    if d.action.capture.Some? && d.action.capture.value.Pairs? && h.stream(n).Finished? {
      FieldsFramed(d.action.capture.value.pairs, h.stream(n).fields, s.vars, Touches(d));
    }
    hide Framed, Render, JoinTemplates, Raw, BindFields;
  }

  lemma PerformFramed(h: Host, d: Directive, n: nat, s: State)
    ensures Framed(s.vars, Perform(h, d, n, s).s.vars, Touches(d))
  {
    hide CopyFrom, AppendFrom, EnvFrom, PerformMerge, PerformStep, CheckFrom, RunFrom, Framed, Touches;
    FramedSelf(s.vars, Touches(d));
    match d.action {
      case Copy(_, moves) => SkillReapply.CopyGrows(h, n, moves, 0, s);
      case Append(to, at, lines) => SkillReapply.AppendGrows(to, at, lines, 0, s, "");
      case Run(_, _, _, _, cmds) =>
        SkillUndo.CheckChangesNothing(h, n, cmds, 0, s);
        StepFramed(h, n, d, s);
        RunFramed(h, n, d, 0, s);
      case EnvSet(entries) => SkillReapply.EnvGrows(entries, 0, s, "");
      case JsonMerge(into, key, body) => if body.Some? { SkillReapply.MergeGrows(h, into, key, body.value, s, ""); }
      case _ =>
    }
  }

  lemma BracketVars(h: Host, d: Directive, n: nat, detail: seq<string>, s: State)
    ensures var s', done := Bracket(h, d, n, detail, s), Perform(h, d, n, SkillUndo.Opened(s, n));
            s'.vars == (if h.onStart(n).Some? then s.vars else done.s.vars)
  {
    hide Perform, Deferrable;
  }

  lemma VisitFramed(h: Host, d: Directive, n: nat, s: State)
    ensures Framed(s.vars, Visit(h, d, n, s).vars, Touches(d))
  {
    hide VisitPrompt, VisitOperator, VisitStep, WhenMet, Framed;
    FramedSelf(s.vars, Touches(d));
    if d.action.Prompt? { PromptFramed(h, d, n, s); }
    else if d.action.Operator? { SkillReapply.OperatorVars(h, d, n, s); }
    else { VisitStepFramed(h, d, n, s); }
  }

  lemma PromptFramed(h: Host, d: Directive, n: nat, s: State)
    requires d.action.Prompt?
    ensures Framed(s.vars, VisitPrompt(h, d, n, s).vars, Touches(d))
  {
    hide VisitPrompt, Normalize;
    SkillReapply.PromptBinds(h, d, n, s);
  }

  lemma VisitStepFramed(h: Host, d: Directive, n: nat, s: State)
    ensures Framed(s.vars, VisitStep(h, d, n, s).vars, Touches(d))
  {
    hide Framed, StatusOf, Perform, Bracket, Touches;
    FramedSelf(s.vars, Touches(d));
    PerformFramed(h, d, n, SkillUndo.Opened(s, n));
    var status := StatusOf(h, d, n, s.files);
    if status.Apply? { BracketVars(h, d, n, status.detail, s); }
  }

  /** Whatever happens, a run binds no name that the lint did not see defined; so a reference
      it flagged is stuck whenever it is reached. */
  lemma {:induction false} UndefinedStaysUnbound(h: Host, ds: seq<Directive>, n: nat, f0: map<Path, Lines>)
    requires n <= |ds|
    ensures After(h, ds, n, Begin(f0)).vars.Keys <= Defined(ds, n) + {""}
  {
    hide Visit, Touches, Defines;
    if n > 0 {
      UndefinedStaysUnbound(h, ds, n - 1, f0);
      VisitFramed(h, ds[n - 1], n - 1, After(h, ds, n - 1, Begin(f0)));
      TouchesDefined(ds[n - 1]);
    }
  }

  // ---- What substitution needs ------------------------------------------------

  lemma {:induction false} RenderIff(t: Template, vars: Vars)
    ensures Render(t, vars).Rendering? <==> forall r :: r in TemplateRefs(t) ==> r in vars
  {
    if t != [] { RenderIff(t[1..], vars); }
  }

  lemma AllRefsOf(ts: seq<Template>, k: nat)
    requires k < |ts|
    ensures forall r :: r in TemplateRefs(ts[k]) ==> r in AllRefs(ts)
  {
    if k > 0 { AllRefsOf(ts[1..], k - 1); }
  }

  lemma RefsConcat(a: Template, b: Template)
    ensures TemplateRefs(a + b) == TemplateRefs(a) + TemplateRefs(b)
  {
    if a == [] {
      assert a + b == b;
      assert TemplateRefs(a) == [];
    } else {
      assert (a + b)[1..] == a[1..] + b && (a + b)[0] == a[0];
      RefsConcat(a[1..], b);
      var h := if a[0].Ref? then [a[0].name] else [];
      var x, y := TemplateRefs(a[1..]), TemplateRefs(b);
      assert TemplateRefs(a + b) == h + TemplateRefs((a + b)[1..]);
      assert TemplateRefs(a) == h + x;
      hide TemplateRefs;
      assert h + (x + y) == (h + x) + y;
    }
  }

  lemma JoinedRefs(ts: seq<Template>)
    ensures forall r :: r in TemplateRefs(JoinTemplates(ts)) ==> r in AllRefs(ts)
  {
    if |ts| > 1 {
      JoinedRefs(ts[1..]);
      RefsConcat(ts[0] + [Lit("\n")], JoinTemplates(ts[1..]));
      RefsConcat(ts[0], [Lit("\n")]);
      assert TemplateRefs([Lit("\n")]) == [] + TemplateRefs([Lit("\n")][1..]);
    } else if |ts| == 1 {
      assert AllRefs(ts) == TemplateRefs(ts[0]) + AllRefs(ts[1..]);
    }
  }

  // ---- Lint soundness ---------------------------------------------------------

  /** Each name is defined by one directive. */
  ghost predicate BoundOnce(ds: seq<Directive>) {
    forall i, j {:trigger Defines(ds[i]), Defines(ds[j])} :: 0 <= i < j < |ds| ==> Defines(ds[i]) !! Defines(ds[j])
  }

  /** A definer is unguarded, or guarded like the directive that uses what it defines. */
  ghost predicate GuardsAgree(ds: seq<Directive>) {
    forall i, n {:trigger Defines(ds[i]), Refs(ds[n])} :: 0 <= i < n < |ds| ==>
      (exists r :: r in Refs(ds[n]) && r in Defines(ds[i])) ==> ds[i].when == None || ds[i].when == ds[n].when
  }

  /** The prompt is answered and the answer accepted. */
  predicate PromptOk(h: Host, d: Directive, n: nat) {
    d.action.Prompt? ==>
      var answer := AnswerTo(h, d.action, n);
      && answer.Gave?
      && (d.action.valid.Some? ==>
            && h.compile(d.action.valid.value.pattern, d.action.valid.value.flags) == None
            && h.test(d.action.valid.value.pattern, d.action.valid.value.flags,
                      Normalize(h, d.action.normalize, answer.text)))
  }

  /** A capturing run is not the caller's, its commands succeed and its output fits. */
  predicate RunOk(h: Host, d: Directive, n: nat) {
    d.action.Run? && d.action.capture.Some? ==>
      && (d.action.effect.Some? ==> d.action.effect.value !in h.skipEffects)
      && h.onStart(n) == None
      && if d.action.effect == Some("step") then h.streams && h.stream(n).Finished? && h.stream(n).ok
         else forall k :: 0 <= k < |d.action.cmds| ==>
           h.exec(n, k).Out? &&
           BindCapture(h, d.action.capture.value, Trim(h.exec(n, k).text), d.action.shape, map[]).threw == None
  }

  lemma {:induction false} PairsThrew(h: Host, pairs: seq<Pair>, json: Json, shape: Option<string>, v1: Vars, v2: Vars)
    ensures BindPairs(h, pairs, json, shape, v1).threw == BindPairs(h, pairs, json, shape, v2).threw
    decreases |pairs|
  {
    if pairs != [] {
      if !pairs[0].Bind? {
        PairsThrew(h, pairs[1..], json, shape, v1, v2);
      } else {
        var value := h.pick(json, pairs[0].path);
        var b1, b2 := BindOne(h, pairs[0].name, value, shape, v1), BindOne(h, pairs[0].name, value, shape, v2);
        if b1.threw == None { PairsThrew(h, pairs[1..], json, shape, b1.vars, b2.vars); }
      }
    }
  }

  lemma CaptureThrew(h: Host, capture: Capture, stdout: string, shape: Option<string>, v1: Vars, v2: Vars)
    ensures BindCapture(h, capture, stdout, shape, v1).threw == BindCapture(h, capture, stdout, shape, v2).threw
  {
    hide BindPairs, Split;
    if capture.Pairs? {
      var parsed := h.parse(Split(stdout));
      if parsed.Value? { PairsThrew(h, capture.pairs, parsed.json, shape, v1, v2); }
    }
  }

  lemma RunOneSucceeds(h: Host, n: nat, d: Directive, k: nat, s: State)
    requires d.action.Run? && k < |d.action.cmds| && d.action.capture.Some? && RunOk(h, d, n)
    requires d.action.effect != Some("step") && forall r :: r in AllRefs(d.action.cmds) ==> r in s.vars
    ensures RunOne(h, n, d.action, k, s).threw == None
  {
    RenderIff(d.action.cmds[k], s.vars);
    AllRefsOf(d.action.cmds, k);
    CaptureThrew(h, d.action.capture.value, Trim(h.exec(n, k).text), d.action.shape, map[], s.vars);
    hide Render, BindCapture, Trim, Raw, TemplateRefs;
  }

  lemma {:induction false} RunSucceeds(h: Host, n: nat, d: Directive, k: nat, s: State)
    requires d.action.Run? && k <= |d.action.cmds| && d.action.capture.Some? && RunOk(h, d, n)
    requires d.action.effect != Some("step") && forall r :: r in AllRefs(d.action.cmds) ==> r in s.vars
    ensures var done := RunFrom(h, n, d.action, k, s);
            done.threw == None && (k < |d.action.cmds| ==> Touches(d) <= done.s.vars.Keys)
    decreases |d.action.cmds| - k
  {
    hide RunOne, RunOk, Framed, Touches;
    if k < |d.action.cmds| {
      var one := RunOne(h, n, d.action, k, s);
      RunOneSucceeds(h, n, d, k, s);
      RunOneFramed(h, n, d, k, s);
      FramedKeys(s.vars, one.s.vars, Touches(d));
      RunSucceeds(h, n, d, k + 1, one.s);
      RunFramed(h, n, d, k + 1, one.s);
      FramedKeys(one.s.vars, RunFrom(h, n, d.action, k + 1, one.s).s.vars, Touches(d));
    }
  }

  lemma StepSucceeds(h: Host, n: nat, d: Directive, s: State)
    requires d.action.Run? && d.action.capture.Some? && d.action.capture.value.Pairs? && RunOk(h, d, n)
    requires d.action.effect == Some("step") && forall r :: r in AllRefs(d.action.cmds) ==> r in s.vars
    ensures Touches(d) <= PerformStep(h, n, d.action.capture, d.action.cmds, s).s.vars.Keys
  {
    var t := JoinTemplates(d.action.cmds);
    RenderIff(t, s.vars);
    JoinedRefs(d.action.cmds);
    FieldsFramed(d.action.capture.value.pairs, h.stream(n).fields, s.vars, Touches(d));
    hide Render, JoinTemplates, Raw, BindFields, TemplateRefs, AllRefs, Framed;
  }

  lemma PerformBinds(h: Host, d: Directive, n: nat, s: State)
    requires d.action.Run? && RunOk(h, d, n) && forall r :: r in AllRefs(d.action.cmds) ==> r in s.vars
    ensures Binds(d) <= Perform(h, d, n, s).s.vars.Keys
  {
    hide RunFrom, PerformStep, CheckFrom, RunOk, AllRefs;
    if d.action.capture.Some? {
      if d.action.effect == Some("step") {
        if d.action.capture.value.Pairs? { StepSucceeds(h, n, d, s); }
      } else if d.action.effect != Some("check") {
        RunSucceeds(h, n, d, 0, s);
      }
    }
  }

  lemma PromptBound(h: Host, d: Directive, n: nat, s: State)
    requires d.action.Prompt? && PromptOk(h, d, n)
    ensures d.action.name in VisitPrompt(h, d, n, s).vars
  {
    hide VisitPrompt, Normalize;
    SkillReapply.PromptBinds(h, d, n, s);
  }

  /** Run-health holds the run back: an earlier directive bounced, and this one's effect is gated. */
  predicate HeldBack(d: Directive, s: State) {
    SideEffect(d.action) && s.blocked
  }

  /** A turn whose guard holds, in an install, binds all it should unless it is held back. */
  lemma VisitBinds(h: Host, d: Directive, n: nat, s: State)
    requires h.mode == Install && PromptOk(h, d, n) && RunOk(h, d, n)
    requires d.when.Some? ==> WhenMet(d.when.value, s.vars)
    requires forall r :: r in Refs(d) ==> r in s.vars
    requires d.action.Run? && d.action.capture.Some? ==> !HeldBack(d, s)
    ensures Binds(d) <= Visit(h, d, n, s).vars.Keys
  {
    hide VisitPrompt, VisitOperator, VisitStep, WhenMet, PromptOk, RunOk;
    if d.action.Prompt? { PromptBound(h, d, n, s); }
    if d.action.Run? && d.action.capture.Some? { RunBinds(h, d, n, s); }
  }

  lemma RunBinds(h: Host, d: Directive, n: nat, s: State)
    requires d.action.Run? && d.action.capture.Some? && RunOk(h, d, n)
    requires forall r :: r in Refs(d) ==> r in s.vars
    requires !HeldBack(d, s)
    ensures Binds(d) <= VisitStep(h, d, n, s).vars.Keys
  {
    PerformBinds(h, d, n, SkillUndo.Opened(s, n));
    var status := StatusOf(h, d, n, s.files);
    BracketVars(h, d, n, status.detail, s);
    hide Perform, Bracket, AllRefs, Binds;
  }

  /** What an executed definer defines is bound. */
  ghost predicate BoundSoFar(ds: seq<Directive>, n: nat, s: State) {
    forall i {:trigger Defines(ds[i])} :: 0 <= i < n <= |ds| ==>
      (ds[i].when.Some? ==> WhenMet(ds[i].when.value, s.vars)) ==> Defines(ds[i]) <= s.vars.Keys
  }

  lemma DefinedBy(ds: seq<Directive>, n: nat, r: string) returns (i: nat)
    requires n <= |ds| && r in Defined(ds, n)
    ensures i < n && r in Defines(ds[i])
  {
    i := n - 1;
    if r !in Defines(ds[n - 1]) { i := DefinedBy(ds, n - 1, r); }
  }

  lemma {:induction false} DefinesIn(ds: seq<Directive>, i: nat, n: nat)
    requires i < n <= |ds|
    ensures Defines(ds[i]) <= Defined(ds, n)
  {
    if i < n - 1 { DefinesIn(ds, i, n - 1); }
  }

  /** A directive that is reached finds every reference bound. */
  lemma RefsBound(ds: seq<Directive>, n: nat, s: State)
    requires n < |ds| && InScope(ds) && GuardsAgree(ds) && BoundSoFar(ds, n, s)
    requires ds[n].when.Some? ==> WhenMet(ds[n].when.value, s.vars)
    ensures forall r :: r in Refs(ds[n]) ==> r in s.vars
  {
    hide Refs, Defines, WhenMet;
    forall r | r in Refs(ds[n]) ensures r in s.vars {
      var i := DefinedBy(ds, n, r);
      assert r in Refs(ds[n]) && r in Defines(ds[i]);
    }
  }

  lemma GuardKept(ds: seq<Directive>, i: nat, n: nat, v: Vars, v': Vars)
    requires i <= n < |ds| && InScope(ds) && BoundOnce(ds) && Framed(v, v', Defines(ds[n]) + {""})
    requires ds[i].when.Some?
    ensures WhenMet(ds[i].when.value, v) == WhenMet(ds[i].when.value, v')
  {
    hide Refs, Defines;
    var g := ds[i].when.value.name;
    var j := DefinedBy(ds, i, g);
    assert g in Defines(ds[j]) && Defines(ds[j]) !! Defines(ds[n]);
    TouchesDefined(ds[j]);
  }

  lemma BoundSoFarExtends(h: Host, ds: seq<Directive>, n: nat, s: State)
    requires n < |ds| && h.mode == Install && InScope(ds) && BoundOnce(ds) && GuardsAgree(ds)
    requires PromptOk(h, ds[n], n) && RunOk(h, ds[n], n) && CaptureBinds(ds[n])
    requires BoundSoFar(ds, n, s) && NotHeldBack(ds[n], s)
    ensures BoundSoFar(ds, n + 1, Visit(h, ds[n], n, s))
  {
    hide Visit, Refs, Defines, Binds, Touches, Framed, WhenMet, InScope, BoundOnce, GuardsAgree, PromptOk, RunOk,
         CaptureBinds;
    var d, s' := ds[n], Visit(h, ds[n], n, s);
    VisitFramed(h, d, n, s);
    TouchesDefined(d);
    FramedWider(s.vars, s'.vars, Touches(d), Defines(d) + {""});
    FramedKeys(s.vars, s'.vars, Touches(d));
    forall i | 0 <= i < n + 1 && (ds[i].when.Some? ==> WhenMet(ds[i].when.value, s'.vars))
      ensures Defines(ds[i]) <= s'.vars.Keys
    {
      if ds[i].when.Some? { GuardKept(ds, i, n, s.vars, s'.vars); }
      if i == n {
        RefsBound(ds, n, s);
        VisitBinds(h, d, n, s);
        DefinesBoundIff(d);
      }
    }
  }

  lemma FramedWider(v: Vars, v': Vars, names: set<string>, more: set<string>)
    requires Framed(v, v', names) && names <= more
    ensures Framed(v, v', more)
  {
  }

  /** A capturing run whose guard holds here is not held back. */
  predicate NotHeldBack(d: Directive, s: State) {
    d.action.Run? && d.action.capture.Some? && (d.when.Some? ==> WhenMet(d.when.value, s.vars)) ==> !HeldBack(d, s)
  }

  lemma {:induction false} BoundAlong(h: Host, ds: seq<Directive>, n: nat, s0: State)
    requires n <= |ds| && h.mode == Install && InScope(ds) && BoundOnce(ds) && GuardsAgree(ds)
    requires forall i {:trigger ds[i]} :: 0 <= i < |ds| ==>
               PromptOk(h, ds[i], i) && RunOk(h, ds[i], i) && CaptureBinds(ds[i])
    requires forall i :: 0 <= i < n ==> NotHeldBack(ds[i], After(h, ds, i, s0))
    ensures BoundSoFar(ds, n, After(h, ds, n, s0))
  {
    hide Visit, BoundSoFar, InScope, BoundOnce, GuardsAgree, PromptOk, RunOk, CaptureBinds, NotHeldBack;
    if n == 0 {
      NothingYet(ds, s0);
    } else {
      BoundAlong(h, ds, n - 1, s0);
      BoundSoFarExtends(h, ds, n - 1, After(h, ds, n - 1, s0));
    }
  }

  lemma NothingYet(ds: seq<Directive>, s: State)
    ensures BoundSoFar(ds, 0, s)
  {
  }

  /** Soundness: a clean report, names bound once by definers guarded as their users, captures
      that bind what the lint reads in them, prompts accepted and capturing runs succeeding. Then
      every directive that is reached can substitute its whole body, whatever else bounced, if
      run-health held back no capturing run before it. */
  lemma NeverUnresolved(h: Host, ds: seq<Directive>, f0: map<Path, Lines>, n: nat)
    requires h.mode == Install && Report(h, ds, |ds|) == [] && BoundOnce(ds) && GuardsAgree(ds)
    requires forall i {:trigger ds[i]} :: 0 <= i < |ds| ==>
               PromptOk(h, ds[i], i) && RunOk(h, ds[i], i) && CaptureBinds(ds[i])
    requires n < |ds| && forall i :: 0 <= i < n ==> NotHeldBack(ds[i], After(h, ds, i, Begin(f0)))
    requires ds[n].when.Some? ==> WhenMet(ds[n].when.value, After(h, ds, n, Begin(f0)).vars)
    ensures forall k :: 0 <= k < |Templates(ds[n])| ==>
              Render(Templates(ds[n])[k], After(h, ds, n, Begin(f0)).vars).Rendering?
  {
    hide Visit, BoundSoFar, InScope, BoundOnce, GuardsAgree, PromptOk, RunOk, CaptureBinds, Faults, NotHeldBack;
    ReportCleanIff(h, ds);
    var s := After(h, ds, n, Begin(f0));
    BoundAlong(h, ds, n, Begin(f0));
    RefsBound(ds, n, s);
    forall k | 0 <= k < |Templates(ds[n])| ensures Render(Templates(ds[n])[k], s.vars).Rendering? {
      AllRefsOf(Templates(ds[n]), k);
      RenderIff(Templates(ds[n])[k], s.vars);
    }
  }

  /** In particular in a document without a capture on a restart, step or wire run. */
  lemma NoGatedCapturesNeverUnresolved(h: Host, ds: seq<Directive>, f0: map<Path, Lines>, n: nat)
    requires h.mode == Install && Report(h, ds, |ds|) == [] && BoundOnce(ds) && GuardsAgree(ds)
    requires forall i {:trigger ds[i]} :: 0 <= i < |ds| ==>
               PromptOk(h, ds[i], i) && RunOk(h, ds[i], i) && CaptureBinds(ds[i])
    requires forall i :: 0 <= i < |ds| && SideEffect(ds[i].action) ==> ds[i].action.capture == None
    requires n < |ds| && (ds[n].when.Some? ==> WhenMet(ds[n].when.value, After(h, ds, n, Begin(f0)).vars))
    ensures forall k :: 0 <= k < |Templates(ds[n])| ==>
              Render(Templates(ds[n])[k], After(h, ds, n, Begin(f0)).vars).Rendering?
  {
    hide Visit, BoundOnce, GuardsAgree, PromptOk, RunOk, CaptureBinds, Report, Templates, Render;
    NeverUnresolved(h, ds, f0, n);
  }

  // ---- Why the condition ------------------------------------------------------

  /** An operator, a step that captures v, an env-set that uses it. */
  function OperatorStepEnv(tell: string, cmd: string): seq<Directive> {
    [Directive(None, Operator([Lit(tell)]), []),
     Directive(None, Run(Some("step"), Some(Pairs([Bind("v", "F")])), None, None, [[Lit(cmd)]]), []),
     Directive(None, EnvSet([Entry("K", "K", [Ref("v", "{{v}}")])]), [])]
  }

  /** A handler that throws on the operator, and a step that would succeed. */
  predicate OperatorThrows(h: Host) {
    && h.mode == Install && h.onOperator(0) == Some("no") && h.skipEffects == {} && h.onStart(1) == None
    && h.streams && h.stream(1) == Finished(true, map["F" := "1"])
  }

  lemma LiteralRefs(text: string)
    ensures TemplateRefs([Lit(text)]) == [] && AllRefs([[Lit(text)]]) == []
    ensures forall vars :: Render([Lit(text)], vars).Rendering?
  {
    var one: Template := [Lit(text)];
    assert one[1..] == [] && [one][1..] == [];
  }

  lemma StrandedNames(tell: string, cmd: string)
    ensures var ds := OperatorStepEnv(tell, cmd);
            && Refs(ds[0]) == [] && Refs(ds[1]) == [] && Refs(ds[2]) == ["v"]
            && Defines(ds[0]) == {} && Defines(ds[1]) == {"v"} && Defines(ds[2]) == {}
            && CaptureBinds(ds[1])
  {
    var ds := OperatorStepEnv(tell, cmd);
    var one: Template := [Ref("v", "{{v}}")];
    LiteralRefs(tell);
    LiteralRefs(cmd);
    assert one == [one[0]] + [] && [one] == [one] + [];
    assert ds[2].action.entries[1..] == [];
    assert EntryTemplates(ds[2].action.entries) == [one];
    assert ds[1].action.capture.value.pairs[1..] == [];
  }

  lemma StrandedIsClean(h: Host, tell: string, cmd: string)
    ensures var ds := OperatorStepEnv(tell, cmd); Report(h, ds, 3) == [] && BoundOnce(ds) && GuardsAgree(ds)
  {
    var ds := OperatorStepEnv(tell, cmd);
    StrandedNames(tell, cmd);
    hide Refs, Defines, CaptureBinds;
    assert Defined(ds, 1) == {} && Defined(ds, 2) == {"v"};
    assert Faults(h, ds, 0) == [] && Faults(h, ds, 1) == [];
    assert RefFaults(2, ["v"], Defined(ds, 2)) == [] by { assert ["v"][1..] == []; }
    assert Faults(h, ds, 2) == [];
    hide Faults;
    ReportIff(h, ds, 3);
  }

  /** Everything else holds, and the gated step binds nothing: the reference to its name, which
      the lint passed, is stuck. */
  lemma GatedStepStrands(h: Host, tell: string, cmd: string)
    requires OperatorThrows(h)
    ensures var ds := OperatorStepEnv(tell, cmd);
            && Report(h, ds, 3) == [] && BoundOnce(ds) && GuardsAgree(ds)
            && (forall i :: 0 <= i < 3 ==> PromptOk(h, ds[i], i) && RunOk(h, ds[i], i) && CaptureBinds(ds[i]))
            && Templates(ds[2]) == [[Ref("v", "{{v}}")]]
            && Render([Ref("v", "{{v}}")], After(h, ds, 2, Begin(map[])).vars) == Stuck("v")
  {
    var ds := OperatorStepEnv(tell, cmd);
    StrandedIsClean(h, tell, cmd);
    StrandedNames(tell, cmd);
    StrandedOk(h, tell, cmd);
    assert ds[2].action.entries[1..] == [];
    hide Report, BoundOnce, GuardsAgree, Refs, Defines, PromptOk, RunOk, CaptureBinds;
    StrandedRun(h, tell, cmd);
  }

  lemma StrandedOk(h: Host, tell: string, cmd: string)
    requires OperatorThrows(h)
    ensures var ds := OperatorStepEnv(tell, cmd);
            forall i :: 0 <= i < 3 ==> PromptOk(h, ds[i], i) && RunOk(h, ds[i], i) && CaptureBinds(ds[i])
  {
    hide Normalize;
    StrandedNames(tell, cmd);
  }

  lemma StrandedRun(h: Host, tell: string, cmd: string)
    requires OperatorThrows(h)
    ensures After(h, OperatorStepEnv(tell, cmd), 2, Begin(map[])).vars == map[]
  {
    var ds, s0 := OperatorStepEnv(tell, cmd), Begin(map[]);
    LiteralRefs(tell);
    assert !Deferrable("no");
    var s1 := Visit(h, ds[0], 0, s0);
    assert s1.blocked && s1.vars == map[];
    var s2 := Visit(h, ds[1], 1, s1);
    assert s2.vars == map[];
    hide Visit;
    assert After(h, ds, 0, s0) == s0;
    assert After(h, ds, 1, s0) == s1;
  }

  /** Completeness: a flagged reference in a body that is substituted never resolves. */
  lemma FlaggedNeverResolves(h: Host, ds: seq<Directive>, f0: map<Path, Lines>, n: nat, k: nat, r: string)
    requires n < |ds| && k < |Templates(ds[n])| && r in TemplateRefs(Templates(ds[n])[k])
    requires r != "" && r !in Defined(ds, n)
    ensures Render(Templates(ds[n])[k], After(h, ds, n, Begin(f0)).vars).Stuck?
  {
    hide Visit;
    UndefinedStaysUnbound(h, ds, n, f0);
    RenderIff(Templates(ds[n])[k], After(h, ds, n, Begin(f0)).vars);
  }
}
