/** scripts/skill-apply.ts as it runs: one object whose files, bindings, journal and result
    lists the loops update in place. Every method is proved to leave exactly the state
    that SkillModel's functions give, so the theorems about those hold of it. */
module SkillEngine {
  import opened Prelude
  import opened Text
  import opened SkillModel

  class Engine {
    var files: map<Path, Lines>
    var vars: Vars
    var journal: seq<Record>
    var blocked: bool
    var applied: seq<Note>
    var skipped: seq<Note>
    var deferred: seq<Note>
    var tasks: seq<Note>
    var messages: seq<string>
    ghost var bound: seq<nat>
    ghost var trace: seq<Act>
    ghost var orphans: set<Path>

    constructor (files: map<Path, Lines>)
      ensures Now() == Begin(files)
    {
      this.files := files;
      vars, journal, blocked := map[], [], false;
      applied, skipped, deferred, tasks, messages := [], [], [], [], [];
      bound, trace, orphans := [], [], {};
    }

    ghost function Now(): State
      reads this
    {
      State(files, vars, journal, blocked, applied, skipped, deferred, tasks, bound, messages, trace, orphans)
    }

    method JournalCopies(moves: seq<Move>)
      modifies `journal
      ensures journal == old(journal) + Wrotes(moves)
    {
      var k := 0;
      while k < |moves|
        invariant k <= |moves|
        invariant journal + Wrotes(moves[k..]) == old(journal) + Wrotes(moves)
      {
        journal := journal + [Wrote(moves[k].dst)];
        k := k + 1;
      }
      assert journal + [] == journal;
    }

    method CopyFiles(h: Host, n: nat, branch: bool, moves: seq<Move>) returns (threw: Option<string>)
      modifies this
      ensures Step(Now(), threw) == PerformCopy(h, n, branch, moves, old(Now()))
    {
      if branch && h.exec(n, 0).Threw? { return Some(h.exec(n, 0).message); }
      var k := 0;
      while k < |moves|
        invariant k <= |moves|
        invariant CopyFrom(h, n, moves, k, Now()) == CopyFrom(h, n, moves, 0, old(Now()))
        invariant journal == old(journal)
      {
        match h.put(n, k) {
          case Done(content) =>
            files := files[moves[k].dst := content];
          case Failed(message, partial) =>
            if partial.Some? {
              files := files[moves[k].dst := partial.value];
              orphans := orphans + DestSet(moves[..k + 1]);
            } else {
              orphans := orphans + DestSet(moves[..k]);
            }
            return Some(message);
        }
        k := k + 1;
      }
      JournalCopies(moves);
      return None;
    }

    method AppendLines(to: Path, at: Option<string>, lines: seq<string>) returns (threw: Option<string>)
      modifies this
      ensures Step(Now(), threw) == AppendFrom(to, at, lines, 0, old(Now()))
    {
      var k := 0;
      while k < |lines|
        invariant k <= |lines|
        invariant AppendFrom(to, at, lines, k, Now()) == AppendFrom(to, at, lines, 0, old(Now()))
      {
        var text := Read(files, to);
        if at.Some? && at.value != "" {
          var i := MarkerIndex(text, "<<< " + at.value);
          if i == |text| { return Some("append marker \"" + at.value + "\" not found in " + to); }
          var indent := text[i][..Leading(text[i])];
          files := files[to := InsertLine(text, i, indent + lines[k])];
        } else {
          files := files[to := AddText(text, lines[k])];
        }
        journal := journal + [Appended(to, lines[k])];
        k := k + 1;
      }
      return None;
    }

    method AddDependency(h: Host, n: nat, add: string, remove: string) returns (threw: Option<string>)
      modifies this
      ensures Step(Now(), threw) == PerformDep(h, n, add, remove, old(Now()))
    {
      trace := trace + [Exec(n, add)];
      match h.exec(n, 0) {
        case Threw(message) => return Some(message);
        case Out(_) =>
          journal := journal + [Ran(add, Some(remove))];
          return None;
      }
    }

    method CheckCommands(h: Host, n: nat, cmds: seq<Template>) returns (threw: Option<string>)
      modifies this
      ensures Step(Now(), threw) == CheckFrom(h, n, cmds, 0, old(Now()))
    {
      var k := 0;
      while k < |cmds|
        invariant k <= |cmds|
        invariant CheckFrom(h, n, cmds, k, Now()) == CheckFrom(h, n, cmds, 0, old(Now()))
      {
        match Render(cmds[k], vars) {
          case Stuck(name) => return Some(Unresolved(name));
          case Rendering(cmd) => trace := trace + [Exec(n, cmd)];
        }
        match h.exec(n, k) {
          case Threw(message) => return Some(message);
          case Out(_) =>
        }
        k := k + 1;
      }
      return None;
    }

    method RunStep(h: Host, n: nat, capture: Option<Capture>, cmds: seq<Template>)
      returns (threw: Option<string>)
      modifies this
      ensures Step(Now(), threw) == PerformStep(h, n, capture, cmds, old(Now()))
    {
      if !h.streams { return Some("effect:step needs a streaming exec"); }
      match Render(JoinTemplates(cmds), vars) {
        case Stuck(name) => return Some(Unresolved(name));
        case Rendering(cmd) => trace := trace + [Stream(n, cmd)];
      }
      match h.stream(n) {
        case StepThrew(message) => return Some(message);
        case Finished(ok, fields) =>
          if !ok { return Some("the step did not complete"); }
          if capture.Some? && capture.value.Pairs? {
            var pairs, k := capture.value.pairs, 0;
            ghost var before := Now();
            while k < |pairs|
              invariant k <= |pairs|
              invariant Now() == before.(vars := vars)
              invariant BindFields(pairs[k..], fields, vars) == BindFields(pairs, fields, before.vars)
            {
              if pairs[k].Bind? {
                var value := if pairs[k].path in fields then Trim(fields[pairs[k].path]) else "";
                vars := vars[pairs[k].name := Bound(value, false)];
              }
              k := k + 1;
            }
          }
          journal := journal + [Ran(Raw(JoinTemplates(cmds)), None)];
          return None;
      }
    }

    method RunCommands(h: Host, n: nat, a: Action) returns (threw: Option<string>)
      requires a.Run?
      modifies this
      ensures Step(Now(), threw) == RunFrom(h, n, a, 0, old(Now()))
    {
      var k := 0;
      while k < |a.cmds|
        invariant k <= |a.cmds|
        invariant RunFrom(h, n, a, k, Now()) == RunFrom(h, n, a, 0, old(Now()))
      {
        ghost var before := Now();
        match Render(a.cmds[k], vars) {
          case Stuck(name) =>
            return Some(Unresolved(name));
          case Rendering(cmd) =>
            trace := trace + [Exec(n, cmd)];
        }
        match h.exec(n, k) {
          case Threw(message) => return Some(message);
          case Out(text) =>
            if a.capture.Some? {
              var b := BindCapture(h, a.capture.value, Trim(text), a.shape, vars);
              vars := b.vars;
              if b.threw.Some? { return b.threw; }
            }
        }
        var undo := if a.effect == Some("external") then a.undo else None;
        journal := journal + [Ran(Raw(a.cmds[k]), undo)];
        assert RunOne(h, n, a, k, before) == Step(Now(), None);
        k := k + 1;
      }
      return None;
    }

    method SetEnvKeys(entries: seq<Entry>) returns (threw: Option<string>)
      modifies this
      ensures Step(Now(), threw) == EnvFrom(entries, 0, old(Now()))
    {
      var k := 0;
      while k < |entries|
        invariant k <= |entries|
        invariant EnvFrom(entries, k, Now()) == EnvFrom(entries, 0, old(Now()))
      {
        ghost var before := Now();
        var e := entries[k];
        var rendered := Render(e.value, vars);
        if rendered.Stuck? { return Some(Unresolved(rendered.name)); }
        var lines := Read(files, ENV);
        if !KeySet(lines, e.key) {
          files := files[ENV := AddText(lines, e.key + "=" + rendered.text)];
          journal := journal + [SetEnv(e.key)];
        }
        assert EnvOne(e, before) == Step(Now(), None);
        k := k + 1;
      }
      return None;
    }

    method MergeJson(h: Host, into: Path, key: string, obj: Json) returns (threw: Option<string>)
      modifies this
      ensures Step(Now(), threw) == PerformMerge(h, into, key, obj, old(Now()))
    {
      var parsed := ParseFile(h, Read(files, into));
      if parsed.Bad? { return Some(parsed.message); }
      if !parsed.json.Arr? { return Some(into + " is not a JSON array"); }
      var arr, value := parsed.json.items, Field(obj, key);
      var i := FindIndex(arr, key, value);
      if i == |arr| {
        files := files[into := h.stringify(arr + [obj])];
        journal := journal + [Merged(into, key, value, None)];
      } else if h.mode.Refresh? && arr[i] != obj {
        files := files[into := h.stringify(arr[i := obj])];
        journal := journal + [Merged(into, key, value, Some(arr[i]))];
      }
      return None;
    }

    method ApplyOne(h: Host, d: Directive, n: nat) returns (threw: Option<string>)
      modifies this
      ensures Step(Now(), threw) == Perform(h, d, n, old(Now()))
    {
      match d.action {
        case Copy(branch, moves) => threw := CopyFiles(h, n, branch, moves);
        case Append(to, at, lines) => threw := AppendLines(to, at, lines);
        case Dep(add, remove, _) => threw := AddDependency(h, n, add, remove);
        case Run(effect, capture, _, _, cmds) =>
          if effect == Some("check") {
            threw := CheckCommands(h, n, cmds);
          } else if effect == Some("step") {
            threw := RunStep(h, n, capture, cmds);
          } else {
            threw := RunCommands(h, n, d.action);
          }
        case EnvSet(entries) => threw := SetEnvKeys(entries);
        case JsonMerge(into, key, body) =>
          if body == None { return Some("the body is not JSON"); }
          threw := MergeJson(h, into, key, body.value);
        case _ => return Some("no handler");
      }
    }

    method Catch(n: nat, message: string)
      modifies this
      ensures Now() == Fail(old(Now()), n, message)
    {
      if Deferrable(message) {
        deferred := deferred + [Note(n, message, [])];
      } else {
        blocked := true;
        tasks := tasks + [Note(n, "engine could not apply (" + message + ")", [])];
        trace := trace + [Bounced(n)];
      }
    }

    method Ask(h: Host, d: Directive, n: nat)
      requires d.action.Prompt?
      modifies this
      ensures Now() == VisitPrompt(h, d, n, old(Now()))
    {
      var a := d.action;
      var answer := AnswerTo(h, a, n);
      match answer {
        case AskThrew(message) => Catch(n, message);
        case Silent => deferred := deferred + [Note(n, a.name, [])];
        case Gave(text) =>
          var value := Normalize(h, a.normalize, text);
          if a.valid.Some? {
            var shape := a.valid.value;
            var broken := h.compile(shape.pattern, shape.flags);
            if broken.Some? { Catch(n, broken.value); return; }
            if !h.test(shape.pattern, shape.flags, value) {
              var why := a.name + ": invalid value (does not match validate:" + shape.pattern + ")";
              deferred := deferred + [Note(n, why, [])];
              return;
            }
          }
          vars := vars[a.name := Bound(value, a.secret)];
          bound := bound + [n];
      }
    }

    method Tell(h: Host, d: Directive, n: nat)
      requires d.action.Operator?
      modifies this
      ensures Now() == VisitOperator(h, d, n, old(Now()))
    {
      if blocked {
        skipped := skipped + [Note(n, "skipped after an earlier failure", [])];
        return;
      }
      match Render(d.action.text, vars) {
        case Stuck(name) => Catch(n, Unresolved(name));
        case Rendering(text) =>
          messages := messages + [text];
          trace := trace + [Show(n, text)];
          if h.onOperator(n).Some? {
            Catch(n, h.onOperator(n).value);
          } else {
            applied := applied + [Note(n, "operator", [])];
          }
      }
    }

    method Execute(h: Host, d: Directive, n: nat, detail: seq<string>)
      modifies this
      ensures Now() == Bracket(h, d, n, detail, old(Now()))
    {
      trace := trace + [Start(n)];
      if h.onStart(n).Some? { Catch(n, h.onStart(n).value); return; }
      var threw := ApplyOne(h, d, n);
      trace := trace + [End(n, threw == None)];
      if threw.Some? {
        Catch(n, threw.value);
      } else if h.onEnd(n).Some? {
        Catch(n, h.onEnd(n).value);
      } else {
        applied := applied + [Note(n, "applied", detail)];
      }
    }

    /** An idempotent directive: skipped, bounced, or executed between its two events. */
    method Handle(h: Host, d: Directive, n: nat)
      modifies this
      ensures Now() == VisitStep(h, d, n, old(Now()))
    {
      if d.action.Run? && d.action.effect.Some? && d.action.effect.value in h.skipEffects {
        skipped := skipped + [Note(n, "owned by the caller", [])];
      } else if SideEffect(d.action) && blocked {
        tasks := tasks + [Note(n, "an earlier step did not complete", [])];
        trace := trace + [Bounced(n)];
      } else {
        match StatusOf(h, d, n, files) {
          case Agent =>
            blocked := true;
            tasks := tasks + [Note(n, "no deterministic handler", [])];
            trace := trace + [Bounced(n)];
          case Skip(detail) => skipped := skipped + [Note(n, "present", detail)];
          case Apply(detail) => Execute(h, d, n, detail);
        }
      }
    }

    /** The body of the loop in applySkill. */
    method Turn(h: Host, d: Directive, n: nat)
      modifies this
      ensures Now() == Visit(h, d, n, old(Now()))
    {
      if h.mode.Refresh? && NotInRefresh(d.action) {
        skipped := skipped + [Note(n, "not part of code refresh", [])];
      } else if d.when.Some? && !WhenMet(d.when.value, vars) {
        skipped := skipped + [Note(n, "guard not met", [])];
      } else if d.action.Prompt? {
        Ask(h, d, n);
      } else if d.action.Operator? {
        Tell(h, d, n);
      } else {
        Handle(h, d, n);
      }
    }

    /** The loop of applySkill. */
    method ApplySkill(h: Host, ds: seq<Directive>)
      modifies this
      ensures Now() == After(h, ds, |ds|, old(Now()))
    {
      hide Visit;
      var n := 0;
      while n < |ds|
        invariant n <= |ds|
        invariant Now() == After(h, ds, n, old(Now()))
      {
        Turn(h, ds[n], n);
        n := n + 1;
      }
    }

    /** removeSkill: the journal played backwards; `threw` is a JSON.parse that failed. */
    method RemoveSkill(h: Host, entries: seq<Record>) returns (threw: bool)
      modifies `files
      ensures threw == (Undo(h, entries, old(files)) == None)
      ensures !threw ==> Undo(h, entries, old(files)) == Some(files)
    {
      var k := |entries|;
      assert entries[..k] == entries;
      while k > 0
        invariant 0 <= k <= |entries|
        invariant Undo(h, entries[..k], files) == Undo(h, entries, old(files))
      {
        k := k - 1;
        assert entries[..k + 1][..k] == entries[..k];
        match entries[k] {
          case Wrote(p) => files := files - {p};
          case Appended(p, _) => files := files[p := FilterLines(entries[k], Read(files, p))];
          case SetEnv(_) => files := files[ENV := FilterLines(entries[k], Read(files, ENV))];
          case Merged(p, key, value, previous) =>
            var parsed := ParseFile(h, Read(files, p));
            if parsed.Bad? { return true; }
            if parsed.json.Arr? {
              files := files[p := h.stringify(Unmerge(parsed.json.items, key, value, previous))];
            }
          case Ran(_, _) =>
        }
      }
      return false;
    }
  }
}
