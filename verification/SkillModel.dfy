/** scripts/skill-apply.ts: what one apply does to the files, the bindings and the
    journal, directive by directive. Commands, copied bytes, prompt answers and event
    handlers are the host's: any behaviour of theirs is allowed. */
module SkillModel {
  import opened Prelude
  import opened Text

  type Path = string

  /** A file's text, split on '\n'; an empty file is [""]. */
  type Lines = s: seq<string> | s != [] witness [""]

  const ENV: Path := ".env"

  // ---- Values -----------------------------------------------------------------

  datatype Json =
    | Null
    | Bool(b: bool)
    | Num(n: real)
    | Str(s: string)
    | Arr(items: seq<Json>)
    | Obj(fields: seq<(string, Json)>)

  datatype Parsed = Value(json: Json) | Bad(message: string)

  function Lookup(fields: seq<(string, Json)>, key: string): Option<Json> {
    if fields == [] then None
    else if fields[0].0 == key then Some(fields[0].1)
    else Lookup(fields[1..], key)
  }

  /** j[key]; None is undefined. */
  function Field(j: Json, key: string): Option<Json> {
    if j.Obj? then Lookup(j.fields, key) else None
  }

  predicate Scalar(v: Option<Json>) {
    v.Some? ==> !v.value.Arr? && !v.value.Obj?
  }

  /** === on separately parsed values: two objects or arrays are never the same one. */
  predicate StrictEq(a: Option<Json>, b: Option<Json>) {
    a == b && Scalar(a)
  }

  predicate Hit(el: Json, key: string, value: Option<Json>) {
    (el.Arr? || el.Obj?) && StrictEq(Field(el, key), value)
  }

  /** arr.findIndex(...), with |arr| for -1 */
  function FindIndex(arr: seq<Json>, key: string, value: Option<Json>): (i: nat)
    ensures i <= |arr|
    ensures i < |arr| ==> Hit(arr[i], key, value)
    ensures forall j :: 0 <= j < i ==> !Hit(arr[j], key, value)
  {
    if arr == [] || Hit(arr[0], key, value) then 0
    else 1 + FindIndex(arr[1..], key, value)
  }

  // ---- Directives -------------------------------------------------------------

  datatype Piece = Lit(text: string) | Ref(name: string, spelled: string)
  type Template = seq<Piece>

  datatype When = Cond(name: string, value: string) | Malformed

  datatype Move = Move(src: string, dst: Path)

  /** One pair of a capture list: `a=.x`, `=.x`, or a token without '='. */
  datatype Pair = Bind(name: string, path: string) | NoName(path: string) | NoEq(token: string)

  datatype Capture = Bare(name: string) | Pairs(pairs: seq<Pair>)

  /** `KEY=value`. probe is the text before the first '='; key is what slice(0, indexOf)
      leaves, which differs only for a line that has no '='. */
  datatype Entry = Entry(probe: string, key: string, value: Template)

  datatype Shape = Shape(pattern: string, flags: string)

  datatype Action =
    | Copy(branch: bool, moves: seq<Move>)
    | Append(to: Path, at: Option<string>, lines: seq<string>)
    | Dep(add: string, remove: string, specs: seq<string>)
    | Run(effect: Option<string>, capture: Option<Capture>, shape: Option<string>,
          undo: Option<string>, cmds: seq<Template>)
    | EnvSet(entries: seq<Entry>)
    | JsonMerge(into: Path, key: string, body: Option<Json>)
    | Prompt(name: string, secret: bool, valid: Option<Shape>, normalize: string)
    | Operator(text: Template)
    | Other(kind: string)

  /** inert: the {{names}} in a body that is never substituted. */
  datatype Directive = Directive(when: Option<When>, action: Action, inert: seq<string>)

  // ---- The host ---------------------------------------------------------------

  datatype Mode = Install | Refresh

  datatype Reply = Out(text: string) | Threw(message: string)
  datatype StepReply = Finished(ok: bool, fields: map<string, string>) | StepThrew(message: string)
  datatype Put = Done(content: Lines) | Failed(message: string, partial: Option<Lines>)
  datatype Answer = Gave(text: string) | Silent | AskThrew(message: string)

  /** The options of one apply, what the outside world answers for directive n (and the
      k-th command or file of its body), and the library functions it calls. */
  datatype Host = Host(
    mode: Mode,
    inputs: map<string, string>,
    skipEffects: set<string>,
    streams: bool,
    ask: nat -> Answer,
    exec: (nat, nat) -> Reply,
    stream: nat -> StepReply,
    put: (nat, nat) -> Put,
    missing: nat -> seq<string>,
    onStart: nat -> Option<string>,
    onEnd: nat -> Option<string>,
    onOperator: nat -> Option<string>,
    parse: seq<string> -> Parsed,
    stringify: seq<Json> -> Lines,
    compile: (string, string) -> Option<string>,
    test: (string, string, string) -> bool,
    pick: (Json, string) -> string,
    lower: string -> string)

  // ---- The state of a run -----------------------------------------------------

  datatype Bound = Bound(value: string, secret: bool)
  type Vars = map<string, Bound>

  datatype Record =
    | Wrote(path: Path)
    | Appended(path: Path, line: string)
    | SetEnv(key: string)
    | Merged(path: Path, key: string, value: Option<Json>, previous: Option<Json>)
    | Ran(cmd: string, undo: Option<string>)

  datatype Act =
    | Start(n: nat)
    | End(n: nat, ok: bool)
    | Show(n: nat, text: string)
    | Exec(n: nat, cmd: string)
    | Stream(n: nat, cmd: string)
    | Bounced(n: nat)

  /** An entry of applied, skipped, deferred or agentTasks, made by directive n. */
  datatype Note = Note(n: nat, why: string, detail: seq<string>)

  /** orphans: files that a copy wrote before it threw; no journal entry names them.
      bound: the prompts that bound their variable. */
  datatype State = State(
    files: map<Path, Lines>,
    vars: Vars,
    journal: seq<Record>,
    blocked: bool,
    applied: seq<Note>,
    skipped: seq<Note>,
    deferred: seq<Note>,
    tasks: seq<Note>,
    bound: seq<nat>,
    messages: seq<string>,
    trace: seq<Act>,
    orphans: set<Path>)

  function Begin(files: map<Path, Lines>): State {
    State(files, map[], [], false, [], [], [], [], [], [], [], {})
  }

  /** The state when a handler ended, and the error it threw, if any. */
  datatype Step = Step(s: State, threw: Option<string>)

  // ---- Substitution -----------------------------------------------------------

  function Unresolved(name: string): string { "unresolved {{" + (name + "}}") }

  predicate Deferrable(message: string) { Contains(message, "unresolved {{") }

  datatype Rendered = Rendering(text: string) | Stuck(name: string)

  /** substitute: the first unbound reference throws. */
  function Render(t: Template, vars: Vars): Rendered {
    if t == [] then Rendering("")
    else
      match t[0]
      case Lit(text) => Before(text, Render(t[1..], vars))
      case Ref(name, _) => if name in vars then Before(vars[name].value, Render(t[1..], vars)) else Stuck(name)
  }

  function Before(text: string, r: Rendered): Rendered {
    if r.Stuck? then r else Rendering(text + r.text)
  }

  function Raw(t: Template): string {
    if t == [] then ""
    else (if t[0].Lit? then t[0].text else t[0].spelled) + Raw(t[1..])
  }

  function JoinTemplates(ts: seq<Template>): Template {
    if ts == [] then []
    else if |ts| == 1 then ts[0]
    else ts[0] + [Lit("\n")] + JoinTemplates(ts[1..])
  }

  predicate WhenMet(w: When, vars: Vars) {
    w.Cond? ==> w.name in vars && vars[w.name].value == w.value
  }

  function StripSlashes(s: string): string {
    if s != "" && s[|s| - 1] == '/' then StripSlashes(s[..|s| - 1]) else s
  }

  function Normalize(h: Host, how: string, value: string): string {
    if how == "trim" then Trim(value)
    else if how == "rstrip-slash" then StripSlashes(value)
    else if how == "lower" then h.lower(value)
    else value
  }

  // ---- Files ------------------------------------------------------------------

  function Read(files: map<Path, Lines>, p: Path): Lines {
    if p in files then files[p] else [""]
  }

  predicate HasLine(lines: seq<string>, line: string) {
    exists i :: 0 <= i < |lines| && Trim(lines[i]) == Trim(line)
  }

  predicate KeySet(lines: seq<string>, key: string) {
    exists i :: 0 <= i < |lines| && EnvKey(lines[i]) == Some(key)
  }

  /** The lines of a text, its final newline forgotten. */
  function Body(lines: seq<string>): seq<string> {
    if lines != [] && lines[|lines| - 1] == "" then lines[..|lines| - 1] else lines
  }

  /** appendFileSync of text + '\n', after a '\n' when the file does not end in one. */
  function AddText(lines: Lines, text: string): Lines {
    Body(lines) + Split(text) + [""]
  }

  /** The first line that contains mark, |lines| when none does. */
  function MarkerIndex(lines: seq<string>, mark: string): (i: nat)
    ensures i <= |lines|
    ensures i < |lines| ==> Contains(lines[i], mark)
  {
    if lines == [] || Contains(lines[0], mark) then 0 else 1 + MarkerIndex(lines[1..], mark)
  }

  function InsertLine(lines: seq<string>, i: nat, line: string): Lines
    requires i <= |lines|
  {
    lines[..i] + [line] + lines[i..]
  }

  /** The text of lines put at the end, each with its line break. */
  lemma TailText(text: string)
    ensures Join(Split(text) + [""]) == text + "\n"
  {
    JoinOfSplit(text);
    JoinConcat(Split(text), [""]);
    assert Join([""]) == "";
    hide Join, Split;
    assert text + "\n" + "" == text + "\n";
  }

  /** What a text is without its final line break. */
  lemma BodyText(lines: Lines)
    requires Body(lines) != []
    ensures Join(lines) == Join(Body(lines)) + (if lines[|lines| - 1] == "" then "\n" else "")
  {
    var body := Body(lines);
    if lines[|lines| - 1] == "" {
      LastLine(lines);
      JoinConcat(body, [lines[|lines| - 1]]);
      assert Join([lines[|lines| - 1]]) == "";
      hide Join;
      assert Join(body) + "\n" + "" == Join(body) + "\n";
    } else {
      assert Join(lines) + "" == Join(lines);
    }
  }

  /** The line form of appendFileSync says what the text form does: the text and a line break
      go to the end, after a line break of their own when the file has none there. */
  lemma AddTextAppends(lines: Lines, text: string)
    ensures Join(AddText(lines, text)) ==
            Join(lines) + ((if lines[|lines| - 1] == "" then "" else "\n") + (text + "\n"))
  {
    hide Join, Split, Body, AddText;
    var body, tail := Body(lines), Split(text) + [""];
    AddTextIs(lines, text);
    TailText(text);
    SkipBody(lines, tail);
    if body == [] {
      assert "" + ("" + (text + "\n")) == text + "\n";
    } else {
      JoinConcat(body, tail);
      BodyText(lines);
      Breaks(Join(body), text + "\n");
    }
  }

  lemma SkipBody(lines: Lines, tail: seq<string>)
    ensures Body(lines) == [] ==> Body(lines) + tail == tail && lines == [""] && Join(lines) == ""
  {
  }

  lemma AddTextIs(lines: Lines, text: string)
    ensures AddText(lines, text) == Body(lines) + (Split(text) + [""])
  {
    hide Split, Body;
  }

  lemma Breaks(a: string, t: string)
    ensures a + "\n" + t == (a + "\n") + ("" + t)
    ensures a + "\n" + t == (a + "") + ("\n" + t)
  {
  }

  lemma LastLine(lines: seq<string>)
    requires lines != []
    ensures lines == lines[..|lines| - 1] + [lines[|lines| - 1]]
  {
  }

  /** An append at a marker adds one line: just above the first line with the marker, indented
      like it. */
  lemma AppendAtMarker(to: Path, mark: string, line: string, s: State)
    requires mark != ""
    ensures var one, before := AppendOne(to, Some(mark), line, s), Read(s.files, to);
            var after := Read(one.s.files, to);
            if one.threw.Some? then one.s == s && forall i :: 0 <= i < |before| ==> !Contains(before[i], "<<< " + mark)
            else exists i ::
              && 0 <= i < |before| && Contains(before[i], "<<< " + mark)
              && (forall j :: 0 <= j < i ==> !Contains(before[j], "<<< " + mark))
              && after[..i] == before[..i] && after[i + 1..] == before[i..]
              && line <= after[i][Leading(before[i])..] && after[i][..Leading(before[i])] == before[i][..Leading(before[i])]
              && |after[i]| == Leading(before[i]) + |line|
  {
    var before := Read(s.files, to);
    var i := MarkerIndex(before, "<<< " + mark);
    MarkerIsFirst(before, "<<< " + mark);
    hide Contains, MarkerIndex, Leading;
    if i < |before| {
      var after := InsertLine(before, i, before[i][..Leading(before[i])] + line);
      assert after[..i] == before[..i] && after[i + 1..] == before[i..];
      assert Read(AppendOne(to, Some(mark), line, s).s.files, to) == after;
    }
  }

  lemma {:induction false} MarkerIsFirst(lines: seq<string>, mark: string)
    ensures forall j :: 0 <= j < MarkerIndex(lines, mark) ==> !Contains(lines[j], mark)
  {
    hide Contains;
    if lines != [] && !Contains(lines[0], mark) { MarkerIsFirst(lines[1..], mark); }
  }

  function ParseFile(h: Host, lines: seq<string>): Parsed {
    if lines == [""] then Value(Arr([])) else h.parse(lines)
  }

  predicate JsonHas(h: Host, files: map<Path, Lines>, p: Path, key: string, value: Option<Json>) {
    var parsed := ParseFile(h, Read(files, p));
    parsed.Value? && parsed.json.Arr? && FindIndex(parsed.json.items, key, value) < |parsed.json.items|
  }

  // ---- selfStatus -------------------------------------------------------------

  datatype Status = Skip(detail: seq<string>) | Apply(detail: seq<string>) | Agent

  function Dests(moves: seq<Move>): seq<Path> {
    if moves == [] then [] else [moves[0].dst] + Dests(moves[1..])
  }

  function Absent(files: map<Path, Lines>, paths: seq<Path>): seq<Path> {
    if paths == [] then []
    else (if paths[0] in files then [] else [paths[0]]) + Absent(files, paths[1..])
  }

  function Unset(env: seq<string>, entries: seq<Entry>): seq<string> {
    if entries == [] then []
    else (if KeySet(env, entries[0].probe) then [] else [entries[0].probe]) + Unset(env, entries[1..])
  }

  function StatusOf(h: Host, d: Directive, n: nat, files: map<Path, Lines>): Status {
    match d.action
    case Copy(_, moves) =>
      var dests := Dests(moves);
      if h.mode.Refresh? then Apply(dests)
      else if Absent(files, dests) != [] then Apply(Absent(files, dests)) else Skip(dests)
    case Append(to, _, lines) =>
      var line := if lines == [] then "" else lines[0];
      if HasLine(Read(files, to), line) then Skip([to]) else Apply([to, line])
    case Dep(_, _, specs) =>
      if h.mode.Refresh? then Apply(specs)
      else if h.missing(n) != [] then Apply(h.missing(n)) else Skip(specs)
    case Run(effect, _, _, _, _) => Apply(if effect.Some? then [effect.value] else [])
    case EnvSet(entries) =>
      var unset := Unset(Read(files, ENV), entries);
      if unset != [] then Apply(unset) else Skip([])
    case JsonMerge(into, key, body) =>
      if body == None || body.value.Null? then Agent
      else if h.mode.Install? && JsonHas(h, files, into, key, Field(body.value, key)) then Skip([into, key])
      else Apply([into, key])
    case _ => Agent
  }

  // ---- applyOne ---------------------------------------------------------------

  function DestSet(moves: seq<Move>): set<Path> {
    if moves == [] then {} else {moves[0].dst} + DestSet(moves[1..])
  }

  function Wrotes(moves: seq<Move>): seq<Record> {
    if moves == [] then [] else [Wrote(moves[0].dst)] + Wrotes(moves[1..])
  }

  function CopyFrom(h: Host, n: nat, moves: seq<Move>, k: nat, s: State): Step
    requires k <= |moves|
    decreases |moves| - k
  {
    if k == |moves| then Step(s.(journal := s.journal + Wrotes(moves)), None)
    else
      match h.put(n, k)
      case Done(content) => CopyFrom(h, n, moves, k + 1, s.(files := s.files[moves[k].dst := content]))
      case Failed(message, partial) =>
        var files := if partial.Some? then s.files[moves[k].dst := partial.value] else s.files;
        var left := DestSet(moves[..if partial.Some? then k + 1 else k]);
        Step(s.(files := files, orphans := s.orphans + left), Some(message))
  }

  function PerformCopy(h: Host, n: nat, branch: bool, moves: seq<Move>, s: State): Step {
    if branch && h.exec(n, 0).Threw? then Step(s, Some(h.exec(n, 0).message))
    else CopyFrom(h, n, moves, 0, s)
  }

  function AppendOne(to: Path, at: Option<string>, line: string, s: State): Step {
    var lines := Read(s.files, to);
    var journal := s.journal + [Appended(to, line)];
    if at.Some? && at.value != "" then
      var i := MarkerIndex(lines, "<<< " + at.value);
      if i == |lines| then Step(s, Some("append marker \"" + at.value + "\" not found in " + to))
      else
        var indent := lines[i][..Leading(lines[i])];
        Step(s.(files := s.files[to := InsertLine(lines, i, indent + line)], journal := journal), None)
    else Step(s.(files := s.files[to := AddText(lines, line)], journal := journal), None)
  }

  function AppendFrom(to: Path, at: Option<string>, lines: seq<string>, k: nat, s: State): Step
    requires k <= |lines|
    decreases |lines| - k
  {
    if k == |lines| then Step(s, None)
    else
      var one := AppendOne(to, at, lines[k], s);
      if one.threw.Some? then one else AppendFrom(to, at, lines, k + 1, one.s)
  }

  function PerformDep(h: Host, n: nat, add: string, remove: string, s: State): Step {
    var s1 := s.(trace := s.trace + [Exec(n, add)]);
    match h.exec(n, 0)
    case Threw(message) => Step(s1, Some(message))
    case Out(_) => Step(s1.(journal := s1.journal + [Ran(add, Some(remove))]), None)
  }

  datatype Binding = Binding(vars: Vars, threw: Option<string>)

  function BindOne(h: Host, name: string, value: string, shape: Option<string>, vars: Vars): Binding {
    if shape.Some? && shape.value != "" && !h.test(shape.value, "", value) then
      Binding(vars, Some("captured " + name + "=\"" + value + "\" does not match validate:" + shape.value))
    else Binding(vars[name := Bound(value, false)], None)
  }

  function BindPairs(h: Host, pairs: seq<Pair>, json: Json, shape: Option<string>, vars: Vars): Binding {
    if pairs == [] then Binding(vars, None)
    else if !pairs[0].Bind? then BindPairs(h, pairs[1..], json, shape, vars)
    else
      var b := BindOne(h, pairs[0].name, h.pick(json, pairs[0].path), shape, vars);
      if b.threw.Some? then b else BindPairs(h, pairs[1..], json, shape, b.vars)
  }

  function BindCapture(h: Host, capture: Capture, stdout: string, shape: Option<string>, vars: Vars): Binding {
    if shape.Some? && shape.value != "" && h.compile(shape.value, "").Some? then
      Binding(vars, h.compile(shape.value, ""))
    else
      match capture
      case Bare(name) => BindOne(h, name, stdout, shape, vars)
      case Pairs(pairs) =>
        match h.parse(Split(stdout))
        case Bad(message) => Binding(vars, Some(message))
        case Value(json) => BindPairs(h, pairs, json, shape, vars)
  }

  /** The fields of a finished step; a pair without a name binds nothing. */
  function BindFields(pairs: seq<Pair>, fields: map<string, string>, vars: Vars): Vars {
    if pairs == [] then vars
    else if !pairs[0].Bind? then BindFields(pairs[1..], fields, vars)
    else
      var value := if pairs[0].path in fields then Trim(fields[pairs[0].path]) else "";
      BindFields(pairs[1..], fields, vars[pairs[0].name := Bound(value, false)])
  }

  /** The k-th command, sent after substitution; `after` is what its output leads to. */
  function CheckFrom(h: Host, n: nat, cmds: seq<Template>, k: nat, s: State): Step
    requires k <= |cmds|
    decreases |cmds| - k
  {
    if k == |cmds| then Step(s, None)
    else
      match Render(cmds[k], s.vars)
      case Stuck(name) => Step(s, Some(Unresolved(name)))
      case Rendering(cmd) =>
        var s1 := s.(trace := s.trace + [Exec(n, cmd)]);
        if h.exec(n, k).Threw? then Step(s1, Some(h.exec(n, k).message)) else CheckFrom(h, n, cmds, k + 1, s1)
  }

  function PerformStep(h: Host, n: nat, capture: Option<Capture>, cmds: seq<Template>, s: State): Step {
    if !h.streams then Step(s, Some("effect:step needs a streaming exec"))
    else
      match Render(JoinTemplates(cmds), s.vars)
      case Stuck(name) => Step(s, Some(Unresolved(name)))
      case Rendering(cmd) =>
        var s1 := s.(trace := s.trace + [Stream(n, cmd)]);
        match h.stream(n)
        case StepThrew(message) => Step(s1, Some(message))
        case Finished(ok, fields) =>
          if !ok then Step(s1, Some("the step did not complete"))
          else
            var vars := if capture.Some? && capture.value.Pairs? then BindFields(capture.value.pairs, fields, s1.vars)
                        else s1.vars;
            Step(s1.(vars := vars, journal := s1.journal + [Ran(Raw(JoinTemplates(cmds)), None)]), None)
  }

  /** One command of a plain run: substitute, execute, capture, journal. */
  function RunOne(h: Host, n: nat, a: Action, k: nat, s: State): Step
    requires a.Run? && k < |a.cmds|
  {
    match Render(a.cmds[k], s.vars)
    case Stuck(name) => Step(s, Some(Unresolved(name)))
    case Rendering(cmd) =>
      var s1 := s.(trace := s.trace + [Exec(n, cmd)]);
      match h.exec(n, k)
      case Threw(message) => Step(s1, Some(message))
      case Out(text) =>
        var b := if a.capture.Some? then BindCapture(h, a.capture.value, Trim(text), a.shape, s1.vars)
                 else Binding(s1.vars, None);
        var s2 := s1.(vars := b.vars);
        if b.threw.Some? then Step(s2, b.threw)
        else
          var undo := if a.effect == Some("external") then a.undo else None;
          Step(s2.(journal := s2.journal + [Ran(Raw(a.cmds[k]), undo)]), None)
  }

  function RunFrom(h: Host, n: nat, a: Action, k: nat, s: State): Step
    requires a.Run? && k <= |a.cmds|
    decreases |a.cmds| - k
  {
    if k == |a.cmds| then Step(s, None)
    else
      var one := RunOne(h, n, a, k, s);
      if one.threw.Some? then one else RunFrom(h, n, a, k + 1, one.s)
  }

  function EnvOne(e: Entry, s: State): Step {
    match Render(e.value, s.vars)
    case Stuck(name) => Step(s, Some(Unresolved(name)))
    case Rendering(value) =>
      var lines := Read(s.files, ENV);
      if KeySet(lines, e.key) then Step(s, None)
      else Step(s.(files := s.files[ENV := AddText(lines, e.key + "=" + value)],
                   journal := s.journal + [SetEnv(e.key)]), None)
  }

  /** Setting one key leaves the keys set before it set. */
  lemma EnvOneKeepsKeys(e: Entry, s: State, key: string)
    requires KeySet(Read(s.files, ENV), key)
    ensures KeySet(Read(EnvOne(e, s).s.files, ENV), key)
  {
    hide EnvKey, Render, Split;
    var lines := Read(s.files, ENV);
    var i :| 0 <= i < |lines| && EnvKey(lines[i]) == Some(key);
    assert lines[i] != "" by { EmptyLineSetsNothing(); }
    assert Body(lines)[i] == lines[i];
    assert forall text :: AddText(lines, text)[i] == lines[i];
  }

  function EnvFrom(entries: seq<Entry>, k: nat, s: State): Step
    requires k <= |entries|
    decreases |entries| - k
  {
    if k == |entries| then Step(s, None)
    else
      var one := EnvOne(entries[k], s);
      if one.threw.Some? then one else EnvFrom(entries, k + 1, one.s)
  }

  datatype Merging = Untouched | Writes(content: Lines, r: Record)

  /** Push the object, or in refresh mode replace the element with its key. */
  function Merge(h: Host, into: Path, arr: seq<Json>, key: string, obj: Json): Merging {
    var value := Field(obj, key);
    var i := FindIndex(arr, key, value);
    if i == |arr| then Writes(h.stringify(arr + [obj]), Merged(into, key, value, None))
    else if h.mode.Refresh? && arr[i] != obj then
      Writes(h.stringify(arr[i := obj]), Merged(into, key, value, Some(arr[i])))
    else Untouched
  }

  function PerformMerge(h: Host, into: Path, key: string, obj: Json, s: State): Step {
    match ParseFile(h, Read(s.files, into))
    case Bad(message) => Step(s, Some(message))
    case Value(json) =>
      if !json.Arr? then Step(s, Some(into + " is not a JSON array"))
      else
        match Merge(h, into, json.items, key, obj)
        case Untouched => Step(s, None)
        case Writes(content, r) => Step(s.(files := s.files[into := content], journal := s.journal + [r]), None)
  }

  function Perform(h: Host, d: Directive, n: nat, s: State): Step {
    match d.action
    case Copy(branch, moves) => PerformCopy(h, n, branch, moves, s)
    case Append(to, at, lines) => AppendFrom(to, at, lines, 0, s)
    case Dep(add, remove, _) => PerformDep(h, n, add, remove, s)
    case Run(effect, capture, _, _, cmds) =>
      if effect == Some("check") then CheckFrom(h, n, cmds, 0, s)
      else if effect == Some("step") then PerformStep(h, n, capture, cmds, s)
      else RunFrom(h, n, d.action, 0, s)
    case EnvSet(entries) => EnvFrom(entries, 0, s)
    case JsonMerge(into, key, body) =>
      if body == None then Step(s, Some("the body is not JSON")) else PerformMerge(h, into, key, body.value, s)
    case _ => Step(s, Some("no handler"))
  }

  // ---- applySkill -------------------------------------------------------------

  function SkipNote(s: State, n: nat, why: string, detail: seq<string>): State {
    s.(skipped := s.skipped + [Note(n, why, detail)])
  }

  function Defer(s: State, n: nat, why: string): State {
    s.(deferred := s.deferred + [Note(n, why, [])])
  }

  function Bounce(s: State, n: nat, why: string): State {
    s.(blocked := true, tasks := s.tasks + [Note(n, why, [])], trace := s.trace + [Bounced(n)])
  }

  /** The catch clause of the loop. */
  function Fail(s: State, n: nat, message: string): State {
    if Deferrable(message) then Defer(s, n, message)
    else Bounce(s, n, "engine could not apply (" + message + ")")
  }

  /** Normalize, validate, bind. */
  function BindPrompt(h: Host, a: Action, n: nat, text: string, s: State): State
    requires a.Prompt?
  {
    var value := Normalize(h, a.normalize, text);
    if a.valid.Some? && h.compile(a.valid.value.pattern, a.valid.value.flags).Some? then
      Fail(s, n, h.compile(a.valid.value.pattern, a.valid.value.flags).value)
    else if a.valid.Some? && !h.test(a.valid.value.pattern, a.valid.value.flags, value) then
      Defer(s, n, a.name + ": invalid value (does not match validate:" + a.valid.value.pattern + ")")
    else s.(vars := s.vars[a.name := Bound(value, a.secret)], bound := s.bound + [n])
  }

  /** Inputs given beforehand win over the resolver. */
  function AnswerTo(h: Host, a: Action, n: nat): Answer
    requires a.Prompt?
  {
    if a.name in h.inputs then Gave(h.inputs[a.name]) else h.ask(n)
  }

  function VisitPrompt(h: Host, d: Directive, n: nat, s: State): State
    requires d.action.Prompt?
  {
    match AnswerTo(h, d.action, n)
    case AskThrew(message) => Fail(s, n, message)
    case Silent => Defer(s, n, d.action.name)
    case Gave(text) => BindPrompt(h, d.action, n, text, s)
  }

  function VisitOperator(h: Host, d: Directive, n: nat, s: State): State
    requires d.action.Operator?
  {
    if s.blocked then SkipNote(s, n, "skipped after an earlier failure", [])
    else
      match Render(d.action.text, s.vars)
      case Stuck(name) => Fail(s, n, Unresolved(name))
      case Rendering(text) =>
        var s1 := s.(messages := s.messages + [text], trace := s.trace + [Show(n, text)]);
        if h.onOperator(n).Some? then Fail(s1, n, h.onOperator(n).value)
        else s1.(applied := s1.applied + [Note(n, "operator", [])])
  }

  /** step-start, the handler, step-end. */
  function Bracket(h: Host, d: Directive, n: nat, detail: seq<string>, s: State): State {
    var s1 := s.(trace := s.trace + [Start(n)]);
    if h.onStart(n).Some? then Fail(s1, n, h.onStart(n).value)
    else
      var done := Perform(h, d, n, s1);
      var s2 := done.s.(trace := done.s.trace + [End(n, done.threw == None)]);
      if done.threw.Some? then Fail(s2, n, done.threw.value)
      else if h.onEnd(n).Some? then Fail(s2, n, h.onEnd(n).value)
      else s2.(applied := s2.applied + [Note(n, "applied", detail)])
  }

  predicate SideEffect(a: Action) {
    a.Run? && (a.effect == Some("restart") || a.effect == Some("step") || a.effect == Some("wire"))
  }

  predicate NotInRefresh(a: Action) {
    a.Prompt? || a.Operator? || a.EnvSet? || (a.Run? && a.effect != Some("refresh"))
  }

  function VisitStep(h: Host, d: Directive, n: nat, s: State): State {
    if d.action.Run? && d.action.effect.Some? && d.action.effect.value in h.skipEffects then
      SkipNote(s, n, "owned by the caller", [])
    else if SideEffect(d.action) && s.blocked then Bounce(s, n, "an earlier step did not complete")
    else
      match StatusOf(h, d, n, s.files)
      case Agent => Bounce(s, n, "no deterministic handler")
      case Skip(detail) => SkipNote(s, n, "present", detail)
      case Apply(detail) => Bracket(h, d, n, detail, s)
  }

  /** One turn of the loop. */
  function Visit(h: Host, d: Directive, n: nat, s: State): State {
    if h.mode.Refresh? && NotInRefresh(d.action) then SkipNote(s, n, "not part of code refresh", [])
    else if d.when.Some? && !WhenMet(d.when.value, s.vars) then SkipNote(s, n, "guard not met", [])
    else if d.action.Prompt? then VisitPrompt(h, d, n, s)
    else if d.action.Operator? then VisitOperator(h, d, n, s)
    else VisitStep(h, d, n, s)
  }

  /** The state after the first n directives. */
  function After(h: Host, ds: seq<Directive>, n: nat, s0: State): State
    requires n <= |ds|
  {
    if n == 0 then s0 else Visit(h, ds[n - 1], n - 1, After(h, ds, n - 1, s0))
  }

  // ---- removeSkill ------------------------------------------------------------

  predicate StartsWith(line: string, prefix: string) { prefix <= line }

  /** What an undo record drops from a text file. */
  predicate Drops(r: Record, line: string) {
    match r
    case Appended(_, l) => Trim(line) == Trim(l)
    case SetEnv(key) => StartsWith(line, key + "=")
    case _ => false
  }

  function Keep(r: Record, lines: seq<string>): seq<string> {
    if lines == [] then []
    else (if Drops(r, lines[0]) then [] else [lines[0]]) + Keep(r, lines[1..])
  }

  /** filter(...).join('\n'); no lines left is the empty text. */
  function FilterLines(r: Record, lines: seq<string>): Lines {
    if Keep(r, lines) == [] then [""] else Keep(r, lines)
  }

  function Unmerge(arr: seq<Json>, key: string, value: Option<Json>, previous: Option<Json>): seq<Json> {
    var i := FindIndex(arr, key, value);
    if i == |arr| then arr
    else if previous.Some? then arr[i := previous.value]
    else arr[..i] + arr[i + 1..]
  }

  /** None: JSON.parse threw. */
  function UndoOne(h: Host, r: Record, files: map<Path, Lines>): Option<map<Path, Lines>> {
    match r
    case Wrote(p) => Some(files - {p})
    case Appended(p, _) => Some(files[p := FilterLines(r, Read(files, p))])
    case SetEnv(_) => Some(files[ENV := FilterLines(r, Read(files, ENV))])
    case Merged(p, key, value, previous) =>
      (match ParseFile(h, Read(files, p))
       case Bad(_) => None
       case Value(json) =>
         if json.Arr? then Some(files[p := h.stringify(Unmerge(json.items, key, value, previous))]) else Some(files))
    case Ran(_, _) => Some(files)
  }

  /** The journal played backwards. */
  function Undo(h: Host, journal: seq<Record>, files: map<Path, Lines>): Option<map<Path, Lines>> {
    if journal == [] then Some(files)
    else
      var last := |journal| - 1;
      var one := UndoOne(h, journal[last], files);
      if one == None then None else Undo(h, journal[..last], one.value)
  }
}
