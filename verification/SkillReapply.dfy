/** Applying an installed skill again is a no-op: no file changes, nothing is journaled and
    no step even starts. */
module SkillReapply {
  import opened Prelude
  import opened Text
  import opened SkillModel
  import SkillUndo
  import SkillHealth

  /** The kinds of directive whose effect a second run can see in the files. */
  predicate Visible(d: Directive) {
    match d.action
    case Copy(_, _) => true
    case Append(_, _, lines) => lines != [] && Trimmed(lines[0]) && '\n' !in lines[0]
    case EnvSet(_) => true
    case JsonMerge(_, key, body) => body.Some? && SkillUndo.Mergeable(body.value, key)
    case Prompt(_, _, _, _) => true
    case Operator(_) => true
    case _ => false
  }

  predicate Targets(d: Directive, t: Path) {
    match d.action
    case Copy(_, moves) => exists i :: 0 <= i < |moves| && moves[i].dst == t
    case Append(to, _, _) => to == t
    case EnvSet(_) => t == ENV
    case JsonMerge(into, _, _) => into == t
    case _ => false
  }

  /** `later` overwrites, or breaks the JSON of, what `earlier` put in place. */
  predicate Clobbers(later: Directive, earlier: Directive) {
    match earlier.action
    case Append(to, _, _) => (later.action.Copy? || later.action.JsonMerge?) && Targets(later, to)
    case EnvSet(_) => (later.action.Copy? || later.action.JsonMerge?) && Targets(later, ENV)
    case JsonMerge(into, _, _) => !later.action.JsonMerge? && Targets(later, into)
    case _ => false
  }

  /** Both runs install, and every prompt is answered and judged alike. */
  ghost predicate SameAnswers(h1: Host, h2: Host) {
    && h1.mode == Install && h2.mode == Install && h1.inputs == h2.inputs
    && (forall n :: h1.ask(n) == h2.ask(n))
    && (forall p, f :: h1.compile(p, f) == h2.compile(p, f))
    && (forall p, f, v :: h1.test(p, f, v) == h2.test(p, f, v))
    && (forall v :: h1.lower(v) == h2.lower(v))
    && (forall a :: h1.parse(a) == h2.parse(a))
  }

  /** If the env-set runs here, each assignment it writes sets its key. */
  predicate EnvSettles(d: Directive, s: State) {
    d.action.EnvSet? && (d.when.Some? ==> WhenMet(d.when.value, s.vars)) ==>
      forall i :: 0 <= i < |d.action.entries| ==> EntrySettles(d.action.entries[i], s)
  }

  /** The entry has a '=', and unless its key is set already, some line of KEY=value sets it. */
  predicate EntrySettles(e: Entry, s: State) {
    var r := Render(e.value, s.vars);
    e.probe == e.key && (r.Rendering? && !KeySet(Read(s.files, ENV), e.key) ==> KeySet(Split(e.key + "=" + r.text), e.key))
  }

  /** What selfStatus asks of the files before it skips. */
  predicate Settled(h: Host, d: Directive, files: map<Path, Lines>) {
    match d.action
    case Copy(_, moves) => Absent(files, Dests(moves)) == []
    case Append(to, _, lines) => lines != [] && HasLine(Read(files, to), lines[0])
    case EnvSet(entries) => Unset(Read(files, ENV), entries) == []
    case JsonMerge(into, key, body) => body.Some? && JsonHas(h, files, into, key, Field(body.value, key))
    case _ => true
  }

  // ---- What a handler leaves in place -----------------------------------------

  /** Files stay, and so does every non-empty line of t. */
  predicate Grows(f: map<Path, Lines>, f': map<Path, Lines>, t: Path) {
    f.Keys <= f'.Keys && forall l :: l in Read(f, t) && l != "" ==> l in Read(f', t)
  }

  lemma InsertGrows(lines: Lines, i: nat, line: string)
    requires i <= |lines|
    ensures forall l :: l in lines ==> l in InsertLine(lines, i, line)
  {
    assert lines == lines[..i] + lines[i..];
  }

  lemma AddTextGrows(lines: Lines, text: string)
    ensures forall l :: l in lines && l != "" ==> l in AddText(lines, text)
  {
    assert lines == lines[..|lines| - 1] + [lines[|lines| - 1]];
  }

  lemma AppendOneGrows(to: Path, at: Option<string>, line: string, s: State, t: Path)
    ensures var s' := AppendOne(to, at, line, s).s;
            && Grows(s.files, s'.files, t) && s'.vars == s.vars
            && (t != to ==> Read(s'.files, t) == Read(s.files, t))
  {
    hide MarkerIndex, Leading, AddText, InsertLine, Contains;
    var lines := Read(s.files, to);
    if at.Some? && at.value != "" {
      var i := MarkerIndex(lines, "<<< " + at.value);
      if i < |lines| { InsertGrows(lines, i, lines[i][..Leading(lines[i])] + line); }
    } else {
      AddTextGrows(lines, line);
    }
  }

  lemma {:induction false} AppendGrows(to: Path, at: Option<string>, lines: seq<string>, k: nat, s: State, t: Path)
    requires k <= |lines|
    ensures var s' := AppendFrom(to, at, lines, k, s).s;
            && Grows(s.files, s'.files, t) && s'.vars == s.vars
            && (t != to ==> Read(s'.files, t) == Read(s.files, t))
    decreases |lines| - k
  {
    hide AppendOne;
    if k < |lines| {
      AppendOneGrows(to, at, lines[k], s, t);
      var one := AppendOne(to, at, lines[k], s);
      if one.threw == None { AppendGrows(to, at, lines, k + 1, one.s, t); }
    }
  }

  lemma EnvOneGrows(e: Entry, s: State, t: Path)
    ensures var s' := EnvOne(e, s).s;
            && Grows(s.files, s'.files, t) && s'.vars == s.vars
            && (t != ENV ==> Read(s'.files, t) == Read(s.files, t))
  {
    hide Render, KeySet, AddText;
    var r := Render(e.value, s.vars);
    if r.Rendering? { AddTextGrows(Read(s.files, ENV), e.key + "=" + r.text); }
  }

  lemma {:induction false} EnvGrows(entries: seq<Entry>, k: nat, s: State, t: Path)
    requires k <= |entries|
    ensures var s' := EnvFrom(entries, k, s).s;
            && Grows(s.files, s'.files, t) && s'.vars == s.vars
            && (t != ENV ==> Read(s'.files, t) == Read(s.files, t))
    decreases |entries| - k
  {
    hide EnvOne;
    if k < |entries| {
      EnvOneGrows(entries[k], s, t);
      var one := EnvOne(entries[k], s);
      if one.threw == None { EnvGrows(entries, k + 1, one.s, t); }
    }
  }

  lemma {:induction false} CopyGrows(h: Host, n: nat, moves: seq<Move>, k: nat, s: State)
    requires k <= |moves|
    ensures var c := CopyFrom(h, n, moves, k, s);
            && s.files.Keys <= c.s.files.Keys && c.s.vars == s.vars
            && (c.threw == None ==> forall i :: k <= i < |moves| ==> moves[i].dst in c.s.files)
    decreases |moves| - k
  {
    if k < |moves| && h.put(n, k).Done? {
      CopyGrows(h, n, moves, k + 1, s.(files := s.files[moves[k].dst := h.put(n, k).content]));
    }
  }

  lemma MergeGrows(h: Host, into: Path, key: string, obj: Json, s: State, t: Path)
    ensures var s' := PerformMerge(h, into, key, obj, s).s;
            && s.files.Keys <= s'.files.Keys && s'.vars == s.vars
            && (t != into ==> Read(s'.files, t) == Read(s.files, t))
  {
    hide FindIndex, Field, ParseFile;
  }

  lemma PerformGrows(h: Host, d: Directive, n: nat, s: State, t: Path)
    requires Visible(d)
    ensures var s' := Perform(h, d, n, s).s;
            && s.files.Keys <= s'.files.Keys && s'.vars == s.vars
            && (!Targets(d, t) ==> Read(s'.files, t) == Read(s.files, t))
            && (d.action.Append? || d.action.EnvSet? ==> Grows(s.files, s'.files, t))
  {
    hide CopyFrom, AppendFrom, EnvFrom, PerformMerge, Grows, Trimmed;
    match d.action {
      case Copy(_, moves) =>
        CopyGrows(h, n, moves, 0, s);
        SkillUndo.CopyChanges(h, n, moves, 0, s, t);
      case Append(to, at, lines) =>
        AppendGrows(to, at, lines, 0, s, t);
        GrowsKeys(s.files, AppendFrom(to, at, lines, 0, s).s.files, t);
      case EnvSet(entries) =>
        EnvGrows(entries, 0, s, t);
        GrowsKeys(s.files, EnvFrom(entries, 0, s).s.files, t);
      case JsonMerge(into, key, body) => MergeGrows(h, into, key, body.value, s, t);
      case _ =>
    }
  }

  lemma GrowsKeys(f: map<Path, Lines>, f': map<Path, Lines>, t: Path)
    requires Grows(f, f', t)
    ensures f.Keys <= f'.Keys
  {
  }

  // ---- Settled stays settled --------------------------------------------------

  lemma HasLineGrows(f: map<Path, Lines>, f': map<Path, Lines>, t: Path, line: string)
    requires HasLine(Read(f, t), line) && Trimmed(line) && Grows(f, f', t)
    ensures HasLine(Read(f', t), line)
  {
    TrimOfTrimmed(line);
    var lines := Read(f, t);
    var i :| 0 <= i < |lines| && Trim(lines[i]) == Trim(line);
    assert lines[i] != "" by { assert Leading("") == 0; }
    assert lines[i] in Read(f', t);
    var j :| 0 <= j < |Read(f', t)| && Read(f', t)[j] == lines[i];
  }

  lemma KeySetGrows(f: map<Path, Lines>, f': map<Path, Lines>, key: string)
    requires KeySet(Read(f, ENV), key) && Grows(f, f', ENV)
    ensures KeySet(Read(f', ENV), key)
  {
    hide EnvKey;
    var lines := Read(f, ENV);
    var i :| 0 <= i < |lines| && EnvKey(lines[i]) == Some(key);
    assert lines[i] != "" by { EmptyLineSetsNothing(); }
    assert lines[i] in Read(f', ENV);
    var j :| 0 <= j < |Read(f', ENV)| && Read(f', ENV)[j] == lines[i];
  }

  lemma UnsetGrows(f: map<Path, Lines>, f': map<Path, Lines>, entries: seq<Entry>)
    requires Unset(Read(f, ENV), entries) == [] && Grows(f, f', ENV)
    ensures Unset(Read(f', ENV), entries) == []
  {
    hide KeySet, Grows;
    if entries != [] {
      KeySetGrows(f, f', entries[0].probe);
      UnsetGrows(f, f', entries[1..]);
    }
  }

  lemma AbsentShrinks(f: map<Path, Lines>, f': map<Path, Lines>, paths: seq<Path>)
    requires f.Keys <= f'.Keys && Absent(f, paths) == []
    ensures Absent(f', paths) == []
  {
  }

  lemma {:induction false} FindAppended(arr: seq<Json>, obj: Json, key: string, value: Option<Json>)
    requires FindIndex(arr, key, value) < |arr| || Hit(obj, key, value)
    ensures FindIndex(arr + [obj], key, value) < |arr| + 1
  {
    var i := FindIndex(arr, key, value);
    assert Hit((arr + [obj])[i], key, value);
  }

  /** A merge keeps every key that was there, and puts its own. */
  lemma MergeHas(h: Host, into: Path, key: string, obj: Json, s: State, key2: string, value2: Option<Json>)
    requires SkillUndo.Lawful(h) && h.mode == Install && PerformMerge(h, into, key, obj, s).threw == None
    requires JsonHas(h, s.files, into, key2, value2) ||
             (key2 == key && value2 == Field(obj, key) && SkillUndo.Mergeable(obj, key))
    ensures JsonHas(h, PerformMerge(h, into, key, obj, s).s.files, into, key2, value2)
  {
    hide FindIndex, Field;
    var arr := ParseFile(h, Read(s.files, into)).json.items;
    if FindIndex(arr, key, Field(obj, key)) == |arr| {
      FindAppended(arr, obj, key2, value2);
      assert Read(PerformMerge(h, into, key, obj, s).s.files, into) == h.stringify(arr + [obj]);
    }
  }

  lemma SettledStays(h: Host, d: Directive, e: Directive, n: nat, s: State)
    requires SkillUndo.Lawful(h) && h.mode == Install && Visible(d) && Visible(e) && !Clobbers(e, d)
    requires Settled(h, d, s.files) && Perform(h, e, n, s).threw == None
    ensures Settled(h, d, Perform(h, e, n, s).s.files)
  {
    hide Perform, Grows, HasLine, Unset, Absent, JsonHas, Trimmed, SkillUndo.Mergeable;
    var s' := Perform(h, e, n, s).s;
    match d.action {
      case Copy(_, moves) =>
        PerformGrows(h, e, n, s, "");
        AbsentShrinks(s.files, s'.files, Dests(moves));
      case Append(to, _, lines) =>
        PerformGrows(h, e, n, s, to);
        if Targets(e, to) { HasLineGrows(s.files, s'.files, to, lines[0]); }
      case EnvSet(entries) =>
        PerformGrows(h, e, n, s, ENV);
        if Targets(e, ENV) { UnsetGrows(s.files, s'.files, entries); }
      case JsonMerge(into, key, body) =>
        PerformGrows(h, e, n, s, into);
        if Targets(e, into) {
          PerformIsMerge(h, e, n, s);
          MergeHas(h, into, e.action.key, e.action.body.value, s, key, Field(body.value, key));
        } else {
          JsonHasSame(h, s.files, s'.files, into, key, Field(body.value, key));
        }
      case _ =>
    }
  }

  lemma PerformIsMerge(h: Host, d: Directive, n: nat, s: State)
    requires d.action.JsonMerge? && d.action.body.Some?
    ensures Perform(h, d, n, s) == PerformMerge(h, d.action.into, d.action.key, d.action.body.value, s)
  {
  }

  lemma JsonHasSame(h: Host, f: map<Path, Lines>, f': map<Path, Lines>, p: Path, key: string, value: Option<Json>)
    requires Read(f, p) == Read(f', p)
    ensures JsonHas(h, f, p, key, value) == JsonHas(h, f', p, key, value)
  {
  }

  // ---- Applied means settled --------------------------------------------------

  lemma AppendOneSettles(to: Path, at: Option<string>, line: string, s: State)
    requires Trimmed(line) && '\n' !in line && AppendOne(to, at, line, s).threw == None
    ensures HasLine(Read(AppendOne(to, at, line, s).s.files, to), line)
  {
    hide Trim, MarkerIndex, Contains;
    var lines := Read(s.files, to);
    var after := Read(AppendOne(to, at, line, s).s.files, to);
    if at.Some? && at.value != "" {
      var i := MarkerIndex(lines, "<<< " + at.value);
      TrimIndented(lines[i][..Leading(lines[i])], line);
      TrimOfTrimmed(line);
      assert Trim(after[i]) == Trim(line);
    } else {
      SplitSingle(line);
      assert Trim(after[|Body(lines)|]) == Trim(line);
    }
  }

  lemma AppendSettles(to: Path, at: Option<string>, lines: seq<string>, s: State)
    requires lines != [] && Trimmed(lines[0]) && '\n' !in lines[0] && AppendFrom(to, at, lines, 0, s).threw == None
    ensures HasLine(Read(AppendFrom(to, at, lines, 0, s).s.files, to), lines[0])
  {
    hide AppendOne, HasLine, Grows, Trimmed;
    AppendOneSettles(to, at, lines[0], s);
    var one := AppendOne(to, at, lines[0], s);
    AppendGrows(to, at, lines, 1, one.s, to);
    HasLineGrows(one.s.files, AppendFrom(to, at, lines, 1, one.s).s.files, to, lines[0]);
  }

  /** An added text makes the next run skip a key exactly when one of its lines sets the key. */
  lemma AssignmentSticksIff(lines: Lines, key: string, value: string)
    requires !KeySet(lines, key)
    ensures KeySet(AddText(lines, key + "=" + value), key) <==> KeySet(Split(key + "=" + value), key)
  {
    hide EnvKey, Split;
    var added, after := Split(key + "=" + value), AddText(lines, key + "=" + value);
    EmptyLineSetsNothing();
    assert after == Body(lines) + added + [""];
    assert forall i :: 0 <= i < |Body(lines)| ==> lines[i] == after[i];
    assert forall i :: 0 <= i < |added| ==> added[i] == after[|Body(lines)| + i];
    if KeySet(after, key) {
      var i :| 0 <= i < |after| && EnvKey(after[i]) == Some(key);
      assert EnvKey(added[i - |Body(lines)|]) == Some(key);
    }
    if KeySet(added, key) {
      var i :| 0 <= i < |added| && EnvKey(added[i]) == Some(key);
      assert EnvKey(after[|Body(lines)| + i]) == Some(key);
    }
  }

  /** Which assignments do: an identifier and a first line of the value that is not blank, or a
      later line of the value that sets the key. */
  lemma SetsItsKeyIff(key: string, value: string)
    requires '=' !in key && (key == "" || Trimmed(key)) && '\n' !in key
    ensures KeySet(Split(key + "=" + value), key) <==>
            (Ident(key) && Settles(Split(value)[0])) || KeySet(Split(value)[1..], key)
  {
    var first, later := Split(value)[0], Split(value)[1..];
    assert '\n' !in key + "=";
    SplitAfter(key + "=", value);
    EnvKeyOfAssignment(key, first);
    hide EnvKey, Split, Settles, Ident, Trimmed;
    var added := Split(key + "=" + value);
    assert added == [key + "=" + first] + later;
    assert added[0] == key + "=" + first;
    assert forall i :: 0 <= i < |later| ==> later[i] == added[i + 1];
    if KeySet(added, key) {
      var i :| 0 <= i < |added| && EnvKey(added[i]) == Some(key);
      if i > 0 { assert EnvKey(later[i - 1]) == Some(key); }
    }
    if KeySet(later, key) {
      var i :| 0 <= i < |later| && EnvKey(later[i]) == Some(key);
      assert EnvKey(added[i + 1]) == Some(key);
    }
  }

  lemma EnvOneSettles(e: Entry, s: State)
    requires EntrySettles(e, s) && EnvOne(e, s).threw == None
    ensures KeySet(Read(EnvOne(e, s).s.files, ENV), e.key) && e.probe == e.key
  {
    hide Render, KeySet, Split;
    var lines := Read(s.files, ENV);
    if !KeySet(lines, e.key) { AssignmentSticksIff(lines, e.key, Render(e.value, s.vars).text); }
  }

  /** Entries that are fine now are fine after another one. */
  lemma EntryStaysFine(e: Entry, s: State, s': State)
    requires EntrySettles(e, s) && s'.vars == s.vars && Grows(s.files, s'.files, ENV)
    ensures EntrySettles(e, s')
  {
    hide Render, KeySet, Split, Grows;
    if KeySet(Read(s.files, ENV), e.key) { KeySetGrows(s.files, s'.files, e.key); }
  }

  lemma {:induction false} EnvSettlesAll(entries: seq<Entry>, k: nat, s: State)
    requires k <= |entries|
    requires forall i :: k <= i < |entries| ==> EntrySettles(entries[i], s)
    requires EnvFrom(entries, k, s).threw == None
    ensures Unset(Read(EnvFrom(entries, k, s).s.files, ENV), entries[k..]) == []
    decreases |entries| - k
  {
    hide EnvOne, KeySet, Grows, EntrySettles;
    if k < |entries| {
      EnvOneSettles(entries[k], s);
      var one := EnvOne(entries[k], s);
      EnvOneGrows(entries[k], s, ENV);
      forall i | k + 1 <= i < |entries| ensures EntrySettles(entries[i], one.s) { EntryStaysFine(entries[i], s, one.s); }
      EnvSettlesAll(entries, k + 1, one.s);
      EnvGrows(entries, k + 1, one.s, ENV);
      var f' := EnvFrom(entries, k + 1, one.s).s.files;
      KeySetGrows(one.s.files, f', entries[k].key);
      assert entries[k..][1..] == entries[k + 1..];
    }
  }

  lemma {:induction false} AbsentNone(files: map<Path, Lines>, moves: seq<Move>)
    requires forall i :: 0 <= i < |moves| ==> moves[i].dst in files
    ensures Absent(files, Dests(moves)) == []
  {
    if moves != [] { AbsentNone(files, moves[1..]); }
  }

  lemma SettledNow(h: Host, d: Directive, n: nat, s: State)
    requires SkillUndo.Lawful(h) && h.mode == Install && Visible(d)
    requires EnvSettles(d, s) && (d.when.Some? ==> WhenMet(d.when.value, s.vars))
    requires Perform(h, d, n, s).threw == None
    ensures Settled(h, d, Perform(h, d, n, s).s.files)
  {
    hide CopyFrom, AppendFrom, EnvFrom, PerformMerge, HasLine, Unset, Absent, JsonHas, Trimmed, SkillUndo.Mergeable,
         EntrySettles, WhenMet;
    match d.action {
      case Copy(_, moves) =>
        CopyGrows(h, n, moves, 0, s);
        AbsentNone(Perform(h, d, n, s).s.files, moves);
      case Append(to, at, lines) => AppendSettles(to, at, lines, s);
      case EnvSet(entries) =>
        EnvSettlesAll(entries, 0, s);
        assert entries[0..] == entries;
      case JsonMerge(into, key, body) => MergeHas(h, into, key, body.value, s, key, Field(body.value, key));
      case _ =>
    }
  }

  // ---- The first run ----------------------------------------------------------

  /** What a turn that deferred and bounced nothing did. */
  predicate Went(h: Host, d: Directive, n: nat, s: State, s': State) {
    var done := Perform(h, d, n, SkillUndo.Opened(s, n));
    if d.when.Some? && !WhenMet(d.when.value, s.vars) then s'.files == s.files && s'.vars == s.vars
    else if d.action.Prompt? || d.action.Operator? then s'.files == s.files
    else
      || (s'.files == s.files && s'.vars == s.vars && Settled(h, d, s.files))
      || (s'.files == done.s.files && s'.vars == done.s.vars && done.threw == None)
  }

  lemma SkipMeansSettled(h: Host, d: Directive, n: nat, files: map<Path, Lines>)
    requires Visible(d) && h.mode == Install && StatusOf(h, d, n, files).Skip?
    ensures Settled(h, d, files)
  {
    hide Absent, HasLine, Unset, JsonHas, Trimmed, SkillUndo.Mergeable;
  }

  lemma BracketWent(h: Host, d: Directive, n: nat, detail: seq<string>, s: State)
    requires SkillHealth.FullyApplied(Bracket(h, d, n, detail, s))
    ensures var s', done := Bracket(h, d, n, detail, s), Perform(h, d, n, SkillUndo.Opened(s, n));
            s'.files == done.s.files && s'.vars == done.s.vars && done.threw == None
  {
    hide Perform, Deferrable;
  }

  lemma StepWent(h: Host, d: Directive, n: nat, s: State)
    requires Visible(d) && h.mode == Install && !d.action.Prompt? && !d.action.Operator?
    requires SkillHealth.FullyApplied(VisitStep(h, d, n, s))
    ensures var s', done := VisitStep(h, d, n, s), Perform(h, d, n, SkillUndo.Opened(s, n));
            || (s'.files == s.files && s'.vars == s.vars && Settled(h, d, s.files))
            || (s'.files == done.s.files && s'.vars == done.s.vars && done.threw == None)
  {
    hide Perform, Bracket, StatusOf, Settled;
    VisibleIsNoRun(d);
    hide Visible;
    var status := StatusOf(h, d, n, s.files);
    if status.Skip? { SkipMeansSettled(h, d, n, s.files); }
    if status.Apply? { BracketWent(h, d, n, status.detail, s); }
  }

  lemma VisibleIsNoRun(d: Directive)
    requires Visible(d)
    ensures !d.action.Run? && !d.action.Dep?
  {
  }

  lemma VisitWent(h: Host, d: Directive, n: nat, s: State)
    requires Visible(d) && h.mode == Install && SkillHealth.FullyApplied(Visit(h, d, n, s))
    ensures Went(h, d, n, s, Visit(h, d, n, s))
  {
    hide Perform, VisitPrompt, VisitOperator, VisitStep, WhenMet, Settled, Visible;
    if d.action.Prompt? { SkillUndo.PromptShape(h, d, n, s); }
    else if d.action.Operator? { SkillUndo.OperatorShape(h, d, n, s); }
    else if !(d.when.Some? && !WhenMet(d.when.value, s.vars)) { StepWent(h, d, n, s); }
  }

  /** A ledger that ends empty was empty all along. */
  lemma FullyAppliedBefore(h: Host, d: Directive, n: nat, s: State)
    requires SkillHealth.FullyApplied(Visit(h, d, n, s))
    ensures SkillHealth.FullyApplied(s)
  {
    hide Visit;
    SkillHealth.VisitTurn(h, d, n, s);
    SkillHealth.TurnEntry(h, d, n, s, Visit(h, d, n, s));
  }

  ghost predicate AllVisible(ds: seq<Directive>) {
    forall i :: 0 <= i < |ds| ==> Visible(ds[i])
  }

  ghost predicate NoClobber(ds: seq<Directive>) {
    forall i, j :: 0 <= i < j < |ds| ==> !Clobbers(ds[j], ds[i])
  }

  /** Directive i's guard held when the run reached it. */
  predicate Reached(h: Host, ds: seq<Directive>, i: nat, s0: State)
    requires i < |ds|
  {
    ds[i].when.Some? ==> WhenMet(ds[i].when.value, After(h, ds, i, s0).vars)
  }

  lemma {:induction false} FirstRunSettles(h: Host, ds: seq<Directive>, n: nat, i: nat, s0: State)
    requires i < n <= |ds| && SkillUndo.Lawful(h) && h.mode == Install && AllVisible(ds) && NoClobber(ds)
    requires SkillHealth.FullyApplied(After(h, ds, n, s0))
    requires Reached(h, ds, i, s0) && EnvSettles(ds[i], After(h, ds, i, s0))
    ensures Settled(h, ds[i], After(h, ds, n, s0).files)
    decreases n
  {
    hide Visit, Settled, Visible, Clobbers, EnvSettles, Perform;
    var d, s := ds[n - 1], After(h, ds, n - 1, s0);
    VisitWent(h, d, n - 1, s);
    var s1 := SkillUndo.Opened(s, n - 1);
    if i == n - 1 {
      ReachedSettles(h, d, n - 1, s, After(h, ds, n, s0));
    } else {
      FullyAppliedBefore(h, d, n - 1, s);
      FirstRunSettles(h, ds, n - 1, i, s0);
      if After(h, ds, n, s0).files != s.files { SettledStays(h, ds[i], d, n - 1, s1); }
    }
  }

  lemma ReachedSettles(h: Host, d: Directive, n: nat, s: State, s': State)
    requires SkillUndo.Lawful(h) && h.mode == Install && Visible(d) && EnvSettles(d, s)
    requires Went(h, d, n, s, s') && (d.when.Some? ==> WhenMet(d.when.value, s.vars))
    ensures Settled(h, d, s'.files)
  {
    hide Perform, WhenMet;
    var s1 := SkillUndo.Opened(s, n);
    assert EnvSettles(d, s1);
    hide EnvSettles;
    if Perform(h, d, n, s1).threw == None { SettledNow(h, d, n, s1); }
  }

  // ---- The second run ---------------------------------------------------------

  lemma FailVars(s: State, n: nat, message: string)
    ensures Fail(s, n, message).vars == s.vars
  {
  }

  /** What a prompt binds does not depend on anything else in the state. */
  function PromptVars(h: Host, d: Directive, n: nat, vars: Vars): Vars
    requires d.action.Prompt?
  {
    var a := d.action;
    var answer := AnswerTo(h, a, n);
    if !answer.Gave? then vars
    else
      var value := Normalize(h, a.normalize, answer.text);
      if a.valid.Some? && (h.compile(a.valid.value.pattern, a.valid.value.flags).Some?
                           || !h.test(a.valid.value.pattern, a.valid.value.flags, value)) then vars
      else vars[a.name := Bound(value, a.secret)]
  }

  lemma PromptBinds(h: Host, d: Directive, n: nat, s: State)
    requires d.action.Prompt?
    ensures VisitPrompt(h, d, n, s).vars == PromptVars(h, d, n, s.vars)
  {
    hide Fail, Normalize;
    var a := d.action;
    if a.name !in h.inputs && h.ask(n).AskThrew? { FailVars(s, n, h.ask(n).message); }
    if a.valid.Some? {
      var broken := h.compile(a.valid.value.pattern, a.valid.value.flags);
      if broken.Some? { FailVars(s, n, broken.value); }
    }
  }

  lemma PromptVarsSame(h1: Host, h2: Host, d: Directive, n: nat, vars: Vars)
    requires SameAnswers(h1, h2) && d.action.Prompt?
    ensures PromptVars(h1, d, n, vars) == PromptVars(h2, d, n, vars)
  {
    hide Trim, StripSlashes;
  }

  lemma OperatorVars(h: Host, d: Directive, n: nat, s: State)
    requires d.action.Operator?
    ensures VisitOperator(h, d, n, s).vars == s.vars
  {
    hide Render, Deferrable;
  }

  /** The variables a turn leaves, for directives that run no command. */
  function TurnVars(h: Host, d: Directive, n: nat, vars: Vars): Vars {
    if d.when.Some? && !WhenMet(d.when.value, vars) then vars
    else if d.action.Prompt? then PromptVars(h, d, n, vars)
    else vars
  }

  lemma FirstVars(h: Host, d: Directive, n: nat, s: State)
    requires Visible(d) && h.mode == Install && SkillHealth.FullyApplied(Visit(h, d, n, s))
    ensures Visit(h, d, n, s).vars == TurnVars(h, d, n, s.vars)
  {
    hide VisitPrompt, VisitOperator, VisitStep, PromptVars, WhenMet, Perform, Visible, Settled;
    VisitWent(h, d, n, s);
    if d.action.Prompt? { PromptBinds(h, d, n, s); }
    else if d.action.Operator? { OperatorVars(h, d, n, s); }
    else { PerformGrows(h, d, n, SkillUndo.Opened(s, n), ""); }
  }

  lemma SettledSkips(h1: Host, h2: Host, d: Directive, n: nat, files: map<Path, Lines>)
    requires SameAnswers(h1, h2) && Visible(d) && Settled(h1, d, files)
    requires !d.action.Prompt? && !d.action.Operator?
    ensures StatusOf(h2, d, n, files).Skip?
  {
    hide Absent, HasLine, Unset, Trimmed, FindIndex;
  }

  predicate NothingStarted(trace: seq<Act>) {
    forall i :: 0 <= i < |trace| ==> !trace[i].Start? && !trace[i].Exec? && !trace[i].Stream?
  }

  lemma PromptStartsNothing(h: Host, d: Directive, n: nat, s: State)
    requires d.action.Prompt? && NothingStarted(s.trace)
    ensures NothingStarted(VisitPrompt(h, d, n, s).trace)
  {
    hide Fail, Normalize;
    var a := d.action;
    if a.name !in h.inputs && h.ask(n).AskThrew? { SkillHealth.FailEntry(s, n, h.ask(n).message); }
    if a.valid.Some? {
      var broken := h.compile(a.valid.value.pattern, a.valid.value.flags);
      if broken.Some? { SkillHealth.FailEntry(s, n, broken.value); }
    }
  }

  lemma OperatorStartsNothing(h: Host, d: Directive, n: nat, s: State)
    requires d.action.Operator? && NothingStarted(s.trace)
    ensures NothingStarted(VisitOperator(h, d, n, s).trace)
  {
    hide Render, Deferrable;
  }

  /** One turn of the second run. */
  lemma SecondTurn(h1: Host, h2: Host, d: Directive, n: nat, s: State)
    requires SameAnswers(h1, h2) && Visible(d) && NothingStarted(s.trace)
    requires (d.when.Some? ==> WhenMet(d.when.value, s.vars)) ==> Settled(h1, d, s.files)
    ensures var s' := Visit(h2, d, n, s);
            SkillUndo.SameDisk(s, s') && s'.vars == TurnVars(h1, d, n, s.vars) && NothingStarted(s'.trace)
  {
    VisibleIsNoRun(d);
    if !d.action.Prompt? && !d.action.Operator? && (d.when.Some? ==> WhenMet(d.when.value, s.vars)) {
      SettledSkips(h1, h2, d, n, s.files);
    }
    if d.action.Prompt? {
      PromptVarsSame(h1, h2, d, n, s.vars);
      PromptBinds(h2, d, n, s);
      SkillUndo.PromptShape(h2, d, n, s);
      PromptStartsNothing(h2, d, n, s);
    }
    if d.action.Operator? {
      OperatorVars(h2, d, n, s);
      SkillUndo.OperatorShape(h2, d, n, s);
      OperatorStartsNothing(h2, d, n, s);
    }
    hide VisitPrompt, VisitOperator, StatusOf, PromptVars, WhenMet, Bracket, Visible, Settled, SameAnswers, NothingStarted;
  }

  /** Every directive the first run reached is recognised in the files it left. */
  ghost predicate AllSettled(h: Host, ds: seq<Directive>, n: nat, s0: State)
    requires n <= |ds|
  {
    forall i :: 0 <= i < n && Reached(h, ds, i, s0) ==> Settled(h, ds[i], After(h, ds, |ds|, s0).files)
  }

  lemma {:induction false} SecondRun(h1: Host, h2: Host, ds: seq<Directive>, n: nat, s0: State)
    requires n <= |ds| && SameAnswers(h1, h2) && AllVisible(ds) && AllSettled(h1, ds, n, s0) && s0.vars == map[]
    requires SkillHealth.FullyApplied(After(h1, ds, n, s0))
    ensures var s1, s2 := After(h1, ds, n, s0), After(h2, ds, n, Begin(After(h1, ds, |ds|, s0).files));
            && s2.files == After(h1, ds, |ds|, s0).files && s2.journal == [] && s2.vars == s1.vars
            && NothingStarted(s2.trace)
  {
    hide Visit, Settled, Visible, TurnVars, NothingStarted;
    var last := After(h1, ds, |ds|, s0).files;
    if n == 0 {
      StartsClean();
    } else {
      var s1, s2 := After(h1, ds, n - 1, s0), After(h2, ds, n - 1, Begin(last));
      FullyAppliedBefore(h1, ds[n - 1], n - 1, s1);
      SecondRun(h1, h2, ds, n - 1, s0);
      FirstVars(h1, ds[n - 1], n - 1, s1);
      SecondTurn(h1, h2, ds[n - 1], n - 1, s2);
    }
  }

  lemma StartsClean()
    ensures NothingStarted([])
  {
  }

  lemma {:induction false} TraceGrows(h: Host, ds: seq<Directive>, n: nat, m: nat, s0: State)
    requires n <= m <= |ds|
    ensures After(h, ds, n, s0).trace <= After(h, ds, m, s0).trace
    decreases m - n
  {
    hide Visit;
    if n < m {
      TraceGrows(h, ds, n, m - 1, s0);
      SkillHealth.VisitTurn(h, ds[m - 1], m - 1, After(h, ds, m - 1, s0));
    }
  }

  lemma BracketStarts(h: Host, d: Directive, n: nat, detail: seq<string>, s: State)
    requires d.action.EnvSet?
    ensures var s' := Bracket(h, d, n, detail, s); |s.trace| < |s'.trace| && s'.trace[|s.trace|] == Start(n)
  {
    hide Deferrable;
    SkillHealth.EnvQuiet(d.action.entries, 0, SkillUndo.Opened(s, n));
    hide EnvFrom;
  }

  /** An env-set whose keys are not all recognised runs again. */
  lemma UnsetRunsAgain(h: Host, d: Directive, n: nat, s: State)
    requires d.action.EnvSet? && h.mode == Install && (d.when.Some? ==> WhenMet(d.when.value, s.vars))
    requires !Settled(h, d, s.files)
    ensures var s' := Visit(h, d, n, s); |s.trace| < |s'.trace| && s'.trace[|s.trace|] == Start(n)
  {
    hide WhenMet, Unset, Bracket;
    var status := StatusOf(h, d, n, s.files);
    assert status.Apply?;
    BracketStarts(h, d, n, status.detail, s);
  }

  lemma StartShows(trace: seq<Act>, longer: seq<Act>, k: nat, n: nat)
    requires trace <= longer && k < |trace| && trace[k] == Start(n)
    ensures !NothingStarted(longer)
  {
  }

  /** The first env-set that is not recognised starts again. */
  lemma FirstUnsettledStarts(h1: Host, h2: Host, ds: seq<Directive>, i: nat, s0: State)
    requires i < |ds| && ds[i].action.EnvSet? && SameAnswers(h1, h2) && AllVisible(ds) && AllSettled(h1, ds, i, s0)
    requires SkillHealth.FullyApplied(After(h1, ds, |ds|, s0)) && s0.vars == map[]
    requires Reached(h1, ds, i, s0) && !Settled(h1, ds[i], After(h1, ds, |ds|, s0).files)
    ensures !NothingStarted(After(h2, ds, |ds|, Begin(After(h1, ds, |ds|, s0).files)).trace)
  {
    hide Visit, Settled, Visible, NothingStarted, AllSettled, WhenMet;
    var last := After(h1, ds, |ds|, s0).files;
    FullyAppliedPrefix(h1, ds, i, s0);
    SecondRun(h1, h2, ds, i, s0);
    var s2 := After(h2, ds, i, Begin(last));
    SettledAlike(h1, h2, ds[i], last);
    UnsetRunsAgain(h2, ds[i], i, s2);
    TraceGrows(h2, ds, i + 1, |ds|, Begin(last));
    StartShows(After(h2, ds, i + 1, Begin(last)).trace, After(h2, ds, |ds|, Begin(last)).trace, |s2.trace|, i);
  }

  lemma {:induction false} UnsettledStarts(h1: Host, h2: Host, ds: seq<Directive>, i: nat, s0: State)
    requires i < |ds| && SkillUndo.Lawful(h1) && SameAnswers(h1, h2) && AllVisible(ds) && NoClobber(ds)
    requires SkillHealth.FullyApplied(After(h1, ds, |ds|, s0)) && s0.vars == map[]
    requires Reached(h1, ds, i, s0) && !Settled(h1, ds[i], After(h1, ds, |ds|, s0).files)
    ensures !NothingStarted(After(h2, ds, |ds|, Begin(After(h1, ds, |ds|, s0).files)).trace)
  {
    assert h1.mode == Install;
    hide Visit, Settled, Visible, Clobbers, EnvSettles, NothingStarted, SameAnswers, Reached;
    var last := After(h1, ds, |ds|, s0).files;
    if j :| 0 <= j < i && Reached(h1, ds, j, s0) && !Settled(h1, ds[j], last) {
      UnsettledStarts(h1, h2, ds, j, s0);
    } else {
      if !ds[i].action.EnvSet? {
        OnlyEnvSettles(ds[i], After(h1, ds, i, s0));
        FirstRunSettles(h1, ds, |ds|, i, s0);
      }
      FirstUnsettledStarts(h1, h2, ds, i, s0);
    }
  }

  lemma OnlyEnvSettles(d: Directive, s: State)
    requires !d.action.EnvSet?
    ensures EnvSettles(d, s)
  {
  }

  lemma SettledAlike(h1: Host, h2: Host, d: Directive, files: map<Path, Lines>)
    requires d.action.EnvSet?
    ensures Settled(h1, d, files) == Settled(h2, d, files)
  {
  }

  lemma {:induction false} FullyAppliedPrefix(h: Host, ds: seq<Directive>, n: nat, s0: State)
    requires n <= |ds| && SkillHealth.FullyApplied(After(h, ds, |ds|, s0))
    ensures SkillHealth.FullyApplied(After(h, ds, n, s0))
    decreases |ds| - n
  {
    hide Visit;
    if n < |ds| {
      FullyAppliedPrefix(h, ds, n + 1, s0);
      FullyAppliedBefore(h, ds[n], n, After(h, ds, n, s0));
    }
  }

  /** The second install leaves the files, journals nothing, starts no step, executes nothing. */
  ghost predicate NoOp(h1: Host, h2: Host, ds: seq<Directive>, f0: map<Path, Lines>) {
    var first := After(h1, ds, |ds|, Begin(f0));
    var second := After(h2, ds, |ds|, Begin(first.files));
    second.files == first.files && second.journal == [] && NothingStarted(second.trace)
  }

  /** A fully applied install, installed again with the same answers, is a no-op exactly when
      every key that a reached env-set names is set in the .env the first run left. */
  lemma ReapplyIsNoOpIff(h1: Host, h2: Host, ds: seq<Directive>, f0: map<Path, Lines>)
    requires SkillUndo.Lawful(h1) && SameAnswers(h1, h2) && AllVisible(ds) && NoClobber(ds)
    requires SkillHealth.FullyApplied(After(h1, ds, |ds|, Begin(f0)))
    ensures NoOp(h1, h2, ds, f0) <==>
            forall i :: 0 <= i < |ds| && ds[i].action.EnvSet? && Reached(h1, ds, i, Begin(f0)) ==>
              Unset(Read(After(h1, ds, |ds|, Begin(f0)).files, ENV), ds[i].action.entries) == []
  {
    hide Visible, Clobbers, NothingStarted, Unset, Reached, EnvSettles;
    var s0 := Begin(f0);
    var last := After(h1, ds, |ds|, s0).files;
    if i :| 0 <= i < |ds| && ds[i].action.EnvSet? && Reached(h1, ds, i, s0) && Unset(Read(last, ENV), ds[i].action.entries) != [] {
      assert !Settled(h1, ds[i], last);
      UnsettledStarts(h1, h2, ds, i, s0);
    } else {
      forall i | 0 <= i < |ds| && Reached(h1, ds, i, s0) ensures Settled(h1, ds[i], last) {
        if !ds[i].action.EnvSet? {
          OnlyEnvSettles(ds[i], After(h1, ds, i, s0));
          FirstRunSettles(h1, ds, |ds|, i, s0);
        }
      }
      SecondRun(h1, h2, ds, |ds|, s0);
    }
  }

  /** In particular when each env-set, at its turn, writes only assignments that stick. */
  lemma ReapplyIsNoOp(h1: Host, h2: Host, ds: seq<Directive>, f0: map<Path, Lines>)
    requires SkillUndo.Lawful(h1) && SameAnswers(h1, h2) && AllVisible(ds) && NoClobber(ds)
    requires SkillHealth.FullyApplied(After(h1, ds, |ds|, Begin(f0)))
    requires forall i :: 0 <= i < |ds| ==> EnvSettles(ds[i], After(h1, ds, i, Begin(f0)))
    ensures NoOp(h1, h2, ds, f0)
  {
    hide Visible, Clobbers, NothingStarted, Unset, Reached, EnvSettles, NoOp;
    var s0 := Begin(f0);
    var last := After(h1, ds, |ds|, s0).files;
    forall i | 0 <= i < |ds| && ds[i].action.EnvSet? && Reached(h1, ds, i, s0)
      ensures Unset(Read(last, ENV), ds[i].action.entries) == []
    {
      FirstRunSettles(h1, ds, |ds|, i, s0);
    }
    ReapplyIsNoOpIff(h1, h2, ds, f0);
  }
}
