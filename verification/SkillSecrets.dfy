/** Secret independence: two applies of one document whose secret answers differ cannot be
    told apart by their journals, ledgers or public variables. */
module SkillSecrets {
  import opened Prelude
  import opened Text
  import opened SkillModel
  import SkillHealth

  // ---- The relation between the two runs --------------------------------------

  /** A value a secret prompt may hold: one line, not blank. */
  predicate Usable(value: string) {
    SingleLine(value) && !Blank(value)
  }

  predicate VarsAlike(v1: Vars, v2: Vars, secrets: set<string>) {
    && v1.Keys == v2.Keys
    && forall x :: x in v1 ==>
         && v1[x].secret == v2[x].secret
         && (v1[x].value != v2[x].value ==>
               v1[x].secret && x in secrets && Usable(v1[x].value) && Usable(v2[x].value))
  }

  /** Two .env lines that set the same key, if any, and are both empty or both not. */
  predicate LineAlike(a: string, b: string) {
    EnvKey(a) == EnvKey(b) && (a == "" <==> b == "")
  }

  predicate LinesAlike(a: seq<string>, b: seq<string>) {
    |a| == |b| && forall i :: 0 <= i < |a| ==> LineAlike(a[i], b[i])
  }

  predicate FilesAlike(f1: map<Path, Lines>, f2: map<Path, Lines>) {
    && f1.Keys == f2.Keys
    && (forall p :: p in f1 && p != ENV ==> f1[p] == f2[p])
    && LinesAlike(Read(f1, ENV), Read(f2, ENV))
  }

  /** All that a caller, a later undo or a reader of the result sees. */
  predicate SameResults(s1: State, s2: State) {
    && s1.journal == s2.journal && s1.orphans == s2.orphans
    && SkillHealth.SameLedger(s1, s2)
  }

  predicate Alike(s1: State, s2: State, secrets: set<string>) {
    SameResults(s1, s2) && VarsAlike(s1.vars, s2.vars, secrets) && FilesAlike(s1.files, s2.files)
  }

  predicate StepAlike(t1: Step, t2: Step, secrets: set<string>) {
    Alike(t1.s, t2.s, secrets) && t1.threw == t2.threw
  }

  // ---- What is asked of the document and the answers --------------------------

  /** The value the prompt accepts and binds. */
  predicate Accepts(h: Host, a: Action, text: string)
    requires a.Prompt?
  {
    a.valid.Some? ==>
      && h.compile(a.valid.value.pattern, a.valid.value.flags) == None
      && h.test(a.valid.value.pattern, a.valid.value.flags, Normalize(h, a.normalize, text))
  }

  predicate SecretAnswer(h: Host, a: Action, n: nat)
    requires a.Prompt?
  {
    var answer := AnswerTo(h, a, n);
    answer.Gave? && Accepts(h, a, answer.text) && Usable(Normalize(h, a.normalize, answer.text))
  }

  /** The same host, but for the answers to prompts. */
  ghost predicate SameOutside(h1: Host, h2: Host) {
    h2 == h1.(inputs := h2.inputs, ask := h2.ask)
  }

  /** Prompt n is answered alike, or is secret and accepted with a usable value in both. */
  predicate AnswersAlike(h1: Host, h2: Host, d: Directive, n: nat) {
    d.action.Prompt? ==>
      || AnswerTo(h1, d.action, n) == AnswerTo(h2, d.action, n)
      || (d.action.secret && SecretAnswer(h1, d.action, n) && SecretAnswer(h2, d.action, n))
  }

  /** No guard on a secret, no append or merge into .env, and parsed keys. */
  predicate Discreet(d: Directive, secrets: set<string>) {
    && (d.when.Some? && d.when.value.Cond? ==> d.when.value.name !in secrets)
    && match d.action
       case Append(to, _, _) => to != ENV
       case JsonMerge(into, _, _) => into != ENV
       case Prompt(name, secret, _, _) => secret ==> name in secrets
       case EnvSet(entries) => forall i :: 0 <= i < |entries| ==> KeyShape(entries[i].key)
       case _ => true
  }

  predicate KeyShape(key: string) {
    '=' !in key && '\n' !in key && (key == "" || Trimmed(key))
  }

  /** A reference whose value is not the same in the two runs. */
  predicate Differs(t: Template, v1: Vars, v2: Vars) {
    exists i :: 0 <= i < |t| && t[i].Ref? && t[i].name in v1 && t[i].name in v2 && v1[t[i].name] != v2[t[i].name]
  }

  function PieceText(p: Piece, vars: Vars): string {
    if p.Lit? then p.text else if p.name in vars then vars[p.name].value else ""
  }

  predicate IsSecret(p: Piece, vars: Vars) {
    p.Ref? && p.name in vars && vars[p.name].secret
  }

  /** No line break before a secret. */
  predicate BreakFree(t: Template, vars: Vars) {
    forall i, j :: 0 <= i < j < |t| && IsSecret(t[j], vars) ==> '\n' !in PieceText(t[i], vars)
  }

  /** In an env value that is written, the secrets stand on the line of the key. */
  predicate PlainSecrets(d: Directive, s: State) {
    d.action.EnvSet? && (d.when.Some? ==> WhenMet(d.when.value, s.vars)) ==>
      forall i :: 0 <= i < |d.action.entries| ==> PlainEntry(d.action.entries[i], s)
  }

  predicate PlainEntry(e: Entry, s: State) {
    !KeySet(Read(s.files, ENV), e.key) ==> BreakFree(e.value, s.vars)
  }

  // ---- Rendering --------------------------------------------------------------

  /** The same reference is stuck in both runs, or neither is. */
  lemma {:induction false} RenderAlike(t: Template, v1: Vars, v2: Vars, secrets: set<string>)
    requires VarsAlike(v1, v2, secrets)
    ensures Render(t, v1).Stuck? == Render(t, v2).Stuck?
    ensures Render(t, v1).Stuck? ==> Render(t, v1) == Render(t, v2)
    ensures !Differs(t, v1, v2) ==> Render(t, v1) == Render(t, v2)
  {
    hide Usable;
    if t != [] {
      RenderAlike(t[1..], v1, v2, secrets);
      if Differs(t[1..], v1, v2) {
        var i :| 0 <= i < |t[1..]| && t[1..][i].Ref? && t[1..][i].name in v1 && t[1..][i].name in v2
                 && v1[t[1..][i].name] != v2[t[1..][i].name];
        assert t[i + 1] == t[1..][i];
        assert Differs(t, v1, v2);
      }
    }
  }

  lemma SingleLineConcat(a: string, b: string)
    ensures SingleLine(a + b) <==> SingleLine(a) && SingleLine(b)
  {
    hide EndsLine;
    if SingleLine(a + b) {
      forall i | 0 <= i < |a| ensures !EndsLine(a[i]) { assert (a + b)[i] == a[i]; }
      forall i | 0 <= i < |b| ensures !EndsLine(b[i]) { assert (a + b)[|a| + i] == b[i]; }
    }
  }

  lemma BlankConcat(a: string, b: string)
    ensures Blank(a + b) <==> Blank(a) && Blank(b)
  {
    hide IsSpace;
    if Blank(a + b) {
      forall i | 0 <= i < |a| ensures IsSpace(a[i]) { assert (a + b)[i] == a[i]; }
      forall i | 0 <= i < |b| ensures IsSpace(b[i]) { assert (a + b)[|a| + i] == b[i]; }
    }
  }

  /** What the two runs render alike follows a text that holds the secrets: on one line, not
      blank, and with the same kind of characters in both. */
  predicate Holds(p1: string, p2: string) {
    '\n' !in p1 && '\n' !in p2 && !Blank(p1) && !Blank(p2) && (SingleLine(p1) <==> SingleLine(p2))
  }

  lemma HoldsLonger(f1: string, f2: string, p1: string, p2: string)
    requires Holds(p1, p2) && '\n' !in f1 && (f1 == f2 || (Usable(f1) && Usable(f2)))
    ensures Holds(f1 + p1, f2 + p2)
  {
    BlankConcat(f1, p1);
    BlankConcat(f2, p2);
    SingleLineConcat(f1, p1);
    SingleLineConcat(f2, p2);
    UsableHolds(f1, f2);
    hide SingleLine, Blank;
  }

  lemma UsableHolds(f1: string, f2: string)
    requires f1 == f2 || (Usable(f1) && Usable(f2))
    ensures (SingleLine(f1) <==> SingleLine(f2))
    ensures '\n' !in f1 ==> '\n' !in f2
    ensures Usable(f1) && Usable(f2) ==> Holds(f1, f2)
  {
  }

  lemma BreakFreeTail(t: Template, vars: Vars)
    requires t != [] && BreakFree(t, vars)
    ensures BreakFree(t[1..], vars)
  {
    forall i, j | 0 <= i < j < |t[1..]| && IsSecret(t[1..][j], vars) ensures '\n' !in PieceText(t[1..][i], vars) {
      assert t[1..][i] == t[i + 1] && t[1..][j] == t[j + 1];
    }
  }

  lemma BreakFreeHead(t: Template, v1: Vars, v2: Vars, secrets: set<string>)
    requires t != [] && BreakFree(t, v1) && VarsAlike(v1, v2, secrets) && Differs(t[1..], v1, v2)
    ensures '\n' !in PieceText(t[0], v1)
  {
    hide Usable, PieceText;
    var i :| 0 <= i < |t[1..]| && t[1..][i].Ref? && t[1..][i].name in v1 && t[1..][i].name in v2
             && v1[t[1..][i].name] != v2[t[1..][i].name];
    assert t[i + 1] == t[1..][i] && IsSecret(t[i + 1], v1);
  }

  /** Up to the last secret that differs, and what follows it. */
  lemma {:induction false} Decompose(t: Template, v1: Vars, v2: Vars, secrets: set<string>)
    returns (p1: string, p2: string, rest: string)
    requires VarsAlike(v1, v2, secrets) && BreakFree(t, v1) && Differs(t, v1, v2) && Render(t, v1).Rendering?
    ensures Render(t, v1) == Rendering(p1 + rest) && Render(t, v2) == Rendering(p2 + rest)
    ensures Holds(p1, p2)
  {
    var f1, f2 := PieceText(t[0], v1), PieceText(t[0], v2);
    RenderAlike(t[1..], v1, v2, secrets);
    if Differs(t[1..], v1, v2) {
      BreakFreeTail(t, v1);
      BreakFreeHead(t, v1, v2, secrets);
      p1, p2, rest := Decompose(t[1..], v1, v2, secrets);
      hide Usable, Holds, Differs, BreakFree;
      HoldsLonger(f1, f2, p1, p2);
      assert f1 + (p1 + rest) == (f1 + p1) + rest && f2 + (p2 + rest) == (f2 + p2) + rest;
      p1, p2 := f1 + p1, f2 + p2;
    } else {
      HeadDiffers(t, v1, v2, secrets);
      UsableHolds(f1, f2);
      hide Usable, Holds, Differs, BreakFree;
      p1, p2, rest := f1, f2, Render(t[1..], v1).text;
    }
  }

  lemma HeadDiffers(t: Template, v1: Vars, v2: Vars, secrets: set<string>)
    requires t != [] && VarsAlike(v1, v2, secrets) && Differs(t, v1, v2)
    ensures Differs(t[1..], v1, v2) || (Usable(PieceText(t[0], v1)) && Usable(PieceText(t[0], v2)))
  {
    hide Usable;
    var i :| 0 <= i < |t| && t[i].Ref? && t[i].name in v1 && t[i].name in v2 && v1[t[i].name] != v2[t[i].name];
    if i > 0 { assert t[1..][i - 1] == t[i]; }
  }

  // ---- Updates that keep the runs alike ---------------------------------------

  lemma TraceAlike(s1: State, s2: State, t1: seq<Act>, t2: seq<Act>, secrets: set<string>)
    requires Alike(s1, s2, secrets)
    ensures Alike(s1.(trace := t1), s2.(trace := t2), secrets)
  {
    hide VarsAlike, FilesAlike;
  }

  lemma VarsUpdateAlike(s1: State, s2: State, v1: Vars, v2: Vars, secrets: set<string>)
    requires Alike(s1, s2, secrets) && VarsAlike(v1, v2, secrets)
    ensures Alike(s1.(vars := v1), s2.(vars := v2), secrets)
  {
    hide VarsAlike, FilesAlike;
  }

  lemma JournalAlike(s1: State, s2: State, r: Record, secrets: set<string>)
    requires Alike(s1, s2, secrets)
    ensures Alike(s1.(journal := s1.journal + [r]), s2.(journal := s2.journal + [r]), secrets)
  {
    hide VarsAlike, FilesAlike;
  }

  lemma FilesUpdateAlike(s1: State, s2: State, f1: map<Path, Lines>, f2: map<Path, Lines>, secrets: set<string>)
    requires Alike(s1, s2, secrets) && FilesAlike(f1, f2)
    ensures Alike(s1.(files := f1), s2.(files := f2), secrets)
  {
    hide VarsAlike, FilesAlike;
  }

  // ---- The handlers -----------------------------------------------------------

  lemma {:induction false} CopyAlike(h1: Host, h2: Host, n: nat, moves: seq<Move>, k: nat, s1: State, s2: State,
                                     secrets: set<string>)
    requires k <= |moves| && SameOutside(h1, h2) && Alike(s1, s2, secrets)
    ensures StepAlike(CopyFrom(h1, n, moves, k, s1), CopyFrom(h2, n, moves, k, s2), secrets)
    decreases |moves| - k
  {
    hide VarsAlike, LineAlike;
    if k < |moves| {
      match h1.put(n, k) {
        case Done(content) =>
          PutAlike(s1.files, s2.files, moves[k].dst, content);
          CopyAlike(h1, h2, n, moves, k + 1, s1.(files := s1.files[moves[k].dst := content]),
                    s2.(files := s2.files[moves[k].dst := content]), secrets);
        case Failed(_, partial) =>
          if partial.Some? { PutAlike(s1.files, s2.files, moves[k].dst, partial.value); }
      }
    }
  }

  lemma PutAlike(f1: map<Path, Lines>, f2: map<Path, Lines>, p: Path, content: Lines)
    requires FilesAlike(f1, f2)
    ensures FilesAlike(f1[p := content], f2[p := content])
  {
  }

  lemma SameText(s1: State, s2: State, to: Path, secrets: set<string>)
    requires to != ENV && Alike(s1, s2, secrets)
    ensures Read(s1.files, to) == Read(s2.files, to)
  {
    hide VarsAlike, LinesAlike;
  }

  lemma WrittenAlike(s1: State, s2: State, to: Path, content: Lines, r: Record, secrets: set<string>)
    requires Alike(s1, s2, secrets)
    ensures Alike(s1.(files := s1.files[to := content], journal := s1.journal + [r]),
                  s2.(files := s2.files[to := content], journal := s2.journal + [r]), secrets)
  {
    PutAlike(s1.files, s2.files, to, content);
    hide VarsAlike, FilesAlike;
  }

  lemma AppendOneAlike(to: Path, at: Option<string>, line: string, s1: State, s2: State, secrets: set<string>)
    requires to != ENV && Alike(s1, s2, secrets)
    ensures StepAlike(AppendOne(to, at, line, s1), AppendOne(to, at, line, s2), secrets)
  {
    hide Alike, MarkerIndex, Leading, AddText, InsertLine, Contains, Read;
    SameText(s1, s2, to, secrets);
    var lines := Read(s1.files, to);
    if at.Some? && at.value != "" {
      var i := MarkerIndex(lines, "<<< " + at.value);
      if i < |lines| {
        WrittenAlike(s1, s2, to, InsertLine(lines, i, lines[i][..Leading(lines[i])] + line), Appended(to, line), secrets);
      }
    } else {
      WrittenAlike(s1, s2, to, AddText(lines, line), Appended(to, line), secrets);
    }
  }

  lemma {:induction false} AppendAlike(to: Path, at: Option<string>, lines: seq<string>, k: nat, s1: State, s2: State,
                                       secrets: set<string>)
    requires k <= |lines| && to != ENV && Alike(s1, s2, secrets)
    ensures StepAlike(AppendFrom(to, at, lines, k, s1), AppendFrom(to, at, lines, k, s2), secrets)
    decreases |lines| - k
  {
    hide AppendOne, Alike;
    if k < |lines| {
      AppendOneAlike(to, at, lines[k], s1, s2, secrets);
      var o1, o2 := AppendOne(to, at, lines[k], s1), AppendOne(to, at, lines[k], s2);
      if o1.threw == None { AppendAlike(to, at, lines, k + 1, o1.s, o2.s, secrets); }
    }
  }

  lemma KeySetAlike(a: seq<string>, b: seq<string>, key: string)
    requires LinesAlike(a, b)
    ensures KeySet(a, key) == KeySet(b, key)
  {
    hide EnvKey;
    if KeySet(a, key) {
      var i :| 0 <= i < |a| && EnvKey(a[i]) == Some(key);
      assert EnvKey(b[i]) == Some(key);
    }
    if KeySet(b, key) {
      var i :| 0 <= i < |b| && EnvKey(b[i]) == Some(key);
      assert EnvKey(a[i]) == Some(key);
    }
  }

  lemma AddTextAlike(a: Lines, b: Lines, t1: string, t2: string)
    requires LinesAlike(a, b) && LinesAlike(Split(t1), Split(t2))
    ensures LinesAlike(AddText(a, t1), AddText(b, t2))
  {
    hide EnvKey, Split;
    assert LineAlike(a[|a| - 1], b[|b| - 1]);
    assert |Body(a)| == |Body(b)|;
    forall i | 0 <= i < |AddText(a, t1)| ensures LineAlike(AddText(a, t1)[i], AddText(b, t2)[i]) {
      if i < |Body(a)| { assert LineAlike(a[i], b[i]); }
      else if i - |Body(a)| < |Split(t1)| { assert LineAlike(Split(t1)[i - |Body(a)|], Split(t2)[i - |Body(a)|]); }
    }
  }

  lemma LinesSelfAlike(a: seq<string>)
    ensures LinesAlike(a, a)
  {
  }

  /** KEY=value in both runs: the same lines, or a first line that sets the same key and the
      same lines after it. */
  lemma AssignmentAlike(e: Entry, v1: Vars, v2: Vars, secrets: set<string>)
    requires VarsAlike(v1, v2, secrets) && KeyShape(e.key) && Render(e.value, v1).Rendering?
    requires BreakFree(e.value, v1)
    ensures Render(e.value, v2).Rendering?
    ensures LinesAlike(Split(e.key + "=" + Render(e.value, v1).text), Split(e.key + "=" + Render(e.value, v2).text))
  {
    RenderAlike(e.value, v1, v2, secrets);
    if Differs(e.value, v1, v2) {
      var p1, p2, rest := Decompose(e.value, v1, v2, secrets);
      hide Render, VarsAlike, Differs, BreakFree, Holds, KeyShape, LinesAlike;
      SecretLinesAlike(e.key, p1, p2, rest);
      assert e.key + "=" + (p1 + rest) == e.key + "=" + p1 + rest;
      assert e.key + "=" + (p2 + rest) == e.key + "=" + p2 + rest;
    } else {
      LinesSelfAlike(Split(e.key + "=" + Render(e.value, v1).text));
    }
  }

  lemma SecretLinesAlike(key: string, p1: string, p2: string, rest: string)
    requires KeyShape(key) && Holds(p1, p2)
    ensures LinesAlike(Split(key + "=" + p1 + rest), Split(key + "=" + p2 + rest))
  {
    hide EnvKey, Split, Blank, SingleLine, Trimmed, LineAlike, LinesAlike;
    HeldFirstLine(key, p1, p2, Split(rest)[0]);
    SplitAfter(key + "=" + p1, rest);
    SplitAfter(key + "=" + p2, rest);
    FirstAlike(key + "=" + p1 + Split(rest)[0], key + "=" + p2 + Split(rest)[0], Split(rest)[1..]);
  }

  lemma FirstAlike(a: string, b: string, tail: seq<string>)
    requires LineAlike(a, b)
    ensures LinesAlike([a] + tail, [b] + tail)
  {
    hide EnvKey;
  }

  lemma HeldFirstLine(key: string, p1: string, p2: string, first: string)
    requires KeyShape(key) && Holds(p1, p2)
    ensures LineAlike(key + "=" + p1 + first, key + "=" + p2 + first)
  {
    hide Ident, Blank, SingleLine, EnvKey, Trimmed;
    assert key + "=" + p1 + first == key + "=" + (p1 + first);
    assert key + "=" + p2 + first == key + "=" + (p2 + first);
    EnvKeyOfAssignment(key, p1 + first);
    EnvKeyOfAssignment(key, p2 + first);
    SingleLineConcat(p1, first);
    SingleLineConcat(p2, first);
    BlankConcat(p1, first);
    BlankConcat(p2, first);
  }

  lemma PutEnvAlike(f1: map<Path, Lines>, f2: map<Path, Lines>, a: Lines, b: Lines)
    requires FilesAlike(f1, f2) && LinesAlike(a, b)
    ensures FilesAlike(f1[ENV := a], f2[ENV := b])
  {
    hide LineAlike;
  }

  lemma EnvOneAlike(e: Entry, s1: State, s2: State, secrets: set<string>)
    requires Alike(s1, s2, secrets) && KeyShape(e.key) && PlainEntry(e, s1)
    ensures StepAlike(EnvOne(e, s1), EnvOne(e, s2), secrets)
  {
    var l1, l2 := Read(s1.files, ENV), Read(s2.files, ENV);
    RenderAlike(e.value, s1.vars, s2.vars, secrets);
    KeySetAlike(l1, l2, e.key);
    hide VarsAlike, LineAlike, LinesAlike, Render, Differs, BreakFree, KeyShape, AddText, KeySet, FilesAlike, SameResults;
    if Render(e.value, s1.vars).Rendering? && !KeySet(l1, e.key) {
      var t1, t2 := e.key + "=" + Render(e.value, s1.vars).text, e.key + "=" + Render(e.value, s2.vars).text;
      AssignmentAlike(e, s1.vars, s2.vars, secrets);
      AddedAlike(s1, s2, t1, t2, SetEnv(e.key), secrets);
    }
  }

  lemma AddedAlike(s1: State, s2: State, t1: string, t2: string, r: Record, secrets: set<string>)
    requires Alike(s1, s2, secrets) && LinesAlike(Split(t1), Split(t2))
    ensures var f1, f2 := s1.files[ENV := AddText(Read(s1.files, ENV), t1)], s2.files[ENV := AddText(Read(s2.files, ENV), t2)];
            Alike(s1.(files := f1, journal := s1.journal + [r]), s2.(files := f2, journal := s2.journal + [r]), secrets)
  {
    hide VarsAlike, LineAlike, LinesAlike, AddText, Split;
    AddTextAlike(Read(s1.files, ENV), Read(s2.files, ENV), t1, t2);
    PutEnvAlike(s1.files, s2.files, AddText(Read(s1.files, ENV), t1), AddText(Read(s2.files, ENV), t2));
  }

  lemma PlainStays(written: Entry, e: Entry, s: State)
    requires PlainEntry(e, s)
    ensures PlainEntry(e, EnvOne(written, s).s)
  {
    hide KeySet, BreakFree, Render, AddText;
    if KeySet(Read(s.files, ENV), e.key) { EnvOneKeepsKeys(written, s, e.key); }
  }

  lemma {:induction false} EnvAlike(entries: seq<Entry>, k: nat, s1: State, s2: State, secrets: set<string>)
    requires k <= |entries| && Alike(s1, s2, secrets)
    requires forall i :: 0 <= i < |entries| ==> KeyShape(entries[i].key) && PlainEntry(entries[i], s1)
    ensures StepAlike(EnvFrom(entries, k, s1), EnvFrom(entries, k, s2), secrets)
    decreases |entries| - k
  {
    hide EnvOne, Alike, KeyShape, PlainEntry;
    if k < |entries| {
      EnvOneAlike(entries[k], s1, s2, secrets);
      var o1, o2 := EnvOne(entries[k], s1), EnvOne(entries[k], s2);
      forall i | 0 <= i < |entries| ensures PlainEntry(entries[i], o1.s) { PlainStays(entries[k], entries[i], s1); }
      if o1.threw == None { EnvAlike(entries, k + 1, o1.s, o2.s, secrets); }
    }
  }

  predicate BindingAlike(b1: Binding, b2: Binding, secrets: set<string>) {
    VarsAlike(b1.vars, b2.vars, secrets) && b1.threw == b2.threw
  }

  lemma {:induction false} PairsAlike(h1: Host, h2: Host, pairs: seq<Pair>, json: Json, shape: Option<string>, v1: Vars, v2: Vars,
                   secrets: set<string>)
    requires SameOutside(h1, h2) && VarsAlike(v1, v2, secrets)
    ensures BindingAlike(BindPairs(h1, pairs, json, shape, v1), BindPairs(h2, pairs, json, shape, v2), secrets)
    decreases |pairs|
  {
    if pairs != [] {
      if !pairs[0].Bind? {
        PairsAlike(h1, h2, pairs[1..], json, shape, v1, v2, secrets);
      } else {
        BindOneAlike(h1, h2, pairs[0].name, h1.pick(json, pairs[0].path), shape, v1, v2, secrets);
        hide VarsAlike, BindOne;
        var value := h1.pick(json, pairs[0].path);
        var b1, b2 := BindOne(h1, pairs[0].name, value, shape, v1), BindOne(h2, pairs[0].name, value, shape, v2);
        if b1.threw == None { PairsAlike(h1, h2, pairs[1..], json, shape, b1.vars, b2.vars, secrets); }
      }
    }
  }

  lemma BindOneAlike(h1: Host, h2: Host, name: string, value: string, shape: Option<string>, v1: Vars, v2: Vars,
                     secrets: set<string>)
    requires SameOutside(h1, h2) && VarsAlike(v1, v2, secrets)
    ensures BindingAlike(BindOne(h1, name, value, shape, v1), BindOne(h2, name, value, shape, v2), secrets)
  {
  }

  lemma CaptureAlike(h1: Host, h2: Host, capture: Capture, stdout: string, shape: Option<string>, v1: Vars, v2: Vars,
                     secrets: set<string>)
    requires SameOutside(h1, h2) && VarsAlike(v1, v2, secrets)
    ensures BindingAlike(BindCapture(h1, capture, stdout, shape, v1), BindCapture(h2, capture, stdout, shape, v2),
                         secrets)
  {
    hide VarsAlike, BindOne, BindPairs, Split;
    match capture {
      case Bare(name) => BindOneAlike(h1, h2, name, stdout, shape, v1, v2, secrets);
      case Pairs(pairs) =>
        var parsed := h1.parse(Split(stdout));
        if parsed.Value? { PairsAlike(h1, h2, pairs, parsed.json, shape, v1, v2, secrets); }
    }
  }

  lemma {:induction false} FieldsAlike(pairs: seq<Pair>, fields: map<string, string>, v1: Vars, v2: Vars, secrets: set<string>)
    requires VarsAlike(v1, v2, secrets)
    ensures VarsAlike(BindFields(pairs, fields, v1), BindFields(pairs, fields, v2), secrets)
    decreases |pairs|
  {
    hide Trim, Usable;
    if pairs != [] {
      if !pairs[0].Bind? {
        FieldsAlike(pairs[1..], fields, v1, v2, secrets);
      } else {
        var value := if pairs[0].path in fields then Trim(fields[pairs[0].path]) else "";
        var b := Bound(value, false);
        FieldsAlike(pairs[1..], fields, v1[pairs[0].name := b], v2[pairs[0].name := b], secrets);
      }
    }
  }

  lemma {:induction false} CheckAlike(h1: Host, h2: Host, n: nat, cmds: seq<Template>, k: nat, s1: State, s2: State,
                                      secrets: set<string>)
    requires k <= |cmds| && SameOutside(h1, h2) && Alike(s1, s2, secrets)
    ensures StepAlike(CheckFrom(h1, n, cmds, k, s1), CheckFrom(h2, n, cmds, k, s2), secrets)
    decreases |cmds| - k
  {
    if k < |cmds| {
      RenderAlike(cmds[k], s1.vars, s2.vars, secrets);
      hide VarsAlike, FilesAlike, Render, Differs;
      if Render(cmds[k], s1.vars).Rendering? && h1.exec(n, k).Out? {
        CheckAlike(h1, h2, n, cmds, k + 1,
                   s1.(trace := s1.trace + [Exec(n, Render(cmds[k], s1.vars).text)]),
                   s2.(trace := s2.trace + [Exec(n, Render(cmds[k], s2.vars).text)]), secrets);
      }
    }
  }

  lemma AlikeVars(h1: Host, h2: Host, s1: State, s2: State, secrets: set<string>)
    requires SameOutside(h1, h2) && Alike(s1, s2, secrets)
    ensures VarsAlike(s1.vars, s2.vars, secrets) && h1.exec == h2.exec
  {
  }

  lemma RunOneAlike(h1: Host, h2: Host, n: nat, a: Action, k: nat, s1: State, s2: State, secrets: set<string>)
    requires a.Run? && k < |a.cmds| && SameOutside(h1, h2) && Alike(s1, s2, secrets)
    ensures StepAlike(RunOne(h1, n, a, k, s1), RunOne(h2, n, a, k, s2), secrets)
  {
    hide SameOutside, Alike, VarsAlike, Render, Differs, BindCapture, Trim, Raw;
    var r1, r2 := Render(a.cmds[k], s1.vars), Render(a.cmds[k], s2.vars);
    AlikeVars(h1, h2, s1, s2, secrets);
    RenderAlike(a.cmds[k], s1.vars, s2.vars, secrets);
    if r1.Rendering? && h1.exec(n, k).Out? && a.capture.Some? {
      CaptureAlike(h1, h2, a.capture.value, Trim(h1.exec(n, k).text), a.shape, s1.vars, s2.vars, secrets);
    }
    if r1.Rendering? {
      var o1, o2 := s1.(trace := s1.trace + [Exec(n, r1.text)]), s2.(trace := s2.trace + [Exec(n, r2.text)]);
      TraceAlike(s1, s2, o1.trace, o2.trace, secrets);
      if h1.exec(n, k).Out? {
        var record := Ran(Raw(a.cmds[k]), if a.effect == Some("external") then a.undo else None);
        if a.capture.Some? {
          var out := Trim(h1.exec(n, k).text);
          var b1 := BindCapture(h1, a.capture.value, out, a.shape, o1.vars);
          var b2 := BindCapture(h2, a.capture.value, out, a.shape, o2.vars);
          VarsUpdateAlike(o1, o2, b1.vars, b2.vars, secrets);
          JournalAlike(o1.(vars := b1.vars), o2.(vars := b2.vars), record, secrets);
        } else {
          JournalAlike(o1, o2, record, secrets);
        }
      }
    }
  }

  lemma {:induction false} RunAlike(h1: Host, h2: Host, n: nat, a: Action, k: nat, s1: State, s2: State,
                                    secrets: set<string>)
    requires a.Run? && k <= |a.cmds| && SameOutside(h1, h2) && Alike(s1, s2, secrets)
    ensures StepAlike(RunFrom(h1, n, a, k, s1), RunFrom(h2, n, a, k, s2), secrets)
    decreases |a.cmds| - k
  {
    hide RunOne, Alike;
    if k < |a.cmds| {
      RunOneAlike(h1, h2, n, a, k, s1, s2, secrets);
      var o1, o2 := RunOne(h1, n, a, k, s1), RunOne(h2, n, a, k, s2);
      if o1.threw == None { RunAlike(h1, h2, n, a, k + 1, o1.s, o2.s, secrets); }
    }
  }

  lemma PerformStepAlike(h1: Host, h2: Host, n: nat, capture: Option<Capture>, cmds: seq<Template>,
                         s1: State, s2: State, secrets: set<string>)
    requires SameOutside(h1, h2) && Alike(s1, s2, secrets)
    ensures StepAlike(PerformStep(h1, n, capture, cmds, s1), PerformStep(h2, n, capture, cmds, s2), secrets)
  {
    var t := JoinTemplates(cmds);
    var r1, r2 := Render(t, s1.vars), Render(t, s2.vars);
    RenderAlike(t, s1.vars, s2.vars, secrets);
    assert h1.stream == h2.stream && h1.streams == h2.streams;
    var reply := h1.stream(n);
    if r1.Rendering? {
      var o1, o2 := s1.(trace := s1.trace + [Stream(n, r1.text)]), s2.(trace := s2.trace + [Stream(n, r2.text)]);
      TraceAlike(s1, s2, o1.trace, o2.trace, secrets);
      if reply.Finished? && capture.Some? && capture.value.Pairs? {
        var v1, v2 := BindFields(capture.value.pairs, reply.fields, o1.vars), BindFields(capture.value.pairs, reply.fields, o2.vars);
        FieldsAlike(capture.value.pairs, reply.fields, o1.vars, o2.vars, secrets);
        VarsUpdateAlike(o1, o2, v1, v2, secrets);
        JournalAlike(o1.(vars := v1), o2.(vars := v2), Ran(Raw(t), None), secrets);
      } else {
        JournalAlike(o1, o2, Ran(Raw(t), None), secrets);
      }
    }
    hide SameOutside, Alike, VarsAlike, Render, Differs, JoinTemplates, Raw, BindFields;
  }

  lemma MergeAlike(h1: Host, h2: Host, into: Path, key: string, obj: Json, s1: State, s2: State, secrets: set<string>)
    requires into != ENV && SameOutside(h1, h2) && Alike(s1, s2, secrets)
    ensures StepAlike(PerformMerge(h1, into, key, obj, s1), PerformMerge(h2, into, key, obj, s2), secrets)
  {
    var parsed := ParseFile(h1, Read(s1.files, into));
    assert parsed == ParseFile(h2, Read(s2.files, into));
    if parsed.Value? && parsed.json.Arr? {
      var m := Merge(h1, into, parsed.json.items, key, obj);
      assert m == Merge(h2, into, parsed.json.items, key, obj);
      hide SameOutside, Alike, FilesAlike, ParseFile, Merge, Read;
      if m.Writes? {
        MergedFilesAlike(s1, s2, into, m.content, secrets);
        FilesUpdateAlike(s1, s2, s1.files[into := m.content], s2.files[into := m.content], secrets);
        JournalAlike(s1.(files := s1.files[into := m.content]), s2.(files := s2.files[into := m.content]), m.r, secrets);
      }
    } else {
      hide Alike, ParseFile;
    }
  }

  lemma MergedFilesAlike(s1: State, s2: State, into: Path, content: Lines, secrets: set<string>)
    requires Alike(s1, s2, secrets)
    ensures FilesAlike(s1.files[into := content], s2.files[into := content])
  {
    PutAlike(s1.files, s2.files, into, content);
  }

  lemma DepAlike(h1: Host, h2: Host, n: nat, add: string, remove: string, s1: State, s2: State, secrets: set<string>)
    requires SameOutside(h1, h2) && Alike(s1, s2, secrets)
    ensures StepAlike(PerformDep(h1, n, add, remove, s1), PerformDep(h2, n, add, remove, s2), secrets)
  {
    hide VarsAlike, FilesAlike;
  }

  lemma PerformAlike(h1: Host, h2: Host, d: Directive, n: nat, s1: State, s2: State, secrets: set<string>)
    requires SameOutside(h1, h2) && Alike(s1, s2, secrets) && Discreet(d, secrets) && PlainSecrets(d, s1)
    requires d.when.Some? ==> WhenMet(d.when.value, s1.vars)
    ensures StepAlike(Perform(h1, d, n, s1), Perform(h2, d, n, s2), secrets)
  {
    hide CopyFrom, AppendFrom, EnvFrom, PerformMerge, PerformStep, PerformDep, CheckFrom, RunFrom, Alike, KeyShape,
         PlainEntry;
    match d.action {
      case Copy(branch, moves) => CopyAlike(h1, h2, n, moves, 0, s1, s2, secrets);
      case Append(to, at, lines) => AppendAlike(to, at, lines, 0, s1, s2, secrets);
      case Dep(add, remove, _) => DepAlike(h1, h2, n, add, remove, s1, s2, secrets);
      case Run(_, capture, _, _, cmds) =>
        CheckAlike(h1, h2, n, cmds, 0, s1, s2, secrets);
        PerformStepAlike(h1, h2, n, capture, cmds, s1, s2, secrets);
        RunAlike(h1, h2, n, d.action, 0, s1, s2, secrets);
      case EnvSet(entries) => EnvAlike(entries, 0, s1, s2, secrets);
      case JsonMerge(into, key, body) =>
        if body.Some? { MergeAlike(h1, h2, into, key, body.value, s1, s2, secrets); }
      case _ =>
    }
  }

  // ---- A turn -----------------------------------------------------------------

  lemma AbsentAlike(f1: map<Path, Lines>, f2: map<Path, Lines>, paths: seq<Path>)
    requires f1.Keys == f2.Keys
    ensures Absent(f1, paths) == Absent(f2, paths)
  {
  }

  lemma {:induction false} UnsetAlike(a: seq<string>, b: seq<string>, entries: seq<Entry>)
    requires LinesAlike(a, b)
    ensures Unset(a, entries) == Unset(b, entries)
  {
    hide LinesAlike, KeySet;
    if entries != [] {
      KeySetAlike(a, b, entries[0].probe);
      UnsetAlike(a, b, entries[1..]);
    }
  }

  lemma StatusAlike(h1: Host, h2: Host, d: Directive, n: nat, f1: map<Path, Lines>, f2: map<Path, Lines>,
                    secrets: set<string>)
    requires SameOutside(h1, h2) && FilesAlike(f1, f2) && Discreet(d, secrets)
    ensures StatusOf(h1, d, n, f1) == StatusOf(h2, d, n, f2)
  {
    hide LinesAlike, KeyShape, HasLine, FindIndex, Unset, Absent;
    match d.action {
      case Copy(_, moves) => AbsentAlike(f1, f2, Dests(moves));
      case Append(to, _, _) => assert Read(f1, to) == Read(f2, to);
      case EnvSet(entries) => UnsetAlike(Read(f1, ENV), Read(f2, ENV), entries);
      case JsonMerge(into, _, _) => assert Read(f1, into) == Read(f2, into);
      case _ =>
    }
  }

  lemma FailAlike(s1: State, s2: State, n: nat, message: string, secrets: set<string>)
    requires Alike(s1, s2, secrets)
    ensures Alike(Fail(s1, n, message), Fail(s2, n, message), secrets)
  {
    hide VarsAlike, FilesAlike, Deferrable;
  }

  lemma PlainOpened(d: Directive, s: State, trace: seq<Act>)
    requires PlainSecrets(d, s)
    ensures PlainSecrets(d, s.(trace := trace))
  {
    hide KeySet, BreakFree, WhenMet;
  }

  lemma BracketAlike(h1: Host, h2: Host, d: Directive, n: nat, detail: seq<string>, s1: State, s2: State,
                     secrets: set<string>)
    requires SameOutside(h1, h2) && Alike(s1, s2, secrets) && Discreet(d, secrets) && PlainSecrets(d, s1)
    requires d.when.Some? ==> WhenMet(d.when.value, s1.vars)
    ensures Alike(Bracket(h1, d, n, detail, s1), Bracket(h2, d, n, detail, s2), secrets)
  {
    hide VarsAlike, FilesAlike, Perform, Fail, Discreet, PlainSecrets;
    var o1, o2 := s1.(trace := s1.trace + [Start(n)]), s2.(trace := s2.trace + [Start(n)]);
    if h1.onStart(n).Some? {
      FailAlike(o1, o2, n, h1.onStart(n).value, secrets);
    } else {
      PlainOpened(d, s1, o1.trace);
      PerformAlike(h1, h2, d, n, o1, o2, secrets);
      var p1, p2 := Perform(h1, d, n, o1), Perform(h2, d, n, o2);
      var q1 := p1.s.(trace := p1.s.trace + [End(n, p1.threw == None)]);
      var q2 := p2.s.(trace := p2.s.trace + [End(n, p2.threw == None)]);
      if p1.threw.Some? { FailAlike(q1, q2, n, p1.threw.value, secrets); }
      else if h1.onEnd(n).Some? { FailAlike(q1, q2, n, h1.onEnd(n).value, secrets); }
    }
  }

  lemma NoteAlike(s1: State, s2: State, n: nat, why: string, detail: seq<string>, secrets: set<string>)
    requires Alike(s1, s2, secrets)
    ensures Alike(SkipNote(s1, n, why, detail), SkipNote(s2, n, why, detail), secrets)
    ensures Alike(Bounce(s1, n, why), Bounce(s2, n, why), secrets)
  {
    hide VarsAlike, FilesAlike;
  }

  lemma VisitStepAlike(h1: Host, h2: Host, d: Directive, n: nat, s1: State, s2: State, secrets: set<string>)
    requires SameOutside(h1, h2) && Alike(s1, s2, secrets) && Discreet(d, secrets) && PlainSecrets(d, s1)
    requires d.when.Some? ==> WhenMet(d.when.value, s1.vars)
    ensures Alike(VisitStep(h1, d, n, s1), VisitStep(h2, d, n, s2), secrets)
  {
    StatusAlike(h1, h2, d, n, s1.files, s2.files, secrets);
    assert h1.skipEffects == h2.skipEffects && s1.blocked == s2.blocked;
    var status := StatusOf(h1, d, n, s1.files);
    if status.Apply? { BracketAlike(h1, h2, d, n, status.detail, s1, s2, secrets); }
    NoteAlike(s1, s2, n, "owned by the caller", [], secrets);
    NoteAlike(s1, s2, n, "an earlier step did not complete", [], secrets);
    NoteAlike(s1, s2, n, "no deterministic handler", [], secrets);
    if status.Skip? { NoteAlike(s1, s2, n, "present", status.detail, secrets); }
    hide SameOutside, SideEffect, Alike, Bracket, Discreet, PlainSecrets, StatusOf, SkipNote, Bounce;
  }

  lemma OperatorAlike(h1: Host, h2: Host, d: Directive, n: nat, s1: State, s2: State, secrets: set<string>)
    requires d.action.Operator? && SameOutside(h1, h2) && Alike(s1, s2, secrets)
    ensures Alike(VisitOperator(h1, d, n, s1), VisitOperator(h2, d, n, s2), secrets)
  {
    RenderAlike(d.action.text, s1.vars, s2.vars, secrets);
    hide VarsAlike, FilesAlike, Render, Differs, Fail;
    var r1, r2 := Render(d.action.text, s1.vars), Render(d.action.text, s2.vars);
    if r1.Stuck? {
      FailAlike(s1, s2, n, Unresolved(r1.name), secrets);
    } else if h1.onOperator(n).Some? {
      FailAlike(s1.(messages := s1.messages + [r1.text], trace := s1.trace + [Show(n, r1.text)]),
                s2.(messages := s2.messages + [r2.text], trace := s2.trace + [Show(n, r2.text)]),
                n, h1.onOperator(n).value, secrets);
    }
  }

  /** The same text bound by both hosts. */
  lemma BindPromptAlike(h1: Host, h2: Host, a: Action, n: nat, text: string, s1: State, s2: State, secrets: set<string>)
    requires SameOutside(h1, h2) && Alike(s1, s2, secrets) && a.Prompt?
    ensures Alike(BindPrompt(h1, a, n, text, s1), BindPrompt(h2, a, n, text, s2), secrets)
  {
    var value := Normalize(h1, a.normalize, text);
    assert value == Normalize(h2, a.normalize, text);
    assert h1.compile == h2.compile && h1.test == h2.test;
    if a.valid.Some? {
      var broken := h1.compile(a.valid.value.pattern, a.valid.value.flags);
      if broken.Some? { FailAlike(s1, s2, n, broken.value, secrets); }
    }
    BoundAlike(s1, s2, a, n, value, value, secrets);
    hide SameOutside, Normalize, Alike, Fail;
    DeferAlike(s1, s2, n, secrets);
  }

  lemma DeferAlike(s1: State, s2: State, n: nat, secrets: set<string>)
    requires Alike(s1, s2, secrets)
    ensures forall why :: Alike(Defer(s1, n, why), Defer(s2, n, why), secrets)
  {
    hide VarsAlike, FilesAlike;
  }

  lemma BoundAlike(s1: State, s2: State, a: Action, n: nat, value1: string, value2: string, secrets: set<string>)
    requires a.Prompt? && Alike(s1, s2, secrets)
    requires value1 != value2 ==> a.secret && a.name in secrets && Usable(value1) && Usable(value2)
    ensures Alike(s1.(vars := s1.vars[a.name := Bound(value1, a.secret)], bound := s1.bound + [n]),
                  s2.(vars := s2.vars[a.name := Bound(value2, a.secret)], bound := s2.bound + [n]), secrets)
  {
    hide FilesAlike, Usable;
  }

  /** Two accepted secrets. */
  lemma SecretAlike(h1: Host, h2: Host, a: Action, n: nat, s1: State, s2: State, secrets: set<string>)
    requires a.Prompt? && a.secret && a.name in secrets && Alike(s1, s2, secrets)
    requires SecretAnswer(h1, a, n) && SecretAnswer(h2, a, n)
    ensures var t1, t2 := AnswerTo(h1, a, n).text, AnswerTo(h2, a, n).text;
            Alike(BindPrompt(h1, a, n, t1, s1), BindPrompt(h2, a, n, t2, s2), secrets)
  {
    hide Fail, Usable, FilesAlike, Normalize;
  }

  lemma PromptAlike(h1: Host, h2: Host, d: Directive, n: nat, s1: State, s2: State, secrets: set<string>)
    requires SameOutside(h1, h2) && Alike(s1, s2, secrets) && d.action.Prompt?
    requires Discreet(d, secrets) && AnswersAlike(h1, h2, d, n)
    ensures Alike(VisitPrompt(h1, d, n, s1), VisitPrompt(h2, d, n, s2), secrets)
  {
    var a := d.action;
    var answer := AnswerTo(h1, a, n);
    if answer == AnswerTo(h2, a, n) {
      if answer.AskThrew? { FailAlike(s1, s2, n, answer.message, secrets); }
      if answer.Gave? { BindPromptAlike(h1, h2, a, n, answer.text, s1, s2, secrets); }
    } else {
      SecretAlike(h1, h2, a, n, s1, s2, secrets);
    }
    hide Fail, VarsAlike, FilesAlike, BindPrompt, Accepts, AnswerTo;
  }

  lemma VisitAlike(h1: Host, h2: Host, d: Directive, n: nat, s1: State, s2: State, secrets: set<string>)
    requires SameOutside(h1, h2) && Alike(s1, s2, secrets)
    requires Discreet(d, secrets) && PlainSecrets(d, s1) && AnswersAlike(h1, h2, d, n)
    ensures Alike(Visit(h1, d, n, s1), Visit(h2, d, n, s2), secrets)
  {
    assert h1.mode == h2.mode;
    if d.when.Some? { GuardAlike(d.when.value, s1.vars, s2.vars, secrets); }
    if d.action.Prompt? { PromptAlike(h1, h2, d, n, s1, s2, secrets); }
    else if d.action.Operator? { OperatorAlike(h1, h2, d, n, s1, s2, secrets); }
    else if d.when == None || WhenMet(d.when.value, s1.vars) { VisitStepAlike(h1, h2, d, n, s1, s2, secrets); }
    NoteAlike(s1, s2, n, "not part of code refresh", [], secrets);
    NoteAlike(s1, s2, n, "guard not met", [], secrets);
    hide SameOutside, Alike, Discreet, PlainSecrets, AnswersAlike, VisitPrompt, VisitOperator, VisitStep, WhenMet,
         NotInRefresh, SkipNote;
  }

  lemma GuardAlike(w: When, v1: Vars, v2: Vars, secrets: set<string>)
    requires VarsAlike(v1, v2, secrets) && (w.Cond? ==> w.name !in secrets)
    ensures WhenMet(w, v1) == WhenMet(w, v2)
  {
    hide Usable;
  }

  /** PlainSecrets for each of the first n directives, as the run reaches it. */
  ghost predicate PlainSecretsRun(h: Host, ds: seq<Directive>, n: nat, s0: State)
    requires n <= |ds|
  {
    n == 0 || (PlainSecrets(ds[n - 1], After(h, ds, n - 1, s0)) && PlainSecretsRun(h, ds, n - 1, s0))
  }

  lemma {:induction false} RunsAlike(h1: Host, h2: Host, ds: seq<Directive>, n: nat, f0: map<Path, Lines>,
                                     secrets: set<string>)
    requires n <= |ds| && SameOutside(h1, h2) && PlainSecretsRun(h1, ds, n, Begin(f0))
    requires forall i :: 0 <= i < |ds| ==> Discreet(ds[i], secrets) && AnswersAlike(h1, h2, ds[i], i)
    ensures Alike(After(h1, ds, n, Begin(f0)), After(h2, ds, n, Begin(f0)), secrets)
  {
    if n == 0 {
      LinesSelfAlike(Read(f0, ENV));
    } else {
      hide SameOutside, Alike, Discreet, PlainSecrets, AnswersAlike, Visit;
      RunsAlike(h1, h2, ds, n - 1, f0, secrets);
      VisitAlike(h1, h2, ds[n - 1], n - 1, After(h1, ds, n - 1, Begin(f0)), After(h2, ds, n - 1, Begin(f0)), secrets);
    }
  }

  /** The variables that applySkill reports. */
  function PublicVars(s: State): map<string, string> {
    map x | x in s.vars && !s.vars[x].secret :: s.vars[x].value
  }

  /** Two applies that differ in accepted, non-blank, one-line secrets give the same journal,
      the same applied, skipped, deferred and agent-task lists and the same reported variables. */
  lemma SecretsDoNotShow(h1: Host, h2: Host, ds: seq<Directive>, f0: map<Path, Lines>, secrets: set<string>)
    requires SameOutside(h1, h2) && PlainSecretsRun(h1, ds, |ds|, Begin(f0))
    requires forall i :: 0 <= i < |ds| ==> Discreet(ds[i], secrets) && AnswersAlike(h1, h2, ds[i], i)
    ensures var s1, s2 := After(h1, ds, |ds|, Begin(f0)), After(h2, ds, |ds|, Begin(f0));
            && s1.journal == s2.journal && s1.applied == s2.applied && s1.skipped == s2.skipped
            && s1.deferred == s2.deferred && s1.tasks == s2.tasks
            && PublicVars(s1) == PublicVars(s2)
  {
    hide Visit, SameOutside, Discreet, PlainSecretsRun, AnswersAlike, LinesAlike, Usable;
    RunsAlike(h1, h2, ds, |ds|, f0, secrets);
  }

  // ---- Why PlainSecrets -------------------------------------------------------

  /** K gets a public answer and then a secret, A a constant. */
  const SPILLED: seq<Entry> :=
    [Entry("K", "K", [Ref("multi", "{{multi}}"), Ref("token", "{{token}}")]), Entry("A", "A", [Lit("z")])]

  function SpillingSkill(): seq<Directive> {
    [Directive(None, Prompt("multi", false, None, ""), []), Directive(None, Prompt("token", true, None, ""), []),
     Directive(None, EnvSet(SPILLED), [])]
  }

  predicate Given(h: Host, token: string) {
    h.mode == Install && h.onStart(2) == None && h.inputs == map["multi" := "x\n", "token" := token]
  }

  /** The answer to multi ends in a line break, so the secret stands on a line of its own and
      sets a key there. Which key, the journal tells. */
  lemma SpilledSecretShows(h1: Host, h2: Host)
    requires Given(h1, "A=1") && Given(h2, "B=1") && SameOutside(h1, h2)
    ensures var ds := SpillingSkill();
            && (forall i :: 0 <= i < 3 ==> Discreet(ds[i], {"token"}) && AnswersAlike(h1, h2, ds[i], i))
            && After(h1, ds, 3, Begin(map[])).journal == [SetEnv("K")]
            && After(h2, ds, 3, Begin(map[])).journal == [SetEnv("K"), SetEnv("A")]
  {
    hide After, Discreet, AnswersAlike, EnvKey, Given, SameOutside;
    OwnLine('A', '1');
    OwnLine('B', '1');
    assert ['A', '=', '1'] == "A=1" && ['B', '=', '1'] == "B=1" && ['A'] == "A" && ['B'] == "B";
    SpilledRun(h1, "A", "A=1");
    SpilledRun(h2, "B", "B=1");
    SpilledAnswers(h1, h2);
  }

  lemma SpilledAnswers(h1: Host, h2: Host)
    requires Given(h1, "A=1") && Given(h2, "B=1")
    ensures forall i :: 0 <= i < 3 ==>
              Discreet(SpillingSkill()[i], {"token"}) && AnswersAlike(h1, h2, SpillingSkill()[i], i)
  {
    hide IsSpace, EndsLine;
    OneLetter('A', '1');
    OneLetter('B', '1');
    assert ['A', '=', '1'] == "A=1" && ['B', '=', '1'] == "B=1";
    assert KeyShape("K") && KeyShape("A") by { OneLetter('K', 'x'); }
  }

  lemma OneLetter(k: char, v: char)
    requires 'A' <= k <= 'Z' && (v == '1' || v == 'x')
    ensures Usable([k, '=', v]) && Settles([v]) && Ident([k]) && KeyShape([k])
  {
    assert !IsSpace([k, '=', v][0]) && !IsSpace([v][0]);
  }

  /** A line K=v sets K. */
  lemma OwnLine(k: char, v: char)
    requires 'A' <= k <= 'Z' && (v == '1' || v == 'x')
    ensures EnvKey([k, '=', v]) == Some([k]) && '\n' !in [k, '=', v]
  {
    hide EnvKey, Ident, Settles, IsSpace;
    OneLetter(k, v);
    EnvKeyOfAssignment([k], [v]);
    assert [k] + "=" + [v] == [k, '=', v];
  }

  /** The variables when the env-set is reached. */
  function SpilledVars(token: string): Vars {
    map["multi" := Bound("x\n", false), "token" := Bound(token, true)]
  }

  lemma SpilledRun(h: Host, key: string, token: string)
    requires Given(h, token) && (key == "A" || key == "B") && '\n' !in token && EnvKey(token) == Some(key)
    ensures After(h, SpillingSkill(), 3, Begin(map[])).journal ==
            [SetEnv("K")] + (if key == "A" then [] else [SetEnv("A")])
  {
    hide EnvKey;
    var ds := SpillingSkill();
    var s0 := Begin(map[]);
    var s1 := Visit(h, ds[0], 0, s0);
    var s2 := Visit(h, ds[1], 1, s1);
    assert s2.files == map[] && s2.journal == [] && s2.vars == SpilledVars(token);
    EmptyLineSetsNothing();
    EnvTurn(h, ds[2], 2, s2);
    hide Visit;
    SpilledEntries(key, token, s2.(trace := s2.trace + [Start(2)]));
    assert After(h, ds, 0, s0) == s0;
    assert After(h, ds, 1, s0) == s1;
    assert After(h, ds, 2, s0) == s2;
  }

  lemma EnvTurn(h: Host, d: Directive, n: nat, s: State)
    requires d.when == None && d.action.EnvSet? && h.mode == Install && h.onStart(n) == None
    ensures Unset(Read(s.files, ENV), d.action.entries) != [] ==>
              Visit(h, d, n, s).journal == EnvFrom(d.action.entries, 0, s.(trace := s.trace + [Start(n)])).s.journal
  {
    hide EnvFrom, Fail, Unset;
    FailJournal(n);
  }

  lemma FailJournal(n: nat)
    ensures forall s: State, message :: Fail(s, n, message).journal == s.journal
  {
    hide Deferrable;
  }

  lemma SpilledEntries(key: string, token: string, s: State)
    requires (key == "A" || key == "B") && '\n' !in token && EnvKey(token) == Some(key)
    requires s.files == map[] && s.journal == [] && s.vars == SpilledVars(token)
    ensures EnvFrom(SPILLED, 0, s).s.journal == [SetEnv("K")] + (if key == "A" then [] else [SetEnv("A")])
  {
    var one := EnvOne(SPILLED[0], s);
    hide EnvKey, Split, Render, KeySet, EnvOne;
    FirstEntry(token, s);
    SpilledRender(token);
    KeysOfTwo("K=x", token, "A");
    OwnLine('K', 'x');
    assert ['K', '=', 'x'] == "K=x";
    SecondEntry(key, one.s);
    assert EnvFrom(SPILLED, 0, s) == EnvFrom(SPILLED, 1, one.s);
  }

  lemma FirstEntry(token: string, s: State)
    requires '\n' !in token && s.files == map[] && s.journal == [] && s.vars == SpilledVars(token)
    ensures var one := EnvOne(SPILLED[0], s);
            && Read(one.s.files, ENV) == ["K=x", token, ""] && one.s.journal == [SetEnv("K")] && one.threw == None
            && one.s.vars == s.vars
  {
    hide EnvKey, Split, Render, AddText, KeySet;
    SpilledRender(token);
    NothingSet("K");
    AddedLines(token);
  }

  lemma NothingSet(key: string)
    ensures !KeySet([""], key)
  {
    EmptyLineSetsNothing();
    hide EnvKey;
  }

  lemma AddedLines(token: string)
    requires '\n' !in token
    ensures AddText([""], "K" + "=" + ("x\n" + token)) == ["K=x", token, ""]
  {
    hide Split;
    assert "K" + "=" + ("x\n" + token) == "K=x" + ("\n" + token);
    TwoLines("K=x", token);
  }

  lemma SecondEntry(key: string, s: State)
    requires Render(SPILLED[1].value, s.vars).Rendering? && s.journal == [SetEnv("K")]
    requires KeySet(Read(s.files, ENV), "A") <==> key == "A"
    ensures EnvFrom(SPILLED, 1, s).s.journal == [SetEnv("K")] + (if key == "A" then [] else [SetEnv("A")])
  {
    hide Render, KeySet, AddText;
    var two := EnvOne(SPILLED[1], s);
    assert two.s.journal == [SetEnv("K")] + (if key == "A" then [] else [SetEnv("A")]);
    assert EnvFrom(SPILLED, 2, two.s) == Step(two.s, None);
  }

  lemma KeysOfTwo(a: string, b: string, key: string)
    ensures KeySet([a, b, ""], key) <==> EnvKey(a) == Some(key) || EnvKey(b) == Some(key)
  {
    EmptyLineSetsNothing();
    hide EnvKey;
    var lines := [a, b, ""];
    assert lines[0] == a && lines[1] == b && lines[2] == "";
  }

  lemma SpilledRender(token: string)
    ensures Render(SPILLED[0].value, SpilledVars(token)) == Rendering("x\n" + token)
    ensures Render(SPILLED[1].value, SpilledVars(token)).Rendering?
  {
    var t := SPILLED[0].value;
    var last: Template := [Ref("token", "{{token}}")];
    var vars := SpilledVars(token);
    assert t[1..] == last && last[1..] == [];
    assert token + "" == token;
    assert Render(last, vars) == Rendering(token);
    assert Render(t, vars) == Before("x\n", Render(last, vars));
    assert SPILLED[1].value[1..] == [];
  }

  lemma TwoLines(a: string, b: string)
    requires '\n' !in a && '\n' !in b
    ensures Split(a + ("\n" + b)) == [a, b]
  {
    SplitAfter(a, "\n" + b);
    SplitSingle(b);
    assert ("\n" + b)[1..] == b && a + "" == a;
  }

  /** Why Discreet keeps appends out of the .env: whether the line is there already depends on
      the secret, though the two files set the same keys. */
  lemma AppendTellsSecret(h: Host, n: nat)
    ensures var f1, f2 := map[ENV := ["K=1", ""]], map[ENV := ["K=x", ""]];
            var d := Directive(None, Append(ENV, None, ["K=1"]), []);
            FilesAlike(f1, f2) && StatusOf(h, d, n, f1).Skip? && StatusOf(h, d, n, f2).Apply?
  {
    hide EnvKey, Trim;
    assert ['K', '=', '1'] == "K=1" && ['K', '=', 'x'] == "K=x";
    OwnLine('K', '1');
    OwnLine('K', 'x');
    assert Trimmed("K=1") && Trimmed("K=x") by { LettersAreTrimmed(); }
    TrimOfTrimmed("K=1");
    TrimOfTrimmed("K=x");
    TrimOfNothing();
    var a, b := ["K=1", ""], ["K=x", ""];
    assert a[0] == "K=1" && b[0] == "K=x" && b[1] == "" && "K=1" != "K=x" && "K=1" != "";
    assert HasLine(a, "K=1") && !HasLine(b, "K=1");
  }

  lemma LettersAreTrimmed()
    ensures Trimmed("K=1") && Trimmed("K=x")
  {
  }

  lemma TrimOfNothing()
    ensures Trim("") == ""
  {
  }
}
