/** Undo round trip: playing the journal of any apply backwards gives every file back,
    text as lines up to the final newline and JSON arrays as parsed values. */
module SkillUndo {
  import opened Prelude
  import opened Text
  import opened SkillModel
  import opened SkillEngine

  // ---- What is asked of the skill ---------------------------------------------

  /** JSON.parse reads back what JSON.stringify wrote. */
  ghost predicate Lawful(h: Host) {
    forall arr :: ParseFile(h, h.stringify(arr)) == Value(Arr(arr))
  }

  /** Every line that an assignment adds starts with KEY=; one line always does. */
  predicate CleanAssignment(key: string, value: string) {
    forall i :: 0 <= i < |Split(key + "=" + value)| ==> StartsWith(Split(key + "=" + value)[i], key + "=")
  }

  predicate FreshKey(key: string, before: seq<string>) {
    forall i :: 0 <= i < |before| ==> !StartsWith(before[i], key + "=")
  }

  /** What the entry writes is new in the .env that the install found, and is added cleanly; a
      key that is set already is left alone. */
  predicate CleanEntry(e: Entry, s: State, before: seq<string>) {
    var r := Render(e.value, s.vars);
    r.Rendering? && !KeySet(Read(s.files, ENV), e.key) ==> FreshKey(e.key, before) && CleanAssignment(e.key, r.text)
  }

  /** An object that its own key finds again. */
  predicate Mergeable(obj: Json, key: string) {
    Hit(obj, key, Field(obj, key))
  }

  predicate FreshLine(line: string, before: seq<string>) {
    Trimmed(line) && '\n' !in line && !HasLine(before, line)
  }

  /** lines[k..] are all fresh. */
  predicate FreshFrom(lines: seq<string>, k: nat, before: seq<string>)
    decreases |lines| - k
  {
    k < |lines| ==> FreshLine(lines[k], before) && FreshFrom(lines, k + 1, before)
  }

  /** The directive's handler runs at this turn: its guard holds and it is not in place yet. */
  predicate Applies(h: Host, d: Directive, n: nat, s: State) {
    && !(h.mode.Refresh? && NotInRefresh(d.action))
    && (d.when.Some? ==> WhenMet(d.when.value, s.vars))
    && StatusOf(h, d, n, s.files).Apply?
  }

  /** What is asked of a directive that applies in state s: copies create their files, appended
      lines are new, and the files that json-merge writes (merged) are no text targets. */
  predicate Good(d: Directive, s: State, f0: map<Path, Lines>, merged: set<Path>) {
    match d.action
    case Copy(_, moves) => forall i :: 0 <= i < |moves| ==> moves[i].dst !in f0
    case Append(to, _, lines) =>
      to !in merged && FreshFrom(lines, 0, Read(f0, to))
    case EnvSet(entries) =>
      && ENV !in merged
      && forall i :: 0 <= i < |entries| ==> CleanEntry(entries[i], s, Read(f0, ENV))
    case JsonMerge(into, key, body) =>
      into in merged && (body.Some? && !body.value.Null? ==> Mergeable(body.value, key))
    case _ => true
  }

  predicate Restored(h: Host, f0: map<Path, Lines>, f1: map<Path, Lines>, p: Path, merged: set<Path>) {
    if p in merged then ParseFile(h, Read(f1, p)) == ParseFile(h, Read(f0, p))
    else Body(Read(f1, p)) == Body(Read(f0, p))
  }

  // ---- One path, seen through the journal -------------------------------------

  predicate About(r: Record, p: Path) {
    match r
    case Wrote(q) => q == p
    case Appended(q, _) => q == p
    case SetEnv(_) => p == ENV
    case Merged(q, _, _, _) => q == p
    case Ran(_, _) => false
  }

  predicate HasWrote(j: seq<Record>, p: Path) {
    Wrote(p) in j
  }

  /** The lines of p that the records of j leave, played backwards. */
  function KeepAll(j: seq<Record>, p: Path, b: seq<string>): seq<string> {
    if j == [] then b
    else
      var r := j[|j| - 1];
      KeepAll(j[..|j| - 1], p, if About(r, p) then Keep(r, b) else b)
  }

  /** The parsed value of p that the records of j leave, None when parsing threw. */
  function JsonBack(j: seq<Record>, p: Path, v: Parsed): Option<Parsed> {
    if j == [] then Some(v)
    else
      var r, rest := j[|j| - 1], j[..|j| - 1];
      if !About(r, p) then JsonBack(rest, p, v)
      else if r.Wrote? then JsonBack(rest, p, Value(Arr([])))
      else if v.Bad? then None
      else if v.json.Arr? && r.Merged? then
        JsonBack(rest, p, Value(Arr(Unmerge(v.json.items, r.key, r.value, r.previous))))
      else JsonBack(rest, p, v)
  }

  /** A record that drops no line p started with. */
  predicate Harmless(r: Record, lines: seq<string>, p: Path) {
    About(r, p) ==> !Drops(r, "") && forall i :: 0 <= i < |lines| ==> !Drops(r, lines[i])
  }

  predicate AllHarmless(j: seq<Record>, lines: seq<string>, p: Path) {
    j == [] || (Harmless(j[|j| - 1], lines, p) && AllHarmless(j[..|j| - 1], lines, p))
  }

  predicate TextInv(f0: map<Path, Lines>, files: map<Path, Lines>, j: seq<Record>, p: Path) {
    var before, now := Read(f0, p), Read(files, p);
    && AllHarmless(j, before, p)
    && KeepAll(j, p, Body(now)) == Body(before)
    && (now[|now| - 1] != "" ==> now[|now| - 1] in before)
  }

  ghost predicate Inv(h: Host, f0: map<Path, Lines>, files: map<Path, Lines>, j: seq<Record>, p: Path, merged: set<Path>) {
    if p in merged then JsonBack(j, p, ParseFile(h, Read(files, p))) == Some(ParseFile(h, Read(f0, p)))
    else if HasWrote(j, p) then p !in f0
    else TextInv(f0, files, j, p)
  }

  ghost predicate KindOk(r: Record, merged: set<Path>) {
    match r
    case Appended(p, _) => p !in merged
    case SetEnv(_) => ENV !in merged
    case Merged(p, _, _, _) => p in merged
    case _ => true
  }

  // ---- Filtering --------------------------------------------------------------

  lemma KeepConcat(r: Record, a: seq<string>, b: seq<string>)
    ensures Keep(r, a + b) == Keep(r, a) + Keep(r, b)
  {
    if a == [] {
      assert a + b == b;
    } else {
      assert (a + b)[1..] == a[1..] + b;
      KeepConcat(r, a[1..], b);
    }
  }

  lemma KeepsAll(r: Record, a: seq<string>)
    requires forall i :: 0 <= i < |a| ==> !Drops(r, a[i])
    ensures Keep(r, a) == a
  {
  }

  lemma KeepCommutes(q: Record, r: Record, a: seq<string>)
    ensures Keep(q, Keep(r, a)) == Keep(r, Keep(q, a))
  {
    if a != [] {
      KeepCommutes(q, r, a[1..]);
      KeepConcat(q, if Drops(r, a[0]) then [] else [a[0]], Keep(r, a[1..]));
      KeepConcat(r, if Drops(q, a[0]) then [] else [a[0]], Keep(q, a[1..]));
    }
  }

  lemma {:induction false} KeepAllCommutes(j: seq<Record>, p: Path, r: Record, b: seq<string>)
    ensures KeepAll(j, p, Keep(r, b)) == Keep(r, KeepAll(j, p, b))
  {
    if j != [] {
      var q := j[|j| - 1];
      KeepCommutes(q, r, b);
      KeepAllCommutes(j[..|j| - 1], p, r, if About(q, p) then Keep(q, b) else b);
    }
  }

  lemma BodyOfFilter(r: Record, lines: Lines)
    requires !Drops(r, "")
    requires lines[|lines| - 1] != "" ==> !Drops(r, lines[|lines| - 1])
    ensures Body(FilterLines(r, lines)) == Keep(r, Body(lines))
    ensures var out := FilterLines(r, lines); out[|out| - 1] == lines[|lines| - 1]
  {
    var last := lines[|lines| - 1];
    assert lines == lines[..|lines| - 1] + [last];
    KeepConcat(r, lines[..|lines| - 1], [last]);
  }

  // ---- Playing back -----------------------------------------------------------

  lemma {:induction false} EmptyStays(j: seq<Record>, p: Path)
    ensures KeepAll(j, p, []) == []
    ensures JsonBack(j, p, Value(Arr([]))) == Some(Value(Arr([])))
  {
    if j != [] { EmptyStays(j[..|j| - 1], p); }
  }

  /** One record at a text path: it filters, and spares a last line it does not drop. */
  lemma UndoOneFilters(h: Host, r: Record, files: map<Path, Lines>, p: Path)
    requires UndoOne(h, r, files).Some? && r != Wrote(p) && !(r.Merged? && r.path == p)
    requires var now := Read(files, p); About(r, p) ==> !Drops(r, "") && !Drops(r, now[|now| - 1])
    ensures var now, next := Read(files, p), Read(UndoOne(h, r, files).value, p);
            && Body(next) == (if About(r, p) then Keep(r, Body(now)) else Body(now))
            && next[|next| - 1] == now[|now| - 1]
  {
    hide Drops, Keep, FilterLines, Body;
    if About(r, p) { BodyOfFilter(r, Read(files, p)); }
  }

  /** Undo at a text path no copy created: only filtering. */
  lemma {:induction false} UndoFilters(h: Host, j: seq<Record>, files: map<Path, Lines>, before: seq<string>, p: Path)
    requires Undo(h, j, files).Some? && !HasWrote(j, p)
    requires AllHarmless(j, before, p) && forall i :: 0 <= i < |j| ==> !(j[i].Merged? && j[i].path == p)
    requires var now := Read(files, p); now[|now| - 1] != "" ==> now[|now| - 1] in before
    ensures Body(Read(Undo(h, j, files).value, p)) == KeepAll(j, p, Body(Read(files, p)))
  {
    if j != [] {
      var r := j[|j| - 1];
      assert Harmless(r, before, p) && r in j;
      UndoOneFilters(h, r, files, p);
      UndoFilters(h, j[..|j| - 1], UndoOne(h, r, files).value, before, p);
    }
  }

  lemma EmptyFiltered(r: Record)
    ensures FilterLines(r, [""]) == [""]
  {
    assert Keep(r, [""][1..]) == [];
  }

  /** Undo at a path that is empty, or that a copy created: empty in the end. */
  lemma {:induction false} UndoEmpties(h: Host, j: seq<Record>, files: map<Path, Lines>, p: Path)
    requires Undo(h, j, files).Some? && (HasWrote(j, p) || Read(files, p) == [""])
    requires forall i :: 0 <= i < |j| ==> !(j[i].Merged? && j[i].path == p)
    ensures Body(Read(Undo(h, j, files).value, p)) == []
  {
    if j != [] {
      var r, rest := j[|j| - 1], j[..|j| - 1];
      EmptyFiltered(r);
      assert j == rest + [r];
      UndoEmpties(h, rest, UndoOne(h, r, files).value, p);
    }
  }

  lemma {:induction false} UndoParses(h: Host, j: seq<Record>, files: map<Path, Lines>, p: Path, merged: set<Path>)
    requires Lawful(h) && p in merged && Undo(h, j, files).Some?
    requires forall i :: 0 <= i < |j| ==> KindOk(j[i], merged)
    ensures JsonBack(j, p, ParseFile(h, Read(files, p))) == Some(ParseFile(h, Read(Undo(h, j, files).value, p)))
  {
    if j != [] {
      var r := j[|j| - 1];
      assert KindOk(r, merged);
      UndoParses(h, j[..|j| - 1], UndoOne(h, r, files).value, p, merged);
    }
  }

  lemma {:induction false} UndoSucceeds(h: Host, j: seq<Record>, files: map<Path, Lines>, merged: set<Path>)
    requires Lawful(h)
    requires forall i :: 0 <= i < |j| ==> KindOk(j[i], merged)
    requires forall p :: p in merged ==> JsonBack(j, p, ParseFile(h, Read(files, p))).Some?
    ensures Undo(h, j, files).Some?
  {
    if j != [] {
      var r := j[|j| - 1];
      assert KindOk(r, merged);
      if r.Merged? { assert JsonBack(j, r.path, ParseFile(h, Read(files, r.path))).Some?; }
      var next := UndoOne(h, r, files).value;
      forall p | p in merged ensures JsonBack(j[..|j| - 1], p, ParseFile(h, Read(next, p))).Some? {
        assert JsonBack(j, p, ParseFile(h, Read(files, p))).Some?;
      }
      UndoSucceeds(h, j[..|j| - 1], next, merged);
    }
  }

  lemma InvRestores(h: Host, f0: map<Path, Lines>, files: map<Path, Lines>, j: seq<Record>, p: Path, merged: set<Path>)
    requires Lawful(h) && Undo(h, j, files).Some? && Inv(h, f0, files, j, p, merged)
    requires forall i :: 0 <= i < |j| ==> KindOk(j[i], merged)
    ensures Restored(h, f0, Undo(h, j, files).value, p, merged)
  {
    if p in merged {
      UndoParses(h, j, files, p, merged);
    } else if HasWrote(j, p) {
      UndoEmpties(h, j, files, p);
    } else {
      UndoFilters(h, j, files, Read(f0, p), p);
    }
  }

  // ---- What each handler keeps ------------------------------------------------

  /** A record about other paths, and files that read the same at p. */
  lemma InvOther(h: Host, f0: map<Path, Lines>, files: map<Path, Lines>, files': map<Path, Lines>,
                 j: seq<Record>, r: Record, p: Path, merged: set<Path>)
    requires Inv(h, f0, files, j, p, merged) && !About(r, p) && Read(files', p) == Read(files, p)
    ensures Inv(h, f0, files', j + [r], p, merged)
  {
    assert (j + [r])[..|j|] == j;
    assert HasWrote(j + [r], p) == HasWrote(j, p);
  }

  /** One text record: other paths read the same, its own path gained only what it drops. */
  predicate TextStep(f0: map<Path, Lines>, files: map<Path, Lines>, files': map<Path, Lines>, r: Record, to: Path) {
    var now, next := Read(files, to), Read(files', to);
    && Harmless(r, Read(f0, to), to)
    && Keep(r, Body(next)) == Keep(r, Body(now))
    && (next[|next| - 1] == "" || next[|next| - 1] == now[|now| - 1])
    && files' == files[to := next]
  }

  lemma InvText(f0: map<Path, Lines>, files: map<Path, Lines>, files': map<Path, Lines>, j: seq<Record>,
                r: Record, p: Path)
    requires TextInv(f0, files, j, p) && About(r, p) && TextStep(f0, files, files', r, p)
    ensures TextInv(f0, files', j + [r], p)
  {
    var before := Read(f0, p);
    assert (j + [r])[..|j|] == j;
    KeepAllCommutes(j, p, r, Body(Read(files, p)));
    KeepsAll(r, Body(before));
  }

  lemma InvTextAt(h: Host, f0: map<Path, Lines>, files: map<Path, Lines>, files': map<Path, Lines>,
                  j: seq<Record>, r: Record, p: Path, merged: set<Path>)
    requires About(r, p) && !r.Wrote?
    requires TextStep(f0, files, files', r, p) && p !in merged && Inv(h, f0, files, j, p, merged)
    ensures Inv(h, f0, files', j + [r], p, merged)
  {
    assert HasWrote(j + [r], p) == HasWrote(j, p);
    if !HasWrote(j, p) { InvText(f0, files, files', j, r, p); }
  }

  lemma InvTextStep(h: Host, f0: map<Path, Lines>, files: map<Path, Lines>, files': map<Path, Lines>,
                    j: seq<Record>, r: Record, to: Path, p: Path, merged: set<Path>)
    requires (r.SetEnv? && to == ENV) || (r.Appended? && to == r.path)
    requires TextStep(f0, files, files', r, to) && to !in merged && Inv(h, f0, files, j, p, merged)
    ensures Inv(h, f0, files', j + [r], p, merged)
  {
    if p == to {
      InvTextAt(h, f0, files, files', j, r, p, merged);
    } else {
      assert Read(files', p) == Read(files, p);
      InvOther(h, f0, files, files', j, r, p, merged);
    }
  }

  lemma AddTextDropped(r: Record, lines: Lines, text: string)
    requires forall i :: 0 <= i < |Split(text)| ==> Drops(r, Split(text)[i])
    ensures Keep(r, Body(AddText(lines, text))) == Keep(r, Body(lines))
    ensures var out := AddText(lines, text); out[|out| - 1] == ""
  {
    assert Body(AddText(lines, text)) == Body(lines) + Split(text);
    KeepConcat(r, Body(lines), Split(text));
    DropsAll(r, Split(text));
  }

  lemma DropsAll(r: Record, a: seq<string>)
    requires forall i :: 0 <= i < |a| ==> Drops(r, a[i])
    ensures Keep(r, a) == []
  {
  }

  lemma BodyOfInsert(lines: Lines, i: nat, line: string)
    requires i < |lines| && lines[i] != ""
    ensures i < |Body(lines)|
    ensures Body(InsertLine(lines, i, line)) == Body(lines)[..i] + ([line] + Body(lines)[i..])
  {
    var out, last := InsertLine(lines, i, line), lines[|lines| - 1];
    assert out[|out| - 1] == last && |out| == |lines| + 1;
    if last == "" {
      assert out[..|out| - 1] == lines[..i] + ([line] + lines[i..|lines| - 1]);
      assert Body(lines)[..i] == lines[..i] && Body(lines)[i..] == lines[i..|lines| - 1];
    } else {
      assert out == lines[..i] + ([line] + lines[i..]);
    }
  }

  lemma InsertDropped(r: Record, lines: Lines, i: nat, line: string)
    requires i < |lines| && lines[i] != "" && Drops(r, line)
    ensures Keep(r, Body(InsertLine(lines, i, line))) == Keep(r, Body(lines))
    ensures var out := InsertLine(lines, i, line); out[|out| - 1] == lines[|lines| - 1]
  {
    BodyOfInsert(lines, i, line);
    KeepWithout(r, Body(lines)[..i], line, Body(lines)[i..]);
    assert Body(lines) == Body(lines)[..i] + Body(lines)[i..];
  }

  lemma KeepWithout(r: Record, a: seq<string>, line: string, b: seq<string>)
    requires Drops(r, line)
    ensures Keep(r, a + ([line] + b)) == Keep(r, a + b)
  {
    assert ([line] + b)[1..] == b;
    assert Keep(r, [line] + b) == [] + Keep(r, b);
    KeepConcat(r, a, [line] + b);
    KeepConcat(r, a, b);
  }

  lemma MarkerNotEmpty(line: string, mark: string)
    requires Contains(line, "<<< " + mark)
    ensures line != ""
  {
  }

  lemma AddStep(f0: map<Path, Lines>, files: map<Path, Lines>, r: Record, to: Path, text: string)
    requires Harmless(r, Read(f0, to), to) && forall i :: 0 <= i < |Split(text)| ==> Drops(r, Split(text)[i])
    ensures TextStep(f0, files, files[to := AddText(Read(files, to), text)], r, to)
  {
    AddTextDropped(r, Read(files, to), text);
  }

  lemma InsertStep(f0: map<Path, Lines>, files: map<Path, Lines>, r: Record, to: Path, i: nat, line: string)
    requires Harmless(r, Read(f0, to), to) && Drops(r, line)
    requires i < |Read(files, to)| && Read(files, to)[i] != ""
    ensures TextStep(f0, files, files[to := InsertLine(Read(files, to), i, line)], r, to)
  {
    InsertDropped(r, Read(files, to), i, line);
    hide Harmless, Drops, Keep, Body, InsertLine;
  }

  lemma MarkerSteps(f0: map<Path, Lines>, to: Path, mark: string, line: string, s: State)
    requires FreshLine(line, Read(f0, to)) && mark != ""
    ensures var one := AppendOne(to, Some(mark), line, s);
            if one.threw.Some? then one.s == s
            else
              && one.s.journal == s.journal + [Appended(to, line)]
              && TextStep(f0, s.files, one.s.files, Appended(to, line), to)
  {
    var lines := Read(s.files, to);
    var i := MarkerIndex(lines, "<<< " + mark);
    if i < |lines| {
      MarkerNotEmpty(lines[i], mark);
      IndentedDropped(line, lines[i], to);
      LineHarmless(line, Read(f0, to), to);
      InsertStep(f0, s.files, Appended(to, line), to, i, lines[i][..Leading(lines[i])] + line);
    }
  }

  lemma IndentedDropped(line: string, at: string, to: Path)
    requires Trimmed(line)
    ensures Drops(Appended(to, line), at[..Leading(at)] + line)
  {
    hide Trim;
    TrimOfTrimmed(line);
    TrimIndented(at[..Leading(at)], line);
  }

  lemma AppendSteps(f0: map<Path, Lines>, to: Path, at: Option<string>, line: string, s: State)
    requires FreshLine(line, Read(f0, to))
    ensures var one := AppendOne(to, at, line, s);
            if one.threw.Some? then one.s == s
            else
              && one.s.journal == s.journal + [Appended(to, line)]
              && TextStep(f0, s.files, one.s.files, Appended(to, line), to)
  {
    if at.Some? && at.value != "" {
      MarkerSteps(f0, to, at.value, line, s);
    } else {
      LineHarmless(line, Read(f0, to), to);
      SplitSingle(line);
      AddStep(f0, s.files, Appended(to, line), to, line);
    }
  }

  lemma AppendKeeps(h: Host, f0: map<Path, Lines>, to: Path, at: Option<string>, line: string, s: State, p: Path,
                    merged: set<Path>)
    requires to !in merged && FreshLine(line, Read(f0, to))
    requires Inv(h, f0, s.files, s.journal, p, merged)
    ensures var s' := AppendOne(to, at, line, s).s; Inv(h, f0, s'.files, s'.journal, p, merged)
  {
    var one := AppendOne(to, at, line, s);
    AppendSteps(f0, to, at, line, s);
    if one.threw == None {
      InvTextStep(h, f0, s.files, one.s.files, s.journal, Appended(to, line), to, p, merged);
    }
  }

  lemma LineHarmless(line: string, before: seq<string>, to: Path)
    requires FreshLine(line, before)
    ensures Harmless(Appended(to, line), before, to)
  {
    TrimOfTrimmed(line);
    assert Leading("") == 0;
  }

  lemma {:induction false} AppendsKeep(h: Host, f0: map<Path, Lines>, to: Path, at: Option<string>, lines: seq<string>,
                                       k: nat, s: State, p: Path, merged: set<Path>)
    requires k <= |lines| && to !in merged && FreshFrom(lines, k, Read(f0, to))
    requires Inv(h, f0, s.files, s.journal, p, merged)
    ensures var s' := AppendFrom(to, at, lines, k, s).s; Inv(h, f0, s'.files, s'.journal, p, merged)
    decreases |lines| - k
  {
    hide AppendOne, Inv, FreshLine;
    if k < |lines| {
      AppendKeeps(h, f0, to, at, lines[k], s, p, merged);
      var one := AppendOne(to, at, lines[k], s);
      if one.threw == None { AppendsKeep(h, f0, to, at, lines, k + 1, one.s, p, merged); }
    }
  }

  lemma KeyHarmless(key: string, before: seq<string>)
    requires FreshKey(key, before)
    ensures Harmless(SetEnv(key), before, ENV)
  {
  }

  lemma EnvSteps(f0: map<Path, Lines>, e: Entry, s: State)
    requires CleanEntry(e, s, Read(f0, ENV))
    ensures var s' := EnvOne(e, s).s;
            && s'.vars == s.vars
            && if s'.journal == s.journal then s'.files == s.files
               else s'.journal == s.journal + [SetEnv(e.key)] && TextStep(f0, s.files, s'.files, SetEnv(e.key), ENV)
  {
    hide KeySet, TextStep, Split;
    if Render(e.value, s.vars).Rendering? && !KeySet(Read(s.files, ENV), e.key) {
      KeyHarmless(e.key, Read(f0, ENV));
      AddStep(f0, s.files, SetEnv(e.key), ENV, e.key + "=" + Render(e.value, s.vars).text);
    }
  }

  lemma EnvKeeps(h: Host, f0: map<Path, Lines>, e: Entry, s: State, p: Path, merged: set<Path>)
    requires ENV !in merged && CleanEntry(e, s, Read(f0, ENV))
    requires Inv(h, f0, s.files, s.journal, p, merged)
    ensures var s' := EnvOne(e, s).s; Inv(h, f0, s'.files, s'.journal, p, merged)
  {
    hide CleanEntry;
    var s' := EnvOne(e, s).s;
    EnvSteps(f0, e, s);
    if s'.journal != s.journal {
      InvTextStep(h, f0, s.files, s'.files, s.journal, SetEnv(e.key), ENV, p, merged);
    }
  }

  lemma CleanStays(written: Entry, e: Entry, s: State, before: seq<string>)
    requires CleanEntry(e, s, before)
    ensures CleanEntry(e, EnvOne(written, s).s, before)
  {
    hide KeySet, FreshKey, CleanAssignment, Render, AddText;
    if KeySet(Read(s.files, ENV), e.key) { EnvOneKeepsKeys(written, s, e.key); }
  }

  lemma {:induction false} EnvsKeep(h: Host, f0: map<Path, Lines>, entries: seq<Entry>, k: nat, s: State, p: Path,
                                    merged: set<Path>)
    requires k <= |entries| && ENV !in merged
    requires forall i :: 0 <= i < |entries| ==> CleanEntry(entries[i], s, Read(f0, ENV))
    requires Inv(h, f0, s.files, s.journal, p, merged)
    ensures var s' := EnvFrom(entries, k, s).s; Inv(h, f0, s'.files, s'.journal, p, merged)
    decreases |entries| - k
  {
    hide EnvOne, Inv, CleanEntry;
    if k < |entries| {
      EnvKeeps(h, f0, entries[k], s, p, merged);
      var one := EnvOne(entries[k], s);
      forall i | 0 <= i < |entries| ensures CleanEntry(entries[i], one.s, Read(f0, ENV)) {
        CleanStays(entries[k], entries[i], s, Read(f0, ENV));
      }
      if one.threw == None { EnvsKeep(h, f0, entries, k + 1, one.s, p, merged); }
    }
  }

  // ---- json-merge -------------------------------------------------------------

  lemma FindAt(arr: seq<Json>, key: string, value: Option<Json>, i: nat)
    requires i < |arr| && Hit(arr[i], key, value)
    requires forall j :: 0 <= j < i ==> !Hit(arr[j], key, value)
    ensures FindIndex(arr, key, value) == i
  {
  }

  /** Undoing a push, or a replacement of the element found, gives the array back. */
  lemma {:induction false} UnmergeRestores(arr: seq<Json>, obj: Json, key: string)
    requires Mergeable(obj, key)
    ensures var value := Field(obj, key);
            var i := FindIndex(arr, key, value);
            if i == |arr| then Unmerge(arr + [obj], key, value, None) == arr
            else Unmerge(arr[i := obj], key, value, Some(arr[i])) == arr
  {
    var value := Field(obj, key);
    var i := FindIndex(arr, key, value);
    FindAt(if i == |arr| then arr + [obj] else arr[i := obj], key, value, i);
  }

  /** The exact condition on a merged object: its own key must find it. */
  lemma {:induction false} UnmergeRestoresIff(arr: seq<Json>, obj: Json, key: string)
    requires FindIndex(arr, key, Field(obj, key)) == |arr|
    ensures Unmerge(arr + [obj], key, Field(obj, key), None) == arr <==> Mergeable(obj, key)
  {
    if Mergeable(obj, key) { UnmergeRestores(arr, obj, key); }
    else {
      var pushed := arr + [obj];
      assert forall j :: 0 <= j < |pushed| ==> !Hit(pushed[j], key, Field(obj, key));
      assert |pushed| != |arr|;
    }
  }

  /** What a merge records as the element it replaced. */
  function PreviousOf(arr: seq<Json>, key: string, obj: Json): Option<Json> {
    var i := FindIndex(arr, key, Field(obj, key));
    if i == |arr| then None else Some(arr[i])
  }

  lemma MergeSteps(h: Host, into: Path, key: string, obj: Json, s: State)
    requires Lawful(h) && Mergeable(obj, key)
    ensures var s' := PerformMerge(h, into, key, obj, s).s;
            var now, next := ParseFile(h, Read(s.files, into)), ParseFile(h, Read(s'.files, into));
            if s'.journal == s.journal then s'.files == s.files
            else
              && s'.files == s.files[into := Read(s'.files, into)]
              && now.Value? && now.json.Arr? && next.Value? && next.json.Arr?
              && var r := Merged(into, key, Field(obj, key), PreviousOf(now.json.items, key, obj));
              && s'.journal == s.journal + [r]
              && Unmerge(next.json.items, key, Field(obj, key), r.previous) == now.json.items
  {
    hide Unmerge, Mergeable, Field;
    var now := ParseFile(h, Read(s.files, into));
    if now.Value? && now.json.Arr? { UnmergeRestores(now.json.items, obj, key); }
  }

  lemma InvMerge(h: Host, f0: map<Path, Lines>, files: map<Path, Lines>, files': map<Path, Lines>, j: seq<Record>,
                 r: Record, p: Path, merged: set<Path>)
    requires r.Merged? && r.path == p && p in merged && Inv(h, f0, files, j, p, merged)
    requires var now, next := ParseFile(h, Read(files, p)), ParseFile(h, Read(files', p));
             && now.Value? && now.json.Arr? && next.Value? && next.json.Arr?
             && Unmerge(next.json.items, r.key, r.value, r.previous) == now.json.items
    ensures Inv(h, f0, files', j + [r], p, merged)
  {
    assert (j + [r])[..|j|] == j;
  }

  lemma MergeKeeps(h: Host, f0: map<Path, Lines>, into: Path, key: string, obj: Json, s: State, p: Path,
                   merged: set<Path>)
    requires Lawful(h) && into in merged && Mergeable(obj, key)
    requires Inv(h, f0, s.files, s.journal, p, merged)
    ensures var s' := PerformMerge(h, into, key, obj, s).s; Inv(h, f0, s'.files, s'.journal, p, merged)
  {
    var s' := PerformMerge(h, into, key, obj, s).s;
    MergeSteps(h, into, key, obj, s);
    if s'.journal != s.journal {
      var r := s'.journal[|s.journal|];
      if into == p {
        InvMerge(h, f0, s.files, s'.files, s.journal, r, p, merged);
      } else {
        InvOther(h, f0, s.files, s'.files, s.journal, r, p, merged);
      }
    }
  }

  // ---- copy -------------------------------------------------------------------

  lemma {:induction false} CopyChanges(h: Host, n: nat, moves: seq<Move>, k: nat, s: State, p: Path)
    requires k <= |moves|
    ensures var c := CopyFrom(h, n, moves, k, s);
            && (c.threw == None ==> c.s.journal == s.journal + Wrotes(moves))
            && (c.threw.Some? ==> c.s.journal == s.journal)
            && ((forall i :: k <= i < |moves| ==> moves[i].dst != p) ==> Read(c.s.files, p) == Read(s.files, p))
            && (c.threw.Some? && p !in c.s.orphans && p !in DestSet(moves[..k]) ==> Read(c.s.files, p) == Read(s.files, p))
            && (c.threw.Some? ==> DestSet(moves[..k]) <= c.s.orphans)
    decreases |moves| - k
  {
    if k < |moves| {
      DestSetGrows(moves, k);
      if h.put(n, k).Done? {
        CopyChanges(h, n, moves, k + 1, s.(files := s.files[moves[k].dst := h.put(n, k).content]), p);
      }
    }
  }

  lemma DestSetGrows(moves: seq<Move>, k: nat)
    requires k < |moves|
    ensures DestSet(moves[..k + 1]) == DestSet(moves[..k]) + {moves[k].dst}
  {
    if k > 0 {
      assert moves[..k + 1][1..] == moves[1..][..k];
      assert moves[..k][1..] == moves[1..][..k - 1];
      DestSetGrows(moves[1..], k - 1);
    }
  }

  lemma {:induction false} WrotesKeep(h: Host, f0: map<Path, Lines>, files: map<Path, Lines>, j: seq<Record>,
                                      moves: seq<Move>, p: Path, merged: set<Path>)
    requires p !in f0 && Wrote(p) in Wrotes(moves)
    ensures Inv(h, f0, files, j + Wrotes(moves), p, merged)
  {
    var w := Wrotes(moves);
    assert HasWrote(j + w, p);
    WrotesAre(moves, p);
    BackToWrote(j, w, p, ParseFile(h, Read(files, p)));
  }

  lemma {:induction false} BackToWrote(j: seq<Record>, w: seq<Record>, p: Path, v: Parsed)
    requires forall i :: 0 <= i < |w| ==> w[i].Wrote?
    requires Wrote(p) in w
    ensures JsonBack(j + w, p, v) == Some(Value(Arr([])))
  {
    var last := |w| - 1;
    assert (j + w)[..|j + w| - 1] == j + w[..last];
    assert w == w[..last] + [w[last]];
    if w[last] == Wrote(p) {
      EmptyStays(j + w[..last], p);
    } else {
      BackToWrote(j, w[..last], p, v);
    }
  }

  lemma {:induction false} WrotesAre(moves: seq<Move>, p: Path)
    ensures forall i :: 0 <= i < |Wrotes(moves)| ==> Wrotes(moves)[i].Wrote?
    ensures Wrote(p) in Wrotes(moves) <==> exists i :: 0 <= i < |moves| && moves[i].dst == p
  {
    if moves != [] {
      WrotesAre(moves[1..], p);
      if i :| 0 <= i < |moves[1..]| && moves[1..][i].dst == p { assert moves[i + 1].dst == p; }
    }
  }

  lemma {:induction false} InvOthers(h: Host, f0: map<Path, Lines>, files: map<Path, Lines>, files': map<Path, Lines>,
                                     j: seq<Record>, w: seq<Record>, p: Path, merged: set<Path>)
    requires Inv(h, f0, files, j, p, merged) && Read(files', p) == Read(files, p)
    requires forall i :: 0 <= i < |w| ==> !About(w[i], p)
    ensures Inv(h, f0, files', j + w, p, merged)
  {
    if w == [] {
      assert j + w == j;
    } else {
      var last := |w| - 1;
      InvOthers(h, f0, files, files', j, w[..last], p, merged);
      InvOther(h, f0, files', files', j + w[..last], w[last], p, merged);
      assert j + w == j + w[..last] + [w[last]];
    }
  }

  lemma CopyKeeps(h: Host, f0: map<Path, Lines>, n: nat, moves: seq<Move>, s: State, p: Path, merged: set<Path>)
    requires forall i :: 0 <= i < |moves| ==> moves[i].dst !in f0
    requires Inv(h, f0, s.files, s.journal, p, merged)
    requires p !in CopyFrom(h, n, moves, 0, s).s.orphans
    ensures var s' := CopyFrom(h, n, moves, 0, s).s; Inv(h, f0, s'.files, s'.journal, p, merged)
  {
    var c := CopyFrom(h, n, moves, 0, s);
    CopyChanges(h, n, moves, 0, s, p);
    WrotesAre(moves, p);
    assert moves[..0] == [];
    if c.threw.Some? {
      InvOthers(h, f0, s.files, c.s.files, s.journal, [], p, merged);
      assert s.journal + [] == s.journal;
    } else if Wrote(p) in Wrotes(moves) {
      WrotesKeep(h, f0, c.s.files, s.journal, moves, p, merged);
    } else {
      InvOthers(h, f0, s.files, c.s.files, s.journal, Wrotes(moves), p, merged);
    }
  }

  // ---- A whole run ------------------------------------------------------------

  /** The records a directive may add. */
  predicate Made(d: Directive, r: Record) {
    match d.action
    case Copy(_, _) => r.Wrote?
    case Append(to, _, _) => r.Appended? && r.path == to
    case EnvSet(_) => r.SetEnv?
    case JsonMerge(into, _, _) => r.Merged? && r.path == into
    case _ => r.Ran?
  }

  /** s' only added records that d makes. */
  predicate Extends(d: Directive, s: State, s': State) {
    && s.journal <= s'.journal
    && forall i :: |s.journal| <= i < |s'.journal| ==> Made(d, s'.journal[i])
  }

  lemma {:induction false} AppendExtends(d: Directive, k: nat, s: State)
    requires d.action.Append? && k <= |d.action.lines|
    ensures Extends(d, s, AppendFrom(d.action.to, d.action.at, d.action.lines, k, s).s)
    decreases |d.action.lines| - k
  {
    if k < |d.action.lines| {
      var one := AppendOne(d.action.to, d.action.at, d.action.lines[k], s);
      if one.threw == None { AppendExtends(d, k + 1, one.s); }
    }
  }

  lemma {:induction false} EnvExtends(d: Directive, k: nat, s: State)
    requires d.action.EnvSet? && k <= |d.action.entries|
    ensures Extends(d, s, EnvFrom(d.action.entries, k, s).s)
    decreases |d.action.entries| - k
  {
    if k < |d.action.entries| {
      var one := EnvOne(d.action.entries[k], s);
      if one.threw == None { EnvExtends(d, k + 1, one.s); }
    }
  }

  lemma RunOneExtends(h: Host, d: Directive, n: nat, k: nat, s: State)
    requires d.action.Run? && k < |d.action.cmds|
    ensures var s' := RunOne(h, n, d.action, k, s).s;
            Extends(d, s, s') && s'.files == s.files && s'.orphans == s.orphans
  {
    hide BindCapture, Render, Raw, Trim;
  }

  lemma {:induction false} RunExtends(h: Host, d: Directive, n: nat, k: nat, s: State)
    requires d.action.Run? && k <= |d.action.cmds|
    ensures var s' := RunFrom(h, n, d.action, k, s).s;
            Extends(d, s, s') && s'.files == s.files && s'.orphans == s.orphans
    decreases |d.action.cmds| - k
  {
    hide RunOne;
    if k < |d.action.cmds| {
      var one := RunOne(h, n, d.action, k, s);
      RunOneExtends(h, d, n, k, s);
      if one.threw == None { RunExtends(h, d, n, k + 1, one.s); }
    }
  }

  lemma {:induction false} CheckChangesNothing(h: Host, n: nat, cmds: seq<Template>, k: nat, s: State)
    requires k <= |cmds|
    ensures var s' := CheckFrom(h, n, cmds, k, s).s; s' == s.(trace := s'.trace)
    decreases |cmds| - k
  {
    if k < |cmds| && Render(cmds[k], s.vars).Rendering? {
      var s1 := s.(trace := s.trace + [Exec(n, Render(cmds[k], s.vars).text)]);
      if !h.exec(n, k).Threw? { CheckChangesNothing(h, n, cmds, k + 1, s1); }
    }
  }

  lemma CommandsExtend(h: Host, d: Directive, n: nat, s: State)
    requires d.action.Run? || d.action.Dep?
    ensures var s' := Perform(h, d, n, s).s;
            Extends(d, s, s') && s'.files == s.files && s'.orphans == s.orphans
  {
    hide Render, JoinTemplates, Raw, BindFields, RunFrom, CheckFrom;
    if d.action.Run? {
      if d.action.effect == Some("check") {
        CheckChangesNothing(h, n, d.action.cmds, 0, s);
      } else if d.action.effect != Some("step") {
        RunExtends(h, d, n, 0, s);
      }
    }
  }

  lemma PerformExtends(h: Host, d: Directive, n: nat, s: State)
    ensures Extends(d, s, Perform(h, d, n, s).s)
  {
    match d.action {
      case Copy(_, moves) =>
        CopyChanges(h, n, moves, 0, s, "");
        WrotesAre(moves, "");
      case Append(_, _, _) => AppendExtends(d, 0, s);
      case Dep(_, _, _) => CommandsExtend(h, d, n, s);
      case Run(_, _, _, _, _) => CommandsExtend(h, d, n, s);
      case EnvSet(_) => EnvExtends(d, 0, s);
      case _ =>
    }
  }

  lemma PerformKeeps(h: Host, f0: map<Path, Lines>, d: Directive, n: nat, s: State, p: Path, merged: set<Path>)
    requires Lawful(h) && Good(d, s, f0, merged)
    requires d.action.JsonMerge? && d.action.body.Some? ==> !d.action.body.value.Null?
    requires Inv(h, f0, s.files, s.journal, p, merged)
    requires p !in Perform(h, d, n, s).s.orphans
    ensures var s' := Perform(h, d, n, s).s; Inv(h, f0, s'.files, s'.journal, p, merged)
  {
    match d.action {
      case Copy(branch, moves) =>
        if !(branch && h.exec(n, 0).Threw?) { CopyKeeps(h, f0, n, moves, s, p, merged); }
      case Append(to, at, lines) => AppendsKeep(h, f0, to, at, lines, 0, s, p, merged);
      case EnvSet(entries) => EnvsKeep(h, f0, entries, 0, s, p, merged);
      case JsonMerge(into, key, body) =>
        if body.Some? { MergeKeeps(h, f0, into, key, body.value, s, p, merged); }
      case _ => CommandsKeep(h, f0, d, n, s, p, merged);
    }
  }

  lemma CommandsKeep(h: Host, f0: map<Path, Lines>, d: Directive, n: nat, s: State, p: Path, merged: set<Path>)
    requires !(d.action.Copy? || d.action.Append? || d.action.EnvSet? || d.action.JsonMerge?)
    requires Inv(h, f0, s.files, s.journal, p, merged)
    ensures var s' := Perform(h, d, n, s).s; Inv(h, f0, s'.files, s'.journal, p, merged)
  {
    var s' := Perform(h, d, n, s).s;
    if d.action.Run? || d.action.Dep? {
      CommandsExtend(h, d, n, s);
      var w := s'.journal[|s.journal|..];
      InvOthers(h, f0, s.files, s.files, s.journal, w, p, merged);
      assert s.journal + w == s'.journal;
    }
  }

  predicate SameDisk(s: State, s': State) {
    s'.files == s.files && s'.journal == s.journal && s'.orphans == s.orphans
  }

  /** Where a bracketed handler starts. */
  function Opened(s: State, n: nat): State {
    s.(trace := s.trace + [Start(n)])
  }

  lemma FailShape(s: State, n: nat, message: string)
    ensures SameDisk(s, Fail(s, n, message))
  {
  }

  lemma BracketShape(h: Host, d: Directive, n: nat, detail: seq<string>, s: State)
    ensures var s', done := Bracket(h, d, n, detail, s), Perform(h, d, n, Opened(s, n));
            SameDisk(s, s') || SameDisk(done.s, s')
  {
    var done := Perform(h, d, n, Opened(s, n));
    var s2 := done.s.(trace := done.s.trace + [End(n, done.threw == None)]);
    if h.onStart(n).Some? { FailShape(Opened(s, n), n, h.onStart(n).value); }
    else if done.threw.Some? { FailShape(s2, n, done.threw.value); }
    else if h.onEnd(n).Some? { FailShape(s2, n, h.onEnd(n).value); }
  }

  lemma PromptShape(h: Host, d: Directive, n: nat, s: State)
    requires d.action.Prompt?
    ensures SameDisk(s, VisitPrompt(h, d, n, s))
  {
    hide Fail, Normalize;
    var a := d.action;
    if a.name !in h.inputs && h.ask(n).AskThrew? { FailShape(s, n, h.ask(n).message); }
    if a.valid.Some? {
      var broken := h.compile(a.valid.value.pattern, a.valid.value.flags);
      if broken.Some? { FailShape(s, n, broken.value); }
    }
  }

  lemma OperatorShape(h: Host, d: Directive, n: nat, s: State)
    requires d.action.Operator?
    ensures SameDisk(s, VisitOperator(h, d, n, s))
  {
    hide Deferrable, Render;
  }

  lemma StepShape(h: Host, d: Directive, n: nat, s: State)
    ensures var s', done := VisitStep(h, d, n, s), Perform(h, d, n, Opened(s, n));
            SameDisk(s, s') || (SameDisk(done.s, s') && StatusOf(h, d, n, s.files).Apply?)
  {
    hide Bracket, Perform, StatusOf;
    var status := StatusOf(h, d, n, s.files);
    if status.Apply? { BracketShape(h, d, n, status.detail, s); }
  }

  /** Outside Perform a turn touches neither files nor journal. */
  lemma VisitShape(h: Host, d: Directive, n: nat, s: State)
    ensures var s', done := Visit(h, d, n, s), Perform(h, d, n, Opened(s, n));
            SameDisk(s, s') || (SameDisk(done.s, s') && Applies(h, d, n, s))
  {
    hide Perform, StatusOf, VisitPrompt, VisitOperator, VisitStep, WhenMet;
    if d.action.Prompt? { PromptShape(h, d, n, s); }
    else if d.action.Operator? { OperatorShape(h, d, n, s); }
    else { StepShape(h, d, n, s); }
  }

  lemma CopyOrphansGrow(h: Host, n: nat, moves: seq<Move>, k: nat, s: State)
    requires k <= |moves|
    ensures s.orphans <= CopyFrom(h, n, moves, k, s).s.orphans
    decreases |moves| - k
  {
  }

  lemma {:induction false} AppendOrphans(to: Path, at: Option<string>, lines: seq<string>, k: nat, s: State)
    requires k <= |lines|
    ensures AppendFrom(to, at, lines, k, s).s.orphans == s.orphans
    decreases |lines| - k
  {
    if k < |lines| {
      var one := AppendOne(to, at, lines[k], s);
      if one.threw == None { AppendOrphans(to, at, lines, k + 1, one.s); }
    }
  }

  lemma {:induction false} EnvOrphans(entries: seq<Entry>, k: nat, s: State)
    requires k <= |entries|
    ensures EnvFrom(entries, k, s).s.orphans == s.orphans
    decreases |entries| - k
  {
    if k < |entries| {
      var one := EnvOne(entries[k], s);
      if one.threw == None { EnvOrphans(entries, k + 1, one.s); }
    }
  }

  lemma OrphansGrow(h: Host, d: Directive, n: nat, s: State)
    ensures s.orphans <= Perform(h, d, n, s).s.orphans
  {
    match d.action {
      case Copy(_, moves) => CopyOrphansGrow(h, n, moves, 0, s);
      case Append(to, at, lines) => AppendOrphans(to, at, lines, 0, s);
      case Dep(_, _, _) => CommandsExtend(h, d, n, s);
      case Run(_, _, _, _, _) => CommandsExtend(h, d, n, s);
      case EnvSet(entries) => EnvOrphans(entries, 0, s);
      case _ =>
    }
  }

  /** Each of the first n directives that applies at its turn is good there. */
  ghost predicate CleanRun(h: Host, ds: seq<Directive>, n: nat, s0: State, merged: set<Path>)
    requires n <= |ds|
  {
    n == 0 || (CleanTurn(h, ds[n - 1], n - 1, After(h, ds, n - 1, s0), s0.files, merged)
               && CleanRun(h, ds, n - 1, s0, merged))
  }

  ghost predicate CleanTurn(h: Host, d: Directive, n: nat, s: State, f0: map<Path, Lines>, merged: set<Path>) {
    Applies(h, d, n, s) ==> Good(d, s, f0, merged)
  }

  ghost predicate RunInv(h: Host, f0: map<Path, Lines>, s: State, merged: set<Path>) {
    && (forall i :: 0 <= i < |s.journal| ==> KindOk(s.journal[i], merged))
    && forall p {:trigger Inv(h, f0, s.files, s.journal, p, merged)} ::
         p !in s.orphans ==> Inv(h, f0, s.files, s.journal, p, merged)
  }

  lemma VisitKeeps(h: Host, f0: map<Path, Lines>, d: Directive, n: nat, s: State, merged: set<Path>)
    requires Lawful(h) && CleanTurn(h, d, n, s, f0, merged) && RunInv(h, f0, s, merged)
    ensures RunInv(h, f0, Visit(h, d, n, s), merged)
  {
    var s' := Visit(h, d, n, s);
    VisitShape(h, d, n, s);
    if !SameDisk(s, s') {
      var s1 := Opened(s, n);
      PerformExtends(h, d, n, s1);
      OrphansGrow(h, d, n, s1);
      forall i | 0 <= i < |s'.journal| ensures KindOk(s'.journal[i], merged) {
        if i >= |s.journal| { assert Made(d, s'.journal[i]); }
      }
      forall p | p !in s'.orphans ensures Inv(h, f0, s'.files, s'.journal, p, merged) {
        PerformKeeps(h, f0, d, n, s1, p, merged);
      }
    } else {
      forall p | p !in s'.orphans ensures Inv(h, f0, s'.files, s'.journal, p, merged) {
        assert Inv(h, f0, s.files, s.journal, p, merged);
      }
    }
  }

  lemma BeginInv(h: Host, f0: map<Path, Lines>, merged: set<Path>)
    ensures RunInv(h, f0, Begin(f0), merged)
  {
    forall p ensures Inv(h, f0, f0, [], p, merged) {
      var before := Read(f0, p);
      assert before[|before| - 1] in before;
    }
  }

  lemma {:induction false} RunKeeps(h: Host, ds: seq<Directive>, n: nat, f0: map<Path, Lines>, merged: set<Path>)
    requires n <= |ds| && Lawful(h) && CleanRun(h, ds, n, Begin(f0), merged)
    ensures RunInv(h, f0, After(h, ds, n, Begin(f0)), merged)
  {
    hide Visit, Inv;
    if n == 0 {
      BeginInv(h, f0, merged);
    } else {
      RunKeeps(h, ds, n - 1, f0, merged);
      VisitKeeps(h, f0, ds[n - 1], n - 1, After(h, ds, n - 1, Begin(f0)), merged);
    }
  }

  /** The round trip: whatever was applied, deferred or bounced, undo never throws and gives
      back every path that no failed copy wrote. */
  lemma UndoRestores(h: Host, ds: seq<Directive>, f0: map<Path, Lines>, merged: set<Path>)
    requires Lawful(h) && CleanRun(h, ds, |ds|, Begin(f0), merged)
    requires After(h, ds, |ds|, Begin(f0)).orphans !! merged
    ensures var s := After(h, ds, |ds|, Begin(f0));
            var undone := Undo(h, s.journal, s.files);
            undone.Some? && forall p :: p !in s.orphans ==> Restored(h, f0, undone.value, p, merged)
  {
    var s := After(h, ds, |ds|, Begin(f0));
    RunKeeps(h, ds, |ds|, f0, merged);
    forall p | p in merged ensures JsonBack(s.journal, p, ParseFile(h, Read(s.files, p))).Some? {
      assert Inv(h, f0, s.files, s.journal, p, merged);
    }
    UndoSucceeds(h, s.journal, s.files, merged);
    var undone := Undo(h, s.journal, s.files);
    forall p | p !in s.orphans ensures Restored(h, f0, undone.value, p, merged) {
      InvRestores(h, f0, s.files, s.journal, p, merged);
    }
  }

  /** The two loops, one after the other, on one object. */
  method InstallAndRemove(h: Host, ds: seq<Directive>, f0: map<Path, Lines>, ghost merged: set<Path>)
    returns (files: map<Path, Lines>, threw: bool)
    requires Lawful(h) && CleanRun(h, ds, |ds|, Begin(f0), merged)
    requires After(h, ds, |ds|, Begin(f0)).orphans !! merged
    ensures !threw
    ensures forall p :: p !in After(h, ds, |ds|, Begin(f0)).orphans ==> Restored(h, f0, files, p, merged)
  {
    var engine := new Engine(f0);
    engine.ApplySkill(h, ds);
    threw := engine.RemoveSkill(h, engine.journal);
    files := engine.files;
    UndoRestores(h, ds, f0, merged);
  }

  /** Why CleanAssignment: undoing one set-env restores the text exactly then. */
  lemma EnvUndoIff(before: seq<string>, key: string, value: string)
    requires FreshKey(key, before)
    ensures Keep(SetEnv(key), before + Split(key + "=" + value)) == before <==> CleanAssignment(key, value)
  {
    var r, added := SetEnv(key), Split(key + "=" + value);
    KeepConcat(r, before, added);
    KeepsAll(r, before);
    KeepsNone(r, added);
  }

  /** A value of one line always does. */
  lemma OneLineIsClean(key: string, value: string)
    requires '\n' !in key && '\n' !in value
    ensures CleanAssignment(key, value)
  {
    SplitSingle(key + "=" + value);
  }

  lemma KeepsNone(r: Record, a: seq<string>)
    ensures Keep(r, a) == [] <==> forall i :: 0 <= i < |a| ==> Drops(r, a[i])
  {
    if a != [] {
      KeepsNone(r, a[1..]);
      assert forall i :: 0 < i < |a| ==> a[i] == a[1..][i - 1];
    }
  }
}
