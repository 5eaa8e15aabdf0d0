/** scripts/skill-directives.ts: finding the nc: fences of a SKILL.md. */
module SkillParse {
  import opened Prelude
  import opened Text

  /** attrs holds the key:value tokens, the last one of a key winning. */
  datatype Directive = Directive(kind: string, args: seq<string>, attrs: map<string, string>, body: seq<string>, line: nat)

  /** ^```(\S.*)?$ */
  predicate IsFence(l: string) {
    |l| >= 3 && l[..3] == "```" && (|l| == 3 || (!IsSpace(l[3]) && SingleLine(l[3..])))
  }

  /** The info string of a fence; a bare fence has none and opens nothing. */
  function Info(l: string): Option<string> {
    if IsFence(l) && |l| > 3 then Some(Trim(l[3..])) else None
  }

  function Close(lines: seq<string>, j: nat): (k: nat)
    requires j <= |lines|
    ensures j <= k <= |lines|
    ensures k < |lines| ==> IsFence(lines[k])
    ensures forall m :: j <= m < k ==> !IsFence(lines[m])
    decreases |lines| - j
  {
    if j == |lines| || IsFence(lines[j]) then j else Close(lines, j + 1)
  }

  /** map(trim).filter(Boolean) */
  function Compact(lines: seq<string>): (r: seq<string>)
    ensures forall i :: 0 <= i < |r| ==> r[i] != ""
  {
    if lines == [] then []
    else (if Trim(lines[0]) == "" then [] else [Trim(lines[0])]) + Compact(lines[1..])
  }

  function WordLen(s: string): (k: nat)
    ensures k <= |s| && forall i :: 0 <= i < k ==> !IsSpace(s[i])
    ensures k < |s| ==> IsSpace(s[k])
  {
    if s == "" || IsSpace(s[0]) then 0
    else
      var k := WordLen(s[1..]);
      assert forall i :: 0 < i < 1 + k ==> s[i] == s[1..][i - 1];
      1 + k
  }

  /** split(/\s+/) of a trimmed text */
  function Words(s: string): seq<string>
    decreases |s|
  {
    var k := WordLen(s);
    if k == |s| then [s]
    else
      var rest := TrimLeft(s[k..]);
      [s[..k]] + (if |rest| < |s| then Words(rest) else [])
  }

  /** indexOf(':'), |s| when there is none */
  function Colon(s: string): (k: nat)
    ensures k <= |s|
  {
    if s == "" || s[0] == ':' then 0 else 1 + Colon(s[1..])
  }

  predicate IsAttr(tok: string) { 0 < Colon(tok) < |tok| }

  function Args(toks: seq<string>): seq<string> {
    if toks == [] then [] else (if IsAttr(toks[0]) then [] else [toks[0]]) + Args(toks[1..])
  }

  function Attrs(toks: seq<string>): map<string, string> {
    if toks == [] then map[]
    else
      var tok, before := toks[|toks| - 1], Attrs(toks[..|toks| - 1]);
      if IsAttr(tok) then before[tok[..Colon(tok)] := tok[Colon(tok) + 1..]] else before
  }

  predicate IsNc(info: string) { |info| >= 3 && info[..3] == "nc:" }

  /** The directive that opens at line i and closes at k. */
  function Make(lines: seq<string>, i: nat, k: nat): Directive
    requires i < k <= |lines| && Info(lines[i]).Some? && IsNc(Info(lines[i]).value)
  {
    var toks := Words(Info(lines[i]).value);
    var tag := toks[0];
    Directive(if |tag| >= 3 then tag[3..] else "", Args(toks[1..]), Attrs(toks[1..]), Compact(lines[i + 1..k]), i + 1)
  }

  /** The blocks from line i on. */
  function Parse(lines: seq<string>, i: nat): seq<Directive>
    decreases |lines| - i
  {
    if i >= |lines| then []
    else if Info(lines[i]) == None then Parse(lines, i + 1)
    else
      var k := Close(lines, i + 1);
      (if IsNc(Info(lines[i]).value) then [Make(lines, i, k)] else []) + Parse(lines, k + 1)
  }

  /** The other cases of Parse. */
  lemma ParseSkip(lines: seq<string>, i: nat)
    ensures i >= |lines| ==> Parse(lines, i) == []
    ensures i < |lines| && Info(lines[i]) == None ==> Parse(lines, i) == Parse(lines, i + 1)
  {
    hide Info, IsNc, Make, Close;
  }

  /** One block of Parse. */
  lemma ParseBlock(lines: seq<string>, i: nat)
    requires i < |lines| && Info(lines[i]).Some?
    ensures var k, rest := Close(lines, i + 1), Parse(lines, Close(lines, i + 1) + 1);
            && (IsNc(Info(lines[i]).value) ==> Parse(lines, i) == [Make(lines, i, k)] + rest && Make(lines, i, k).line == i + 1)
            && (!IsNc(Info(lines[i]).value) ==> Parse(lines, i) == rest)
            && (k == |lines| ==> rest == [])
  {
    hide Info, IsNc, Words, Args, Attrs, Compact;
  }

  lemma AttrsSnoc(toks: seq<string>, t: nat)
    requires t < |toks|
    ensures Attrs(toks[..t + 1]) ==
            var tok := toks[t];
            if 0 < Colon(tok) < |tok| then Attrs(toks[..t])[tok[..Colon(tok)] := tok[Colon(tok) + 1..]] else Attrs(toks[..t])
  {
    assert toks[..t + 1][..t] == toks[..t];
    hide Colon;
  }

  lemma ArgsStep(toks: seq<string>, t: nat, args: seq<string>)
    requires t < |toks|
    ensures args + Args(toks[t..]) ==
            (if 0 < Colon(toks[t]) < |toks[t]| then args else args + [toks[t]]) + Args(toks[t + 1..])
  {
    assert toks[t..][1..] == toks[t + 1..];
    hide Colon;
  }

  method ParseTokens(toks: seq<string>) returns (args: seq<string>, attrs: map<string, string>)
    ensures args == Args(toks) && attrs == Attrs(toks)
  {
    args, attrs := [], map[];
    var t := 0;
    assert toks[..|toks|] == toks && toks[0..] == toks && Attrs(toks[..0]) == map[] && toks[|toks|..] == [];
    assert Args([]) == [] && [] + Args(toks) == Args(toks);
    hide Args, Attrs, Colon;
    while t < |toks|
      invariant t <= |toks|
      invariant args + Args(toks[t..]) == Args(toks)
      invariant attrs == Attrs(toks[..t])
    {
      var tok := toks[t];
      var eq := Colon(tok);
      AttrsSnoc(toks, t);
      ArgsStep(toks, t, args);
      if 0 < eq < |tok| {
        attrs := attrs[tok[..eq] := tok[eq + 1..]];
      } else {
        args := args + [tok];
      }
      t := t + 1;
    }
    assert args + [] == args;
  }

  /** The inner loop: the lines up to the next fence. */
  method ReadBody(lines: seq<string>, i: nat) returns (body: seq<string>, j: nat)
    requires i < |lines|
    ensures j == Close(lines, i + 1) && body == lines[i + 1..j]
  {
    hide IsFence;
    j, body := i + 1, [];
    while j < |lines| && !IsFence(lines[j])
      invariant i < j <= |lines| && body == lines[i + 1..j]
      invariant Close(lines, j) == Close(lines, i + 1)
    {
      body := body + [lines[j]];
      j := j + 1;
    }
  }

  method ParseDirectives(lines: seq<string>) returns (out: seq<Directive>)
    ensures out == Parse(lines, 0)
  {
    hide IsFence, IsNc;
    out := [];
    var i := 0;
    while i < |lines|
      invariant 0 <= i
      invariant out + Parse(lines, i) == Parse(lines, 0)
      decreases |lines| - i
    {
      hide Close, Info;
      var info := Info(lines[i]);
      if info == None {
        i := i + 1;
        continue;
      }
      ParseBlock(lines, i);
      var body, j := ReadBody(lines, i);
      if IsNc(info.value) {
        var toks := Words(info.value);
        var args, attrs := ParseTokens(toks[1..]);
        var kind := if |toks[0]| >= 3 then toks[0][3..] else "";
        var d := Directive(kind, args, attrs, Compact(body), i + 1);
        assert d == Make(lines, i, j);
        hide Make;
        Regroup(out, d, Parse(lines, j + 1));
        out := out + [d];
      }
      i := j + 1;
    }
    assert out + [] == out;
  }

  lemma Regroup(out: seq<Directive>, d: Directive, rest: seq<Directive>)
    ensures out + ([d] + rest) == (out + [d]) + rest
  {
  }

  // ---- Which fences open ------------------------------------------------------

  /** Line by line: outside a block before line n. A fence with an info string opens one, any
      fence closes it. */
  predicate Outside(lines: seq<string>, n: nat)
    requires n <= |lines|
  {
    n == 0 || (if Outside(lines, n - 1) then Info(lines[n - 1]) == None else IsFence(lines[n - 1]))
  }

  /** Line n opens a directive. */
  predicate Opens(lines: seq<string>, n: nat) {
    n < |lines| && Outside(lines, n) && Info(lines[n]).Some? && IsNc(Info(lines[n]).value)
  }

  lemma {:induction false} InsideUntilClose(lines: seq<string>, i: nat, m: nat)
    requires i < |lines| && Outside(lines, i) && Info(lines[i]).Some?
    requires i < m <= Close(lines, i + 1)
    ensures !Outside(lines, m)
  {
    if m > i + 1 { InsideUntilClose(lines, i, m - 1); }
  }

  /** d is the directive of an opening line from i on. */
  ghost predicate OpenedFrom(lines: seq<string>, i: nat, d: Directive) {
    exists n: nat :: n >= i && Opens(lines, n) && d == Make(lines, n, Close(lines, n + 1))
  }

  /** Lines i+1 to k are inside, so the next opening line is i itself or beyond k. */
  lemma OpenedSkips(lines: seq<string>, i: nat, k: nat, d: Directive)
    requires i <= k <= |lines| && forall m :: i < m <= k ==> !Outside(lines, m)
    ensures OpenedFrom(lines, i, d) <==>
            (Opens(lines, i) && d == Make(lines, i, Close(lines, i + 1))) || OpenedFrom(lines, k + 1, d)
  {
    hide Make, Info, IsNc, IsFence, Close;
    if OpenedFrom(lines, i, d) {
      var n: nat :| n >= i && Opens(lines, n) && d == Make(lines, n, Close(lines, n + 1));
      assert n == i || n >= k + 1;
    }
  }

  /** The jumping loops find exactly the directives that the line-by-line reading opens. */
  lemma {:induction false} ParseFinds(lines: seq<string>, i: nat, d: Directive)
    requires i <= |lines| && Outside(lines, i)
    ensures d in Parse(lines, i) <==> OpenedFrom(lines, i, d)
    decreases |lines| - i
  {
    hide IsFence, IsNc, Make, Info, Parse, Close;
    ParseSkip(lines, i);
    if i < |lines| {
      if Info(lines[i]) == None {
        ParseFinds(lines, i + 1, d);
        OpenedSkips(lines, i, i, d);
      } else {
        ParseBlock(lines, i);
        var k := Close(lines, i + 1);
        forall m | i < m <= k ensures !Outside(lines, m) { InsideUntilClose(lines, i, m); }
        OpenedSkips(lines, i, k, d);
        if k < |lines| {
          OutsideAfter(lines, k);
          ParseFinds(lines, k + 1, d);
        }
      }
    }
  }

  lemma OutsideAfter(lines: seq<string>, k: nat)
    requires k < |lines| && IsFence(lines[k]) && !Outside(lines, k)
    ensures Outside(lines, k + 1)
  {
    hide IsFence, Info;
  }

  lemma DirectivesAreTheOpenFences(lines: seq<string>, d: Directive)
    ensures d in Parse(lines, 0) <==>
            exists n: nat :: Opens(lines, n) && d == Make(lines, n, Close(lines, n + 1))
  {
    hide Make, Info, Parse;
    ParseFinds(lines, 0, d);
  }

  predicate Increasing(ds: seq<Directive>, from: nat) {
    && (forall a :: 0 <= a < |ds| ==> ds[a].line > from)
    && forall a, b :: 0 <= a < b < |ds| ==> ds[a].line < ds[b].line
  }

  lemma IncreasingCons(d: Directive, rest: seq<Directive>, from: nat, k: nat)
    requires from < d.line <= k && Increasing(rest, k)
    ensures Increasing([d] + rest, from) && Increasing(rest, from)
  {
  }

  /** Directives come in document order, one per line. */
  lemma {:induction false} LinesIncrease(lines: seq<string>, i: nat)
    ensures Increasing(Parse(lines, i), i)
    decreases |lines| - i
  {
    hide Info, IsFence, IsNc, Make, Close, Parse;
    ParseSkip(lines, i);
    if i < |lines| {
      if Info(lines[i]) == None {
        LinesIncrease(lines, i + 1);
      } else {
        ParseBlock(lines, i);
        var k := Close(lines, i + 1) + 1;
        LinesIncrease(lines, k);
        var rest := Parse(lines, k);
        if IsNc(Info(lines[i]).value) { IncreasingCons(Make(lines, i, k - 1), rest, i, k); }
      }
    }
  }

  lemma SameMake(lines: seq<string>, other: seq<string>, i: nat, k: nat)
    requires i < k <= |lines| == |other| && Info(lines[i]).Some? && IsNc(Info(lines[i]).value)
    requires other[i] == lines[i] && other[i + 1..k] == lines[i + 1..k]
    ensures Make(other, i, k) == Make(lines, i, k)
  {
    hide Words, Args, Attrs, Compact;
  }

  /** Lines of prose, outside every block, can be replaced freely: the directives stay. */
  lemma {:induction false} ProseIsIgnored(lines: seq<string>, other: seq<string>, i: nat)
    requires |other| == |lines| && i <= |lines| && Outside(lines, i)
    requires forall n :: i <= n < |lines| ==>
               other[n] == lines[n] || (Outside(lines, n) && Info(lines[n]) == None && Info(other[n]) == None)
    ensures Parse(other, i) == Parse(lines, i)
    decreases |lines| - i
  {
    hide IsFence, IsNc, Make, Info, Parse, Close;
    ParseSkip(lines, i);
    ParseSkip(other, i);
    if i < |lines| {
      if Info(lines[i]) == None {
        ProseIsIgnored(lines, other, i + 1);
      } else {
        var k := Close(lines, i + 1);
        forall m | i < m <= k ensures !Outside(lines, m) { InsideUntilClose(lines, i, m); }
        assert forall m :: i <= m <= k && m < |lines| ==> other[m] == lines[m];
        SameClose(lines, other, i + 1);
        assert other[i + 1..k] == lines[i + 1..k];
        ParseBlock(lines, i);
        ParseBlock(other, i);
        if IsNc(Info(lines[i]).value) { SameMake(lines, other, i, k); }
        if k < |lines| {
          OutsideAfter(lines, k);
          hide Outside;
          ProseIsIgnored(lines, other, k + 1);
        }
      }
    }
  }

  lemma {:induction false} SameClose(lines: seq<string>, other: seq<string>, j: nat)
    requires |other| == |lines| && j <= |lines|
    requires forall m :: j <= m <= Close(lines, j) && m < |lines| ==> other[m] == lines[m]
    ensures Close(other, j) == Close(lines, j)
    decreases |lines| - j
  {
    hide IsFence;
    if j < |lines| && !IsFence(lines[j]) { SameClose(lines, other, j + 1); }
  }

  /** Body lines reach the engine trimmed and never empty. */
  lemma {:induction false} BodyIsTrimmed(lines: seq<string>)
    ensures forall i :: 0 <= i < |Compact(lines)| ==> Trimmed(Compact(lines)[i])
  {
    if lines != [] {
      BodyIsTrimmed(lines[1..]);
      hide IsSpace;
      if Trim(lines[0]) != "" { TrimIsTrimmed(lines[0]); }
    }
  }

  lemma TrimIsTrimmed(s: string)
    requires Trim(s) != ""
    ensures Trimmed(Trim(s))
  {
    hide IsSpace;
    var t := TrimLeft(s);
    assert t[0] == s[Leading(s)] && Trim(s)[0] == t[0];
  }

  // ---- Which lines are fences -------------------------------------------------

  /** A fence is three backquotes, alone or before text that no white space begins and no line
      terminator breaks. Alone it opens nothing. */
  lemma FenceLines(l: string, rest: string)
    ensures IsFence(l) ==> |l| >= 3 && l[0] == '`' && l[1] == '`' && l[2] == '`'
    ensures IsFence("```" + rest) <==>
            rest == "" || (!IsSpace(rest[0]) && forall i :: 0 <= i < |rest| ==> !EndsLine(rest[i]))
    ensures Info("```") == None
    ensures rest != "" && IsFence("```" + rest) ==> Info("```" + rest) == Some(Trim(rest))
    ensures !IsFence(l) ==> Info(l) == None
  {
    assert IsFence(l) ==> l[..3][0] == '`' && l[..3][1] == '`' && l[..3][2] == '`';
    assert ("```" + rest)[3..] == rest && ("```" + rest)[..3] == "```";
    hide IsSpace, EndsLine;
  }

  /** Which info strings are directives. */
  lemma NcPrefix(info: string)
    ensures IsNc(info) <==> |info| >= 3 && info[0] == 'n' && info[1] == 'c' && info[2] == ':'
  {
    if |info| >= 3 { assert info[..3] == [info[0], info[1], info[2]]; }
  }

  // ---- What a fence line says -------------------------------------------------

  /** key:value sets that attribute and is no argument. */
  lemma AttrToken(toks: seq<string>, key: string, value: string)
    requires key != "" && ':' !in key
    ensures Attrs(toks + [key + ":" + value]) == Attrs(toks)[key := value]
    ensures Args(toks + [key + ":" + value]) == Args(toks)
  {
    var tok := key + ":" + value;
    ColonAfter(key, value);
    assert tok[..|key|] == key && tok[|key| + 1..] == value;
    assert (toks + [tok])[..|toks|] == toks;
    ArgsConcat(toks, [tok]);
    assert [tok][1..] == [];
    assert Args([tok]) == [] && Args(toks) + [] == Args(toks);
  }

  /** A token without a colon, or with nothing before it, is an argument and sets nothing. */
  lemma ArgToken(toks: seq<string>, tok: string)
    requires ':' !in tok || tok[0] == ':'
    ensures Attrs(toks + [tok]) == Attrs(toks)
    ensures Args(toks + [tok]) == Args(toks) + [tok]
  {
    NoColon(tok);
    assert (toks + [tok])[..|toks|] == toks;
    ArgsConcat(toks, [tok]);
    assert [tok][1..] == [];
  }

  lemma {:induction false} ColonAfter(key: string, value: string)
    requires ':' !in key
    ensures Colon(key + ":" + value) == |key|
  {
    var tok := key + ":" + value;
    if key != "" {
      assert tok[0] == key[0] && key[0] in key;
      assert tok[1..] == key[1..] + ":" + value && forall c | c in key[1..] :: c in key;
      ColonAfter(key[1..], value);
    }
  }

  lemma {:induction false} NoColon(tok: string)
    ensures ':' !in tok ==> Colon(tok) == |tok|
    ensures tok != "" && tok[0] == ':' ==> Colon(tok) == 0
  {
    if ':' !in tok && tok != "" {
      assert tok[0] in tok && forall c | c in tok[1..] :: c in tok;
      NoColon(tok[1..]);
    }
  }

  lemma {:induction false} ArgsConcat(a: seq<string>, b: seq<string>)
    ensures Args(a + b) == Args(a) + Args(b)
  {
    hide IsAttr;
    if a == [] {
      assert a + b == b;
    } else {
      assert (a + b)[1..] == a[1..] + b;
      ArgsConcat(a[1..], b);
    }
  }

  /** A word of a fence line, and what may stand between two. */
  predicate IsWord(w: string) {
    w != "" && forall i :: 0 <= i < |w| ==> !IsSpace(w[i])
  }

  predicate IsGap(g: string) {
    g != "" && Blank(g) && SingleLine(g)
  }

  /** Words, each after a gap. */
  function Spread(words: seq<string>, gaps: seq<string>): string
    requires |gaps| == |words|
  {
    if words == [] then "" else gaps[0] + (words[0] + Spread(words[1..], gaps[1..]))
  }

  predicate Spreadable(words: seq<string>, gaps: seq<string>) {
    && |gaps| == |words|
    && forall i :: 0 <= i < |words| ==> IsWord(words[i]) && IsGap(gaps[i])
  }

  lemma {:induction false} WordLenOf(w: string, rest: string)
    requires (forall i :: 0 <= i < |w| ==> !IsSpace(w[i])) && (rest == "" || IsSpace(rest[0]))
    ensures WordLen(w + rest) == |w|
  {
    hide IsSpace;
    if w == "" {
      assert w + rest == rest;
    } else {
      assert (w + rest)[1..] == w[1..] + rest;
      WordLenOf(w[1..], rest);
    }
  }

  lemma SpreadStarts(words: seq<string>, gaps: seq<string>)
    requires Spreadable(words, gaps)
    ensures words == [] ==> Spread(words, gaps) == ""
    ensures words != [] ==>
              && Spread(words, gaps) != "" && IsSpace(Spread(words, gaps)[0])
              && TrimLeft(Spread(words, gaps)) == words[0] + Spread(words[1..], gaps[1..])
  {
    hide IsSpace;
    if words != [] {
      var rest := words[0] + Spread(words[1..], gaps[1..]);
      assert IsWord(words[0]) && IsGap(gaps[0]) && rest[0] == words[0][0];
      var all := gaps[0] + rest;
      assert all[0] == gaps[0][0];
      LeadingIs(all, |gaps[0]|);
    }
  }

  /** Splitting at white space gives the words back. */
  lemma {:induction false} WordsReadBack(w: string, words: seq<string>, gaps: seq<string>)
    requires (forall i :: 0 <= i < |w| ==> !IsSpace(w[i])) && Spreadable(words, gaps)
    ensures Words(w + Spread(words, gaps)) == [w] + words
    decreases |words|
  {
    hide IsSpace, IsGap, TrimLeft, Leading;
    var rest := Spread(words, gaps);
    SpreadStarts(words, gaps);
    WordLenOf(w, rest);
    var s := w + rest;
    assert s[..|w|] == w && s[|w|..] == rest;
    if words == [] {
      assert s == w;
    } else {
      assert IsWord(words[0]);
      WordsReadBack(words[0], words[1..], gaps[1..]);
      assert words == [words[0]] + words[1..];
      TrimShortens(rest);
    }
  }

  lemma TrimShortens(s: string)
    ensures |TrimLeft(s)| <= |s|
  {
  }

  lemma {:induction false} TrimRightOf(s: string, end: string)
    requires s != "" && !IsSpace(s[|s| - 1]) && Blank(end)
    ensures TrimRight(s + end) == s
    decreases |end|
  {
    hide IsSpace;
    if end == "" {
      assert s + end == s;
    } else {
      assert IsSpace(end[|end| - 1]) && (s + end)[..|s + end| - 1] == s + end[..|end| - 1];
      TrimRightOf(s, end[..|end| - 1]);
    }
  }

  /** A spread text is one line and ends in a word. */
  lemma {:induction false} SpreadIsOneLine(head: string, words: seq<string>, gaps: seq<string>)
    requires Spreadable(words, gaps) && head != "" && SingleLine(head) && !IsSpace(head[|head| - 1])
    ensures var s := head + Spread(words, gaps); SingleLine(s) && !IsSpace(s[|s| - 1])
    decreases |words|
  {
    hide IsSpace, EndsLine;
    if words == [] {
      assert head + Spread(words, gaps) == head;
    } else {
      assert IsWord(words[0]) && IsGap(gaps[0]);
      WordIsOneLine(words[0]);
      var next := head + (gaps[0] + words[0]);
      assert next[|next| - 1] == words[0][|words[0]| - 1];
      SpreadIsOneLine(next, words[1..], gaps[1..]);
      assert head + Spread(words, gaps) == next + Spread(words[1..], gaps[1..]);
    }
  }

  lemma WordIsOneLine(w: string)
    requires forall i :: 0 <= i < |w| ==> !IsSpace(w[i])
    ensures SingleLine(w)
  {
  }

  /** The fence line written from a kind and words, with any gaps between them, is read back. */
  lemma FenceReadsBack(lines: seq<string>, i: nat, k: nat, kind: string, words: seq<string>, gaps: seq<string>, end: string)
    requires i < k <= |lines| && Spreadable(words, gaps) && (forall j :: 0 <= j < |kind| ==> !IsSpace(kind[j]))
    requires Blank(end) && SingleLine(end) && lines[i] == "```" + ("nc:" + kind + Spread(words, gaps) + end)
    ensures Info(lines[i]).Some? && IsNc(Info(lines[i]).value)
    ensures var d := Make(lines, i, k);
            && d.kind == kind && d.args == Args(words) && d.attrs == Attrs(words)
            && d.body == Compact(lines[i + 1..k]) && d.line == i + 1
  {
    var tag := "nc:" + kind;
    var info, l := tag + Spread(words, gaps), lines[i];
    TagIsWord(kind);
    hide IsSpace, EndsLine, IsGap, Spreadable;
    WordIsOneLine(tag);
    SpreadIsOneLine(tag, words, gaps);
    assert l[..3] == "```" && l[3..] == info + end;
    assert info[0] == 'n' && SingleLine(info + end) && !IsSpace('n') by { assert tag[0] == 'n'; }
    LeadingIs(info + end, 0);
    TrimRightOf(info, end);
    assert Info(l) == Some(info);
    assert info[..3] == "nc:" && tag[3..] == kind;
    WordsReadBack(tag, words, gaps);
    hide Words, Attrs, Args, Compact, Trim, Spread, IsFence;
    assert ([tag] + words)[1..] == words;
  }

  lemma TagIsWord(kind: string)
    requires forall j :: 0 <= j < |kind| ==> !IsSpace(kind[j])
    ensures forall j :: 0 <= j < |"nc:" + kind| ==> !IsSpace(("nc:" + kind)[j])
  {
    var tag := "nc:" + kind;
    assert tag[0] == 'n' && tag[1] == 'c' && tag[2] == ':';
    hide IsSpace;
    assert !IsSpace('n') && !IsSpace('c') && !IsSpace(':') by { LettersAreNoSpace(); }
    forall j | 0 <= j < |tag| ensures !IsSpace(tag[j]) {
      if j >= 3 { assert tag[j] == kind[j - 3]; }
    }
  }

  lemma LettersAreNoSpace()
    ensures !IsSpace('n') && !IsSpace('c') && !IsSpace(':')
  {
  }

  /** The body is every line that is not blank, trimmed, in order. */
  lemma CompactSnoc(lines: seq<string>, l: string)
    ensures Compact(lines + [l]) == Compact(lines) + if Blank(l) then [] else [Trim(l)]
  {
    BlankTrims(l);
    if lines == [] {
      assert [l][1..] == [];
    } else {
      assert (lines + [l])[1..] == lines[1..] + [l];
      CompactSnoc(lines[1..], l);
    }
  }

  lemma BlankTrims(l: string)
    ensures Trim(l) == "" <==> Blank(l)
  {
    hide IsSpace;
    var t := TrimLeft(l);
    if Trim(l) == "" {
      assert t[0..] == t;
    }
    if Blank(l) { LeadingIs(l, |l|); }
  }
}
