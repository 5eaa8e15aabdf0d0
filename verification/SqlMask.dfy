/** scripts/q.ts: blanking quoted values, quoted identifiers and comments out of a SQL
    statement before its keywords are looked for. */
module SqlMask {
  import opened Prelude
  import opened Text

  // ---- Tokens -----------------------------------------------------------------

  predicate StartsAt(s: string, pat: string, i: nat) {
    i + |pat| <= |s| && s[i..i + |pat|] == pat
  }

  /** s.indexOf(pat, from) */
  function IndexOf(s: string, pat: string, from: nat): (e: Option<nat>)
    ensures e.Some? ==> from <= e.value && StartsAt(s, pat, e.value)
    ensures forall k :: from <= k < (if e.Some? then e.value else |s| + 1) ==> !StartsAt(s, pat, k)
    decreases |s| + 1 - from
  {
    if from > |s| then None
    else if StartsAt(s, pat, from) then Some(from)
    else IndexOf(s, pat, from + 1)
  }

  /** Where a delimited token ends: past its closer, or at the end of the text. */
  function PastCloser(s: string, closer: string, from: nat): (n: nat)
    requires from <= |s|
    ensures from <= n <= |s|
  {
    var e := IndexOf(s, closer, from);
    if e.Some? then e.value + |closer| else |s|
  }

  /** The opening tag ^\$[A-Za-z_][A-Za-z0-9_]*\$|^\$\$, "" when there is none. */
  function DollarTag(s: string): (tag: string)
    ensures tag <= s && (tag != "" ==> |tag| >= 2)
  {
    if s == "" || s[0] != '$' then ""
    else
      var k := IdentLen(s[1..]);
      if 1 + k < |s| && s[1 + k] == '$' && (k > 0 ==> !('0' <= s[1] <= '9')) then s[..k + 2] else ""
  }

  predicate IsQuote(c: char) { c == '\'' || c == '"' || c == '`' }

  /** Past the closing quote from i on; a doubled quote is a character of the value. */
  function PastQuote(s: string, q: char, i: nat): (n: nat)
    requires i <= |s|
    ensures i <= n <= |s|
    decreases |s| - i
  {
    if i == |s| then i
    else if s[i] != q then PastQuote(s, q, i + 1)
    else if i + 1 < |s| && s[i + 1] == q then PastQuote(s, q, i + 2)
    else i + 1
  }

  datatype Token = Code | Other(len: nat)

  /** The token at the head of s: one character of code, or a literal or comment. */
  function Head(s: string): (t: Token)
    requires s != ""
    ensures t.Other? ==> 1 <= t.len <= |s|
  {
    if StartsAt(s, "--", 0) then Other(PastCloser(s, "\n", 2))
    else if StartsAt(s, "/*", 0) then Other(PastCloser(s, "*/", 2))
    else if DollarTag(s) != "" then Other(PastCloser(s, DollarTag(s), |DollarTag(s)|))
    else if IsQuote(s[0]) then Other(PastQuote(s, s[0], 1))
    else if s[0] == '[' then Other(PastCloser(s, "]", 1))
    else Code
  }

  function Width(t: Token): nat { if t.Code? then 1 else t.len }

  /** value.replace(/[^\n]/g, ' ') */
  function Blanked(s: string): (r: string)
    ensures |r| == |s|
    ensures forall i :: 0 <= i < |s| ==> r[i] == if s[i] == '\n' then '\n' else ' '
  {
    seq(|s|, i requires 0 <= i < |s| => if s[i] == '\n' then '\n' else ' ')
  }

  function Mask(s: string): string
    decreases |s|
  {
    if s == "" then ""
    else
      var n := Width(Head(s));
      (if Head(s).Code? then s[..n] else Blanked(s[..n])) + Mask(s[n..])
  }

  method SkipQuoted(rest: string) returns (next: nat)
    requires rest != "" && IsQuote(rest[0])
    ensures next == PastQuote(rest, rest[0], 1)
  {
    var quote := rest[0];
    next := 1;
    while next < |rest|
      invariant 1 <= next <= |rest|
      invariant PastQuote(rest, quote, next) == PastQuote(rest, quote, 1)
    {
      if rest[next] != quote {
        next := next + 1;
        continue;
      }
      if next + 1 < |rest| && rest[next + 1] == quote {
        next := next + 2;
        continue;
      }
      next := next + 1;
      return;
    }
  }

  /** The length of the literal or comment at the head of rest, 0 for code. */
  method ScanToken(rest: string) returns (n: nat)
    requires rest != ""
    ensures n == if Head(rest).Code? then 0 else Head(rest).len
  {
    var tag := DollarTag(rest);
    if StartsAt(rest, "--", 0) {
      n := PastCloser(rest, "\n", 2);
    } else if StartsAt(rest, "/*", 0) {
      n := PastCloser(rest, "*/", 2);
    } else if tag != "" {
      n := PastCloser(rest, tag, |tag|);
    } else if IsQuote(rest[0]) {
      n := SkipQuoted(rest);
    } else if rest[0] == '[' {
      n := PastCloser(rest, "]", 1);
    } else {
      n := 0;
    }
  }

  /** What one turn of the loop appends, and how far it goes. */
  function Piece(rest: string, n: nat): string
    requires rest != "" && n <= |rest|
  {
    if n > 0 then Blanked(rest[..n]) else [rest[0]]
  }

  lemma LoopStep(rest: string, next: string, masked: string, whole: string, n: nat)
    requires rest != "" && n == (if Head(rest).Code? then 0 else Head(rest).len) && next == rest[Width(Head(rest))..]
    requires masked + Mask(rest) == whole
    ensures masked + Piece(rest, n) + Mask(next) == whole
  {
    PieceStep(rest, n);
    hide Head, Mask, Blanked, Piece;
  }

  lemma PieceStep(rest: string, n: nat)
    requires rest != "" && n == if Head(rest).Code? then 0 else Head(rest).len
    ensures Mask(rest) == Piece(rest, n) + Mask(rest[Width(Head(rest))..])
  {
    hide Head;
    MaskStep(rest);
  }

  method MaskSqlNonCode(statement: string) returns (masked: string)
    ensures masked == Mask(statement)
  {
    hide Head, Blanked, Piece, Width, Mask;
    masked := "";
    var i := 0;
    assert statement[0..] == statement && "" + Mask(statement) == Mask(statement);
    while i < |statement|
      invariant i <= |statement|
      invariant masked + Mask(statement[i..]) == Mask(statement)
    {
      var rest := statement[i..];
      var n := ScanToken(rest);
      var w := if n > 0 then n else 1;
      WidthIs(rest, n);
      ghost var next := statement[i + w..];
      DropTwice(statement, i, i + w);
      LoopStep(rest, next, masked, Mask(statement), n);
      masked := masked + Piece(rest, n);
      i := i + w;
    }
    assert statement[i..] == "" && Mask("") == "" by { MaskOfNothing(); }
    assert masked + "" == masked;
  }

  lemma WidthIs(rest: string, n: nat)
    requires rest != "" && n == if Head(rest).Code? then 0 else Head(rest).len
    ensures (if n > 0 then n else 1) == Width(Head(rest)) <= |rest|
  {
    hide Head;
  }

  lemma MaskOfNothing()
    ensures Mask("") == ""
  {
  }

  lemma MaskStep(s: string)
    requires s != ""
    ensures Mask(s) == (if Head(s).Code? then [s[0]] else Blanked(s[..Head(s).len])) + Mask(s[Width(Head(s))..])
  {
    assert s[..1] == [s[0]];
  }

  // ---- What masking keeps -----------------------------------------------------

  /** Every character stays in place or turns into a space; newlines always stay. */
  predicate Shadows(s: string, m: string) {
    && |m| == |s|
    && forall i :: 0 <= i < |s| ==> (m[i] == s[i] || m[i] == ' ') && (m[i] == '\n' <==> s[i] == '\n')
  }

  lemma {:induction false} MaskShadows(s: string)
    ensures Shadows(s, Mask(s))
    decreases |s|
  {
    if s != "" {
      hide Head;
      var n := Width(Head(s));
      MaskShadows(s[n..]);
      var head := if Head(s).Code? then s[..n] else Blanked(s[..n]);
      forall i | 0 <= i < |s|
        ensures (Mask(s)[i] == s[i] || Mask(s)[i] == ' ') && (Mask(s)[i] == '\n' <==> s[i] == '\n')
      {
        if i < n { assert Mask(s)[i] == head[i]; } else { assert Mask(s)[i] == Mask(s[n..])[i - n] && s[i] == s[n..][i - n]; }
      }
    }
  }

  /** Text without a token in it. */
  predicate AllCode(s: string) {
    forall i :: 0 <= i < |s| ==> Head(s[i..]).Code?
  }

  lemma AllCodeIsFixed(s: string)
    requires AllCode(s)
    ensures Mask(s) == s
    decreases |s|
  {
    if s != "" {
      assert s[0..] == s;
      forall i | 0 <= i < |s[1..]| ensures Head(s[1..][i..]).Code? { assert s[1..][i..] == s[i + 1..]; }
      AllCodeIsFixed(s[1..]);
      assert s == [s[0]] + s[1..];
    }
  }

  lemma TagOfShadow(s: string, m: string)
    requires Shadows(s, m) && DollarTag(m) != ""
    ensures DollarTag(s) != ""
  {
    var k := IdentLen(m[1..]);
    var j := IdentLen(s[1..]);
    forall i | 0 <= i < k ensures s[1..][i] == m[1..][i] && IdentChar(s[1..][i]) {
      assert IdentChar(m[1..][i]);
    }
    assert m[1 + k] == '$' == s[1 + k];
    assert !IdentChar('$');
    assert s[1..][k] == '$';
    assert j == k;
  }

  /** A character of code stays code when the text after it is masked. */
  lemma CodeStaysCode(c: char, s: string, m: string)
    requires Shadows(s, m) && Head([c] + s).Code?
    ensures Head([c] + m).Code?
  {
    assert Shadows([c] + s, [c] + m);
    if DollarTag([c] + m) != "" { TagOfShadow([c] + s, [c] + m); }
  }

  lemma BlankIsCode(s: string)
    requires s != "" && (s[0] == ' ' || s[0] == '\n')
    ensures Head(s).Code?
  {
  }

  /** Nothing that was masked, and nothing left over, reads as a token again. */
  lemma {:induction false} MaskIsAllCode(s: string)
    ensures AllCode(Mask(s))
    decreases |s|
  {
    if s != "" {
      var n := Width(Head(s));
      var head := if Head(s).Code? then s[..n] else Blanked(s[..n]);
      var tail := Mask(s[n..]);
      MaskIsAllCode(s[n..]);
      MaskShadows(s[n..]);
      if Head(s).Code? {
        assert s == [s[0]] + s[1..];
        CodeStaysCode(s[0], s[1..], tail);
      }
      assert Mask(s) == head + tail && |head| == n;
      assert Head(s).Code? ==> head == [s[0]] && n == 1;
      assert Head(s).Other? ==> forall i :: 0 <= i < n ==> head[i] == ' ' || head[i] == '\n';
      hide Head, Shadows, Mask, Blanked;
      forall i | 0 <= i < |head + tail| ensures Head((head + tail)[i..]).Code? {
        if i >= n {
          DropPast(head, tail, i);
        } else if Head(s).Code? {
          assert (head + tail)[i..] == [s[0]] + tail;
        } else {
          assert (head + tail)[i..][0] == head[i];
          BlankIsCode((head + tail)[i..]);
        }
      }
    }
  }

  lemma DropPast(a: string, b: string, i: nat)
    requires |a| <= i <= |a + b|
    ensures (a + b)[i..] == b[i - |a|..]
  {
  }

  lemma MaskIdempotent(s: string)
    ensures Mask(Mask(s)) == Mask(s)
  {
    MaskIsAllCode(s);
    AllCodeIsFixed(Mask(s));
  }

  // ---- Replacing the inside of a token ----------------------------------------

  /** The scan of s stops between tokens at n. */
  predicate Reaches(s: string, n: nat)
    requires n <= |s|
    decreases |s|
  {
    n == 0 || (Width(Head(s)) <= n && Reaches(s[Width(Head(s))..], n - Width(Head(s))))
  }

  /** s and t agree up to n, and on the character there, which no tag can run into. */
  predicate Agree(s: string, t: string, n: nat) {
    n < |s| && n < |t| && s[..n + 1] == t[..n + 1] && !IdentChar(s[n])
  }

  lemma StartsAtAgree(s: string, t: string, pat: string, k: nat, n: nat)
    requires Agree(s, t, n) && k + |pat| <= n + 1
    ensures StartsAt(s, pat, k) == StartsAt(t, pat, k)
  {
    assert s[k..k + |pat|] == s[..n + 1][k..k + |pat|];
    assert t[k..k + |pat|] == t[..n + 1][k..k + |pat|];
  }

  lemma FirstIs(t: string, pat: string, from: nat, e: nat)
    requires from <= e && StartsAt(t, pat, e) && forall k :: from <= k < e ==> !StartsAt(t, pat, k)
    ensures IndexOf(t, pat, from) == Some(e)
  {
    assert e <= |t|;
    var x := IndexOf(t, pat, from);
  }

  lemma PastCloserAgree(s: string, t: string, closer: string, from: nat, n: nat)
    requires Agree(s, t, n) && from <= n && PastCloser(s, closer, from) <= n
    ensures PastCloser(t, closer, from) == PastCloser(s, closer, from)
  {
    var e := IndexOf(s, closer, from).value;
    forall k | from <= k <= e ensures StartsAt(t, closer, k) == StartsAt(s, closer, k) {
      StartsAtAgree(s, t, closer, k, n);
    }
    FirstIs(t, closer, from, e);
  }

  lemma {:induction false} PastQuoteAgree(s: string, t: string, q: char, i: nat, n: nat)
    requires Agree(s, t, n) && i <= n && PastQuote(s, q, i) <= n
    ensures PastQuote(t, q, i) == PastQuote(s, q, i)
    decreases |s| - i
  {
    assert s[i] == s[..n + 1][i] == t[i];
    if i < n { assert s[i + 1] == s[..n + 1][i + 1] == t[i + 1]; }
    if s[i] != q {
      PastQuoteAgree(s, t, q, i + 1, n);
    } else if i < n && s[i + 1] == q {
      PastQuoteAgree(s, t, q, i + 2, n);
    }
  }

  lemma IdentLenAgree(s: string, t: string, n: nat)
    requires Agree(s, t, n) && n >= 1
    ensures IdentLen(s[1..]) == IdentLen(t[1..]) < n
  {
    var k, j := IdentLen(s[1..]), IdentLen(t[1..]);
    assert forall i :: 0 <= i < n ==> s[1..][i] == s[..n + 1][i + 1] && t[1..][i] == t[..n + 1][i + 1];
    assert s[1..][n - 1] == s[n];
    assert k < n;
    assert j < n;
  }

  lemma TagAgree(s: string, t: string, n: nat)
    requires Agree(s, t, n) && n >= 1
    ensures DollarTag(t) == DollarTag(s)
  {
    IdentLenAgree(s, t, n);
    var k := IdentLen(s[1..]);
    assert forall i :: 0 <= i <= n ==> s[i] == s[..n + 1][i] == t[i];
    assert s[..k + 2] == s[..n + 1][..k + 2] && t[..k + 2] == t[..n + 1][..k + 2];
  }

  /** The first token depends on no more than the text up to n, when it ends there. */
  lemma HeadAgree(s: string, t: string, n: nat)
    requires Agree(s, t, n) && n >= 1 && Width(Head(s)) <= n
    ensures Head(t) == Head(s)
  {
    StartsAtAgree(s, t, "--", 0, n);
    StartsAtAgree(s, t, "/*", 0, n);
    TagAgree(s, t, n);
    assert s[0] == s[..n + 1][0] == t[0];
    if StartsAt(s, "--", 0) { PastCloserAgree(s, t, "\n", 2, n); }
    else if StartsAt(s, "/*", 0) { PastCloserAgree(s, t, "*/", 2, n); }
    else if DollarTag(s) != "" { PastCloserAgree(s, t, DollarTag(s), |DollarTag(s)|, n); }
    else if IsQuote(s[0]) { PastQuoteAgree(s, t, s[0], 1, n); }
    else if s[0] == '[' { PastCloserAgree(s, t, "]", 1, n); }
  }

  /** What masking makes of the first token. */
  function Masked1(s: string): string
    requires s != ""
  {
    var w := Width(Head(s));
    if Head(s).Code? then s[..w] else Blanked(s[..w])
  }

  /** What masking makes of the tokens up to n. */
  function MaskedUpTo(s: string, n: nat): string
    requires n <= |s| && Reaches(s, n)
    decreases |s|
  {
    if n == 0 then ""
    else
      var w := Width(Head(s));
      Masked1(s) + MaskedUpTo(s[w..], n - w)
  }

  lemma DropTwice(s: string, w: nat, n: nat)
    requires w <= n <= |s|
    ensures s[w..][n - w..] == s[n..]
  {
  }

  lemma Assoc(a: string, b: string, c: string)
    ensures a + (b + c) == (a + b) + c
  {
  }

  lemma MaskHead(s: string, rest: string)
    requires s != "" && rest == s[Width(Head(s))..]
    ensures Mask(s) == Masked1(s) + Mask(rest)
  {
    hide Head, Blanked;
  }

  lemma UpToStep(s: string, n: nat, rest: string)
    requires 0 < n <= |s| && Width(Head(s)) <= n && rest == s[Width(Head(s))..]
    ensures Reaches(s, n) <==> Reaches(rest, n - Width(Head(s)))
    ensures Reaches(s, n) ==> MaskedUpTo(s, n) == Masked1(s) + MaskedUpTo(rest, n - Width(Head(s)))
  {
    hide Head, Masked1;
  }

  lemma {:induction false} MaskSplits(s: string, n: nat, end: string)
    requires n <= |s| && Reaches(s, n) && end == s[n..]
    ensures Mask(s) == MaskedUpTo(s, n) + Mask(end)
    decreases |s|
  {
    if n == 0 {
      assert end == s;
      assert MaskedUpTo(s, 0) == "";
    } else {
      hide Head, Mask, MaskedUpTo, Masked1;
      var w := Width(Head(s));
      assert w <= n;
      hide Reaches;
      var rest := s[w..];
      DropTwice(s, w, n);
      UpToStep(s, n, rest);
      MaskSplits(rest, n - w, end);
      MaskHead(s, rest);
      Assoc(Masked1(s), MaskedUpTo(rest, n - w), Mask(end));
    }
  }

  lemma AgreeDrops(s: string, t: string, n: nat, w: nat, s1: string, t1: string)
    requires Agree(s, t, n) && w <= n && s1 == s[w..] && t1 == t[w..]
    ensures s[..w] == t[..w] && Agree(s1, t1, n - w) && |s1| == |s| - w
  {
    assert s[..w] == s[..n + 1][..w] && t[..w] == t[..n + 1][..w];
    assert s[w..][..n - w + 1] == s[..n + 1][w..] && t[w..][..n - w + 1] == t[..n + 1][w..];
  }

  lemma Masked1Agree(s: string, t: string)
    requires s != "" && t != "" && Head(s) == Head(t) && s[..Width(Head(s))] == t[..Width(Head(s))]
    ensures Masked1(s) == Masked1(t)
  {
    hide Head, Blanked;
  }

  lemma AgreeBounds(s: string, t: string, n: nat)
    requires Agree(s, t, n)
    ensures n < |s| && n < |t|
  {
  }

  lemma HeadFits(s: string, n: nat)
    requires 0 < n <= |s| && Reaches(s, n)
    ensures 0 < Width(Head(s)) <= n
  {
    hide Head;
  }

  lemma PrefixStep(s: string, t: string, n: nat, s1: string, t1: string)
    requires 0 < n <= |s| && n <= |t| && Head(s) == Head(t) && Width(Head(s)) <= n
    requires s1 == s[Width(Head(s))..] && t1 == t[Width(Head(s))..] && Masked1(s) == Masked1(t)
    requires var k := n - Width(Head(s));
             Reaches(s1, k) && Reaches(t1, k) && MaskedUpTo(t1, k) == MaskedUpTo(s1, k)
    ensures Reaches(s, n) && Reaches(t, n) && MaskedUpTo(t, n) == MaskedUpTo(s, n)
  {
    hide Head, Masked1, Width;
    UpToStep(s, n, s1);
    UpToStep(t, n, t1);
    hide Reaches, MaskedUpTo;
  }

  lemma UpToZero(s: string, t: string)
    ensures Reaches(s, 0) && Reaches(t, 0) && MaskedUpTo(s, 0) == MaskedUpTo(t, 0)
  {
  }

  lemma ReachesOn(s: string, n: nat, rest: string)
    requires 0 < n <= |s| && Reaches(s, n) && Width(Head(s)) <= n && rest == s[Width(Head(s))..]
    ensures Reaches(rest, n - Width(Head(s)))
  {
    hide Head;
  }

  /** Two statements that agree up to a token boundary mask alike up to there. */
  lemma {:induction false} PrefixMasksAlike(s: string, t: string, n: nat)
    requires Agree(s, t, n) && Reaches(s, n)
    ensures Reaches(t, n) && MaskedUpTo(t, n) == MaskedUpTo(s, n)
    decreases |s|
  {
    hide Agree, IdentChar, Reaches, MaskedUpTo, Head, Mask, Masked1, Width;
    AgreeBounds(s, t, n);
    if n == 0 {
      UpToZero(s, t);
    } else {
      HeadFits(s, n);
      HeadAgree(s, t, n);
      var w := Width(Head(s));
      var s1, t1 := s[w..], t[w..];
      ReachesOn(s, n, s1);
      AgreeDrops(s, t, n, w, s1, t1);
      Masked1Agree(s, t);
      PrefixMasksAlike(s1, t1, n - w);
      PrefixStep(s, t, n, s1, t1);
    }
  }

  /** tok is one whole literal or comment before post. */
  predicate Literal(tok: string, post: string) {
    tok != "" && Head(tok + post) == Other(|tok|)
  }

  lemma LiteralMask(tok: string, post: string)
    requires Literal(tok, post)
    ensures Mask(tok + post) == Blanked(tok) + Mask(post)
  {
    hide Head;
    assert (tok + post)[..|tok|] == tok && (tok + post)[|tok|..] == post;
  }

  lemma OpenerNotIdent(s: string)
    requires s != "" && Head(s).Other?
    ensures !IdentChar(s[0])
  {
  }

  lemma Juxtaposed(pre: string, tok: string, post: string, x: char)
    requires tok != "" && tok[0] == x
    ensures var s := pre + tok + post;
            && |pre| < |s| && s[|pre|] == x && s[|pre|..] == tok + post && s[..|pre| + 1] == pre + [x]
  {
  }

  /** Replacing a whole literal or comment by another with the same first character changes only
      which blanks stand in its place. */
  lemma ReplacedMask(pre: string, tok1: string, tok2: string, post: string) returns (m: string)
    requires Literal(tok1, post) && Literal(tok2, post) && tok1[0] == tok2[0]
    requires Reaches(pre + tok1 + post, |pre|)
    ensures Mask(pre + tok1 + post) == m + Blanked(tok1) + Mask(post)
    ensures Mask(pre + tok2 + post) == m + Blanked(tok2) + Mask(post)
  {
    hide Head, Mask, Blanked, MaskedUpTo, Reaches;
    var n, s, t := |pre|, pre + tok1 + post, pre + tok2 + post;
    OpenerNotIdent(tok1 + post);
    Juxtaposed(pre, tok1, post, tok1[0]);
    Juxtaposed(pre, tok2, post, tok1[0]);
    assert (tok1 + post)[0] == tok1[0];
    assert Agree(s, t, n);
    LiteralMask(tok1, post);
    LiteralMask(tok2, post);
    hide Agree, Literal, IdentChar;
    PrefixMasksAlike(s, t, n);
    m := MaskedUpTo(s, n);
    MaskSplits(s, n, tok1 + post);
    MaskSplits(t, n, tok2 + post);
    Assoc(m, Blanked(tok1), Mask(post));
    Assoc(m, Blanked(tok2), Mask(post));
  }

  // ---- Literals and comments, as they are written -----------------------------

  /** Past the first closer after the opener, when the closer does not show up earlier. */
  lemma CloserIsFirst(open: string, v: string, closer: string, post: string)
    requires closer != "" && forall k :: 0 <= k < |v| ==> !StartsAt(v + closer, closer, k)
    ensures PastCloser(open + v + closer + post, closer, |open|) == |open + v + closer|
  {
    var s, at := open + v + closer + post, |open| + |v|;
    assert s[at..at + |closer|] == closer;
    forall k | |open| <= k < at ensures !StartsAt(s, closer, k) {
      var j := k - |open|;
      assert s[k..k + |closer|] == (v + closer)[j..j + |closer|];
      assert !StartsAt(v + closer, closer, j);
    }
    assert StartsAt(s, closer, at);
    var e := IndexOf(s, closer, |open|);
    assert e == Some(at);
  }

  lemma OneCharCloser(v: string, c: char)
    requires c !in v
    ensures forall k :: 0 <= k < |v| ==> !StartsAt(v + [c], [c], k)
  {
    forall k | 0 <= k < |v| ensures !StartsAt(v + [c], [c], k) {
      assert (v + [c])[k..k + 1] == [v[k]];
    }
  }

  /** A value between quotes, its own quotes doubled. */
  function Doubled(v: string, q: char): string {
    if v == "" then "" else (if v[0] == q then [q, q] else [v[0]]) + Doubled(v[1..], q)
  }

  lemma {:induction false} PastDoubled(s: string, q: char, i: nat, v: string, post: string)
    requires i <= |s| && s[i..] == Doubled(v, q) + ([q] + post) && (post == "" || post[0] != q)
    ensures PastQuote(s, q, i) == i + |Doubled(v, q)| + 1
    decreases |v|
  {
    var rest := s[i..];
    assert forall k :: 0 <= k < |rest| ==> s[i + k] == rest[k];
    if v != "" {
      var w := if v[0] == q then 2 else 1;
      var tail := Doubled(v[1..], q) + ([q] + post);
      assert rest == (if v[0] == q then [q, q] else [v[0]]) + tail;
      assert rest[w..] == tail && s[i + w..] == rest[w..];
      PastDoubled(s, q, i + w, v[1..], post);
    }
  }

  /** 'it''s': any value with its quotes doubled, before anything but another quote. */
  lemma QuotedIsLiteral(q: char, v: string, post: string)
    requires (q == '\'' || q == '"' || q == '`') && (post == "" || post[0] != q)
    ensures Literal([q] + Doubled(v, q) + [q], post)
  {
    var tok := [q] + Doubled(v, q) + [q];
    var s := tok + post;
    assert s[0] == q && s[1..] == Doubled(v, q) + ([q] + post);
    PastDoubled(s, q, 1, v, post);
    assert s[0..2] != "--" && s[0..2] != "/*" by { assert s[0..2][0] == q; }
  }

  /** [a name] without a closing bracket in it. */
  lemma BracketedIsLiteral(v: string, post: string)
    requires ']' !in v
    ensures Literal("[" + v + "]", post)
  {
    var s := "[" + v + "]" + post;
    OneCharCloser(v, ']');
    CloserIsFirst("[", v, "]", post);
    assert s[0] == '[';
    assert s[0..2] != "--" && s[0..2] != "/*" by { assert s[0..2][0] == '['; }
  }

  /** A line comment with its line break. */
  lemma LineCommentIsLiteral(v: string, post: string)
    requires '\n' !in v
    ensures Literal("--" + v + "\n", post)
  {
    OneCharCloser(v, '\n');
    CloserIsFirst("--", v, "\n", post);
    assert ("--" + v + "\n" + post)[0..2] == "--";
  }

  /** A block comment without a closer in it. */
  lemma BlockCommentIsLiteral(v: string, post: string)
    requires !Contains(v, "*/")
    ensures Literal("/*" + v + "*/", post)
  {
    forall k | 0 <= k < |v| ensures !StartsAt(v + "*/", "*/", k) {
      if k + 2 <= |v| {
        assert (v + "*/")[k..k + 2] == v[k..k + 2];
        NotInside(v, "*/", k);
      } else {
        assert (v + "*/")[k..k + 2][1] == '*';
      }
    }
    CloserIsFirst("/*", v, "*/", post);
    var s := "/*" + v + "*/" + post;
    assert s[0..2] == "/*";
  }

  lemma {:induction false} NotInside(s: string, sub: string, k: nat)
    requires !Contains(s, sub) && k + |sub| <= |s|
    ensures s[k..k + |sub|] != sub
  {
    if k > 0 {
      NotInside(s[1..], sub, k - 1);
      assert s[1..][k - 1..k - 1 + |sub|] == s[k..k + |sub|];
    }
  }

  /** $tag$ ... $tag$, and $$ ... $$, where the tag does not show up in between. */
  lemma DollarQuotedIsLiteral(name: string, v: string, post: string)
    requires forall i :: 0 <= i < |name| ==> IdentChar(name[i])
    requires name != "" ==> !('0' <= name[0] <= '9')
    requires var tag := "$" + name + "$"; forall k :: 0 <= k < |v| ==> !StartsAt(v + tag, tag, k)
    ensures var tag := "$" + name + "$"; Literal(tag + v + tag, post)
  {
    var tag := "$" + name + "$";
    var s := tag + v + tag + post;
    hide PastCloser, StartsAt, Head, DollarTag, IdentChar;
    CloserIsFirst(tag, v, tag, post);
    TagIsFound(name, v + tag + post);
    assert tag + (v + tag + post) == s;
    HeadAtDollar(s);
  }

  lemma HeadAtDollar(s: string)
    requires s != "" && DollarTag(s) != ""
    ensures Head(s) == Other(PastCloser(s, DollarTag(s), |DollarTag(s)|))
  {
    hide PastCloser;
    assert s[0] == '$';
    assert !StartsAt(s, "--", 0) && !StartsAt(s, "/*", 0) by { if |s| >= 2 { assert s[0..2][0] == '$'; } }
  }

  lemma TagIsFound(name: string, rest: string)
    requires forall i :: 0 <= i < |name| ==> IdentChar(name[i])
    requires name != "" ==> !('0' <= name[0] <= '9')
    ensures DollarTag("$" + name + "$" + rest) == "$" + name + "$"
  {
    var s, after := "$" + name + "$" + rest, "$" + rest;
    assert s[1..] == name + after && after[0] == '$';
    IdentLenOf(name, after);
    assert s[..|name| + 2] == "$" + name + "$";
    assert s[1 + |name|] == '$';
    assert name != "" ==> s[1] == name[0];
  }

  lemma {:induction false} IdentLenOf(name: string, after: string)
    requires forall i :: 0 <= i < |name| ==> IdentChar(name[i])
    requires after != "" && !IdentChar(after[0])
    ensures IdentLen(name + after) == |name|
  {
    if name == "" {
      assert name + after == after;
    } else {
      assert (name + after)[1..] == name[1..] + after;
      IdentLenOf(name[1..], after);
    }
  }

  // ---- Openers ----------------------------------------------------------------

  /** $$, or $name$ with a name of letters, digits and underscores that no digit begins. */
  predicate OpensDollar(s: string) {
    exists k: nat ::
      && 1 <= k < |s| && s[0] == '$' && s[k] == '$' && (k > 1 ==> !('0' <= s[1] <= '9'))
      && forall i :: 1 <= i < k ==> 'a' <= s[i] <= 'z' || 'A' <= s[i] <= 'Z' || '0' <= s[i] <= '9' || s[i] == '_'
  }

  lemma DollarTagIff(s: string)
    ensures DollarTag(s) != "" <==> OpensDollar(s)
  {
    if DollarTag(s) != "" {
      var n := IdentLen(s[1..]);
      forall i | 1 <= i < n + 1 ensures IdentChar(s[i]) { assert s[1..][i - 1] == s[i]; }
      assert s[n + 1] == '$';
    }
    if OpensDollar(s) {
      var k: nat :|
        && 1 <= k < |s| && s[0] == '$' && s[k] == '$' && (k > 1 ==> !('0' <= s[1] <= '9'))
        && forall i :: 1 <= i < k ==> 'a' <= s[i] <= 'z' || 'A' <= s[i] <= 'Z' || '0' <= s[i] <= '9' || s[i] == '_';
      var n := IdentLen(s[1..]);
      assert s[1..][k - 1] == '$';
    }
  }

  /** A character is code unless one of the openers stands there. */
  lemma CodeIff(s: string)
    requires s != ""
    ensures Head(s).Code? <==>
            && !(|s| >= 2 && s[0] == '-' && s[1] == '-') && !(|s| >= 2 && s[0] == '/' && s[1] == '*')
            && s[0] != '\'' && s[0] != '"' && s[0] != '`' && s[0] != '[' && !OpensDollar(s)
  {
    DollarTagIff(s);
    if |s| >= 2 { assert s[0..2] == [s[0], s[1]]; }
  }

  /** What is never closed goes on to the end. */
  lemma UnclosedGoesOn(s: string, open: string, closer: string)
    requires open <= s && forall k :: |open| <= k <= |s| ==> !StartsAt(s, closer, k)
    requires (open == "--" && closer == "\n") || (open == "/*" && closer == "*/") || (open == "[" && closer == "]")
             || (open != "" && open == closer == DollarTag(s))
    ensures Literal(s, "")
  {
    assert s + "" == s && s[..|open|] == open;
    assert s[0] == open[0];
    if |open| == 2 && |s| >= 2 { assert s[0..2] == open; }
    if open != "--" && |s| >= 2 { assert s[0..2][0] == open[0]; }
  }

  lemma {:induction false} PastUnclosed(s: string, q: char, i: nat, v: string)
    requires i <= |s| && s[i..] == Doubled(v, q)
    ensures PastQuote(s, q, i) == |s|
    decreases |v|
  {
    var rest := s[i..];
    assert forall k :: 0 <= k < |rest| ==> s[i + k] == rest[k];
    if v != "" {
      var w := if v[0] == q then 2 else 1;
      assert rest == (if v[0] == q then [q, q] else [v[0]]) + Doubled(v[1..], q);
      assert s[i + w..] == rest[w..];
      PastUnclosed(s, q, i + w, v[1..]);
    }
  }

  /** So does a quote that is only doubled. */
  lemma UnclosedQuoteGoesOn(q: char, v: string)
    requires q == '\'' || q == '"' || q == '`'
    ensures Literal([q] + Doubled(v, q), "")
  {
    var s := [q] + Doubled(v, q);
    assert s + "" == s && s[1..] == Doubled(v, q);
    PastUnclosed(s, q, 1, v);
    if |s| >= 2 { assert s[0..2][0] == q; }
  }

  // ---- isQuery ----------------------------------------------------------------

  predicate WordChar(c: char) { IdentChar(c) }

  /** toUpperCase, given what it makes of each character. */
  function Upper(up: char -> string, s: string): string {
    if s == "" then "" else up(s[0]) + Upper(up, s[1..])
  }

  /** Spaces and line breaks have no upper case of their own. */
  predicate KeepsBlanks(up: char -> string) {
    up(' ') == " " && up('\n') == "\n"
  }

  /** kw at i, between word boundaries. */
  predicate WordAt(s: string, kw: string, i: nat) {
    && StartsAt(s, kw, i)
    && (i == 0 || !WordChar(s[i - 1]))
    && (i + |kw| == |s| || !WordChar(s[i + |kw|]))
  }

  predicate HasWord(s: string, kw: string) {
    exists i: nat :: i <= |s| && WordAt(s, kw, i)
  }

  /** The verdict on the masked, trimmed, upper-case statement. */
  predicate Reads(x: string) {
    || WordAt(x, "SELECT", 0) || WordAt(x, "PRAGMA", 0) || WordAt(x, "EXPLAIN", 0) || WordAt(x, "VALUES", 0)
    || (StartsAt(x, "WITH", 0) && !(HasWord(x, "INSERT") || HasWord(x, "UPDATE") || HasWord(x, "DELETE")))
  }

  predicate IsQuery(up: char -> string, statement: string) {
    Reads(Upper(up, Trim(Mask(statement))))
  }

  /** Only spaces and line breaks, and at least one. */
  predicate Gap(b: string) {
    b != "" && forall i :: 0 <= i < |b| ==> b[i] == ' ' || b[i] == '\n'
  }

  lemma BlankedIsGap(s: string)
    requires s != ""
    ensures Gap(Blanked(s))
  {
  }

  lemma UpperConcat(up: char -> string, a: string, b: string)
    ensures Upper(up, a + b) == Upper(up, a) + Upper(up, b)
  {
    if a == "" {
      assert a + b == b;
    } else {
      assert (a + b)[1..] == a[1..] + b;
      UpperConcat(up, a[1..], b);
    }
  }

  lemma {:induction false} UpperOfGap(up: char -> string, b: string)
    requires KeepsBlanks(up) && forall i :: 0 <= i < |b| ==> b[i] == ' ' || b[i] == '\n'
    ensures Upper(up, b) == b
  {
    if b != "" {
      UpperOfGap(up, b[1..]);
      assert b == [b[0]] + b[1..];
    }
  }

  /** A word without blanks lies on one side of a gap. */
  predicate Solid(kw: string) {
    kw != "" && forall i :: 0 <= i < |kw| ==> WordChar(kw[i])
  }

  lemma GapChar(c: char)
    requires c == ' ' || c == '\n'
    ensures !WordChar(c) && IsSpace(c)
  {
  }

  lemma WordInHead(a: string, b: string, c: string, kw: string, i: nat)
    requires Gap(b) && Solid(kw) && i < |a|
    ensures WordAt(a + b + c, kw, i) <==> WordAt(a, kw, i)
  {
    var x := a + b + c;
    GapChar(b[0]);
    assert x[|a|] == b[0];
    if i + |kw| <= |a| {
      assert x[i..i + |kw|] == a[i..i + |kw|];
    }
  }

  lemma WordInTail(a: string, b: string, c: string, kw: string, i: nat)
    requires Gap(b) && Solid(kw) && i <= |c|
    ensures WordAt(a + b + c, kw, |a + b| + i) <==> WordAt(c, kw, i)
  {
    var x, n := a + b + c, |a + b|;
    GapChar(b[|b| - 1]);
    assert x[n - 1] == b[|b| - 1];
    if i + |kw| <= |c| { assert x[n + i..n + i + |kw|] == c[i..i + |kw|]; }
  }

  lemma NoWordInGap(a: string, b: string, c: string, kw: string, i: nat)
    requires Gap(b) && Solid(kw) && |a| <= i < |a + b|
    ensures !WordAt(a + b + c, kw, i)
  {
    var x := a + b + c;
    GapChar(b[i - |a|]);
    assert x[i] == b[i - |a|];
  }

  lemma HasWordSplits(a: string, b: string, c: string, kw: string)
    requires Gap(b) && Solid(kw)
    ensures HasWord(a + b + c, kw) <==> HasWord(a, kw) || HasWord(c, kw)
  {
    hide WordAt, Gap, Solid;
    var x := a + b + c;
    if HasWord(x, kw) {
      var i: nat :| i <= |x| && WordAt(x, kw, i);
      if i < |a| { WordInHead(a, b, c, kw, i); }
      else if i < |a + b| { NoWordInGap(a, b, c, kw, i); }
      else { WordInTail(a, b, c, kw, i - |a + b|); }
    }
    if HasWord(a, kw) {
      var i: nat :| i <= |a| && WordAt(a, kw, i);
      WordShort(a, kw, i);
      WordInHead(a, b, c, kw, i);
    }
    if HasWord(c, kw) {
      var i: nat :| i <= |c| && WordAt(c, kw, i);
      WordInTail(a, b, c, kw, i);
    }
  }

  lemma WordShort(a: string, kw: string, i: nat)
    requires WordAt(a, kw, i) && Solid(kw)
    ensures i < |a|
  {
  }

  lemma PrefixInHead(a: string, b: string, c: string, kw: string)
    requires Gap(b) && Solid(kw) && a != ""
    ensures StartsAt(a + b + c, kw, 0) <==> StartsAt(a, kw, 0)
  {
    var x := a + b + c;
    GapChar(b[0]);
    assert x[|a|] == b[0];
    if |kw| <= |a| {
      assert x[0..|kw|] == a[0..|kw|];
    }
  }

  lemma Keywords()
    ensures Solid("SELECT") && Solid("PRAGMA") && Solid("EXPLAIN") && Solid("VALUES") && Solid("WITH")
    ensures Solid("INSERT") && Solid("UPDATE") && Solid("DELETE")
  {
  }

  /** The verdict does not depend on how wide a gap is. */
  lemma GapWidthIrrelevant(a: string, b1: string, b2: string, c: string)
    requires Gap(b1) && Gap(b2) && a != ""
    ensures Reads(a + b1 + c) <==> Reads(a + b2 + c)
  {
    Keywords();
    hide WordAt, StartsAt, Gap, Solid, HasWord;
    forall b | b == b1 || b == b2
      ensures forall kw :: kw in ["SELECT", "PRAGMA", "EXPLAIN", "VALUES"] ==>
                             WordAt(a + b + c, kw, 0) == WordAt(a, kw, 0)
      ensures StartsAt(a + b + c, "WITH", 0) == StartsAt(a, "WITH", 0)
      ensures forall kw :: kw in ["INSERT", "UPDATE", "DELETE"] ==>
                             HasWord(a + b + c, kw) == (HasWord(a, kw) || HasWord(c, kw))
    {
      WordInHead(a, b, c, "SELECT", 0);
      WordInHead(a, b, c, "PRAGMA", 0);
      WordInHead(a, b, c, "EXPLAIN", 0);
      WordInHead(a, b, c, "VALUES", 0);
      PrefixInHead(a, b, c, "WITH");
      HasWordSplits(a, b, c, "INSERT");
      HasWordSplits(a, b, c, "UPDATE");
      HasWordSplits(a, b, c, "DELETE");
    }
  }

  // ---- Trimming around a gap --------------------------------------------------

  lemma LeadingThrough(a: string, b: string)
    ensures Leading(a + b) == if Leading(a) == |a| then |a| + Leading(b) else Leading(a)
  {
    hide IsSpace;
    var k := if Leading(a) == |a| then |a| + Leading(b) else Leading(a);
    LeadingIs(a + b, k);
  }

  lemma TrimRightThrough(a: string, b: string)
    ensures TrimRight(a + b) == if TrimRight(b) == "" then TrimRight(a) else a + TrimRight(b)
    decreases |b|
  {
    hide IsSpace;
    if b == "" {
      assert a + b == a;
    } else if IsSpace(b[|b| - 1]) {
      assert (a + b)[..|a + b| - 1] == a + b[..|b| - 1];
      TrimRightThrough(a, b[..|b| - 1]);
    }
  }

  lemma GapTrims(b: string)
    requires Gap(b)
    ensures Leading(b) == |b| && TrimRight(b) == ""
  {
    forall i | 0 <= i < |b| ensures IsSpace(b[i]) { GapChar(b[i]); }
    hide IsSpace;
    LeadingIs(b, |b|);
  }

  /** trim() strips the gap only when one side of it is blank. */
  lemma {:induction false} TrimAroundGap(a: string, b: string, c: string)
    requires Gap(b)
    ensures Trim(a + b + c) ==
            if Leading(a) == |a| then Trim(c)
            else if TrimRight(c) == "" then Trim(a)
            else a[Leading(a)..] + b + TrimRight(c)
  {
    GapTrims(b);
    LeadingThrough(a, b);
    LeadingThrough(a + b, c);
    hide Gap, Leading, TrimRight;
    var k := Leading(a);
    if k == |a| {
      assert TrimLeft(a + b + c) == TrimLeft(c) by { DropHead(a + b, c, Leading(c)); }
    } else {
      var head := a[k..];
      assert TrimLeft(a + b + c) == head + b + c by { DropMiddle(a, b, c, k); }
      assert TrimLeft(a) == head;
      hide TrimLeft;
      TrimRightThrough(head + b, c);
      TrimRightThrough(head, b);
    }
  }

  lemma DropHead(a: string, c: string, k: nat)
    requires k <= |c|
    ensures (a + c)[|a| + k..] == c[k..]
  {
  }

  lemma DropMiddle(a: string, b: string, c: string, k: nat)
    requires k <= |a|
    ensures (a + b + c)[k..] == a[k..] + b + c
  {
  }

  /** Replacing a literal, a quoted identifier or a comment by another one with the same first
      character, of any length, never changes whether the statement is a query. */
  lemma InsideIsIrrelevant(up: char -> string, pre: string, tok1: string, tok2: string, post: string)
    requires KeepsBlanks(up)
    requires Literal(tok1, post) && Literal(tok2, post) && tok1[0] == tok2[0]
    requires Reaches(pre + tok1 + post, |pre|)
    ensures IsQuery(up, pre + tok1 + post) <==> IsQuery(up, pre + tok2 + post)
  {
    hide Head, Mask, Reads, Gap, IsSpace;
    var m := ReplacedMask(pre, tok1, tok2, post);
    BlankedIsGap(tok1);
    BlankedIsGap(tok2);
    GapInTrimmed(up, m, Blanked(tok1), Blanked(tok2), Mask(post));
  }

  /** In particular the value between two quotes does not matter. */
  lemma QuotedValueIsIrrelevant(up: char -> string, pre: string, q: char, v1: string, v2: string, post: string)
    requires KeepsBlanks(up) && (q == '\'' || q == '"' || q == '`') && (post == "" || post[0] != q)
    requires Reaches(pre + ([q] + Doubled(v1, q) + [q]) + post, |pre|)
    ensures IsQuery(up, pre + ([q] + Doubled(v1, q) + [q]) + post) <==> IsQuery(up, pre + ([q] + Doubled(v2, q) + [q]) + post)
  {
    hide Literal, IsQuery, Reaches, Doubled;
    QuotedIsLiteral(q, v1, post);
    QuotedIsLiteral(q, v2, post);
    InsideIsIrrelevant(up, pre, [q] + Doubled(v1, q) + [q], [q] + Doubled(v2, q) + [q], post);
  }

  lemma GapInTrimmed(up: char -> string, a: string, b1: string, b2: string, c: string)
    requires KeepsBlanks(up) && Gap(b1) && Gap(b2)
    ensures Reads(Upper(up, Trim(a + b1 + c))) <==> Reads(Upper(up, Trim(a + b2 + c)))
  {
    TrimAroundGap(a, b1, c);
    TrimAroundGap(a, b2, c);
    if Leading(a) < |a| && TrimRight(c) != "" {
      var head, tail := a[Leading(a)..], TrimRight(c);
      UpperAround(up, head, b1, tail);
      UpperAround(up, head, b2, tail);
      if Upper(up, head) != "" {
        hide Reads, Gap, Upper;
        GapWidthIrrelevant(Upper(up, head), b1, b2, Upper(up, tail));
      } else {
        hide Reads, Gap, Upper;
        GapFirst(b1, Upper(up, tail));
        GapFirst(b2, Upper(up, tail));
      }
    }
  }

  lemma UpperAround(up: char -> string, a: string, b: string, c: string)
    requires KeepsBlanks(up) && Gap(b)
    ensures Upper(up, a + b + c) == Upper(up, a) + b + Upper(up, c)
  {
    UpperConcat(up, a + b, c);
    UpperConcat(up, a, b);
    UpperOfGap(up, b);
  }

  lemma NotAtGap(x: string, kw: string)
    requires Solid(kw) && x != "" && !WordChar(x[0])
    ensures !StartsAt(x, kw, 0)
  {
  }

  lemma GapFirst(b: string, c: string)
    requires Gap(b)
    ensures !Reads("" + b + c)
  {
    var x := "" + b + c;
    GapChar(b[0]);
    assert x[0] == b[0];
    Keywords();
    forall kw: string | Solid(kw) ensures !StartsAt(x, kw, 0) { NotAtGap(x, kw); }
    hide StartsAt, HasWord;
  }

  // ---- Which statements are queries -------------------------------------------

  /** Position i of the statement is code: the scan stops there and finds no token. */
  predicate CodeAt(s: string, i: nat) {
    i < |s| && Reaches(s, i) && Head(s[i..]).Code?
  }

  /** Masking leaves code where it is and blanks the rest. */
  lemma {:induction false} MaskAt(s: string, i: nat)
    requires i < |s|
    ensures |Mask(s)| == |s| && Mask(s)[i] == if CodeAt(s, i) || s[i] == '\n' then s[i] else ' '
    decreases |s|
  {
    MaskShadows(s);
    var w := Width(Head(s));
    assert s[0..] == s;
    if i >= w {
      MaskAt(s[w..], i - w);
      DropTwice(s, w, i);
    }
    hide Head, Reaches;
    assert Mask(s) == Masked1(s) + Mask(s[w..]) by { MaskHead(s, s[w..]); }
    if i >= w { CodeBeyond(s, i); } else { CodeWithin(s, i); }
  }

  lemma CodeBeyond(s: string, i: nat)
    requires s != "" && Width(Head(s)) <= i < |s|
    ensures CodeAt(s, i) == CodeAt(s[Width(Head(s))..], i - Width(Head(s)))
  {
    hide Head;
    DropTwice(s, Width(Head(s)), i);
  }

  lemma CodeWithin(s: string, i: nat)
    requires s != "" && i < Width(Head(s)) && i < |s|
    ensures CodeAt(s, i) <==> Head(s).Code?
    ensures Head(s).Code? ==> i == 0
  {
    hide Head;
    assert s[0..] == s;
  }

  /** \\w */
  predicate WordLike(c: char) {
    'a' <= c <= 'z' || 'A' <= c <= 'Z' || '0' <= c <= '9' || c == '_'
  }

  function Capital(c: char): char
    requires 'a' <= c <= 'z'
  {
    c - 'a' + 'A'
  }

  /** c is the capital k or its small letter. */
  predicate Same(c: char, k: char) {
    c == k || ('a' <= c <= 'z' && Capital(c) == k)
  }

  /** What toUpperCase does to a character, but for the few beyond ASCII that turn into several
      or into an ASCII letter. */
  predicate Uppercases(up: char -> string, c: char) {
    && |up(c)| == 1
    && (if 'a' <= c <= 'z' then up(c)[0] == Capital(c) else if c as int < 128 then up(c)[0] == c else !WordLike(up(c)[0]))
  }

  /** kw stands at p in the code of the statement, in capitals or not, and is a whole word there. */
  predicate Word(s: string, kw: string, p: nat) {
    && Begins(s, kw, p)
    && !(p > 0 && CodeAt(s, p - 1) && WordLike(s[p - 1]))
    && !(CodeAt(s, p + |kw|) && WordLike(s[p + |kw|]))
  }

  predicate Begins(s: string, kw: string, p: nat) {
    p + |kw| <= |s| && forall i :: p <= i < p + |kw| ==> CodeAt(s, i) && Same(s[i], kw[i - p])
  }

  /** The first code that is no white space. */
  predicate FirstCode(s: string, p: nat) {
    CodeAt(s, p) && !IsSpace(s[p]) && forall k :: 0 <= k < p && CodeAt(s, k) ==> IsSpace(s[k])
  }

  // ---- From the statement to the text that is matched -------------------------

  /** The same word in a text that is all code. */
  predicate PlainBegins(m: string, kw: string, p: nat) {
    p + |kw| <= |m| && forall i :: p <= i < p + |kw| ==> Same(m[i], kw[i - p])
  }

  predicate PlainWord(m: string, kw: string, p: nat) {
    && PlainBegins(m, kw, p)
    && !(p > 0 && WordLike(m[p - 1]))
    && !(p + |kw| < |m| && WordLike(m[p + |kw|]))
  }

  predicate Capitals(kw: string) {
    kw != "" && forall k :: 0 <= k < |kw| ==> 'A' <= kw[k] <= 'Z'
  }

  lemma MaskedWord(s: string, kw: string, p: nat)
    requires Capitals(kw)
    ensures PlainBegins(Mask(s), kw, p) == Begins(s, kw, p) && PlainWord(Mask(s), kw, p) == Word(s, kw, p)
  {
    var m := Mask(s);
    MaskShadows(s);
    CapitalsAreNoBlanks(kw);
    assert !WordLike(' ') && !WordLike('\n');
    hide Mask, CodeAt, Capitals, Same, WordLike;
    forall i | 0 <= i < |s| ensures m[i] == if CodeAt(s, i) || s[i] == '\n' then s[i] else ' ' { MaskAt(s, i); }
    forall i: nat | CodeAt(s, i) ensures i < |s| { CodeIsInside(s, i); }
    if PlainBegins(m, kw, p) {
      forall i | p <= i < p + |kw| ensures CodeAt(s, i) && Same(s[i], kw[i - p]) { assert Same(m[i], kw[i - p]); }
    }
    if Begins(s, kw, p) {
      forall i | p <= i < p + |kw| ensures Same(m[i], kw[i - p]) { assert CodeAt(s, i) && Same(s[i], kw[i - p]); }
    }
  }

  lemma CapitalsAreNoBlanks(kw: string)
    requires Capitals(kw)
    ensures forall k :: 0 <= k < |kw| ==> !Same(' ', kw[k]) && !Same('\n', kw[k])
  {
  }

  lemma CodeIsInside(s: string, i: nat)
    requires CodeAt(s, i)
    ensures i < |s|
  {
  }

  /** trim() takes a slice out of the text; around it is white space. */
  lemma TrimSlice(m: string) returns (a: nat)
    ensures a + |Trim(m)| <= |m| && Trim(m) == m[a..a + |Trim(m)|]
    ensures forall i :: 0 <= i < a || a + |Trim(m)| <= i < |m| ==> IsSpace(m[i])
    ensures Trim(m) != "" ==> !IsSpace(m[a])
    ensures Trim(m) == "" ==> forall i :: 0 <= i < |m| ==> IsSpace(m[i])
  {
    hide IsSpace;
    a := Leading(m);
    var t := TrimLeft(m);
    var n := |Trim(m)|;
    assert Trim(m) == t[..n];
    forall i | a + n <= i < |m| ensures IsSpace(m[i]) { assert t[n..][i - a - n] == m[i]; }
    if n == 0 && t != "" { NotAllTrimmed(t); }
  }

  lemma NotAllTrimmed(t: string)
    requires t != "" && TrimRight(t) == ""
    ensures IsSpace(t[0])
  {
    hide IsSpace;
    assert t[0..] == t;
  }

  lemma TrimmedWord(m: string, kw: string, a: nat, t: string)
    requires Capitals(kw) && a + |t| <= |m| && t == m[a..a + |t|]
    requires forall i :: 0 <= i < a || a + |t| <= i < |m| ==> IsSpace(m[i])
    ensures forall p: nat :: PlainBegins(t, kw, p) == PlainBegins(m, kw, a + p) && PlainWord(t, kw, p) == PlainWord(m, kw, a + p)
    ensures forall q: nat :: PlainWord(m, kw, q) ==> q >= a
  {
    forall c | IsSpace(c) ensures !WordLike(c) && forall k :: 'A' <= k <= 'Z' ==> !Same(c, k) { }
    hide IsSpace, WordLike, Same;
    forall q: nat | PlainBegins(m, kw, q) ensures q >= a && q + |kw| <= a + |t| {
      assert Same(m[q], kw[q - q]);
      assert Same(m[q + |kw| - 1], kw[q + |kw| - 1 - q]);
    }
    forall p: nat ensures PlainBegins(t, kw, p) == PlainBegins(m, kw, a + p) {
      if PlainBegins(t, kw, p) {
        forall i | a + p <= i < a + p + |kw| ensures Same(m[i], kw[i - (a + p)]) { assert m[i] == t[i - a]; }
      }
    }
  }

  lemma {:induction false} UpperAt(up: char -> string, t: string)
    requires forall i :: 0 <= i < |t| ==> Uppercases(up, t[i])
    ensures |Upper(up, t)| == |t|
    ensures forall i :: 0 <= i < |t| ==> up(t[i]) == [Upper(up, t)[i]]
  {
    hide Uppercases;
    if t != "" {
      assert Uppercases(up, t[0]);
      UpperAt(up, t[1..]);
      assert |up(t[0])| == 1 by { OneUpper(up, t[0]); }
    }
  }

  lemma OneUpper(up: char -> string, c: char)
    requires Uppercases(up, c)
    ensures |up(c)| == 1 && WordLike(up(c)[0]) == WordLike(c)
    ensures forall k :: 'A' <= k <= 'Z' ==> (up(c)[0] == k <==> Same(c, k))
  {
  }

  lemma UpperWord(up: char -> string, t: string, kw: string, p: nat)
    requires Capitals(kw) && forall i :: 0 <= i < |t| ==> Uppercases(up, t[i])
    ensures var x := Upper(up, t);
            StartsAt(x, kw, p) == PlainBegins(t, kw, p) && WordAt(x, kw, p) == PlainWord(t, kw, p)
  {
    var x := Upper(up, t);
    UpperAt(up, t);
    forall i | 0 <= i < |t|
      ensures WordLike(x[i]) == WordLike(t[i]) && forall k :: 'A' <= k <= 'Z' ==> (x[i] == k <==> Same(t[i], k))
    {
      OneUpper(up, t[i]);
    }
    assert forall c :: WordChar(c) == WordLike(c);
    hide WordLike, WordChar, Same, Upper, Uppercases;
    if StartsAt(x, kw, p) {
      forall i | p <= i < p + |kw| ensures Same(t[i], kw[i - p]) { assert x[i] == x[p..p + |kw|][i - p]; }
    }
    if PlainBegins(t, kw, p) {
      forall i | p <= i < p + |kw| ensures x[i] == kw[i - p] { assert Same(t[i], kw[i - p]); }
      assert x[p..p + |kw|] == kw;
    }
  }

  /** The characters of code, and the blanks, are upper-cased as in ASCII. */
  predicate PlainCode(up: char -> string, s: string) {
    && Uppercases(up, ' ') && Uppercases(up, '\n')
    && forall i :: 0 <= i < |s| && CodeAt(s, i) ==> Uppercases(up, s[i])
  }

  /** The code starts at p with a word of a query, or with WITH and holds no word of a mutation. */
  ghost predicate QueryAt(s: string, p: nat) {
    || Word(s, "SELECT", p) || Word(s, "PRAGMA", p) || Word(s, "EXPLAIN", p) || Word(s, "VALUES", p)
    || (Begins(s, "WITH", p)
        && forall q: nat :: !Word(s, "INSERT", q) && !Word(s, "UPDATE", q) && !Word(s, "DELETE", q))
  }

  /** From the matched text back to the statement, for one keyword. */
  lemma WordThere(up: char -> string, s: string, a: nat, t: string, kw: string, p: nat)
    requires Capitals(kw) && a + |t| <= |Mask(s)| && t == Mask(s)[a..a + |t|]
    requires forall i :: 0 <= i < a || a + |t| <= i < |Mask(s)| ==> IsSpace(Mask(s)[i])
    requires forall i :: 0 <= i < |t| ==> Uppercases(up, t[i])
    ensures StartsAt(Upper(up, t), kw, p) == Begins(s, kw, a + p) && WordAt(Upper(up, t), kw, p) == Word(s, kw, a + p)
    ensures Word(s, kw, p) ==> p >= a
    ensures WordAt(Upper(up, t), kw, p) ==> p <= |Upper(up, t)|
  {
    hide Upper, Mask, Word, Begins, WordAt, StartsAt, PlainWord, PlainBegins, Capitals, IsSpace, Uppercases;
    TrimmedWord(Mask(s), kw, a, t);
    UpperWord(up, t, kw, p);
    MaskedWord(s, kw, a + p);
    MaskedWord(s, kw, p);
    WordInside(Upper(up, t), kw, p);
  }

  lemma WordBack(up: char -> string, s: string, a: nat, t: string, kw: string)
    requires Capitals(kw) && a + |t| <= |Mask(s)| && t == Mask(s)[a..a + |t|]
    requires forall i :: 0 <= i < a || a + |t| <= i < |Mask(s)| ==> IsSpace(Mask(s)[i])
    requires forall i :: 0 <= i < |t| ==> Uppercases(up, t[i])
    ensures StartsAt(Upper(up, t), kw, 0) == Begins(s, kw, a) && WordAt(Upper(up, t), kw, 0) == Word(s, kw, a)
    ensures HasWord(Upper(up, t), kw) <==> exists q: nat :: Word(s, kw, q)
  {
    hide Upper, Mask, Word, Begins, WordAt, StartsAt, Capitals, IsSpace, Uppercases;
    var x := Upper(up, t);
    WordThere(up, s, a, t, kw, 0);
    assert a + 0 == a;
    if HasWord(x, kw) {
      var p: nat :| p <= |x| && WordAt(x, kw, p);
      WordThere(up, s, a, t, kw, p);
    } else if q: nat :| Word(s, kw, q) {
      WordThere(up, s, a, t, kw, q);
      assert a + (q - a) == q;
      WordThere(up, s, a, t, kw, q - a);
    }
  }

  lemma WordInside(x: string, kw: string, p: nat)
    ensures WordAt(x, kw, p) ==> p <= |x|
  {
  }

  /** In terms of the statement itself: its code, white space aside, begins with SELECT, PRAGMA,
      EXPLAIN or VALUES as a word, or with WITH while no INSERT, UPDATE or DELETE is a word of its
      code. What stands in literals, quoted names and comments does not count. */
  lemma IsQueryIff(up: char -> string, s: string)
    requires PlainCode(up, s)
    ensures IsQuery(up, s) <==> exists p: nat :: FirstCode(s, p) && QueryAt(s, p)
  {
    hide Mask, FirstCode, QueryAt, Reads, Trim, Upper, IsSpace, Uppercases;
    var t := Trim(Mask(s));
    var a := TrimSlice(Mask(s));
    forall p: nat ensures FirstCode(s, p) <==> t != "" && p == a { FirstCodeIs(s, a, t, p); }
    PlainTrimmed(up, s, a, t);
    VerdictAt(up, s, a, t);
    if t == "" { NothingIsRead(up); }
  }

  lemma FirstCodeIs(s: string, a: nat, t: string, p: nat)
    requires a + |t| <= |Mask(s)|
    requires forall i :: 0 <= i < a || a + |t| <= i < |Mask(s)| ==> IsSpace(Mask(s)[i])
    requires t != "" ==> !IsSpace(Mask(s)[a])
    ensures FirstCode(s, p) <==> t != "" && p == a
  {
    var m := Mask(s);
    MaskShadows(s);
    assert |m| == |s|;
    assert IsSpace(' ') && IsSpace('\n') by { BlanksAreSpace(); }
    hide Mask, CodeAt, IsSpace, Shadows;
    forall i | 0 <= i < |s| ensures m[i] == if CodeAt(s, i) || s[i] == '\n' then s[i] else ' ' { MaskAt(s, i); }
    forall i: nat | CodeAt(s, i) ensures i < |s| { CodeIsInside(s, i); }
  }

  lemma PlainTrimmed(up: char -> string, s: string, a: nat, t: string)
    requires PlainCode(up, s) && a + |t| <= |Mask(s)| && t == Mask(s)[a..a + |t|]
    ensures forall i :: 0 <= i < |t| ==> Uppercases(up, t[i])
  {
    MaskShadows(s);
    hide Mask, CodeAt, Uppercases;
    forall i | 0 <= i < |t| ensures Uppercases(up, t[i]) { MaskAt(s, a + i); }
  }

  lemma VerdictAt(up: char -> string, s: string, a: nat, t: string)
    requires a + |t| <= |Mask(s)| && t == Mask(s)[a..a + |t|]
    requires forall i :: 0 <= i < a || a + |t| <= i < |Mask(s)| ==> IsSpace(Mask(s)[i])
    requires forall i :: 0 <= i < |t| ==> Uppercases(up, t[i])
    ensures Reads(Upper(up, t)) <==> QueryAt(s, a)
  {
    AllCapitals();
    hide Mask, Upper, IsSpace, Uppercases, Word, Begins, StartsAt, WordAt, HasWord, Capitals;
    WordBack(up, s, a, t, "SELECT");
    WordBack(up, s, a, t, "PRAGMA");
    WordBack(up, s, a, t, "EXPLAIN");
    WordBack(up, s, a, t, "VALUES");
    WordBack(up, s, a, t, "WITH");
    WordBack(up, s, a, t, "INSERT");
    WordBack(up, s, a, t, "UPDATE");
    WordBack(up, s, a, t, "DELETE");
  }

  lemma BlanksAreSpace()
    ensures IsSpace(' ') && IsSpace('\n')
  {
  }

  lemma AllCapitals()
    ensures Capitals("SELECT") && Capitals("PRAGMA") && Capitals("EXPLAIN") && Capitals("VALUES") && Capitals("WITH")
    ensures Capitals("INSERT") && Capitals("UPDATE") && Capitals("DELETE")
  {
  }

  lemma NothingIsRead(up: char -> string)
    ensures !Reads(Upper(up, ""))
  {
  }

  /** No word counts that touches a whole literal or comment. */
  lemma HiddenIsNoCode(pre: string, tok: string, post: string, i: nat)
    requires Literal(tok, post) && Reaches(pre + tok + post, |pre|) && |pre| <= i < |pre + tok|
    ensures !CodeAt(pre + tok + post, i)
  {
    hide Head, Reaches, CodeAt;
    var s := pre + tok + post;
    assert s[|pre|..] == tok + post;
    ReachesInside(s, |pre|, i, tok + post);
  }

  lemma {:induction false} ReachesInside(s: string, n: nat, i: nat, end: string)
    requires n <= i < |s| && Reaches(s, n) && end == s[n..] && Head(end).Other? && i < n + Head(end).len
    ensures !CodeAt(s, i)
    decreases |s|
  {
    hide Head, CodeAt, Reaches;
    if n > 0 {
      HeadFits(s, n);
      var w := Width(Head(s));
      DropTwice(s, w, n);
      ReachesOn(s, n, s[w..]);
      ReachesInside(s[w..], n - w, i - w, end);
      CodeBeyond(s, i);
    } else {
      assert end == s;
      CodeWithin(s, i);
    }
  }
}
