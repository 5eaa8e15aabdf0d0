/** The string operations the scripts lean on, as JavaScript defines them: trim, split
    on '\n', and the pattern that reads a line of a .env file. */
module Text {
  import opened Prelude

  /** \s, and what trim() strips */
  predicate IsSpace(c: char) {
    var n := c as int;
    || 9 <= n <= 13 || n == 32 || n == 0xA0 || n == 0x1680 || 0x2000 <= n <= 0x200A
    || n == 0x2028 || n == 0x2029 || n == 0x202F || n == 0x205F || n == 0x3000 || n == 0xFEFF
  }

  /** What `.` does not match. */
  predicate EndsLine(c: char) {
    var n := c as int;
    n == 10 || n == 13 || n == 0x2028 || n == 0x2029
  }

  predicate Blank(s: string) {
    forall i :: 0 <= i < |s| ==> IsSpace(s[i])
  }

  predicate SingleLine(s: string) {
    forall i :: 0 <= i < |s| ==> !EndsLine(s[i])
  }

  function Leading(s: string): (k: nat)
    ensures k <= |s| && forall i :: 0 <= i < k ==> IsSpace(s[i])
    ensures k < |s| ==> !IsSpace(s[k])
  {
    if s == "" || !IsSpace(s[0]) then 0
    else
      var k := Leading(s[1..]);
      assert forall i :: 0 < i < 1 + k ==> s[i] == s[1..][i - 1];
      1 + k
  }

  function TrimLeft(s: string): string {
    s[Leading(s)..]
  }

  function TrimRight(s: string): (r: string)
    ensures r <= s && Blank(s[|r|..])
    ensures r != "" ==> !IsSpace(r[|r| - 1])
  {
    if s == "" || !IsSpace(s[|s| - 1]) then s else TrimRight(s[..|s| - 1])
  }

  function Trim(s: string): string {
    TrimRight(TrimLeft(s))
  }

  /** A line as parseDirectives keeps it: trimmed and not empty. */
  predicate Trimmed(s: string) {
    s != "" && !IsSpace(s[0]) && !IsSpace(s[|s| - 1])
  }

  lemma LeadingIs(s: string, k: nat)
    requires k <= |s| && (forall i :: 0 <= i < k ==> IsSpace(s[i])) && (k < |s| ==> !IsSpace(s[k]))
    ensures Leading(s) == k
  {
  }

  /** Indenting a trimmed line does not change what it trims to. */
  lemma TrimIndented(indent: string, s: string)
    requires Blank(indent) && Trimmed(s)
    ensures Trim(indent + s) == s
  {
    LeadingIs(indent + s, |indent|);
    assert TrimLeft(indent + s) == s;
  }

  lemma TrimOfTrimmed(s: string)
    requires Trimmed(s)
    ensures Trim(s) == s
  {
    assert "" + s == s;
    TrimIndented("", s);
  }

  /** s.split('\n') */
  function Split(s: string): (r: seq<string>)
    ensures |r| > 0
    ensures forall i :: 0 <= i < |r| ==> '\n' !in r[i]
  {
    if s == "" then [""]
    else
      var rest := Split(s[1..]);
      if s[0] == '\n' then [""] + rest else [[s[0]] + rest[0]] + rest[1..]
  }

  lemma {:induction false} SplitSingle(s: string)
    requires '\n' !in s
    ensures Split(s) == [s]
  {
    if s != "" {
      assert forall c | c in s[1..] :: c in s;
      SplitSingle(s[1..]);
      assert s == [s[0]] + s[1..];
    }
  }

  /** What comes before the first line break joins the first line. */
  lemma {:induction false} SplitAfter(p: string, s: string)
    requires '\n' !in p
    ensures Split(p + s) == [p + Split(s)[0]] + Split(s)[1..]
  {
    if p == "" {
      assert p + s == s && "" + Split(s)[0] == Split(s)[0];
    } else {
      assert p[0] in p && (forall c | c in p[1..] :: c in p);
      SplitAfter(p[1..], s);
      assert (p + s)[1..] == p[1..] + s && (p + s)[0] == p[0];
      assert [p[0]] + (p[1..] + Split(s)[0]) == p + Split(s)[0];
      assert ([p[1..] + Split(s)[0]] + Split(s)[1..])[1..] == Split(s)[1..];
    }
  }

  function Join(lines: seq<string>): string {
    if lines == [] then ""
    else if |lines| == 1 then lines[0]
    else lines[0] + "\n" + Join(lines[1..])
  }

  lemma {:induction false} JoinConcat(a: seq<string>, b: seq<string>)
    requires a != [] && b != []
    ensures Join(a + b) == Join(a) + "\n" + Join(b)
  {
    if |a| == 1 {
      assert (a + b)[1..] == b;
    } else {
      assert (a + b)[1..] == a[1..] + b;
      JoinConcat(a[1..], b);
      var rest := Join(a[1..]);
      assert a[0] + "\n" + (rest + "\n" + Join(b)) == (a[0] + "\n" + rest) + "\n" + Join(b);
    }
  }

  lemma {:induction false} JoinOfSplit(s: string)
    ensures Join(Split(s)) == s
  {
    if s != "" {
      var rest := Split(s[1..]);
      JoinOfSplit(s[1..]);
      if s[0] == '\n' {
        JoinConcat([""], rest);
      } else if |rest| > 1 {
        assert ([[s[0]] + rest[0]] + rest[1..])[1..] == rest[1..];
      }
    }
  }

  predicate IdentChar(c: char) {
    'A' <= c <= 'Z' || 'a' <= c <= 'z' || '0' <= c <= '9' || c == '_'
  }

  /** [A-Za-z_][A-Za-z0-9_]* */
  predicate Ident(s: string) {
    && s != "" && !('0' <= s[0] <= '9')
    && forall i :: 0 <= i < |s| ==> IdentChar(s[i])
  }

  function IdentLen(s: string): (k: nat)
    ensures k <= |s|
    ensures forall i :: 0 <= i < k ==> IdentChar(s[i])
    ensures k < |s| ==> !IdentChar(s[k])
  {
    if s == "" || !IdentChar(s[0]) then 0
    else
      var k := IdentLen(s[1..]);
      assert forall i :: 0 < i < 1 + k ==> s[i] == s[1..][i - 1];
      1 + k
  }

  /** The rest of a .env line after its key: the value's text when it starts with '='. */
  function AfterKey(rest: string): Option<string> {
    var b := TrimLeft(rest);
    if b == "" || b[0] != '=' then None else Some(b[1..])
  }

  predicate Settles(value: string) {
    SingleLine(value) && !Blank(value)
  }

  /** The key that a .env line sets to a non-blank value: the match of
      ^\s*([A-Za-z_][A-Za-z0-9_]*)\s*=(.*)$ whose second group does not trim to "". */
  function EnvKey(line: string): Option<string> {
    var a := TrimLeft(line);
    var n := IdentLen(a);
    var v := AfterKey(a[n..]);
    if n == 0 || '0' <= a[0] <= '9' || v == None || !Settles(v.value) then None else Some(a[..n])
  }

  lemma EmptyLineSetsNothing()
    ensures EnvKey("") == None
  {
    assert IdentLen("") == 0;
  }

  lemma AfterKeyOf(tail: string, value: string)
    requires '=' !in tail && (tail == "" || !IsSpace(tail[|tail| - 1]))
    ensures AfterKey(tail + "=" + value) == if tail == "" then Some(value) else None
  {
    var rest := tail + "=" + value;
    var k := Leading(tail);
    assert k == |tail| ==> tail == "";
    assert forall i :: 0 <= i < |tail| ==> rest[i] == tail[i];
    assert rest[|tail|] == '=' && rest[|tail| + 1..] == value;
    if tail == "" {
      assert !IsSpace('=');
      LeadingIs(rest, 0);
    } else {
      LeadingIs(rest, k);
      assert rest[k] in tail;
    }
  }

  lemma IdentLenOf(key: string, value: string)
    requires '=' !in key
    ensures IdentLen(key + "=" + value) == IdentLen(key)
  {
    var line := key + "=" + value;
    var n := IdentLen(key);
    assert forall i :: 0 <= i < |key| ==> line[i] == key[i];
    assert line[|key|] == '=';
    assert !IdentChar(line[n]);
  }

  /** What the line KEY=value sets, for a trimmed key and any value. */
  lemma EnvKeyOfAssignment(key: string, value: string)
    requires '=' !in key && (key == "" || Trimmed(key))
    ensures EnvKey(key + "=" + value) == if Ident(key) && Settles(value) then Some(key) else None
  {
    var line := key + "=" + value;
    assert line[0] == if key == "" then '=' else key[0];
    assert !IsSpace('=');
    LeadingIs(line, 0);
    var n := IdentLen(key);
    IdentLenOf(key, value);
    assert line[n..] == key[n..] + "=" + value;
    AfterKeyOf(key[n..], value);
    assert line[..n] == key[..n];
    assert n < |key| ==> !IdentChar(key[n]);
    assert n == |key| ==> key[..n] == key;
  }

  predicate Contains(s: string, sub: string) {
    |sub| <= |s| && (s[..|sub|] == sub || (s != "" && Contains(s[1..], sub)))
  }

  predicate Occurs(s: string, sub: string, i: nat) {
    i + |sub| <= |s| && s[i..i + |sub|] == sub
  }

  /** includes() */
  lemma {:induction false} ContainsIff(s: string, sub: string)
    ensures Contains(s, sub) <==> exists i: nat :: Occurs(s, sub, i)
  {
    if |sub| <= |s| {
      assert s[0..0 + |sub|] == s[..|sub|];
      assert Occurs(s, sub, 0) <==> s[..|sub|] == sub;
      if s != "" {
        ContainsIff(s[1..], sub);
        if i: nat :| Occurs(s[1..], sub, i) {
          assert s[i + 1..i + 1 + |sub|] == s[1..][i..i + |sub|];
          assert Occurs(s, sub, i + 1);
        }
        if i: nat :| Occurs(s, sub, i) && i > 0 {
          assert s[1..][i - 1..i - 1 + |sub|] == s[i..i + |sub|];
          assert Occurs(s[1..], sub, i - 1);
        }
      }
    }
  }
}
