/** scripts/run-migrations.ts: the order on versions, and which migrations an upgrade runs. */
module Migrations {
  import opened Prelude

  /** A version split on '.'; None is a part that is no number. */
  type Version = seq<Option<int>>

  /** parts[i] || 0 */
  function At(v: Version, i: nat): int {
    if i < |v| && v[i].Some? then v[i].value else 0
  }

  function MaxLen(a: Version, b: Version): nat {
    if |a| >= |b| then |a| else |b|
  }

  /** The first difference from part i on. */
  function CompareFrom(a: Version, b: Version, i: nat): int
    decreases MaxLen(a, b) - i
  {
    if i >= MaxLen(a, b) then 0
    else if At(a, i) != At(b, i) then At(a, i) - At(b, i)
    else CompareFrom(a, b, i + 1)
  }

  function Compare(a: Version, b: Version): int { CompareFrom(a, b, 0) }

  method CompareSemver(a: Version, b: Version) returns (r: int)
    ensures r == Compare(a, b)
  {
    var i := 0;
    while i < MaxLen(a, b)
      invariant 0 <= i <= MaxLen(a, b)
      invariant CompareFrom(a, b, i) == Compare(a, b)
    {
      var diff := At(a, i) - At(b, i);
      if diff != 0 { return diff; }
      i := i + 1;
    }
    return 0;
  }

  // ---- The order --------------------------------------------------------------

  /** Equal once padded with zeros. */
  ghost predicate SameVersion(a: Version, b: Version) {
    forall i: nat {:trigger At(a, i)} :: At(a, i) == At(b, i)
  }

  /** Smaller at the first part where they differ. */
  predicate SmallerAt(a: Version, b: Version, i: nat) {
    At(a, i) < At(b, i) && forall j: nat :: j < i ==> At(a, j) == At(b, j)
  }

  lemma {:induction false} CompareFromMeaning(a: Version, b: Version, i: nat)
    requires forall j: nat :: j < i ==> At(a, j) == At(b, j)
    ensures CompareFrom(a, b, i) == 0 <==> SameVersion(a, b)
    ensures CompareFrom(a, b, i) < 0 <==> exists k: nat :: SmallerAt(a, b, k)
    decreases MaxLen(a, b) - i
  {
    if i >= MaxLen(a, b) {
      forall k: nat ensures At(a, k) == At(b, k) { }
    } else if At(a, i) != At(b, i) {
      if At(a, i) < At(b, i) { assert SmallerAt(a, b, i); }
      if k: nat :| SmallerAt(a, b, k) { assert k <= i; }
    } else {
      CompareFromMeaning(a, b, i + 1);
    }
  }

  lemma CompareMeaning(a: Version, b: Version)
    ensures Compare(a, b) == 0 <==> SameVersion(a, b)
    ensures Compare(a, b) < 0 <==> exists k: nat :: SmallerAt(a, b, k)
    ensures Compare(a, b) > 0 <==> exists k: nat :: SmallerAt(b, a, k)
  {
    CompareFromMeaning(a, b, 0);
    CompareFromMeaning(b, a, 0);
    Flips(a, b, 0);
  }

  lemma Flips(a: Version, b: Version, i: nat)
    ensures CompareFrom(a, b, i) == -CompareFrom(b, a, i)
    decreases MaxLen(a, b) - i
  {
    if i < MaxLen(a, b) && At(a, i) == At(b, i) { Flips(a, b, i + 1); }
  }

  /** a total preorder: total by its sign, and transitive */
  lemma CompareIsPreorder(a: Version, b: Version, c: Version)
    ensures Compare(a, a) == 0 && Compare(a, b) == -Compare(b, a)
    ensures Compare(a, b) <= 0 && Compare(b, c) <= 0 ==> Compare(a, c) <= 0
    ensures Compare(a, b) <= 0 && Compare(b, c) < 0 ==> Compare(a, c) < 0
    ensures Compare(a, b) < 0 && Compare(b, c) <= 0 ==> Compare(a, c) < 0
  {
    Flips(a, b, 0);
    Flips(a, a, 0);
    CompareMeaning(a, b);
    CompareMeaning(b, c);
    CompareMeaning(a, c);
    hide CompareFrom;
    if Compare(a, b) <= 0 && Compare(b, c) <= 0 {
      if Compare(a, b) < 0 && Compare(b, c) < 0 {
        var i: nat :| SmallerAt(a, b, i);
        var k: nat :| SmallerAt(b, c, k);
        assert SmallerAt(a, c, if i <= k then i else k);
      } else if Compare(a, b) < 0 {
        var i: nat :| SmallerAt(a, b, i);
        forall j: nat ensures At(b, j) == At(c, j) { }
        assert SmallerAt(a, c, i);
      } else if Compare(b, c) < 0 {
        var k: nat :| SmallerAt(b, c, k);
        assert SmallerAt(a, c, k);
      }
    }
  }

  /** The sign of c says: a0.a1.a2 comes before b0.b1.b2, is the same, or comes after. */
  predicate Orders(c: int, a0: int, a1: int, a2: int, b0: int, b1: int, b2: int) {
    && (c < 0 <==> a0 < b0 || (a0 == b0 && (a1 < b1 || (a1 == b1 && a2 < b2))))
    && (c == 0 <==> a0 == b0 && a1 == b1 && a2 == b2)
  }

  /** Three numbers compare as numbers, the first one first. */
  lemma ThreeParts(a0: int, a1: int, a2: int, b0: int, b1: int, b2: int)
    ensures Orders(Compare([Some(a0), Some(a1), Some(a2)], [Some(b0), Some(b1), Some(b2)]), a0, a1, a2, b0, b1, b2)
  {
    var a, b := [Some(a0), Some(a1), Some(a2)], [Some(b0), Some(b1), Some(b2)];
    assert CompareFrom(a, b, 3) == 0;
    assert CompareFrom(a, b, 2) == a2 - b2;
    assert CompareFrom(a, b, 1) == if a1 != b1 then a1 - b1 else a2 - b2;
  }

  /** A part that is missing or no number counts as zero. */
  lemma NoNumberIsZero(v: Version, w: Version, i: nat)
    requires i < |v| && v[i] == None
    ensures Compare(v, w) == Compare(v[i := Some(0)], w) && Compare(w, v) == Compare(w, v[i := Some(0)])
    ensures Compare(v, v + [None]) == 0 && Compare(v, v + [Some(0)]) == 0
  {
    SameReads(v, v[i := Some(0)], w, 0);
    CompareFromMeaning(v, v + [None], 0);
    CompareFromMeaning(v, v + [Some(0)], 0);
  }

  lemma {:induction false} SameReads(v: Version, u: Version, w: Version, i: nat)
    requires |u| == |v| && forall j: nat :: At(u, j) == At(v, j)
    ensures CompareFrom(v, w, i) == CompareFrom(u, w, i) && CompareFrom(w, v, i) == CompareFrom(w, u, i)
    decreases MaxLen(v, w) - i
  {
    if i < MaxLen(v, w) { SameReads(v, u, w, i + 1); }
  }

  // ---- Selection --------------------------------------------------------------

  /** A directory and the numbers its name reads as: 01.0.0 and 1.0.0 are two with one version. */
  datatype Dir = Dir(name: string, version: Version)

  /** After `from`, up to and including `to`. */
  function Between(dirs: seq<Dir>, from: Version, to: Version): seq<Dir> {
    if dirs == [] then []
    else
      (if Compare(dirs[0].version, from) > 0 && Compare(dirs[0].version, to) <= 0 then [dirs[0]] else [])
      + Between(dirs[1..], from, to)
  }

  /** x before the first element that is not smaller. */
  function Insert(x: Dir, s: seq<Dir>): seq<Dir> {
    if s == [] || Compare(x.version, s[0].version) <= 0 then [x] + s else [s[0]] + Insert(x, s[1..])
  }

  /** sort(compareSemver), which JavaScript does stably. */
  function Sort(s: seq<Dir>): seq<Dir> {
    if s == [] then [] else Insert(s[0], Sort(s[1..]))
  }

  function Select(dirs: seq<Dir>, from: Version, to: Version): seq<Dir> {
    Sort(Between(dirs, from, to))
  }

  predicate Sorted(s: seq<Dir>) {
    forall i, j :: 0 <= i < j < |s| ==> Compare(s[i].version, s[j].version) <= 0
  }

  /** The directories of s that tie with k, in order. */
  function Ties(s: seq<Dir>, k: Version): seq<Dir> {
    if s == [] then [] else (if Compare(s[0].version, k) == 0 then [s[0]] else []) + Ties(s[1..], k)
  }

  /** r is s sorted, ties in their old order; this also makes it a rearrangement of s. */
  ghost predicate StableSortOf(s: seq<Dir>, r: seq<Dir>) {
    Sorted(r) && forall k {:trigger Ties(r, k)} {:trigger Ties(s, k)} :: Ties(r, k) == Ties(s, k)
  }

  lemma {:induction false} InsertIn(x: Dir, s: seq<Dir>)
    ensures forall v :: v in Insert(x, s) <==> v == x || v in s
  {
    if s != [] && Compare(x.version, s[0].version) > 0 {
      InsertIn(x, s[1..]);
      assert s == [s[0]] + s[1..];
    }
  }

  lemma {:induction false} InsertSorted(x: Dir, s: seq<Dir>)
    requires Sorted(s)
    ensures Sorted(Insert(x, s))
  {
    if s == [] {
    } else if Compare(x.version, s[0].version) <= 0 {
      forall j | 0 <= j < |s| ensures Compare(x.version, s[j].version) <= 0 {
        CompareIsPreorder(x.version, s[0].version, s[j].version);
        CompareIsPreorder(s[0].version, s[0].version, s[0].version);
      }
    } else {
      var rest := Insert(x, s[1..]);
      InsertSorted(x, s[1..]);
      InsertIn(x, s[1..]);
      CompareIsPreorder(x.version, s[0].version, s[0].version);
      forall j | 0 <= j < |rest| ensures Compare(s[0].version, rest[j].version) <= 0 {
        assert rest[j] in rest;
        if rest[j] != x {
          var i :| 0 <= i < |s[1..]| && s[1..][i] == rest[j];
          assert s[i + 1] == rest[j];
        }
      }
    }
  }

  function Tie(x: Dir, k: Version): seq<Dir> {
    if Compare(x.version, k) == 0 then [x] else []
  }

  lemma TiesCons(x: Dir, s: seq<Dir>, k: Version)
    ensures Ties([x] + s, k) == Tie(x, k) + Ties(s, k)
  {
    hide Compare;
    assert ([x] + s)[1..] == s;
  }

  /** Of two that differ one at most ties with k. */
  lemma OneTies(x: Dir, y: Dir, k: Version)
    requires Compare(x.version, y.version) > 0
    ensures Tie(x, k) == [] || Tie(y, k) == []
  {
    CompareIsPreorder(x.version, k, y.version);
    CompareIsPreorder(y.version, k, x.version);
    CompareIsPreorder(k, y.version, x.version);
    hide Compare;
  }

  lemma Swap(g: seq<Dir>, h: seq<Dir>, rest: seq<Dir>)
    requires g == [] || h == []
    ensures h + (g + rest) == g + (h + rest)
  {
    if g == [] { assert g + rest == rest && g + (h + rest) == h + rest; }
    if h == [] { assert h + rest == rest && h + (g + rest) == g + rest; }
  }

  lemma {:induction false} InsertTies(x: Dir, s: seq<Dir>, k: Version)
    ensures Ties(Insert(x, s), k) == Tie(x, k) + Ties(s, k)
  {
    hide Compare, Ties, Tie;
    if s == [] || Compare(x.version, s[0].version) <= 0 {
      TiesCons(x, s, k);
    } else {
      var y, tail := s[0], s[1..];
      assert s == [y] + tail;
      TiesCons(y, tail, k);
      TiesCons(y, Insert(x, tail), k);
      InsertTies(x, tail, k);
      OneTies(x, y, k);
      Swap(Tie(x, k), Tie(y, k), Ties(tail, k));
    }
  }

  lemma {:induction false} SortIsStable(s: seq<Dir>)
    ensures StableSortOf(s, Sort(s))
  {
    if s != [] {
      SortIsStable(s[1..]);
      InsertSorted(s[0], Sort(s[1..]));
      forall k ensures Ties(Sort(s), k) == Ties(s, k) { InsertTies(s[0], Sort(s[1..]), k); }
    }
  }

  lemma TieIn(s: seq<Dir>, k: Version)
    ensures Ties(s, k) != [] ==> exists i :: 0 <= i < |s| && Compare(s[i].version, k) == 0
    ensures forall i :: 0 <= i < |s| && Compare(s[i].version, k) == 0 ==> Ties(s, k) != []
  {
    if s != [] {
      TieIn(s[1..], k);
      assert forall i :: 0 < i < |s| ==> s[i] == s[1..][i - 1];
      if i :| 0 <= i < |s[1..]| && Compare(s[1..][i].version, k) == 0 { assert Compare(s[i + 1].version, k) == 0; }
    }
  }

  /** Two stable sorts begin alike. */
  lemma SameHead(r: seq<Dir>, r': seq<Dir>)
    requires Sorted(r) && Sorted(r') && r != [] && r' != []
    requires forall k {:trigger Ties(r, k)} {:trigger Ties(r', k)} :: Ties(r, k) == Ties(r', k)
    ensures r[0] == r'[0]
  {
    CompareIsPreorder(r[0].version, r'[0].version, r[0].version);
    CompareIsPreorder(r'[0].version, r[0].version, r'[0].version);
    hide Compare;
    TieIn(r, r[0].version);
    TieIn(r', r[0].version);
    TieIn(r, r'[0].version);
    TieIn(r', r'[0].version);
    assert Ties(r', r[0].version) == Ties(r, r[0].version) && Ties(r', r'[0].version) == Ties(r, r'[0].version);
    var i :| 0 <= i < |r'| && Compare(r'[i].version, r[0].version) == 0;
    var j :| 0 <= j < |r| && Compare(r[j].version, r'[0].version) == 0;
    MinimalTie(r, r', i, j);
    assert Ties(r, r[0].version)[0] == r[0];
    assert Ties(r', r[0].version)[0] == r'[0];
  }

  lemma MinimalTie(r: seq<Dir>, r': seq<Dir>, i: nat, j: nat)
    requires Sorted(r) && Sorted(r') && i < |r'| && j < |r| && r != [] && r' != []
    requires Compare(r'[i].version, r[0].version) == 0 && Compare(r[j].version, r'[0].version) == 0
    ensures Compare(r'[0].version, r[0].version) == 0
  {
    CompareIsPreorder(r'[0].version, r'[i].version, r[0].version);
    CompareIsPreorder(r[0].version, r[j].version, r'[0].version);
    CompareIsPreorder(r[0].version, r'[0].version, r[0].version);
    CompareIsPreorder(r[j].version, r'[0].version, r[0].version);
    CompareIsPreorder(r'[i].version, r[0].version, r'[0].version);
  }

  lemma Cancel(h: seq<Dir>, x: seq<Dir>, y: seq<Dir>)
    requires h + x == h + y
    ensures x == y
  {
    assert (h + x)[|h|..] == x && (h + y)[|h|..] == y;
  }

  /** So any stable sort gives the sequence of Sort. */
  lemma {:induction false} StableSortUnique(r: seq<Dir>, r': seq<Dir>)
    requires Sorted(r) && Sorted(r')
    requires forall k {:trigger Ties(r, k)} {:trigger Ties(r', k)} :: Ties(r, k) == Ties(r', k)
    ensures r == r'
    decreases |r|
  {
    if r == [] || r' == [] {
      hide Compare;
      if r != [] { CompareIsPreorder(r[0].version, r[0].version, r[0].version); TieIn(r, r[0].version); }
      if r' != [] { CompareIsPreorder(r'[0].version, r'[0].version, r'[0].version); TieIn(r', r'[0].version); }
    } else {
      SameHead(r, r');
      hide Compare;
      forall k ensures Ties(r[1..], k) == Ties(r'[1..], k) {
        assert Ties(r, k) == Ties(r', k);
        var h := if Compare(r[0].version, k) == 0 then [r[0]] else [];
        Cancel(h, Ties(r[1..], k), Ties(r'[1..], k));
      }
      StableSortUnique(r[1..], r'[1..]);
      assert r == [r[0]] + r[1..] && r' == [r'[0]] + r'[1..];
    }
  }

  lemma SelectIsTheStableSort(dirs: seq<Dir>, from: Version, to: Version, r: seq<Dir>)
    ensures r == Select(dirs, from, to) <==> StableSortOf(Between(dirs, from, to), r)
  {
    SortIsStable(Between(dirs, from, to));
    if StableSortOf(Between(dirs, from, to), r) {
      hide Sorted, Sort;
      forall k ensures Ties(r, k) == Ties(Select(dirs, from, to), k) {
        assert Ties(r, k) == Ties(Between(dirs, from, to), k);
      }
      StableSortUnique(r, Select(dirs, from, to));
    }
  }

  /** Two directories of one version run in directory order, whichever that is. */
  lemma TiesKeepDirectoryOrder(x: Dir, y: Dir, from: Version, to: Version)
    requires Compare(x.version, y.version) == 0
    requires Compare(x.version, from) > 0 && Compare(x.version, to) <= 0
    ensures Select([x, y], from, to) == [x, y] && Select([y, x], from, to) == [y, x]
  {
    CompareIsPreorder(x.version, y.version, from);
    CompareIsPreorder(from, x.version, y.version);
    CompareIsPreorder(from, y.version, x.version);
    CompareIsPreorder(y.version, x.version, to);
    CompareIsPreorder(y.version, from, y.version);
    CompareIsPreorder(x.version, from, x.version);
    CompareIsPreorder(y.version, x.version, y.version);
    assert Compare(y.version, from) > 0 && Compare(y.version, to) <= 0 && Compare(y.version, x.version) == 0;
    hide Compare;
    assert [x, y][1..] == [y] && [y, x][1..] == [x] && [x][1..] == [] && [y][1..] == [];
    AloneBetween(x, from, to);
    AloneBetween(y, from, to);
    assert Between([x, y], from, to) == [x] + [y] && Between([y, x], from, to) == [y] + [x];
  }

  lemma AloneBetween(x: Dir, from: Version, to: Version)
    requires Compare(x.version, from) > 0 && Compare(x.version, to) <= 0
    ensures Between([x], from, to) == [x] && Sort([x]) == [x]
  {
    assert [x][1..] == [];
    hide Compare;
    assert Between([x][1..], from, to) == [] && Sort([x][1..]) == [];
  }

  // ---- Composition ------------------------------------------------------------

  /** Everything in s is at most b, or everything is above it. */
  predicate AtMost(s: seq<Dir>, b: Version) { forall i :: 0 <= i < |s| ==> Compare(s[i].version, b) <= 0 }
  predicate Above(s: seq<Dir>, b: Version) { forall i :: 0 <= i < |s| ==> Compare(s[i].version, b) > 0 }

  lemma {:induction false} InsertLow(x: Dir, lo: seq<Dir>, hi: seq<Dir>, b: Version)
    requires Compare(x.version, b) <= 0 && Above(hi, b)
    ensures Insert(x, lo + hi) == Insert(x, lo) + hi
  {
    if lo == [] {
      assert lo + hi == hi;
      if hi != [] { CompareIsPreorder(b, hi[0].version, b); CompareIsPreorder(x.version, b, hi[0].version); }
    } else if Compare(x.version, lo[0].version) <= 0 {
      assert [x] + (lo + hi) == ([x] + lo) + hi;
    } else {
      InsertLow(x, lo[1..], hi, b);
      assert (lo + hi)[1..] == lo[1..] + hi;
      assert [lo[0]] + (Insert(x, lo[1..]) + hi) == ([lo[0]] + Insert(x, lo[1..])) + hi;
    }
  }

  lemma {:induction false} InsertHigh(x: Dir, lo: seq<Dir>, hi: seq<Dir>, b: Version)
    requires Compare(x.version, b) > 0 && AtMost(lo, b)
    ensures Insert(x, lo + hi) == lo + Insert(x, hi)
  {
    if lo == [] {
      assert lo + hi == hi;
    } else {
      CompareIsPreorder(b, x.version, b);
      CompareIsPreorder(lo[0].version, b, x.version);
      CompareIsPreorder(lo[0].version, x.version, b);
      hide Compare;
      InsertHigh(x, lo[1..], hi, b);
      assert (lo + hi)[1..] == lo[1..] + hi;
      assert [lo[0]] + (lo[1..] + Insert(x, hi)) == lo + Insert(x, hi);
    }
  }

  lemma {:induction false} SortKeepsBounds(s: seq<Dir>, b: Version)
    ensures AtMost(s, b) ==> AtMost(Sort(s), b)
    ensures Above(s, b) ==> Above(Sort(s), b)
  {
    if s != [] {
      SortKeepsBounds(s[1..], b);
      InsertIn(s[0], Sort(s[1..]));
      hide Compare, Sort, Insert;
      assert forall i :: 0 <= i < |s[1..]| ==> s[1..][i] == s[i + 1];
      var r := Sort(s);
      assert r == Insert(s[0], Sort(s[1..])) by { SortStep(s); }
      forall i | 0 <= i < |r|
        ensures AtMost(s, b) ==> Compare(r[i].version, b) <= 0
        ensures Above(s, b) ==> Compare(r[i].version, b) > 0
      {
        assert r[i] in r;
      }
    }
  }

  lemma SortStep(s: seq<Dir>)
    requires s != []
    ensures Sort(s) == Insert(s[0], Sort(s[1..]))
  {
  }

  lemma {:induction false} BetweenBounds(dirs: seq<Dir>, from: Version, to: Version)
    ensures AtMost(Between(dirs, from, to), to) && Above(Between(dirs, from, to), from)
  {
    if dirs != [] { BetweenBounds(dirs[1..], from, to); }
  }

  /** Upgrading from a to b and then from b to c runs the same migrations, in the same order,
      as upgrading from a to c; ties included. */
  lemma {:induction false} SelectComposes(dirs: seq<Dir>, a: Version, b: Version, c: Version)
    requires Compare(a, b) <= 0 && Compare(b, c) <= 0
    ensures Select(dirs, a, c) == Select(dirs, a, b) + Select(dirs, b, c)
  {
    if dirs != [] {
      var x, rest := dirs[0], dirs[1..];
      SelectComposes(rest, a, b, c);
      var lo, hi := Select(rest, a, b), Select(rest, b, c);
      BetweenBounds(rest, a, b);
      BetweenBounds(rest, b, c);
      SortKeepsBounds(Between(rest, a, b), b);
      SortKeepsBounds(Between(rest, b, c), b);
      CompareIsPreorder(x.version, b, c);
      CompareIsPreorder(a, b, x.version);
      CompareIsPreorder(b, x.version, b);
      CompareIsPreorder(a, x.version, a);
      BetweenStep(dirs, a, c);
      BetweenStep(dirs, a, b);
      BetweenStep(dirs, b, c);
      hide Compare, Between, Sort, Insert, Above, AtMost;
      if Compare(x.version, a) > 0 && Compare(x.version, b) <= 0 {
        InsertLow(x, lo, hi, b);
      } else if Compare(x.version, b) > 0 && Compare(x.version, c) <= 0 {
        InsertHigh(x, lo, hi, b);
      }
    }
  }

  lemma BetweenStep(dirs: seq<Dir>, from: Version, to: Version)
    requires dirs != []
    ensures var x, rest := dirs[0], Select(dirs[1..], from, to);
            Select(dirs, from, to) ==
            if Compare(x.version, from) > 0 && Compare(x.version, to) <= 0 then Insert(x, rest) else rest
  {
    hide Compare, Insert;
    var tail := Between(dirs[1..], from, to);
    if Compare(dirs[0].version, from) > 0 && Compare(dirs[0].version, to) <= 0 {
      assert Between(dirs, from, to) == [dirs[0]] + tail;
      assert ([dirs[0]] + tail)[1..] == tail;
    } else {
      assert Between(dirs, from, to) == tail;
    }
  }
}
