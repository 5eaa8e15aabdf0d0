/** The FIFO queue of src/state-sqlite.ts, run one call at a time: the rows of a
    key refine a bounded sequence. */
module ChatQueue {
  import opened Prelude
  import opened ChatTables

  /** The rows of `key` are exactly the indices lo .. hi-1, none of them expiring. */
  ghost predicate Interval(t: Lists, key: string, lo: int, hi: int) {
    && 0 <= lo <= hi
    && (forall i: int :: (key, i) in t <==> lo <= i < hi)
    && (forall i: int :: lo <= i < hi ==> t[(key, i)].expiresAt == None)
  }

  ghost function QueueOf(t: Lists, key: string, lo: int, hi: int): seq<string>
    requires Interval(t, key, lo, hi)
  {
    seq(hi - lo, i requires 0 <= i < hi - lo => t[(key, lo + i)].value)
  }

  /** What the trim leaves of a list that has just grown. A limit of 0 is falsy, so
      it trims nothing; a negative one empties the list. */
  function Keep(q: seq<string>, maxSize: int): seq<string> {
    if maxSize == 0 then q
    else if maxSize < 0 then []
    else LastN(q, maxSize)
  }

  lemma IntervalNext(t: Lists, key: string, lo: int, hi: int)
    requires Interval(t, key, lo, hi)
    ensures NextIdx(t, key) == if lo == hi then 0 else hi
  {
    if lo == hi {
      forall i: int
        ensures i !in Idxs(t, key)
      {
        assert (key, i) !in t;
      }
      assert Idxs(t, key) == {};
      assert IsNextIdx(t, key, 0);
    } else {
      assert (key, hi - 1) in t;
      assert hi - 1 in Idxs(t, key);
      forall i: int | i in Idxs(t, key)
        ensures i <= hi - 1
      {
        assert (key, i) in t;
      }
      assert IsNextIdx(t, key, hi);
    }
    NextIdxUnique(t, key, if lo == hi then 0 else hi);
  }

  function Clamp(x: int, lo: int, hi: int): int {
    if x < lo then lo else if x > hi then hi else x
  }

  /** Where the interval stands after an append; an empty key restarts at 0. */
  function NextLo(lo: int, hi: int, maxSize: int): int {
    var lo0 := if lo == hi then 0 else lo;
    var hi0 := NextHi(lo, hi);
    if maxSize != 0 && hi0 - 1 - maxSize >= 0 then Clamp(hi0 - maxSize, lo0, hi0) else lo0
  }

  function NextHi(lo: int, hi: int): int {
    if lo == hi then 1 else hi + 1
  }

  lemma InsertRefines(t: Lists, key: string, lo: int, hi: int, v: string)
    requires Interval(t, key, lo, hi)
    ensures var lo0, hi0 := if lo == hi then 0 else lo, NextHi(lo, hi);
            var t1 := t[(key, hi0 - 1) := ListRow(v, None)];
            && NextIdx(t, key) == hi0 - 1
            && Interval(t1, key, lo0, hi0)
            && QueueOf(t1, key, lo0, hi0) == QueueOf(t, key, lo, hi) + [v]
  {
    IntervalNext(t, key, lo, hi);
  }

  lemma TrimRefines(t: Lists, key: string, lo: int, hi: int, cutoff: int, lo': int)
    requires Interval(t, key, lo, hi) && lo' == Clamp(cutoff + 1, lo, hi)
    ensures Interval(DeleteUpTo(t, key, cutoff), key, lo', hi)
    ensures QueueOf(DeleteUpTo(t, key, cutoff), key, lo', hi) == QueueOf(t, key, lo, hi)[lo' - lo..]
  {
    var t' := DeleteUpTo(t, key, cutoff);
    assert Interval(t', key, lo', hi);
    var q, q' := QueueOf(t, key, lo, hi)[lo' - lo..], QueueOf(t', key, lo', hi);
    assert |q| == |q'|;
    forall k | 0 <= k < |q|
      ensures q[k] == q'[k]
    {
      assert q'[k] == t'[(key, lo' + k)].value;
      assert q[k] == t[(key, lo' + k)].value;
    }
  }

  /** Dropping the rows up to a cutoff keeps the last maxSize of a queue that ends at hi. */
  lemma TrimKeeps(t: Lists, key: string, lo: int, hi: int, maxSize: int)
    requires Interval(t, key, lo, hi) && lo < hi && maxSize != 0 && hi - 1 - maxSize >= 0
    ensures var lo' := Clamp(hi - maxSize, lo, hi);
            && Interval(DeleteUpTo(t, key, hi - 1 - maxSize), key, lo', hi)
            && QueueOf(DeleteUpTo(t, key, hi - 1 - maxSize), key, lo', hi) == Keep(QueueOf(t, key, lo, hi), maxSize)
  {
    var lo' := Clamp(hi - maxSize, lo, hi);
    var q := QueueOf(t, key, lo, hi);
    assert |q| == hi - lo;
    assert Keep(q, maxSize) == q[lo' - lo..];
    TrimRefines(t, key, lo, hi, hi - 1 - maxSize, lo');
  }

  lemma KeepAllWhenShort(t: Lists, key: string, lo: int, hi: int, maxSize: int)
    requires Interval(t, key, lo, hi) && (maxSize == 0 || hi - 1 - maxSize < 0)
    ensures Keep(QueueOf(t, key, lo, hi), maxSize) == QueueOf(t, key, lo, hi)
  {
  }

  /** `enqueue` is "append, then keep the last maxSize", for every maxSize. */
  lemma EnqueueRefines(t: Lists, key: string, lo: int, hi: int, v: string, maxSize: int)
    requires Interval(t, key, lo, hi)
    ensures var t' := AppendRow(t, key, ListRow(v, None), Some(maxSize));
            && Interval(t', key, NextLo(lo, hi, maxSize), NextHi(lo, hi))
            && QueueOf(t', key, NextLo(lo, hi, maxSize), NextHi(lo, hi))
               == Keep(QueueOf(t, key, lo, hi) + [v], maxSize)
  {
    hide QueueOf, Keep, DeleteUpTo, IsNextIdx, Idxs;
    InsertRefines(t, key, lo, hi, v);
    assert 0 <= lo <= hi;
    var lo0, hi0 := if lo == hi then 0 else lo, NextHi(lo, hi);
    var t1 := t[(key, hi0 - 1) := ListRow(v, None)];
    assert AppendRow(t, key, ListRow(v, None), Some(maxSize)) ==
           if maxSize != 0 && hi0 - 1 - maxSize >= 0 then DeleteUpTo(t1, key, hi0 - 1 - maxSize) else t1;
    hide Interval, AppendRow;
    if maxSize != 0 && hi0 - 1 - maxSize >= 0 {
      TrimKeeps(t1, key, lo0, hi0, maxSize);
    } else {
      KeepAllWhenShort(t1, key, lo0, hi0, maxSize);
    }
  }

  /** `dequeue` is head removal, and finds a row exactly when the queue is not
      empty. */
  lemma DequeueRefines(t: Lists, key: string, lo: int, hi: int)
    requires Interval(t, key, lo, hi)
    ensures Idxs(t, key) == {} <==> lo == hi
    ensures lo < hi ==> forall m :: IsMinIdx(t, key, m) <==> m == lo
    ensures lo < hi ==>
              && Interval(t - {(key, lo)}, key, lo + 1, hi)
              && QueueOf(t, key, lo, hi)
                 == [t[(key, lo)].value] + QueueOf(t - {(key, lo)}, key, lo + 1, hi)
  {
    forall i: int | i in Idxs(t, key)
      ensures lo <= i < hi
    {
      assert (key, i) in t;
    }
    if lo < hi {
      assert (key, lo) in t;
      assert lo in Idxs(t, key);
      forall m: int
        ensures IsMinIdx(t, key, m) <==> m == lo
      {
      }
    }
  }

  lemma DepthRefines(t: Lists, key: string, lo: int, hi: int)
    requires Interval(t, key, lo, hi)
    ensures |Idxs(t, key)| == |QueueOf(t, key, lo, hi)|
  {
    forall i: int
      ensures i in Idxs(t, key) <==> i in Range(lo, hi)
    {
      assert i in Idxs(t, key) <==> (key, i) in t;
    }
    assert Idxs(t, key) == Range(lo, hi);
  }

  function Range(lo: int, hi: int): (s: set<int>)
    requires lo <= hi
    ensures forall i :: i in s <==> lo <= i < hi
    ensures |s| == hi - lo
    decreases hi - lo
  {
    if lo == hi then {} else Range(lo, hi - 1) + {hi - 1}
  }

  // --- Whole runs ---

  datatype Op = Enqueue(key: string, value: string, maxSize: int) | Dequeue(key: string) | Cleanup(now: int)

  ghost function Apply(t: Lists, op: Op): Lists {
    match op
    case Enqueue(key, v, maxSize) => AppendRow(t, key, ListRow(v, None), Some(maxSize))
    case Dequeue(key) =>
      if Idxs(t, key) == {} then t
      else if exists m :: IsMinIdx(t, key, m) then
        var m :| IsMinIdx(t, key, m);
        t - {(key, m)}
      else t
    case Cleanup(now) => SweepLists(t, now)
  }

  /** The entry a dequeue of `key` answers with. */
  ghost function Answer(t: Lists, key: string): Option<string> {
    if exists m :: IsMinIdx(t, key, m) then
      var m :| IsMinIdx(t, key, m);
      Some(t[(key, m)].value)
    else None
  }

  /** The answers that the dequeues of `key` give over a run on the tables. */
  ghost function Answers(t: Lists, ops: seq<Op>, key: string): seq<Option<string>>
    decreases |ops|
  {
    if ops == [] then []
    else (if ops[0] == Dequeue(key) then [Answer(t, key)] else [])
         + Answers(Apply(t, ops[0]), ops[1..], key)
  }

  /** The same run on a plain bounded sequence, blind to the other keys. */
  function SpecAnswers(q: seq<string>, ops: seq<Op>, key: string): seq<Option<string>>
    decreases |ops|
  {
    if ops == [] then []
    else match ops[0]
      case Enqueue(k, v, maxSize) =>
        SpecAnswers(if k == key then Keep(q + [v], maxSize) else q, ops[1..], key)
      case Dequeue(k) =>
        if k != key then SpecAnswers(q, ops[1..], key)
        else if q == [] then [None] + SpecAnswers(q, ops[1..], key)
        else [Some(q[0])] + SpecAnswers(q[1..], ops[1..], key)
      case Cleanup(_) => SpecAnswers(q, ops[1..], key)
  }

  lemma OtherKeyAppend(t: Lists, key: string, lo: int, hi: int, k: string, row: ListRow, maxSize: int)
    requires Interval(t, key, lo, hi) && k != key
    ensures Interval(AppendRow(t, k, row, Some(maxSize)), key, lo, hi)
    ensures QueueOf(AppendRow(t, k, row, Some(maxSize)), key, lo, hi) == QueueOf(t, key, lo, hi)
  {
  }

  lemma DequeueStep(t: Lists, key: string, lo: int, hi: int, k: string)
    requires Interval(t, key, lo, hi)
    ensures var t' := Apply(t, Dequeue(k));
            if k == key && lo < hi then
              && Interval(t', key, lo + 1, hi) && QueueOf(t', key, lo + 1, hi) == QueueOf(t, key, lo, hi)[1..]
              && Answer(t, key) == Some(QueueOf(t, key, lo, hi)[0])
            else
              && Interval(t', key, lo, hi) && QueueOf(t', key, lo, hi) == QueueOf(t, key, lo, hi)
              && (k == key ==> Answer(t, key) == None)
  {
    var t' := Apply(t, Dequeue(k));
    DequeueRefines(t, key, lo, hi);
    if k == key && lo < hi {
      assert IsMinIdx(t, key, lo);
      assert t' == t - {(key, lo)};
      assert QueueOf(t, key, lo, hi)[1..] == QueueOf(t', key, lo + 1, hi);
    } else {
      if k == key {
        forall m ensures !IsMinIdx(t, key, m) {
          assert (key, m) in t ==> lo <= m < hi;
        }
      }
      assert Interval(t', key, lo, hi);
      assert QueueOf(t', key, lo, hi) == QueueOf(t, key, lo, hi);
    }
  }

  lemma CleanupStep(t: Lists, key: string, lo: int, hi: int, now: int)
    requires Interval(t, key, lo, hi)
    ensures var t' := Apply(t, Cleanup(now));
            Interval(t', key, lo, hi) && QueueOf(t', key, lo, hi) == QueueOf(t, key, lo, hi)
  {
    assert Interval(Apply(t, Cleanup(now)), key, lo, hi);
  }

  /** Over every sequence of enqueues, dequeues and cleanups on any keys, what a
      key's dequeues answer is what the bounded sequence answers. */
  lemma {:induction false} QueueRunRefines(t: Lists, ops: seq<Op>, key: string, lo: int, hi: int)
    requires Interval(t, key, lo, hi)
    ensures Answers(t, ops, key) == SpecAnswers(QueueOf(t, key, lo, hi), ops, key)
    decreases |ops|
  {
    if ops != [] {
      var t' := Apply(t, ops[0]);
      assert Interval(t, key, lo, hi) ==> (QueueOf(t, key, lo, hi) == [] <==> lo == hi);
      match ops[0]
      case Enqueue(k, v, maxSize) =>
        hide Interval, QueueOf, Answer;
        if k == key {
          EnqueueRefines(t, key, lo, hi, v, maxSize);
          QueueRunRefines(t', ops[1..], key, NextLo(lo, hi, maxSize), NextHi(lo, hi));
        } else {
          OtherKeyAppend(t, key, lo, hi, k, ListRow(v, None), maxSize);
          QueueRunRefines(t', ops[1..], key, lo, hi);
        }
      case Dequeue(k) =>
        DequeueStep(t, key, lo, hi, k);
        assert lo <= hi;
        hide Interval, QueueOf, Answer;
        if k == key && lo < hi {
          QueueRunRefines(t', ops[1..], key, lo + 1, hi);
        } else {
          QueueRunRefines(t', ops[1..], key, lo, hi);
        }
      case Cleanup(now) =>
        CleanupStep(t, key, lo, hi, now);
        hide Interval, QueueOf, Answer;
        QueueRunRefines(t', ops[1..], key, lo, hi);
    }
  }

  // --- Lists whose rows expire ---

  /** With expiring rows the indices may have gaps; a positive limit still bounds
      the number of rows, and the newest value always survives. */
  lemma TrimBoundsRows(t: Lists, key: string, row: ListRow, n: int)
    requires n >= 1
    requires forall i: int :: (key, i) in t ==> 0 <= i
    ensures var t' := AppendRow(t, key, row, Some(n));
            && |Idxs(t', key)| <= n
            && (key, NextIdx(t, key)) in t' && t'[(key, NextIdx(t, key))] == row
  {
    var idx := NextIdx(t, key);
    var t' := AppendRow(t, key, row, Some(n));
    var window := Range(idx - n + 1, idx + 1);
    forall i: int | i in Idxs(t', key)
      ensures i in window
    {
      assert (key, i) in t';
      assert i in Idxs(t, key) || i == idx;
    }
    assert Idxs(t', key) <= window;
    SubsetSize(Idxs(t', key), window);
  }

  lemma {:induction false} SubsetSize(a: set<int>, b: set<int>)
    requires a <= b
    ensures |a| <= |b|
  {
    assert b == a + (b - a);
    assert |a + (b - a)| == |a| + |b - a|;
  }

  /** A gap makes the trim keep fewer: two rows where three were allowed. */
  lemma TrimCanKeepFewer()
    ensures var t: Lists := map[("k", 0) := ListRow("a", None), ("k", 1) := ListRow("b", None), ("k", 5) := ListRow("c", None)];
            AppendRow(t, "k", ListRow("d", None), Some(3)).Keys == {("k", 5), ("k", 6)}
  {
    var t: Lists := map[("k", 0) := ListRow("a", None), ("k", 1) := ListRow("b", None), ("k", 5) := ListRow("c", None)];
    assert ("k", 5) in t && 5 in Idxs(t, "k");
    forall i | i in Idxs(t, "k") ensures i <= 5 { assert ("k", i) in t; }
    NextIdxUnique(t, "k", 6);
    var t1 := t[("k", 6) := ListRow("d", None)];
    assert AppendRow(t, "k", ListRow("d", None), Some(3)) == DeleteUpTo(t1, "k", 3);
    forall p: (string, int)
      ensures p in DeleteUpTo(t1, "k", 3) <==> p in {("k", 5), ("k", 6)}
    {
    }
  }
}
