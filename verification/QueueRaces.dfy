/** Appends and dequeues of src/state-sqlite.ts on one key when each SQL statement
    works from a snapshot that other callers may have made stale. An append writes
    after the MAX(idx) it saw and retries on a unique violation; a dequeue deletes
    the MIN(idx) it saw, or finds it gone and looks again. */
module QueueRaces {
  import opened Prelude

  /** `start` and `seen` are readings of the commit counter. */
  datatype Caller =
    | AppendReady(retries: nat, start: nat)
    | AppendSeen(max: int, retries: nat, start: nat, seen: nat)
    | Appended(retries: nat, start: nat, before: nat)
    | TakeReady
    | TakeSeen(min: Option<int>)
    | TakeMissed
    | Took(answer: Option<nat>)

  /** A value is named after the call that appends it. */
  datatype State = State(rows: map<int, nat>, calls: map<nat, Caller>, commits: nat, taken: seq<nat>)

  datatype Event =
    | StartAppend(p: nat)
    | ReadMax(p: nat, max: int)
    | Insert(p: nat)
    | StartTake(p: nat)
    | ReadMin(p: nat, min: Option<int>)
    | Delete(p: nat, wins: bool)
    | LookAgain(p: nat)

  const INIT := State(map[], map[], 0, [])

  ghost predicate IsMax(rows: map<int, nat>, m: int) {
    if rows == map[] then m == -1 else m in rows && forall i :: i in rows ==> i <= m
  }

  ghost predicate IsMin(rows: map<int, nat>, m: Option<int>) {
    match m
    case None => rows == map[]
    case Some(i) => i in rows && forall j :: j in rows ==> i <= j
  }

  ghost predicate Enabled(s: State, e: Event) {
    match e
    case StartAppend(p) => p !in s.calls
    case ReadMax(p, m) => p in s.calls && s.calls[p].AppendReady? && IsMax(s.rows, m)
    case Insert(p) => p in s.calls && s.calls[p].AppendSeen?
    case StartTake(p) => p !in s.calls
    case ReadMin(p, m) => p in s.calls && s.calls[p].TakeReady? && IsMin(s.rows, m)
    case Delete(p, _) => p in s.calls && s.calls[p].TakeSeen?
    case LookAgain(p) => p in s.calls && s.calls[p].TakeMissed?
  }

  ghost function Apply(s: State, e: Event): State
    requires Enabled(s, e)
  {
    match e
    case StartAppend(p) => s.(calls := s.calls[p := AppendReady(0, s.commits)])
    case ReadMax(p, m) =>
      s.(calls := s.calls[p := AppendSeen(m, s.calls[p].retries, s.calls[p].start, s.commits)])
    case Insert(p) =>
      var c := s.calls[p];
      if c.max + 1 in s.rows then
        s.(calls := s.calls[p := AppendReady(c.retries + 1, c.start)])
      else
        State(s.rows[c.max + 1 := p], s.calls[p := Appended(c.retries, c.start, s.commits)], s.commits + 1, s.taken)
    case StartTake(p) => s.(calls := s.calls[p := TakeReady])
    case ReadMin(p, m) => s.(calls := s.calls[p := TakeSeen(m)])
    case Delete(p, wins) =>
      var m := s.calls[p].min;
      if m.Some? && m.value in s.rows && wins then
        var v := s.rows[m.value];
        s.(rows := s.rows - {m.value}, taken := s.taken + [v], calls := s.calls[p := Took(Some(v))])
      else
        s.(calls := s.calls[p := TakeMissed])
    case LookAgain(p) =>
      s.(calls := s.calls[p := if s.rows == map[] then Took(None) else TakeReady])
  }

  ghost predicate Valid(s: State, es: seq<Event>)
    decreases |es|
  {
    es == [] || (Enabled(s, es[0]) && Valid(Apply(s, es[0]), es[1..]))
  }

  ghost function Exec(s: State, es: seq<Event>): State
    requires Valid(s, es)
    decreases |es|
  {
    if es == [] then s else Exec(Apply(s, es[0]), es[1..])
  }

  // --- What every state keeps ---

  ghost predicate IsAppended(s: State, p: nat) {
    p in s.calls && s.calls[p].Appended?
  }

  ghost predicate Stored(s: State, p: nat) {
    exists i :: i in s.rows && s.rows[i] == p
  }

  /** The value a finished dequeue answered with. */
  function Answer(s: State, p: nat): Option<nat> {
    if p in s.calls && s.calls[p].Took? then s.calls[p].answer else None
  }

  /** Every appended value is in exactly one place: one row, or one answer. */
  ghost predicate Conserved(s: State) {
    && (forall i, j :: i in s.rows && j in s.rows && s.rows[i] == s.rows[j] ==> i == j)
    && (forall i, j :: 0 <= i < j < |s.taken| ==> s.taken[i] != s.taken[j])
    && (forall p :: p in s.taken ==> !Stored(s, p))
    && (forall p :: IsAppended(s, p) <==> p in s.taken || Stored(s, p))
  }

  /** A dequeue's answer is the value it removed, given to nobody else. */
  ghost predicate AnswersOwned(s: State) {
    && (forall p :: Answer(s, p).Some? ==> Answer(s, p).value in s.taken)
    && (forall p, q :: Answer(s, p).Some? && Answer(s, p) == Answer(s, q) ==> p == q)
  }

  /** Retries are paid for by other appends' commits since the call began. */
  ghost predicate Charged(s: State, c: Caller) {
    match c
    case AppendReady(r, start) => start + r <= s.commits
    case AppendSeen(m, r, start, seen) =>
      && start + r <= seen <= s.commits
      && ((exists i :: i in s.rows && i > m) ==> seen < s.commits)
    case Appended(r, start, before) => start + r <= before < s.commits
    case _ => true
  }

  ghost predicate Inv(s: State) {
    && Conserved(s)
    && AnswersOwned(s)
    && forall p :: p in s.calls ==> Charged(s, s.calls[p])
  }

  lemma StoredAfterInsert(s: State, e: Event)
    requires Enabled(s, e) && e.Insert? && Inv(s) && s.calls[e.p].max + 1 !in s.rows
    ensures Conserved(Apply(s, e))
  {
    var s' := Apply(s, e);
    var i := s.calls[e.p].max + 1;
    assert !IsAppended(s, e.p);
    assert s'.rows[i] == e.p;
    forall p
      ensures Stored(s', p) <==> Stored(s, p) || p == e.p
    {
      if Stored(s, p) {
        var j :| j in s.rows && s.rows[j] == p;
        assert j in s'.rows && s'.rows[j] == p;
      }
    }
  }

  lemma StoredAfterDelete(s: State, e: Event)
    requires Enabled(s, e) && e.Delete? && Inv(s)
    requires s.calls[e.p].min.Some? && s.calls[e.p].min.value in s.rows && e.wins
    ensures Conserved(Apply(s, e)) && AnswersOwned(Apply(s, e))
  {
    var s' := Apply(s, e);
    var i := s.calls[e.p].min.value;
    var v := s.rows[i];
    assert Stored(s, v);
    forall p
      ensures Stored(s', p) <==> Stored(s, p) && p != v
    {
      if Stored(s, p) && p != v {
        var j :| j in s.rows && s.rows[j] == p;
        assert j in s'.rows && s'.rows[j] == p;
      }
    }
    forall p
      ensures IsAppended(s', p) <==> p in s'.taken || Stored(s', p)
    {
      assert IsAppended(s', p) <==> IsAppended(s, p);
    }
    forall q
      ensures Answer(s', q) == if q == e.p then Some(v) else Answer(s, q)
    {
    }
    assert v !in s.taken && s'.taken == s.taken + [v];
    assert AnswersOwned(s);
  }

  lemma StepKeepsInv(s: State, e: Event)
    requires Inv(s) && Enabled(s, e)
    ensures Inv(Apply(s, e))
  {
    var s' := Apply(s, e);
    if e.Insert? && s.calls[e.p].max + 1 !in s.rows {
      StoredAfterInsert(s, e);
      forall q ensures Answer(s', q) == Answer(s, q) {}
      assert AnswersOwned(s);
    } else if e.Delete? && s.calls[e.p].min.Some? && s.calls[e.p].min.value in s.rows && e.wins {
      StoredAfterDelete(s, e);
    } else {
      assert s'.rows == s.rows && s'.taken == s.taken;
      forall p ensures Stored(s', p) == Stored(s, p) && IsAppended(s', p) == IsAppended(s, p) {}
      forall q ensures Answer(s', q) == Answer(s, q) {}
      assert AnswersOwned(s);
    }
  }

  /** Over every interleaving no value is lost or handed out twice, and every
      append has retried at most once per append that committed since it began. */
  lemma {:induction false} RunKeepsInv(s: State, es: seq<Event>)
    requires Inv(s) && Valid(s, es)
    ensures Inv(Exec(s, es))
    decreases |es|
  {
    if es != [] {
      StepKeepsInv(s, es[0]);
      RunKeepsInv(Apply(s, es[0]), es[1..]);
    }
  }

  lemma NothingLostOrRepeated(es: seq<Event>, p: nat)
    requires Valid(INIT, es)
    ensures var s := Exec(INIT, es);
            && (IsAppended(s, p) <==> (p in s.taken) != Stored(s, p))
            && (forall i, j :: 0 <= i < j < |s.taken| ==> s.taken[i] != s.taken[j])
            && (forall q, r :: Answer(s, q).Some? && Answer(s, q) == Answer(s, r) ==> q == r)
  {
    RunKeepsInv(INIT, es);
  }

  /** With n other commits in between, the call failed at most n times; so a call
      whose snapshot nobody has outrun succeeds at once. */
  lemma RetriesAreCharged(es: seq<Event>, p: nat)
    requires Valid(INIT, es)
    ensures var s := Exec(INIT, es);
            p in s.calls ==>
              && (s.calls[p].AppendReady? || s.calls[p].AppendSeen? ==> s.calls[p].retries <= s.commits - s.calls[p].start)
              && (s.calls[p].Appended? ==> s.calls[p].retries <= s.calls[p].before - s.calls[p].start)
              && (s.calls[p].AppendSeen? && s.calls[p].seen == s.commits ==> IsAppended(Apply(s, Insert(p)), p))
  {
    RunKeepsInv(INIT, es);
    var s := Exec(INIT, es);
    if p in s.calls {
      assert Charged(s, s.calls[p]);
    }
  }

  // --- One call on its own ---

  lemma Steps(s: State, e: Event, es: seq<Event>)
    requires Enabled(s, e) && Valid(Apply(s, e), es)
    ensures Valid(s, [e] + es) && Exec(s, [e] + es) == Exec(Apply(s, e), es)
  {
    hide Enabled, Apply;
    assert ([e] + es)[1..] == es;
  }

  lemma Stop(s: State)
    ensures Valid(s, []) && Exec(s, []) == s
  {
  }

  lemma ThreeSteps(s: State, e1: Event, e2: Event, e3: Event)
    requires Enabled(s, e1) && Enabled(Apply(s, e1), e2) && Enabled(Apply(Apply(s, e1), e2), e3)
    ensures Valid(s, [e1, e2, e3]) && Exec(s, [e1, e2, e3]) == Apply(Apply(Apply(s, e1), e2), e3)
  {
    hide Enabled, Apply;
    var s1, s2 := Apply(s, e1), Apply(Apply(s, e1), e2);
    Stop(Apply(s2, e3));
    Steps(s2, e3, []);
    assert [e3] + [] == [e3] && [e2] + [e3] == [e2, e3] && [e1] + [e2, e3] == [e1, e2, e3];
    Steps(s1, e2, [e3]);
    Steps(s, e1, [e2, e3]);
  }

  /** An append that nobody disturbs puts its value after every row, at 0 when there is none. */
  lemma AppendAlone(s: State, p: nat, n: int)
    requires p !in s.calls && n !in s.rows
    requires if s.rows == map[] then n == 0 else n - 1 in s.rows && forall i :: i in s.rows ==> i < n
    ensures var es := [StartAppend(p), ReadMax(p, n - 1), Insert(p)];
            && Valid(s, es) && Exec(s, es).rows == s.rows[n := p] && Exec(s, es).taken == s.taken
            && p in Exec(s, es).calls && Exec(s, es).calls[p] == Appended(0, s.commits, s.commits)
  {
    ThreeSteps(s, StartAppend(p), ReadMax(p, n - 1), Insert(p));
  }

  /** A dequeue that nobody disturbs answers with the value of the first row and removes it. */
  lemma TakeAlone(s: State, p: nat, n: int)
    requires p !in s.calls && n in s.rows && forall i :: i in s.rows ==> n <= i
    ensures var es := [StartTake(p), ReadMin(p, Some(n)), Delete(p, true)];
            && Valid(s, es) && Exec(s, es).rows == s.rows - {n} && Exec(s, es).taken == s.taken + [s.rows[n]]
            && Answers(Exec(s, es), p, Some(s.rows[n]))
  {
    ThreeSteps(s, StartTake(p), ReadMin(p, Some(n)), Delete(p, true));
  }

  /** On its own it can take no other row: what it reads as the first is the first. */
  lemma ReadsTheEnds(s: State, p: nat, n: int)
    ensures Enabled(s, ReadMin(p, Some(n))) ==> n in s.rows && forall i :: i in s.rows ==> n <= i
    ensures Enabled(s, ReadMin(p, None)) ==> forall i :: i !in s.rows
    ensures Enabled(s, ReadMax(p, n)) ==> forall i :: i in s.rows ==> i <= n
    ensures Enabled(s, ReadMax(p, n)) ==> n in s.rows || (n == -1 && forall i :: i !in s.rows)
  {
  }

  /** A step answers None only when it sees no row. */
  lemma NoneIsEmpty(s: State, e: Event, p: nat)
    requires Enabled(s, e) && Answers(Apply(s, e), p, None) && !Answers(s, p, None)
    ensures e == LookAgain(p) && forall i :: i !in s.rows
  {
  }

  predicate Answers(s: State, p: nat, answer: Option<nat>) {
    p in s.calls && s.calls[p] == Took(answer)
  }

  /** And a dequeue that looks again and sees one goes on. */
  lemma LooksOn(s: State, p: nat)
    requires Enabled(s, LookAgain(p))
    ensures Apply(s, LookAgain(p)).calls[p] == Took(None) <==> forall i :: i !in s.rows
  {
    if forall i :: i !in s.rows { assert s.rows == map[]; }
  }

  /** So in every run: an empty answer was given at a moment when the queue was empty. */
  lemma {:induction false} EmptyAnswerIsHonest(s: State, es: seq<Event>, p: nat) returns (k: nat)
    requires Valid(s, es) && Answers(Exec(s, es), p, None) && !Answers(s, p, None)
    ensures k <= |es| && Valid(s, es[..k]) && forall i :: i !in Exec(s, es[..k]).rows
    decreases |es|
  {
    hide Enabled, Apply, Answers;
    var s1 := Apply(s, es[0]);
    if Answers(s1, p, None) {
      NoneIsEmpty(s, es[0], p);
      k := 0;
      assert es[..0] == [];
      Stop(s);
    } else {
      var n := EmptyAnswerIsHonest(s1, es[1..], p);
      k := n + 1;
      assert es[..k] == [es[0]] + es[1..][..n];
      Steps(s, es[0], es[1..][..n]);
    }
  }
}
