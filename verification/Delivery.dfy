/** src/delivery.ts: one session's outbound rows, drained by any number of concurrent calls of
    deliverSessionMessages. Every await is a point where other calls may run. */
module Delivery {
  import opened Prelude

  const MAX_DELIVERY_ATTEMPTS := 3

  type Row = string
  datatype Status = Delivered | Failed

  /** Where a drain stands. Ready: about to take the head of pending. Sending: awaiting
      deliverMessage for it. Settling: awaiting what follows markDelivered. */
  datatype Phase = Starting | Ready | Sending | Settling
  datatype Drain = Drain(phase: Phase, local: set<Row>, pending: seq<Row>)

  /** table and attempts are the program's; drains are the calls inside the guard. The rest
      counts: calls and successes of deliverMessage, markDelivered and markDeliveryFailed that
      threw, and the rows that carried firstDelivery. */
  datatype State = State(
    table: map<Row, Status>,
    attempts: map<Row, nat>,
    inflight: bool,
    drains: map<nat, Drain>,
    calls: map<Row, nat>,
    successes: map<Row, nat>,
    lost: map<Row, nat>,
    unmarked: map<Row, nat>,
    firsts: seq<Row>)

  /** dbOk and markOk: whether markDelivered, markDeliveryFailed succeed if they are reached. */
  datatype Event =
    | Call(c: nat)
    | Quit(c: nat)
    | Snapshot(c: nat, due: seq<Row>)
    | Send(c: nat)
    | Sent(c: nat, dbOk: bool, markOk: bool)
    | NotSent(c: nat, markOk: bool)
    | Settled(c: nat)
    | SettleThrew(c: nat, markOk: bool)

  function Of(m: map<Row, nat>, r: Row): nat {
    if r in m then m[r] else 0
  }

  function Bump(m: map<Row, nat>, r: Row): map<Row, nat> {
    m[r := Of(m, r) + 1]
  }

  predicate Distinct(rows: seq<Row>) {
    forall i, j :: 0 <= i < j < |rows| ==> rows[i] != rows[j]
  }

  /** allDue.filter(m => !delivered.has(m.id)) */
  function Undelivered(due: seq<Row>, table: map<Row, Status>): seq<Row> {
    if due == [] then []
    else (if due[0] in table then [] else [due[0]]) + Undelivered(due[1..], table)
  }

  predicate In(s: State, c: nat, phase: Phase) {
    c in s.drains && s.drains[c].phase == phase
  }

  predicate Enabled(s: State, e: Event) {
    match e
    case Call(c) => c !in s.drains
    case Quit(c) => In(s, c, Starting)
    case Snapshot(c, due) => In(s, c, Starting) && Distinct(due)
    case Send(c) => In(s, c, Ready) && s.drains[c].pending != []
    case Sent(c, _, _) => In(s, c, Sending) && s.drains[c].pending != []
    case NotSent(c, _) => In(s, c, Sending) && s.drains[c].pending != []
    case Settled(c) => In(s, c, Settling) && s.drains[c].pending != []
    case SettleThrew(c, _) => In(s, c, Settling) && s.drains[c].pending != []
  }

  /** The finally clauses: the drain is over. */
  function Leave(s: State, c: nat): State {
    s.(drains := s.drains - {c}, inflight := false)
  }

  /** On to the next row, or out of the loop. */
  function Next(s: State, c: nat): State
    requires c in s.drains && s.drains[c].pending != []
  {
    var rest := s.drains[c].pending[1..];
    if rest == [] then Leave(s, c)
    else s.(drains := s.drains[c := s.drains[c].(phase := Ready, pending := rest)])
  }

  /** The delivered ids and what is left to deliver have been read. */
  function Take(s: State, c: nat, pending: seq<Row>): State {
    if pending == [] then Leave(s, c) else s.(drains := s.drains[c := Drain(Ready, s.table.Keys, pending)])
  }

  /** INSERT OR IGNORE */
  function Mark(table: map<Row, Status>, r: Row, status: Status): map<Row, Status> {
    if r in table then table else table[r := status]
  }

  /** The catch clause: one more attempt on r, and on the third the row is marked failed. */
  function Charge(s: State, r: Row, markOk: bool): State {
    var tries := Of(s.attempts, r) + 1;
    var s1 := s.(attempts := s.attempts[r := tries]);
    if tries < MAX_DELIVERY_ATTEMPTS then s1
    else if markOk then s1.(table := Mark(s1.table, r, Failed), attempts := s1.attempts - {r})
    else s1.(unmarked := Bump(s1.unmarked, r))
  }

  /** markDeliveryFailed threw, which no one catches inside the drain. */
  predicate Escapes(s: State, r: Row, markOk: bool) {
    Of(s.attempts, r) + 1 >= MAX_DELIVERY_ATTEMPTS && !markOk
  }

  function Catch(s: State, c: nat, markOk: bool): State
    requires c in s.drains && s.drains[c].pending != []
  {
    var r := s.drains[c].pending[0];
    if Escapes(s, r, markOk) then Leave(Charge(s, r, markOk), c) else Next(Charge(s, r, markOk), c)
  }

  function Apply(s: State, e: Event): State
    requires Enabled(s, e)
  {
    match e
    case Call(c) =>
      if s.inflight then s else s.(inflight := true, drains := s.drains[c := Drain(Starting, {}, [])])
    case Quit(c) => Leave(s, c)
    case Snapshot(c, due) => Take(s, c, Undelivered(due, s.table))
    case Send(c) =>
      var d := s.drains[c];
      s.(drains := s.drains[c := d.(phase := Sending)], calls := Bump(s.calls, d.pending[0]))
    case Sent(c, dbOk, markOk) =>
      var d := s.drains[c];
      var r := d.pending[0];
      var s1 := s.(successes := Bump(s.successes, r));
      if !dbOk then Catch(s1.(lost := Bump(s1.lost, r)), c, markOk)
      else
        s1.(table := Mark(s1.table, r, Delivered), attempts := s1.attempts - {r},
            firsts := if d.local == {} then s1.firsts + [r] else s1.firsts,
            drains := s1.drains[c := d.(phase := Settling, local := d.local + {r})])
    case NotSent(c, markOk) => Catch(s, c, markOk)
    case Settled(c) => Next(s, c)
    case SettleThrew(c, markOk) => Catch(s, c, markOk)
  }

  ghost predicate Valid(s: State, es: seq<Event>)
    decreases |es|, 0
  {
    es == [] || (Valid(s, es[..|es| - 1]) && Enabled(Exec(s, es[..|es| - 1]), es[|es| - 1]))
  }

  ghost function Exec(s: State, es: seq<Event>): State
    requires Valid(s, es)
    decreases |es|, 1
  {
    if es == [] then s else Apply(Exec(s, es[..|es| - 1]), es[|es| - 1])
  }

  /** A process starts: any table, nothing counted. */
  function Start(table: map<Row, Status>): State {
    State(table, map[], false, map[], map[], map[], map[], map[], [])
  }

  // ---- The invariant ----------------------------------------------------------

  predicate Busy(s: State, r: Row) {
    exists c :: c in s.drains && s.drains[c].phase == Sending && s.drains[c].pending != [] && s.drains[c].pending[0] == r
  }

  /** The guard admits one drain. */
  predicate OneDrain(s: State) {
    && (s.inflight <==> s.drains.Keys != {})
    && forall c, c' :: c in s.drains && c' in s.drains ==> c == c'
  }

  /** A drain past its snapshot: its rows are distinct and unmarked, but for a head that is
      settling; the local set holds every delivered row and only marked ones. */
  predicate DrainOk(table: map<Row, Status>, d: Drain) {
    d.phase != Starting ==>
      && Distinct(d.pending) && d.pending != []
      && (forall i :: 0 <= i < |d.pending| ==> (d.pending[i] in table <==> i == 0 && d.phase == Settling))
      && (d.phase == Settling ==> table[d.pending[0]] == Delivered)
      && d.local <= table.Keys
      && (forall r :: r in table && table[r] == Delivered ==> r in d.local)
  }

  function MarkOf(table: map<Row, Status>, r: Row): Option<Status> {
    if r in table then Some(table[r]) else None
  }

  /** What the counts of a row say: unmarked rows have used up only their attempts, marked rows
      at most three calls and one success, but for writes to the table that threw. */
  predicate CountsOf(mark: Option<Status>, tries: nat, calls: nat, wins: nat, lost: nat, unmarked: nat, busy: nat) {
    if mark == None then
      && calls == tries + busy
      && wins == lost
      && (if unmarked == 0 then tries < MAX_DELIVERY_ATTEMPTS else tries == MAX_DELIVERY_ATTEMPTS - 1 + unmarked)
    else
      && calls <= MAX_DELIVERY_ATTEMPTS + unmarked && busy == 0
      && (calls == 0 ==> wins == 0)
      && (calls > 0 ==>
            if mark.value == Delivered then wins == lost + 1
            else wins == lost && calls == MAX_DELIVERY_ATTEMPTS + unmarked)
  }

  predicate Counts(s: State, r: Row, busy: nat) {
    CountsOf(MarkOf(s.table, r), Of(s.attempts, r), Of(s.calls, r), Of(s.successes, r), Of(s.lost, r), Of(s.unmarked, r),
             busy)
  }

  predicate RowOk(s: State, r: Row) {
    Counts(s, r, if Busy(s, r) then 1 else 0)
  }

  predicate FirstsOk(s: State) {
    && |s.firsts| <= 1
    && (s.firsts != [] ==> exists r :: r in s.table && s.table[r] == Delivered)
  }

  ghost predicate Inv(s: State) {
    && OneDrain(s)
    && (forall c :: c in s.drains ==> DrainOk(s.table, s.drains[c]))
    && (forall r {:trigger RowOk(s, r)} :: RowOk(s, r))
    && FirstsOk(s)
  }

  // ---- Every step keeps it ----------------------------------------------------

  /** With one drain, Busy is about its head. */
  lemma BusyIs(s: State, r: Row)
    requires OneDrain(s)
    ensures s.drains.Keys == {} ==> !Busy(s, r)
    ensures forall c :: c in s.drains ==>
              (Busy(s, r) <==> s.drains[c].phase == Sending && s.drains[c].pending != [] && s.drains[c].pending[0] == r)
  {
  }

  lemma UndeliveredOk(due: seq<Row>, table: map<Row, Status>)
    requires Distinct(due)
    ensures Distinct(Undelivered(due, table))
    ensures forall r :: r in Undelivered(due, table) <==> r in due && r !in table
  {
    if due != [] {
      UndeliveredOk(due[1..], table);
      assert due == [due[0]] + due[1..];
      assert forall i :: 0 <= i < |due[1..]| ==> due[1..][i] == due[i + 1];
      var rest := Undelivered(due[1..], table);
      assert forall i :: 0 <= i < |rest| ==> rest[i] in due[1..];
    }
  }

  /** Same counts, same table: the rows stay as they were. */
  lemma RowsSame(s: State, s': State)
    requires OneDrain(s) && OneDrain(s')
    requires s'.table == s.table && s'.attempts == s.attempts && s'.calls == s.calls && s'.successes == s.successes
    requires s'.lost == s.lost && s'.unmarked == s.unmarked
    requires forall r :: Busy(s', r) == Busy(s, r)
    requires forall r {:trigger RowOk(s, r)} :: RowOk(s, r)
    ensures forall r {:trigger RowOk(s', r)} :: RowOk(s', r)
  {
    forall r ensures RowOk(s', r) { assert RowOk(s, r); }
  }

  lemma DrainsSame(s: State, s': State)
    requires Inv(s) && s'.table == s.table && s'.firsts == s.firsts
    requires s'.attempts == s.attempts && s'.calls == s.calls && s'.successes == s.successes
    requires s'.lost == s.lost && s'.unmarked == s.unmarked
    requires OneDrain(s') && (forall c :: c in s'.drains ==> DrainOk(s'.table, s'.drains[c]))
    requires forall c :: c in s'.drains ==> s'.drains[c].phase != Sending
    requires forall c :: c in s.drains ==> s.drains[c].phase != Sending
    ensures Inv(s')
  {
    hide DrainOk, Counts;
    forall r ensures Busy(s', r) == Busy(s, r) { BusyIs(s, r); BusyIs(s', r); }
    RowsSame(s, s');
  }

  lemma CallKeeps(s: State, c: nat)
    requires Inv(s) && Enabled(s, Call(c))
    ensures Inv(Apply(s, Call(c)))
  {
    hide Counts, Distinct;
    if !s.inflight { DrainsSame(s, Apply(s, Call(c))); }
  }

  lemma LeaveKeeps(s: State, c: nat)
    requires Inv(s) && c in s.drains && s.drains[c].phase != Sending
    ensures Inv(Leave(s, c))
  {
    hide Counts, DrainOk;
    DrainsSame(s, Leave(s, c));
  }

  lemma QuitKeeps(s: State, c: nat)
    requires Inv(s) && Enabled(s, Quit(c))
    ensures Inv(Apply(s, Quit(c)))
  {
    hide Inv;
    LeaveKeeps(s, c);
  }

  lemma SnapshotKeeps(s: State, c: nat, due: seq<Row>)
    requires Inv(s) && Enabled(s, Snapshot(c, due))
    ensures Inv(Apply(s, Snapshot(c, due)))
  {
    UndeliveredOk(due, s.table);
    var pending := Undelivered(due, s.table);
    var d := Drain(Ready, s.table.Keys, pending);
    if pending == [] {
      LeaveKeeps(s, c);
    } else {
      assert DrainOk(s.table, d) by { assert forall i :: 0 <= i < |pending| ==> pending[i] in pending; }
      hide Counts, DrainOk, Distinct, Undelivered;
      DrainsSame(s, Apply(s, Snapshot(c, due)));
    }
  }

  lemma SendKeeps(s: State, c: nat)
    requires Inv(s) && Enabled(s, Send(c))
    ensures Inv(Apply(s, Send(c)))
  {
    var s' := Apply(s, Send(c));
    assert DrainOk(s.table, s.drains[c]);
    assert OneDrain(s');
    forall r ensures RowOk(s', r) {
      assert RowOk(s, r);
      BusyIs(s, r);
      BusyIs(s', r);
    }
  }

  /** A row about to be caught: sent and not marked, or delivered and settling. */
  predicate Catchable(s: State, c: nat) {
    && OneDrain(s) && c in s.drains && DrainOk(s.table, s.drains[c]) && s.drains[c].phase in {Sending, Settling}
    && FirstsOk(s)
    && (s.drains[c].phase == Sending ==> Counts(s, s.drains[c].pending[0], 1))
    && (s.drains[c].phase == Settling ==> Counts(s, s.drains[c].pending[0], 0))
  }

  lemma DistinctTail(rows: seq<Row>)
    requires rows != [] && Distinct(rows)
    ensures Distinct(rows[1..]) && rows[0] !in rows[1..]
    ensures forall i :: 0 <= i < |rows[1..]| ==> rows[1..][i] == rows[i + 1]
  {
  }

  /** What charging r does to the figures of any row x. */
  lemma ChargeFigures(s: State, r: Row, markOk: bool, x: Row)
    ensures var s' := Charge(s, r, markOk);
            && s'.calls == s.calls && s'.successes == s.successes && s'.lost == s.lost
            && (x != r ==> MarkOf(s'.table, x) == MarkOf(s.table, x) && Of(s'.attempts, x) == Of(s.attempts, x)
                           && Of(s'.unmarked, x) == Of(s.unmarked, x))
            && (r in s.table ==> MarkOf(s'.table, r) == MarkOf(s.table, r))
            && (Of(s.attempts, r) + 1 < MAX_DELIVERY_ATTEMPTS ==>
                  && MarkOf(s'.table, r) == MarkOf(s.table, r) && Of(s'.unmarked, r) == Of(s.unmarked, r)
                  && Of(s'.attempts, r) == Of(s.attempts, r) + 1)
            && (Of(s.attempts, r) + 1 >= MAX_DELIVERY_ATTEMPTS && !markOk ==>
                  && MarkOf(s'.table, r) == MarkOf(s.table, r) && Of(s'.unmarked, r) == Of(s.unmarked, r) + 1
                  && Of(s'.attempts, r) == Of(s.attempts, r) + 1)
            && (Of(s.attempts, r) + 1 >= MAX_DELIVERY_ATTEMPTS && markOk ==>
                  && Of(s'.unmarked, r) == Of(s.unmarked, r)
                  && (r !in s.table ==> MarkOf(s'.table, r) == Some(Failed)))
  {
  }

  lemma ChargeRow(s: State, c: nat, markOk: bool)
    requires Catchable(s, c)
    ensures Counts(Charge(s, s.drains[c].pending[0], markOk), s.drains[c].pending[0], 0)
  {
    var r := s.drains[c].pending[0];
    hide Charge, OneDrain, FirstsOk, Of;
    ChargeFigures(s, r, markOk, r);
    assert r in s.table <==> s.drains[c].phase == Settling;
    assert s.drains[c].phase == Settling ==> s.table[r] == Delivered;
    hide DrainOk;
  }

  lemma ChargeOther(s: State, r: Row, markOk: bool, other: Row)
    requires r != other && Counts(s, other, 0)
    ensures Counts(Charge(s, r, markOk), other, 0)
  {
    ChargeFigures(s, r, markOk, other);
    hide CountsOf, Charge, MarkOf, Of;
  }

  /** The first two failures are counted; the third marks the row failed and forgets the count,
      unless the mark throws. */
  lemma ThirdFailure(s: State, r: Row, markOk: bool)
    requires r !in s.table
    ensures var s', failures := Charge(s, r, markOk), 1 + if r in s.attempts then s.attempts[r] else 0;
            && (failures <= 2 ==> s' == s.(attempts := s.attempts[r := failures]))
            && (failures >= 3 && markOk ==> s' == s.(attempts := s.attempts - {r}, table := s.table[r := Failed]))
            && (failures >= 3 && !markOk ==> s'.table == s.table && s'.attempts == s.attempts[r := failures])
  {
    if 1 + (if r in s.attempts then s.attempts[r] else 0) >= 3 {
      assert s.attempts[r := 1 + Of(s.attempts, r)] - {r} == s.attempts - {r};
    }
  }

  /** The table only grows, and never by a delivered row. */
  lemma ChargeTable(s: State, r: Row, markOk: bool)
    ensures var s' := Charge(s, r, markOk);
            && s'.drains == s.drains && s'.inflight == s.inflight && s'.firsts == s.firsts
            && (forall x :: x in s'.table <==> x in s.table || (x == r && s'.table != s.table))
            && (forall x :: x in s.table ==> s'.table[x] == s.table[x])
            && (forall x :: x in s'.table && s'.table[x] == Delivered ==> x in s.table)
  {
  }

  /** The rest of the rows, after the head was marked or left for a retry. */
  lemma TailOk(table: map<Row, Status>, table': map<Row, Status>, d: Drain)
    requires DrainOk(table, d) && d.phase != Starting && |d.pending| > 1
    requires forall x :: x in table' ==> x in table || x == d.pending[0]
    requires forall x :: x in table ==> x in table'
    requires forall x :: x in table' && table'[x] == Delivered ==> x in table && table[x] == Delivered
    ensures DrainOk(table', d.(phase := Ready, pending := d.pending[1..]))
  {
    DistinctTail(d.pending);
  }

  lemma NextDrain(table: map<Row, Status>, s: State, s1: State, c: nat)
    requires c in s.drains && DrainOk(s.table, s.drains[c]) && s.drains[c].phase != Starting
    requires s1.drains == s.drains && s1.table == table
    requires forall x :: x in table ==> x in s.table || x == s.drains[c].pending[0]
    requires forall x :: x in s.table ==> x in table && table[x] == s.table[x]
    requires forall x :: x in table && table[x] == Delivered ==> x in s.table
    ensures var s' := Next(s1, c);
            c in s'.drains ==> s'.drains[c].phase == Ready && DrainOk(table, s'.drains[c])
  {
    if |s.drains[c].pending| > 1 { TailOk(s.table, table, s.drains[c]); }
    hide DrainOk, Distinct;
  }

  lemma NextDrains(s: State, s1: State, c: nat)
    requires Catchable(s, c) && s1.drains == s.drains && s1.inflight == s.inflight && s1.firsts == s.firsts
    requires forall x :: x in s1.table ==> x in s.table || x == s.drains[c].pending[0]
    requires forall x :: x in s.table ==> x in s1.table && s1.table[x] == s.table[x]
    requires forall x :: x in s1.table && s1.table[x] == Delivered ==> x in s.table
    ensures var s' := Next(s1, c);
            && OneDrain(s') && FirstsOk(s')
            && (forall k :: k in s'.drains ==> s'.drains[k].phase == Ready && DrainOk(s'.table, s'.drains[k]))
  {
    hide Counts, DrainOk;
    NextDrain(s1.table, s, s1, c);
  }

  lemma LeaveDrains(s: State, s1: State, c: nat)
    requires Catchable(s, c) && s1.drains == s.drains && s1.inflight == s.inflight && s1.firsts == s.firsts
    requires forall x :: x in s.table ==> x in s1.table && s1.table[x] == s.table[x]
    ensures var s' := Leave(s1, c); OneDrain(s') && FirstsOk(s') && s'.drains.Keys == {}
  {
    hide Counts, Busy, DrainOk;
  }

  lemma CatchDrains(s: State, c: nat, markOk: bool)
    requires Catchable(s, c)
    ensures var s' := Catch(s, c, markOk);
            && OneDrain(s') && FirstsOk(s')
            && (forall k :: k in s'.drains ==> s'.drains[k].phase == Ready && DrainOk(s'.table, s'.drains[k]))
  {
    var r := s.drains[c].pending[0];
    var s1 := Charge(s, r, markOk);
    ChargeTable(s, r, markOk);
    hide Charge, Counts, DrainOk, Next, Leave, FirstsOk, OneDrain;
    if Escapes(s, r, markOk) { LeaveDrains(s, s1, c); } else { NextDrains(s, s1, c); }
  }

  lemma NextCounts(s: State, c: nat, r: Row)
    requires c in s.drains && s.drains[c].pending != [] && Counts(s, r, 0)
    ensures Counts(Next(s, c), r, 0) && Counts(Leave(s, c), r, 0)
  {
    hide CountsOf, MarkOf, Of;
  }

  lemma CatchCounts(s: State, c: nat, markOk: bool, r: Row)
    requires c in s.drains && s.drains[c].pending != [] && Counts(Charge(s, s.drains[c].pending[0], markOk), r, 0)
    ensures Counts(Catch(s, c, markOk), r, 0)
  {
    ChargeTable(s, s.drains[c].pending[0], markOk);
    hide Charge, Counts, Next, Leave, Escapes;
    NextCounts(Charge(s, s.drains[c].pending[0], markOk), c, r);
  }

  lemma CatchKeeps(s: State, c: nat, markOk: bool)
    requires Catchable(s, c)
    requires forall r {:trigger Counts(s, r, 0)} :: r != s.drains[c].pending[0] ==> Counts(s, r, 0)
    ensures Inv(Catch(s, c, markOk))
  {
    var head := s.drains[c].pending[0];
    var s' := Catch(s, c, markOk);
    hide Catch, Charge, Counts, DrainOk;
    CatchDrains(s, c, markOk);
    forall r ensures RowOk(s', r) {
      BusyIs(s', r);
      if r == head { ChargeRow(s, c, markOk); } else { assert Counts(s, r, 0); ChargeOther(s, head, markOk, r); }
      CatchCounts(s, c, markOk, r);
    }
  }

  /** Rows other than the head are not being sent. */
  lemma OtherRows(s: State, c: nat, r: Row)
    requires Inv(s) && c in s.drains && s.drains[c].pending != [] && r != s.drains[c].pending[0]
    ensures Counts(s, r, 0)
  {
    BusyIs(s, r);
    assert RowOk(s, r);
  }

  lemma HeadRow(s: State, c: nat)
    requires Inv(s) && c in s.drains && s.drains[c].phase in {Sending, Settling}
    ensures Catchable(s, c)
  {
    var r := s.drains[c].pending[0];
    BusyIs(s, r);
    assert RowOk(s, r);
  }

  lemma FailKeeps(s: State, e: Event)
    requires Inv(s) && Enabled(s, e)
    requires e.NotSent? || e.SettleThrew? || (e.Sent? && !e.dbOk)
    ensures Inv(Apply(s, e))
  {
    var c := e.c;
    HeadRow(s, c);
    var r := s.drains[c].pending[0];
    var s1 := if e.Sent? then s.(successes := Bump(s.successes, r), lost := Bump(s.lost, r)) else s;
    assert Catchable(s1, c);
    forall r' | r' != r ensures Counts(s1, r', 0) { OtherRows(s, c, r'); }
    CatchKeeps(s1, c, e.markOk);
  }

  lemma DeliveredKeeps(s: State, c: nat, markOk: bool)
    requires Inv(s) && Enabled(s, Sent(c, true, markOk))
    ensures Inv(Apply(s, Sent(c, true, markOk)))
  {
    var s' := Apply(s, Sent(c, true, markOk));
    HeadRow(s, c);
    var d := s.drains[c];
    var r := d.pending[0];
    DistinctTail(d.pending);
    assert OneDrain(s');
    assert DrainOk(s'.table, s'.drains[c]);
    forall r' ensures RowOk(s', r') {
      BusyIs(s', r');
      if r' != r { OtherRows(s, c, r'); }
    }
    assert s'.table[r] == Delivered;
  }

  lemma OnlyDrain(s: State, c: nat)
    requires Catchable(s, c)
    ensures forall k :: k in s.drains ==> k == c
  {
    hide DrainOk, Counts, FirstsOk;
  }

  lemma SettledKeeps(s: State, c: nat)
    requires Inv(s) && Enabled(s, Settled(c))
    ensures Inv(Apply(s, Settled(c)))
  {
    HeadRow(s, c);
    NextDrains(s, s, c);
    NextBooks(s, c);
    OnlyDrain(s, c);
    assert forall k :: k in s.drains ==> s.drains[k].phase == Settling;
    hide Inv, OneDrain, Counts, DrainOk, Busy, Next, Catchable;
    DrainsSame(s, Next(s, c));
  }

  lemma StepKeeps(s: State, e: Event)
    requires Inv(s) && Enabled(s, e)
    ensures Inv(Apply(s, e))
  {
    hide Inv, Enabled, Apply;
    match e {
      case Send(c) => SendKeeps(s, c);
      case Sent(c, dbOk, markOk) => if dbOk { DeliveredKeeps(s, c, markOk); } else { FailKeeps(s, e); }
      case NotSent(_, _) => FailKeeps(s, e);
      case Settled(c) => SettledKeeps(s, c);
      case SettleThrew(_, _) => FailKeeps(s, e);
      case Call(c) => CallKeeps(s, c);
      case Quit(c) => QuitKeeps(s, c);
      case Snapshot(c, due) => SnapshotKeeps(s, c, due);
    }
  }

  lemma StartInv(table: map<Row, Status>)
    ensures Inv(Start(table))
  {
    var s := Start(table);
    forall r ensures RowOk(s, r) { BusyIs(s, r); }
  }

  lemma {:induction false} RunKeepsInv(table: map<Row, Status>, es: seq<Event>)
    requires Valid(Start(table), es)
    ensures Inv(Exec(Start(table), es))
    decreases |es|
  {
    hide Inv, Apply;
    if es == [] {
      StartInv(table);
    } else {
      RunKeepsInv(table, es[..|es| - 1]);
      StepKeeps(Exec(Start(table), es[..|es| - 1]), es[|es| - 1]);
    }
  }

  // ---- What holds of every run ------------------------------------------------

  /** Calls of the adapter never overlap: one drain at a time. */
  lemma CallsNeverOverlap(table: map<Row, Status>, es: seq<Event>, c: nat, c': nat)
    requires Valid(Start(table), es)
    requires In(Exec(Start(table), es), c, Sending) && In(Exec(Start(table), es), c', Sending)
    ensures c == c'
  {
    hide Valid, Exec, RowOk, DrainOk, FirstsOk;
    RunKeepsInv(table, es);
  }

  /** At most three calls per row, one more for each markDeliveryFailed of it that threw, and a
      row given up on had them all; its successes are the markDelivered that threw, and one more
      exactly when it stands delivered. */
  lemma CallsBounded(table: map<Row, Status>, es: seq<Event>, r: Row)
    requires Valid(Start(table), es)
    ensures var s := Exec(Start(table), es);
            && Of(s.calls, r) <= 3 + Of(s.unmarked, r)
            && (r in s.table && s.table[r] == Failed && Of(s.calls, r) > 0 ==> Of(s.calls, r) == 3 + Of(s.unmarked, r))
            && (r !in s.table || Of(s.calls, r) > 0 ==>
                  Of(s.successes, r) == Of(s.lost, r) + if r in s.table && s.table[r] == Delivered then 1 else 0)
            && (r in s.table && Of(s.calls, r) == 0 ==> Of(s.successes, r) == 0)
  {
    hide Valid, Exec, DrainOk, FirstsOk, Of;
    RunKeepsInv(table, es);
    assert RowOk(Exec(Start(table), es), r);
  }

  /** firstDelivery goes to at most one row. */
  lemma OneFirstDelivery(table: map<Row, Status>, es: seq<Event>)
    requires Valid(Start(table), es)
    ensures |Exec(Start(table), es).firsts| <= 1
  {
    hide Valid, Exec, DrainOk, RowOk;
    RunKeepsInv(table, es);
  }

  ghost predicate KnowsEarlier(s: State) {
    s.firsts == [] && s.table.Keys != {} &&
    forall c :: c in s.drains && s.drains[c].phase != Starting ==> s.drains[c].local != {}
  }

  lemma NextLocals(s: State, c: nat)
    requires c in s.drains && s.drains[c].pending != []
    ensures forall k :: k in Next(s, c).drains ==> k in s.drains && Next(s, c).drains[k].local == s.drains[k].local
    ensures forall k :: k in Next(s, c).drains ==> k != c ==> Next(s, c).drains[k] == s.drains[k]
  {
  }

  lemma CatchLocals(s: State, c: nat, markOk: bool)
    requires c in s.drains && s.drains[c].pending != []
    ensures var s' := Catch(s, c, markOk);
            forall k :: k in s'.drains ==>
              k in s.drains && s'.drains[k].local == s.drains[k].local && (k != c ==> s'.drains[k] == s.drains[k])
  {
    var r := s.drains[c].pending[0];
    ChargeTable(s, r, markOk);
    hide Charge, Escapes, Next;
    NextLocals(Charge(s, r, markOk), c);
  }

  lemma CatchKnows(s: State, c: nat, markOk: bool)
    requires KnowsEarlier(s) && c in s.drains && s.drains[c].pending != [] && s.drains[c].phase != Starting
    ensures KnowsEarlier(Catch(s, c, markOk))
  {
    var r := s.drains[c].pending[0];
    ChargeTable(s, r, markOk);
    assert s.table.Keys <= Charge(s, r, markOk).table.Keys;
    CatchBooks(s, c, markOk);
    CatchLocals(s, c, markOk);
    hide Charge, Catch;
  }

  lemma FailKnows(s: State, e: Event)
    requires KnowsEarlier(s) && Enabled(s, e) && Fails(e)
    ensures KnowsEarlier(Apply(s, e))
  {
    var r := s.drains[e.c].pending[0];
    var s1 := if e.Sent? then s.(successes := Bump(s.successes, r), lost := Bump(s.lost, r)) else s;
    CatchKnows(s1, e.c, e.markOk);
    hide Catch, Bump, KnowsEarlier;
  }

  lemma OpenKnows(s: State, c: nat)
    requires KnowsEarlier(s) && Enabled(s, Call(c))
    ensures KnowsEarlier(Apply(s, Call(c)))
  {
  }

  lemma SnapshotKnows(s: State, c: nat, due: seq<Row>)
    requires KnowsEarlier(s) && Enabled(s, Snapshot(c, due))
    ensures KnowsEarlier(Apply(s, Snapshot(c, due)))
  {
    hide Undelivered, Distinct;
  }

  lemma SendKnows(s: State, c: nat)
    requires KnowsEarlier(s) && Enabled(s, Send(c))
    ensures KnowsEarlier(Apply(s, Send(c)))
  {
    hide Bump;
  }

  lemma DeliveredKnows(s: State, c: nat, markOk: bool)
    requires KnowsEarlier(s) && Enabled(s, Sent(c, true, markOk))
    ensures KnowsEarlier(Apply(s, Sent(c, true, markOk)))
  {
    hide Bump;
  }

  lemma SettledKnows(s: State, c: nat)
    requires KnowsEarlier(s) && Enabled(s, Settled(c))
    ensures KnowsEarlier(Apply(s, Settled(c)))
  {
    NextLocals(s, c);
    NextBooks(s, c);
    hide Next;
  }

  lemma StepKnows(s: State, e: Event)
    requires KnowsEarlier(s) && Enabled(s, e)
    ensures KnowsEarlier(Apply(s, e))
  {
    if Fails(e) {
      FailKnows(s, e);
    } else {
      match e {
        case Call(c) => OpenKnows(s, c);
        case Snapshot(c, due) => SnapshotKnows(s, c, due);
        case Send(c) => SendKnows(s, c);
        case Sent(c, _, markOk) => DeliveredKnows(s, c, markOk);
        case Settled(c) => SettledKnows(s, c);
        case Quit(c) => assert Apply(s, e) == Leave(s, c);
      }
    }
    hide Apply, Enabled, KnowsEarlier;
  }

  /** Over restarts too: a process that starts with any row marked gives the flag to none. */
  lemma {:induction false} NoFirstDeliveryLater(table: map<Row, Status>, es: seq<Event>)
    requires Valid(Start(table), es) && table.Keys != {}
    ensures Exec(Start(table), es).firsts == []
    ensures KnowsEarlier(Exec(Start(table), es))
    decreases |es|
  {
    hide Apply, Enabled;
    if es != [] {
      NoFirstDeliveryLater(table, es[..|es| - 1]);
      StepKnows(Exec(Start(table), es[..|es| - 1]), es[|es| - 1]);
    }
  }

  /** The step in which markDelivered of r throws. */
  predicate MarkThrows(s: State, e: Event, r: Row) {
    e.Sent? && !e.dbOk && e.c in s.drains && s.drains[e.c].pending != [] && s.drains[e.c].pending[0] == r
  }

  predicate Fails(e: Event) {
    e.NotSent? || e.SettleThrew? || (e.Sent? && !e.dbOk)
  }

  /** The step in which markDeliveryFailed of r throws. */
  predicate GiveUpThrows(s: State, e: Event, r: Row) {
    && Fails(e) && e.c in s.drains && s.drains[e.c].pending != [] && s.drains[e.c].pending[0] == r
    && Escapes(s, r, e.markOk)
  }

  predicate SameBooks(s: State, s': State) {
    && s'.table == s.table && s'.attempts == s.attempts && s'.calls == s.calls && s'.successes == s.successes
    && s'.lost == s.lost && s'.unmarked == s.unmarked && s'.firsts == s.firsts
  }

  lemma NextBooks(s: State, c: nat)
    requires c in s.drains
    ensures SameBooks(s, Leave(s, c))
    ensures s.drains[c].pending != [] ==> SameBooks(s, Next(s, c))
  {
  }

  lemma CatchBooks(s: State, c: nat, markOk: bool)
    requires c in s.drains && s.drains[c].pending != []
    ensures SameBooks(Charge(s, s.drains[c].pending[0], markOk), Catch(s, c, markOk))
  {
    var r := s.drains[c].pending[0];
    ChargeTable(s, r, markOk);
    hide Charge, Leave, Next, SameBooks;
    NextBooks(Charge(s, r, markOk), c);
  }

  lemma CatchLosses(s: State, c: nat, markOk: bool, r: Row)
    requires c in s.drains && s.drains[c].pending != []
    ensures var s' := Catch(s, c, markOk);
            && Of(s'.lost, r) == Of(s.lost, r)
            && Of(s'.unmarked, r) ==
               Of(s.unmarked, r) + if s.drains[c].pending[0] == r && Escapes(s, r, markOk) then 1 else 0
  {
    var head := s.drains[c].pending[0];
    CatchBooks(s, c, markOk);
    ChargeFigures(s, head, markOk, r);
    if Of(s.attempts, r) + 1 >= MAX_DELIVERY_ATTEMPTS && markOk { ChargeFigures(s, head, markOk, head); }
    hide Catch, Charge, Of;
  }

  /** What a step adds to the row's counts of writes that threw. */
  lemma StepLosses(s: State, e: Event, r: Row)
    requires Enabled(s, e)
    ensures Of(Apply(s, e).lost, r) == Of(s.lost, r) + if MarkThrows(s, e, r) then 1 else 0
    ensures Of(Apply(s, e).unmarked, r) == Of(s.unmarked, r) + if GiveUpThrows(s, e, r) then 1 else 0
  {
    if Fails(e) {
      var head := s.drains[e.c].pending[0];
      var s1 := if e.Sent? then s.(successes := Bump(s.successes, head), lost := Bump(s.lost, head)) else s;
      CatchLosses(s1, e.c, e.markOk, r);
    } else {
      if e.Quit? || e.Snapshot? || e.Settled? { NextBooks(s, e.c); }
    }
    hide Mark, Undelivered, Distinct, Next, Leave, Catch;
  }

  /** No markDelivered, no markDeliveryFailed of r throws at any step of the run. */
  ghost predicate RowWritesSucceed(table: map<Row, Status>, es: seq<Event>, r: Row)
    requires Valid(Start(table), es)
    decreases |es|
  {
    es == [] ||
    var before := es[..|es| - 1];
    RowWritesSucceed(table, before, r)
    && !MarkThrows(Exec(Start(table), before), es[|es| - 1], r) && !GiveUpThrows(Exec(Start(table), before), es[|es| - 1], r)
  }

  lemma {:induction false} LossesIff(table: map<Row, Status>, es: seq<Event>, r: Row)
    requires Valid(Start(table), es)
    ensures var s := Exec(Start(table), es);
            RowWritesSucceed(table, es, r) <==> Of(s.lost, r) == 0 && Of(s.unmarked, r) == 0
    decreases |es|
  {
    hide Apply, Of, MarkThrows, GiveUpThrows;
    if es == [] {
      assert Of(map[], r) == 0 by { EmptyCounts(r); }
    } else {
      LossesIff(table, es[..|es| - 1], r);
      StepLosses(Exec(Start(table), es[..|es| - 1]), es[|es| - 1], r);
    }
  }

  /** Some markDelivered of r throws at a step of the run. */
  ghost predicate MarkThrew(table: map<Row, Status>, es: seq<Event>, r: Row)
    requires Valid(Start(table), es)
    decreases |es|
  {
    es != [] &&
    var before := es[..|es| - 1];
    MarkThrew(table, before, r) || MarkThrows(Exec(Start(table), before), es[|es| - 1], r)
  }

  lemma {:induction false} MarkThrewIff(table: map<Row, Status>, es: seq<Event>, r: Row)
    requires Valid(Start(table), es)
    ensures MarkThrew(table, es, r) <==> Of(Exec(Start(table), es).lost, r) > 0
    decreases |es|
  {
    hide Apply, Of, MarkThrows, GiveUpThrows;
    if es == [] {
      assert Of(map[], r) == 0 by { EmptyCounts(r); }
    } else {
      MarkThrewIff(table, es[..|es| - 1], r);
      StepLosses(Exec(Start(table), es[..|es| - 1]), es[|es| - 1], r);
    }
  }

  lemma EmptyCounts(r: Row)
    ensures Of(map[], r) == 0
  {
  }

  /** A row that this process delivered was sent exactly once if and only if no markDelivered
      of it threw. */
  lemma SentOnceIff(table: map<Row, Status>, es: seq<Event>, r: Row)
    requires Valid(Start(table), es)
    requires var s := Exec(Start(table), es);
             r in s.table && s.table[r] == Delivered && Of(s.calls, r) > 0
    ensures Of(Exec(Start(table), es).successes, r) == 1 <==> !MarkThrew(table, es, r)
  {
    hide Valid, Exec, Of, MarkThrew;
    CallsBounded(table, es, r);
    MarkThrewIff(table, es, r);
  }

  /** The promise itself: with every write for this row going through, three calls and one
      success at most, whatever happens to other rows. */
  lemma ThreeCallsOneSuccess(table: map<Row, Status>, es: seq<Event>, r: Row)
    requires Valid(Start(table), es) && RowWritesSucceed(table, es, r)
    ensures var s := Exec(Start(table), es);
            Of(s.calls, r) <= 3 && Of(s.successes, r) <= 1
  {
    hide Valid, Exec, Of, RowWritesSucceed;
    CallsBounded(table, es, r);
    LossesIff(table, es, r);
  }

  /** Once a row is delivered or failed it is never called again. */
  lemma CatchLeavesMarked(s: State, c: nat, markOk: bool, r: Row)
    requires c in s.drains && s.drains[c].pending != [] && r in s.table
    ensures var s' := Catch(s, c, markOk);
            r in s'.table && s'.table[r] == s.table[r] && s'.calls == s.calls
  {
    var head := s.drains[c].pending[0];
    CatchBooks(s, c, markOk);
    ChargeFigures(s, head, markOk, r);
    ChargeTable(s, head, markOk);
    hide Catch, Charge, Of;
  }

  lemma FailLeavesMarked(s: State, e: Event, r: Row)
    requires Enabled(s, e) && r in s.table
    requires e.NotSent? || e.SettleThrew? || (e.Sent? && !e.dbOk)
    ensures var s' := Apply(s, e); r in s'.table && s'.table[r] == s.table[r] && s'.calls == s.calls
  {
    var head := s.drains[e.c].pending[0];
    var s1 := if e.Sent? then s.(successes := Bump(s.successes, head), lost := Bump(s.lost, head)) else s;
    CatchLeavesMarked(s1, e.c, e.markOk, r);
    hide Catch, Bump;
  }

  lemma StepLeavesMarked(s: State, e: Event, r: Row)
    requires Inv(s) && Enabled(s, e) && r in s.table
    ensures var s' := Apply(s, e);
            r in s'.table && s'.table[r] == s.table[r] && Of(s'.calls, r) == Of(s.calls, r)
  {
    if e.NotSent? || e.SettleThrew? || (e.Sent? && !e.dbOk) {
      FailLeavesMarked(s, e, r);
    } else {
      if e.Send? { assert DrainOk(s.table, s.drains[e.c]); }
      if e.Quit? || e.Snapshot? || e.Settled? { NextBooks(s, e.c); }
      hide Inv, DrainOk, Undelivered, Distinct, Next, Leave, Catch;
    }
  }

  lemma {:induction false} NeverCalledAgain(table: map<Row, Status>, es: seq<Event>, n: nat, r: Row)
    requires Valid(Start(table), es) && n <= |es| && Valid(Start(table), es[..n])
    requires r in Exec(Start(table), es[..n]).table
    ensures var s, s' := Exec(Start(table), es[..n]), Exec(Start(table), es);
            r in s'.table && s'.table[r] == s.table[r] && Of(s'.calls, r) == Of(s.calls, r)
    decreases |es|
  {
    hide Apply, Inv, Of;
    if n == |es| {
      assert es[..n] == es;
    } else {
      var before := es[..|es| - 1];
      assert before[..n] == es[..n];
      NeverCalledAgain(table, before, n, r);
      RunKeepsInv(table, before);
      StepLeavesMarked(Exec(Start(table), before), es[|es| - 1], r);
    }
  }

  lemma Snoc(s: State, es: seq<Event>, e: Event)
    requires Valid(s, es) && Enabled(Exec(s, es), e)
    ensures Valid(s, es + [e]) && Exec(s, es + [e]) == Apply(Exec(s, es), e)
  {
    assert (es + [e])[..|es + [e]| - 1] == es;
  }

  // ---- Which row carries firstDelivery ----------------------------------------

  predicate Delivers(e: Event) {
    e.Sent? && e.dbOk
  }

  predicate SnapshotBy(e: Event, c: nat) {
    e.Snapshot? && e.c == c
  }

  lemma {:induction false} ValidPrefix(s: State, es: seq<Event>, n: nat)
    requires Valid(s, es) && n <= |es|
    ensures Valid(s, es[..n])
    ensures n < |es| ==> Enabled(Exec(s, es[..n]), es[n])
    decreases |es|
  {
    hide Apply, Enabled;
    if n == |es| {
      assert es[..n] == es;
    } else {
      var before := es[..|es| - 1];
      assert before[..n] == es[..n];
      ValidPrefix(s, before, n);
    }
  }

  lemma FailLocal(s: State, e: Event, c: nat)
    requires Enabled(s, e) && Fails(e)
    requires c in Apply(s, e).drains && Apply(s, e).drains[c].phase != Starting
    ensures c in s.drains && s.drains[c].phase != Starting && Apply(s, e).drains[c].local == s.drains[c].local
  {
    hide Catch, Bump;
    var r := s.drains[e.c].pending[0];
    var s1 := if e.Sent? then s.(successes := Bump(s.successes, r), lost := Bump(s.lost, r)) else s;
    CatchLocals(s1, e.c, e.markOk);
  }

  lemma CallLocal(s: State, k: nat, c: nat)
    requires Enabled(s, Call(k)) && c in Apply(s, Call(k)).drains && Apply(s, Call(k)).drains[c].phase != Starting
    ensures c in s.drains && s.drains[c].phase != Starting && Apply(s, Call(k)).drains[c].local == s.drains[c].local
  {
  }

  lemma QuitLocal(s: State, k: nat, c: nat)
    requires Enabled(s, Quit(k)) && c in Apply(s, Quit(k)).drains && Apply(s, Quit(k)).drains[c].phase != Starting
    ensures c in s.drains && s.drains[c].phase != Starting && Apply(s, Quit(k)).drains[c].local == s.drains[c].local
  {
  }

  lemma SnapshotLocal(s: State, k: nat, due: seq<Row>, c: nat)
    requires Enabled(s, Snapshot(k, due)) && k != c && c in Apply(s, Snapshot(k, due)).drains
    requires Apply(s, Snapshot(k, due)).drains[c].phase != Starting
    ensures c in s.drains && s.drains[c].phase != Starting && Apply(s, Snapshot(k, due)).drains[c].local == s.drains[c].local
  {
    hide Undelivered, Distinct, Take;
    TakeLocals(s, k, Undelivered(due, s.table));
  }

  lemma SendLocal(s: State, k: nat, c: nat)
    requires Enabled(s, Send(k)) && c in Apply(s, Send(k)).drains && Apply(s, Send(k)).drains[c].phase != Starting
    ensures c in s.drains && s.drains[c].phase != Starting && Apply(s, Send(k)).drains[c].local == s.drains[c].local
  {
    hide Bump;
  }

  lemma SettledLocal(s: State, k: nat, c: nat)
    requires Enabled(s, Settled(k)) && c in Apply(s, Settled(k)).drains && Apply(s, Settled(k)).drains[c].phase != Starting
    ensures c in s.drains && s.drains[c].phase != Starting && Apply(s, Settled(k)).drains[c].local == s.drains[c].local
  {
    NextLocals(s, k);
    hide Next;
  }

  /** A drain past its snapshot keeps its local set until it delivers or snapshots anew. */
  lemma StepLocal(s: State, e: Event, c: nat)
    requires Enabled(s, e) && !Delivers(e) && !SnapshotBy(e, c)
    requires c in Apply(s, e).drains && Apply(s, e).drains[c].phase != Starting
    ensures c in s.drains && s.drains[c].phase != Starting && Apply(s, e).drains[c].local == s.drains[c].local
  {
    hide Apply, Enabled;
    match e {
      case Call(k) => CallLocal(s, k, c);
      case Quit(k) => QuitLocal(s, k, c);
      case Snapshot(k, due) => SnapshotLocal(s, k, due, c);
      case Send(k) => SendLocal(s, k, c);
      case Settled(k) => SettledLocal(s, k, c);
      case _ => FailLocal(s, e, c);
    }
  }

  /** Until something is delivered, a drain's local set is the table at its snapshot. */
  lemma {:induction false} SnapshotOf(table: map<Row, Status>, es: seq<Event>, c: nat) returns (m: nat)
    requires Valid(Start(table), es) && (forall k :: 0 <= k < |es| ==> !Delivers(es[k]))
    requires var s := Exec(Start(table), es); c in s.drains && s.drains[c].phase != Starting
    ensures m < |es| && SnapshotBy(es[m], c) && (forall k :: m < k < |es| ==> !SnapshotBy(es[k], c))
    ensures Valid(Start(table), es[..m])
    ensures Exec(Start(table), es).drains[c].local == Exec(Start(table), es[..m]).table.Keys
    decreases |es|
  {
    hide Apply, Enabled;
    var n := |es| - 1;
    var before, e := es[..n], es[n];
    var s := Exec(Start(table), before);
    if SnapshotBy(e, c) {
      m := n;
      SnapshotTakes(s, c, e.due);
    } else {
      StepLocal(s, e, c);
      m := SnapshotOf(table, before, c);
      assert before[..m] == es[..m];
    }
  }

  lemma SnapshotTakes(s: State, c: nat, due: seq<Row>)
    requires Enabled(s, Snapshot(c, due)) && c in Apply(s, Snapshot(c, due)).drains
    ensures Apply(s, Snapshot(c, due)).drains[c].local == s.table.Keys
  {
    hide Undelivered, Distinct, Take;
    TakeLocals(s, c, Undelivered(due, s.table));
  }

  lemma TakeLocals(s: State, c: nat, pending: seq<Row>)
    ensures forall k :: k in Take(s, c, pending).drains ==>
              if k == c then Take(s, c, pending).drains[k].local == s.table.Keys
              else k in s.drains && Take(s, c, pending).drains[k] == s.drains[k]
  {
  }

  lemma StepFlags(s: State, e: Event)
    requires Enabled(s, e)
    ensures !Delivers(e) ==> Apply(s, e).firsts == s.firsts
    ensures Delivers(e) ==> Apply(s, e).firsts ==
                            if s.drains[e.c].local == {} then s.firsts + [s.drains[e.c].pending[0]] else s.firsts
  {
    if Fails(e) {
      var r := s.drains[e.c].pending[0];
      var s1 := if e.Sent? then s.(successes := Bump(s.successes, r), lost := Bump(s.lost, r)) else s;
      CatchBooks(s1, e.c, e.markOk);
      ChargeTable(s1, r, e.markOk);
    } else if e.Quit? || e.Snapshot? || e.Settled? {
      NextBooks(s, e.c);
    }
    hide Catch, Charge, Next, Leave, Undelivered, Distinct, Bump;
  }

  lemma {:induction false} NoDeliveryNoFlag(table: map<Row, Status>, es: seq<Event>)
    requires Valid(Start(table), es) && (forall k :: 0 <= k < |es| ==> !Delivers(es[k]))
    ensures Exec(Start(table), es).firsts == []
    decreases |es|
  {
    hide Apply, Enabled;
    if es != [] {
      NoDeliveryNoFlag(table, es[..|es| - 1]);
      StepFlags(Exec(Start(table), es[..|es| - 1]), es[|es| - 1]);
    }
  }

  /** Once a row stands delivered, every drain knows it. */
  lemma NoFlagAfter(s: State, e: Event, r: Row)
    requires Inv(s) && Enabled(s, e) && r in s.table && s.table[r] == Delivered
    ensures Apply(s, e).firsts == s.firsts
  {
    StepFlags(s, e);
    if Delivers(e) { assert DrainOk(s.table, s.drains[e.c]); }
    hide Apply, Catch, Distinct;
  }

  lemma {:induction false} FlagsStay(table: map<Row, Status>, es: seq<Event>, n: nat, r: Row)
    requires Valid(Start(table), es) && n <= |es| && Valid(Start(table), es[..n])
    requires var s := Exec(Start(table), es[..n]); r in s.table && s.table[r] == Delivered
    ensures Exec(Start(table), es).firsts == Exec(Start(table), es[..n]).firsts
    decreases |es|
  {
    hide Apply, Inv, Enabled;
    if n == |es| {
      assert es[..n] == es;
    } else {
      var before := es[..|es| - 1];
      assert before[..n] == es[..n];
      FlagsStay(table, before, n, r);
      NeverCalledAgain(table, before, n, r);
      RunKeepsInv(table, before);
      NoFlagAfter(Exec(Start(table), before), es[|es| - 1], r);
    }
  }

  lemma DeliversRow(s: State, e: Event)
    requires Inv(s) && Enabled(s, e) && Delivers(e)
    ensures var r, s' := s.drains[e.c].pending[0], Apply(s, e); r in s'.table && s'.table[r] == Delivered
  {
    assert DrainOk(s.table, s.drains[e.c]);
  }

  /** Exactly when the flag is given: es[n] is the process's first delivery and es[m] the snapshot
      its drain took. That row carries firstDelivery if no row was marked before the
      snapshot, and otherwise no row ever does. */
  lemma FirstDeliveryIff(table: map<Row, Status>, es: seq<Event>, n: nat) returns (m: nat)
    requires Valid(Start(table), es) && n < |es| && Delivers(es[n])
    requires forall k :: 0 <= k < n ==> !Delivers(es[k])
    ensures m < n && SnapshotBy(es[m], es[n].c) && (forall k :: m < k < n ==> !SnapshotBy(es[k], es[n].c))
    ensures Valid(Start(table), es[..m]) && Valid(Start(table), es[..n])
    ensures var at := Exec(Start(table), es[..n]);
            && es[n].c in at.drains && at.drains[es[n].c].pending != []
            && Exec(Start(table), es).firsts ==
               if Exec(Start(table), es[..m]).table == map[] then [at.drains[es[n].c].pending[0]] else []
  {
    hide Apply, Inv;
    var c, s0 := es[n].c, Start(table);
    ValidPrefix(s0, es, n);
    ValidPrefix(s0, es, n + 1);
    var at := Exec(s0, es[..n]);
    m := SnapshotOf(table, es[..n], c);
    assert es[..n][..m] == es[..m];
    NoDeliveryNoFlag(table, es[..n]);
    StepFlags(at, es[n]);
    RunKeepsInv(table, es[..n]);
    DeliversRow(at, es[n]);
    assert es[..n + 1][..n] == es[..n];
    FlagsStay(table, es, n + 1, at.drains[c].pending[0]);
    assert Exec(s0, es[..m]).table.Keys == {} <==> Exec(s0, es[..m]).table == map[];
  }

  /** One drain that fails its only row: the books of the row are charged and the drain is over. */
  ghost function FailedDrain(s0: State, run: seq<Event>, c: nat, r: Row): (next: seq<Event>)
    requires Valid(s0, run)
    requires var s := Exec(s0, run); !s.inflight && c !in s.drains && r !in s.table
    ensures Valid(s0, next)
    ensures var s, s' := Exec(s0, run), Exec(s0, next);
            && s'.table == Charge(s, r, true).table && s'.attempts == Charge(s, r, true).attempts
            && !s'.inflight && s'.drains == s.drains && s'.firsts == s.firsts
  {
    assert [r][1..] == [];
    assert Undelivered([r], Exec(s0, run).table) == [r];
    ChargeTable(Exec(s0, run), r, true);
    hide Charge, Valid, Exec;
    var s := Exec(s0, run);
    var e1 := Took(s0, run, Call(c));
    var e2 := Took(s0, e1, Snapshot(c, [r]));
    var e3 := Took(s0, e2, Send(c));
    var s3 := Exec(s0, e3);
    ChargeReads(s, s3, r, true);
    ChargeTable(s3, r, true);
    assert s3.drains - {c} == s.drains;
    Took(s0, e3, NotSent(c, true))
  }

  lemma GivenUp(bad: Row) returns (es: seq<Event>)
    ensures Valid(Start(map[]), es)
    ensures var s := Exec(Start(map[]), es); s.table == map[bad := Failed] && !s.inflight && s.drains == map[] && s.firsts == []
  {
    hide Valid, Exec;
    var s0 := Start(map[]);
    assert Valid(s0, []) && Exec(s0, []) == s0 by { EmptyRun(s0); }
    es := FailedDrain(s0, FailedDrain(s0, FailedDrain(s0, [], 0, bad), 0, bad), 0, bad);
  }

  /** So "exactly one" can fail: a row given up on by an earlier drain leaves the flag to none. */
  lemma GivenUpTakesTheFlag(bad: Row, good: Row)
    requires bad != good
    ensures exists es :: && Valid(Start(map[]), es)
                         && Exec(Start(map[]), es).firsts == []
                         && Exec(Start(map[]), es).table == map[bad := Failed, good := Delivered]
  {
    hide Valid, Exec;
    var s0 := Start(map[]);
    var e1 := GivenUp(bad);
    assert [good][1..] == [];
    assert Undelivered([good], map[bad := Failed]) == [good];
    hide Undelivered, Distinct;
    var e2 := Took(s0, e1, Call(0));
    assert Distinct([good]) by { OneRow(good); }
    var e3 := Took(s0, e2, Snapshot(0, [good]));
    var e4 := Took(s0, e3, Send(0));
    assert Exec(s0, e4).drains[0] == Drain(Sending, {bad}, [good]);
    var e5 := Took(s0, e4, Sent(0, true, true));
  }

  lemma OneRow(r: Row)
    ensures Distinct([r])
  {
  }

  lemma EmptyRun(s: State)
    ensures Valid(s, []) && Exec(s, []) == s
  {
  }

  // ---- In which order ---------------------------------------------------------

  /** The rows that drain c handed to deliverMessage since its last snapshot. */
  ghost function Sends(s: State, es: seq<Event>, c: nat): seq<Row>
    requires Valid(s, es)
  {
    if es == [] then []
    else
      var e, before := es[|es| - 1], es[..|es| - 1];
      if SnapshotBy(e, c) then []
      else if e == Send(c) then Sends(s, before, c) + [Exec(s, before).drains[c].pending[0]]
      else Sends(s, before, c)
  }

  /** sent are the rows of due at ascending places, none of which table had a mark for. */
  predicate Places(at: seq<nat>, due: seq<Row>, table: map<Row, Status>, sent: seq<Row>) {
    && |at| == |sent|
    && (forall i, j :: 0 <= i < j < |at| ==> at[i] < at[j])
    && forall i :: 0 <= i < |at| ==> at[i] < |due| && sent[i] == due[at[i]] && sent[i] !in table
  }

  ghost predicate InDueOrder(due: seq<Row>, table: map<Row, Status>, sent: seq<Row>) {
    exists at: seq<nat> :: Places(at, due, table, sent)
  }

  /** Every row of due that table had no mark for is there. */
  predicate AllOf(due: seq<Row>, table: map<Row, Status>, sent: seq<Row>) {
    forall i :: 0 <= i < |due| && due[i] !in table ==> due[i] in sent
  }

  function Shifted(at: seq<nat>): (r: seq<nat>)
    ensures |r| == |at| && forall i :: 0 <= i < |at| ==> r[i] == at[i] + 1
  {
    if at == [] then [] else [at[0] + 1] + Shifted(at[1..])
  }

  lemma PlacesLater(r: Row, at: seq<nat>, due: seq<Row>, table: map<Row, Status>, sent: seq<Row>)
    requires Places(at, due, table, sent)
    ensures Places(Shifted(at), [r] + due, table, sent)
  {
    hide Shifted;
    var at', due' := Shifted(at), [r] + due;
    forall i | 0 <= i < |at| ensures due'[at'[i]] == due[at[i]] { }
  }

  lemma PlacesFirst(r: Row, at: seq<nat>, due: seq<Row>, table: map<Row, Status>, sent: seq<Row>)
    requires Places(at, due, table, sent) && (forall i :: 0 <= i < |at| ==> at[i] > 0)
    requires due != [] && due[0] == r && r !in table
    ensures Places([0] + at, due, table, [r] + sent)
  {
    var at2, sent2 := [0] + at, [r] + sent;
    assert forall i :: 0 < i < |at2| ==> at2[i] == at[i - 1] && sent2[i] == sent[i - 1];
  }

  lemma {:induction false} UndeliveredInOrder(due: seq<Row>, table: map<Row, Status>) returns (at: seq<nat>)
    ensures Places(at, due, table, Undelivered(due, table))
  {
    at := [];
    if due != [] {
      at := UndeliveredInOrder(due[1..], table);
      hide Places, Shifted;
      PlacesLater(due[0], at, due[1..], table, Undelivered(due[1..], table));
      assert [due[0]] + due[1..] == due;
      at := Shifted(at);
      if due[0] !in table {
        PlacesFirst(due[0], at, due, table, Undelivered(due[1..], table));
        at := [0] + at;
      }
    }
  }

  lemma {:induction false} UndeliveredIsAll(due: seq<Row>, table: map<Row, Status>)
    ensures AllOf(due, table, Undelivered(due, table))
  {
    if due != [] {
      UndeliveredIsAll(due[1..], table);
      forall i | 0 <= i < |due| && due[i] !in table ensures due[i] in Undelivered(due, table) {
        if i > 0 { assert due[1..][i - 1] == due[i]; }
      }
    }
  }

  lemma PrefixInOrder(due: seq<Row>, table: map<Row, Status>, sent: seq<Row>)
    requires sent <= Undelivered(due, table)
    ensures InDueOrder(due, table, sent)
    ensures sent == Undelivered(due, table) ==> AllOf(due, table, sent)
  {
    hide Undelivered, AllOf;
    var at := UndeliveredInOrder(due, table);
    UndeliveredIsAll(due, table);
    assert Places(at[..|sent|], due, table, sent);
  }

  /** markDeliveryFailed throws at this event of drain c. */
  predicate EscapesAt(s: State, e: Event, c: nat) {
    && c in s.drains && s.drains[c].pending != []
    && match e
       case Sent(c', dbOk, markOk) => c' == c && !dbOk && Escapes(s, s.drains[c].pending[0], markOk)
       case NotSent(c', markOk) => c' == c && Escapes(s, s.drains[c].pending[0], markOk)
       case SettleThrew(c', markOk) => c' == c && Escapes(s, s.drains[c].pending[0], markOk)
       case _ => false
  }

  /** What drain c has still to hand over, once it has its snapshot. */
  function Left(s: State, c: nat): Option<seq<Row>> {
    if c !in s.drains || s.drains[c].phase == Starting then None
    else if s.drains[c].phase == Ready || s.drains[c].pending == [] then Some(s.drains[c].pending)
    else Some(s.drains[c].pending[1..])
  }

  lemma CatchLeaves(s: State, k: nat, markOk: bool, c: nat)
    requires k in s.drains && s.drains[k].pending != []
    ensures var left := Left(Catch(s, k, markOk), c);
            if k != c then left == Left(s, c)
            else if Escapes(s, s.drains[c].pending[0], markOk) || |s.drains[c].pending| == 1 then left == None
            else left == Some(s.drains[c].pending[1..])
  {
    hide Charge, Escapes;
    var r := s.drains[k].pending[0];
    ChargeDrains(s, r, markOk);
    NextLeft(Charge(s, r, markOk), s, k, c);
    hide Next, Leave, Left;
  }

  lemma ChargeDrains(s: State, r: Row, markOk: bool)
    ensures Charge(s, r, markOk).drains == s.drains
  {
  }

  lemma NextLeft(s1: State, s: State, k: nat, c: nat)
    requires s1.drains == s.drains && k in s.drains && s.drains[k].pending != []
    ensures Left(Leave(s1, k), c) == if k == c then None else Left(s, c)
    ensures Left(Next(s1, k), c) ==
            if k != c then Left(s, c)
            else if |s.drains[c].pending| == 1 then None else Some(s.drains[c].pending[1..])
  {
  }

  /** The three events that end in the catch clause. */
  function Caught(e: Event): Option<bool> {
    match e
    case Sent(_, dbOk, markOk) => if dbOk then None else Some(markOk)
    case NotSent(_, markOk) => Some(markOk)
    case SettleThrew(_, markOk) => Some(markOk)
    case _ => None
  }

  lemma CaughtLeft(s: State, e: Event, c: nat)
    requires Enabled(s, e) && Caught(e).Some?
    ensures var left := Left(Apply(s, e), c);
            if e.c != c then left == Left(s, c)
            else if Escapes(s, s.drains[c].pending[0], Caught(e).value) || |s.drains[c].pending| == 1 then left == None
            else left == Some(s.drains[c].pending[1..])
  {
    hide Catch, Left, Escapes, Bump;
    var r := s.drains[e.c].pending[0];
    var s1 := if e.Sent? then s.(successes := Bump(s.successes, r), lost := Bump(s.lost, r)) else s;
    CatchLeaves(s1, e.c, Caught(e).value, c);
    assert Apply(s, e) == Catch(s1, e.c, Caught(e).value);
    SameLeft(s, s1, c, r, Caught(e).value);
  }

  lemma SameLeft(s: State, s': State, c: nat, r: Row, markOk: bool)
    requires s'.drains == s.drains && s'.attempts == s.attempts
    ensures Left(s', c) == Left(s, c) && Escapes(s', r, markOk) == Escapes(s, r, markOk)
  {
  }

  lemma PlainLeft(s: State, e: Event, c: nat)
    requires Enabled(s, e) && Caught(e) == None && !SnapshotBy(e, c)
    ensures var left, left' := Left(s, c), Left(Apply(s, e), c);
            if e == Send(c) then left.Some? && left.value != [] && left' == Some(left.value[1..])
            else left' == left || (left == Some([]) && left' == None)
  {
    hide Catch, Bump, Mark, Undelivered, Escapes, Take;
    if e.Snapshot? { TakeLeft(s, e.c, Undelivered(e.due, s.table), c); }
    if e.Settled? { NextLeft(s, s, e.c, c); }
    hide Next, Leave;
  }

  lemma TakeLeft(s: State, k: nat, pending: seq<Row>, c: nat)
    requires k != c
    ensures Left(Take(s, k, pending), c) == Left(s, c)
  {
  }

  /** One event takes at most the next row off what is left; without an escape a drain ends
      only when nothing is. */
  lemma StepLeft(s: State, e: Event, c: nat)
    requires Enabled(s, e) && !SnapshotBy(e, c) && Left(s, c).Some?
    ensures var left, left' := Left(s, c).value, Left(Apply(s, e), c);
            if e == Send(c) then left != [] && s.drains[c].pending[0] == left[0] && left' == Some(left[1..])
            else left' == Some(left) || (left' == None && (EscapesAt(s, e, c) || left == []))
  {
    hide Apply, Escapes;
    if Caught(e) == None { PlainLeft(s, e, c); } else { CaughtLeft(s, e, c); }
  }

  lemma NothingLeftStays(s: State, e: Event, c: nat)
    requires Enabled(s, e) && !SnapshotBy(e, c) && Left(s, c) == None
    ensures e != Send(c) && Left(Apply(s, e), c) == None
  {
    hide Apply;
    if Caught(e) == None { PlainLeft(s, e, c); } else { CaughtLeft(s, e, c); }
  }

  lemma SnapshotLeft(s: State, c: nat, due: seq<Row>)
    requires Enabled(s, Snapshot(c, due))
    ensures var rows, left := Undelivered(due, s.table), Left(Apply(s, Snapshot(c, due)), c);
            if rows == [] then left == None else left == Some(rows)
  {
    hide Undelivered;
  }

  /** Drain c left its loop through markDeliveryFailed after event m. */
  ghost predicate Escaped(s0: State, es: seq<Event>, c: nat, m: nat) {
    exists k {:trigger es[k]} :: m < k < |es| && Valid(s0, es[..k]) && EscapesAt(Exec(s0, es[..k]), es[k], c)
  }

  /** es[m] is the last snapshot of drain c. */
  predicate LastSnapshot(es: seq<Event>, c: nat, due: seq<Row>, m: nat) {
    m < |es| && es[m] == Snapshot(c, due) && forall k :: m < k < |es| ==> !SnapshotBy(es[k], c)
  }

  /** What was sent and what is left make up what the snapshot found. */
  ghost predicate Tracks(s0: State, es: seq<Event>, c: nat, rows: seq<Row>, escaped: bool)
    requires Valid(s0, es)
  {
    var sent, left := Sends(s0, es, c), Left(Exec(s0, es), c);
    && sent <= rows
    && (left.Some? ==> sent + left.value == rows)
    && (left == None && !escaped ==> sent == rows)
  }

  lemma TracksStep(s0: State, before: seq<Event>, e: Event, c: nat, rows: seq<Row>, escaped: bool)
    requires Valid(s0, before) && Enabled(Exec(s0, before), e) && !SnapshotBy(e, c) && Tracks(s0, before, c, rows, escaped)
    ensures Valid(s0, before + [e])
    ensures Tracks(s0, before + [e], c, rows, escaped || EscapesAt(Exec(s0, before), e, c))
  {
    hide Apply, Enabled, Left, EscapesAt;
    var s := Exec(s0, before);
    var es := before + [e];
    assert es[..|es| - 1] == before;
    if Left(s, c) == None { NothingLeftStays(s, e, c); } else { StepLeft(s, e, c); }
  }

  lemma EscapedLater(s0: State, es: seq<Event>, c: nat, m: nat)
    requires es != [] && Valid(s0, es) && m < |es| - 1
    ensures Escaped(s0, es[..|es| - 1], c, m) ==> Escaped(s0, es, c, m)
    ensures EscapesAt(Exec(s0, es[..|es| - 1]), es[|es| - 1], c) ==> Escaped(s0, es, c, m)
  {
    hide EscapesAt, Exec, Apply, Enabled;
    var before := es[..|es| - 1];
    if Escaped(s0, before, c, m) {
      var k :| m < k < |before| && Valid(s0, before[..k]) && EscapesAt(Exec(s0, before[..k]), before[k], c);
      assert before[..k] == es[..k] && before[k] == es[k];
    }
  }

  lemma {:induction false} SendsTrack(s0: State, es: seq<Event>, c: nat, due: seq<Row>, m: nat)
    requires Valid(s0, es) && LastSnapshot(es, c, due, m)
    ensures Valid(s0, es[..m])
    ensures Tracks(s0, es, c, Undelivered(due, Exec(s0, es[..m]).table), Escaped(s0, es, c, m))
    decreases |es|
  {
    hide Apply, Enabled, Undelivered, EscapesAt, Escaped;
    var n := |es| - 1;
    var before := es[..n];
    assert es == before + [es[n]];
    ValidPrefix(s0, es, n);
    if m == n {
      SnapshotLeft(Exec(s0, before), c, due);
      assert Sends(s0, es, c) == [];
    } else {
      SendsTrack(s0, before, c, due, m);
      assert before[..m] == es[..m];
      var rows := Undelivered(due, Exec(s0, es[..m]).table);
      hide Exec, Sends, Valid;
      TracksStep(s0, before, es[n], c, rows, Escaped(s0, before, c, m));
      EscapedLater(s0, es, c, m);
      TracksMore(s0, es, c, rows, Escaped(s0, before, c, m) || EscapesAt(Exec(s0, before), es[n], c), Escaped(s0, es, c, m));
    }
  }

  lemma TracksMore(s0: State, es: seq<Event>, c: nat, rows: seq<Row>, escaped: bool, more: bool)
    requires Valid(s0, es) && Tracks(s0, es, c, rows, escaped) && (escaped ==> more)
    ensures Tracks(s0, es, c, rows, more)
  {
    hide Exec, Sends, Valid;
  }

  /** In every interleaving: since its snapshot at es[m], drain c has sent rows of due that had
      no mark then, in the order of due; and all of them, when it is over and no failing
      markDeliveryFailed cut it short. */
  lemma SentInDueOrder(s0: State, es: seq<Event>, c: nat, due: seq<Row>, m: nat)
    requires Valid(s0, es) && LastSnapshot(es, c, due, m)
    ensures Valid(s0, es[..m])
    ensures InDueOrder(due, Exec(s0, es[..m]).table, Sends(s0, es, c))
    ensures c !in Exec(s0, es).drains && !Escaped(s0, es, c, m) ==>
              AllOf(due, Exec(s0, es[..m]).table, Sends(s0, es, c))
  {
    hide Exec, Undelivered, Sends, InDueOrder, AllOf, Escaped, Valid;
    SendsTrack(s0, es, c, due, m);
    PrefixInOrder(due, Exec(s0, es[..m]).table, Sends(s0, es, c));
  }

  /** Two sends of one drain, by their events: the earlier row comes earlier in due. */
  lemma EarlierSentFirst(s0: State, es: seq<Event>, c: nat, due: seq<Row>, m: nat, a: nat, b: nat) returns (i: nat, j: nat)
    requires Valid(s0, es) && LastSnapshot(es, c, due, m) && m < a < b < |es| && es[a] == Send(c) && es[b] == Send(c)
    ensures Valid(s0, es[..a]) && Valid(s0, es[..b])
    ensures var sa, sb := Exec(s0, es[..a]), Exec(s0, es[..b]);
            && c in sa.drains && sa.drains[c].pending != [] && c in sb.drains && sb.drains[c].pending != []
            && i < j < |due| && sa.drains[c].pending[0] == due[i] && sb.drains[c].pending[0] == due[j]
  {
    var ra := SendAppends(s0, es, c, a);
    var rb := SendAppends(s0, es, c, b);
    ValidPrefix(s0, es, b);
    hide Valid, Exec, Sends, InDueOrder;
    SendsGrow(s0, es[..b], c, a + 1);
    assert es[..b][..a + 1] == es[..a + 1];
    var la, lb := Sends(s0, es[..a + 1], c), Sends(s0, es[..b + 1], c);
    i, j := SentPlaces(s0, es, c, due, m, b, |la| - 1);
    assert lb[|la| - 1] == la[|la| - 1] == ra;
  }

  /** The event Send(c) at a adds the row at the head to what was sent. */
  lemma SendAppends(s0: State, es: seq<Event>, c: nat, a: nat) returns (r: Row)
    requires Valid(s0, es) && a < |es| && es[a] == Send(c)
    ensures Valid(s0, es[..a]) && Valid(s0, es[..a + 1])
    ensures var s := Exec(s0, es[..a]); c in s.drains && s.drains[c].pending != [] && r == s.drains[c].pending[0]
    ensures Sends(s0, es[..a + 1], c) == Sends(s0, es[..a], c) + [r]
  {
    hide Apply;
    ValidPrefix(s0, es, a);
    ValidPrefix(s0, es, a + 1);
    assert es[..a + 1][..a] == es[..a];
    r := Exec(s0, es[..a]).drains[c].pending[0];
  }

  /** Where the x-th row sent and the one sent at b stand in due. */
  lemma SentPlaces(s0: State, es: seq<Event>, c: nat, due: seq<Row>, m: nat, b: nat, x: nat) returns (i: nat, j: nat)
    requires Valid(s0, es) && LastSnapshot(es, c, due, m) && m < b < |es| && Valid(s0, es[..b + 1])
    requires var sent := Sends(s0, es[..b + 1], c); x < |sent| - 1
    ensures var sent := Sends(s0, es[..b + 1], c); i < j < |due| && sent[x] == due[i] && sent[|sent| - 1] == due[j]
  {
    hide Valid, Exec, Sends;
    var sent := Sends(s0, es[..b + 1], c);
    SentInDueOrder(s0, es[..b + 1], c, due, m);
    var at: seq<nat> :| Places(at, due, Exec(s0, es[..b + 1][..m]).table, sent);
    i, j := at[x], at[|sent| - 1];
  }

  lemma {:induction false} SendsGrow(s0: State, es: seq<Event>, c: nat, n: nat)
    requires Valid(s0, es) && n <= |es| && (forall k :: n <= k < |es| ==> !SnapshotBy(es[k], c))
    ensures Valid(s0, es[..n]) && Sends(s0, es[..n], c) <= Sends(s0, es, c)
    decreases |es|
  {
    hide Apply, Enabled;
    if n == |es| {
      assert es[..n] == es;
    } else {
      SendsGrow(s0, es[..|es| - 1], c, n);
      assert es[..|es| - 1][..n] == es[..n];
    }
  }

  // ---- The loop itself --------------------------------------------------------

  /** How the adapter, the fan-out and the table writes go for one row. */
  datatype Outcome = Outcome(sent: bool, dbOk: bool, settled: bool, markOk: bool)

  /** Inside the loop, and out of it. */
  predicate AtRow(s: State, c: nat, local: set<Row>, rows: seq<Row>) {
    s.inflight && c in s.drains && s.drains[c] == Drain(Ready, local, rows)
  }

  predicate Gone(s: State, c: nat) {
    !s.inflight && c !in s.drains
  }

  ghost function Begun(s: State, c: nat): (run: seq<Event>)
    requires c !in s.drains
    ensures run == [Call(c)] && Valid(s, run) && Exec(s, run) == Apply(s, Call(c))
  {
    Snoc(s, [], Call(c));
    assert [] + [Call(c)] == [Call(c)];
    [Call(c)]
  }

  ghost function Took(s: State, run: seq<Event>, e: Event): (next: seq<Event>)
    requires Valid(s, run) && Enabled(Exec(s, run), e)
    ensures next == run + [e] && Valid(s, next) && Exec(s, next) == Apply(Exec(s, run), e)
  {
    Snoc(s, run, e);
    run + [e]
  }

  /** Why the bound counts lost writes: a markDelivered that throws sends the row twice. */
  lemma LostWriteResends(r: Row)
    ensures exists es ::
              && Valid(Start(map[]), es)
              && Of(Exec(Start(map[]), es).successes, r) == 2 && Of(Exec(Start(map[]), es).lost, r) == 1
  {
    assert Undelivered([r], map[]) == [r] by { assert [r][1..] == []; }
    hide Valid, Exec;
    var s0 := Start(map[]);
    var e1 := Took(s0, Begun(s0, 0), Snapshot(0, [r]));
    var e2 := Took(s0, e1, Send(0));
    var e3 := Took(s0, e2, Sent(0, false, true));
    var s3 := Exec(s0, e3);
    assert s3.table == map[] && !s3.inflight && s3.drains == map[] && Of(s3.lost, r) == 1 && Of(s3.successes, r) == 1;
    var e4 := Took(s0, Took(s0, e3, Call(0)), Snapshot(0, [r]));
    var e5 := Took(s0, e4, Send(0));
    var e6 := Took(s0, e5, Sent(0, true, true));
    assert Of(Exec(s0, e6).successes, r) == 2 && Of(Exec(s0, e6).lost, r) == 1;
  }

  /** Where the catch clause leaves the drain. */
  lemma CatchEnds(s: State, c: nat, markOk: bool)
    requires c in s.drains && s.drains[c].pending != []
    ensures var d, s' := s.drains[c], Catch(s, c, markOk);
            if Escapes(s, d.pending[0], markOk) || |d.pending| == 1 then Gone(s', c)
            else s'.inflight == s.inflight && c in s'.drains && s'.drains[c] == Drain(Ready, d.local, d.pending[1..])
  {
    ChargeTable(s, s.drains[c].pending[0], markOk);
    hide Charge, Escapes;
  }

  /** How a row that was not sent, or not marked, reaches the catch clause. */
  function Failing(c: nat, o: Outcome): Event
    requires !(o.sent && o.dbOk)
  {
    if o.sent then Sent(c, false, o.markOk) else NotSent(c, o.markOk)
  }

  predicate Stands(s: State, c: nat, local: set<Row>, rows: seq<Row>, phase: Phase) {
    s.inflight && c in s.drains && s.drains[c] == Drain(phase, local, rows) && rows != []
  }

  lemma SendEffect(s: State, c: nat, local: set<Row>, rows: seq<Row>)
    requires AtRow(s, c, local, rows) && rows != []
    ensures Enabled(s, Send(c))
    ensures var s' := Apply(s, Send(c));
            Stands(s', c, local, rows, Sending) && s'.table == s.table && s'.attempts == s.attempts
  {
  }

  /** A catch at the head: the books are charged, the loop goes on or ends. */
  lemma CatchEffect(s: State, c: nat, local: set<Row>, rows: seq<Row>, markOk: bool)
    requires s.inflight && c in s.drains && s.drains[c].local == local && s.drains[c].pending == rows && rows != []
    ensures var s', s1 := Catch(s, c, markOk), Charge(s, rows[0], markOk);
            && s'.table == s1.table && s'.attempts == s1.attempts
            && if Escapes(s, rows[0], markOk) || |rows| == 1 then Gone(s', c) else AtRow(s', c, local, rows[1..])
  {
    CatchBooks(s, c, markOk);
    CatchEnds(s, c, markOk);
    hide Catch, Charge, Escapes;
  }

  /** The event e ends the row at the head in the catch clause. */
  predicate EndsIn(s: State, e: Event, c: nat, local: set<Row>, rows: seq<Row>, markOk: bool) {
    && Enabled(s, e) && !e.Send? && !e.Snapshot? && rows != []
    && var s', s1 := Apply(s, e), Charge(s, rows[0], markOk);
       && s'.table == s1.table && s'.attempts == s1.attempts
       && if Escapes(s, rows[0], markOk) || |rows| == 1 then Gone(s', c) else AtRow(s', c, local, rows[1..])
  }

  lemma FailEffect(s: State, c: nat, local: set<Row>, rows: seq<Row>, o: Outcome)
    requires Stands(s, c, local, rows, Sending) && !(o.sent && o.dbOk)
    ensures EndsIn(s, Failing(c, o), c, local, rows, o.markOk)
  {
    hide Catch, Charge, Gone, Bump, Escapes, AtRow;
    var r := rows[0];
    var sx := if o.sent then s.(successes := Bump(s.successes, r), lost := Bump(s.lost, r)) else s;
    CatchEffect(sx, c, local, rows, o.markOk);
    ChargeReads(s, sx, r, o.markOk);
    assert Apply(s, Failing(c, o)) == Catch(sx, c, o.markOk);
  }

  lemma ChargeReads(s: State, s': State, r: Row, markOk: bool)
    requires s'.table == s.table && s'.attempts == s.attempts
    ensures Charge(s', r, markOk).table == Charge(s, r, markOk).table
    ensures Charge(s', r, markOk).attempts == Charge(s, r, markOk).attempts
    ensures Escapes(s', r, markOk) == Escapes(s, r, markOk)
  {
  }

  lemma SentEffect(s: State, c: nat, local: set<Row>, rows: seq<Row>, markOk: bool)
    requires Stands(s, c, local, rows, Sending)
    ensures Enabled(s, Sent(c, true, markOk))
    ensures var s', r := Apply(s, Sent(c, true, markOk)), rows[0];
            && Stands(s', c, local + {r}, rows, Settling)
            && s'.table == Mark(s.table, r, Delivered) && s'.attempts == s.attempts - {r}
  {
    hide Bump;
  }

  lemma SettledEffect(s: State, c: nat, local: set<Row>, rows: seq<Row>)
    requires Stands(s, c, local, rows, Settling)
    ensures Enabled(s, Settled(c))
    ensures var s' := Apply(s, Settled(c));
            && s'.table == s.table && s'.attempts == s.attempts
            && if |rows| == 1 then Gone(s', c) else AtRow(s', c, local, rows[1..])
  {
  }

  lemma ThrewEffect(s: State, c: nat, local: set<Row>, rows: seq<Row>, markOk: bool)
    requires Stands(s, c, local, rows, Settling)
    ensures EndsIn(s, SettleThrew(c, markOk), c, local, rows, markOk)
  {
    CatchEffect(s, c, local, rows, markOk);
    hide Catch, Charge, Gone;
  }

  lemma OpenEffect(s: State, c: nat, due: seq<Row>)
    requires !s.inflight && c !in s.drains && Distinct(due)
    ensures var s1 := Apply(s, Call(c));
            && Enabled(s1, Snapshot(c, due))
            && var s2, pending := Apply(s1, Snapshot(c, due)), Undelivered(due, s.table);
               && s2.table == s.table && s2.attempts == s.attempts
               && if pending == [] then Gone(s2, c) else AtRow(s2, c, s.table.Keys, pending)
  {
    hide Undelivered, Distinct;
  }

  lemma BusyEffect(s: State, c: nat)
    requires s.inflight && c !in s.drains
    ensures Apply(s, Call(c)) == s
  {
  }

  lemma SendNext(s0: State, before: seq<Event>, c: nat, local: set<Row>, rows: seq<Row>)
    requires Valid(s0, before) && AtRow(Exec(s0, before), c, local, rows) && rows != []
    ensures Valid(s0, before + [Send(c)]) && Sends(s0, before + [Send(c)], c) == Sends(s0, before, c) + [rows[0]]
  {
    hide Apply;
    Snoc(s0, before, Send(c));
    assert (before + [Send(c)])[..|before|] == before;
  }

  /** An event that is neither a send nor a snapshot. */
  ghost function Quietly(s0: State, before: seq<Event>, e: Event, c: nat): (next: seq<Event>)
    requires Valid(s0, before) && Enabled(Exec(s0, before), e) && !e.Send? && !e.Snapshot?
    ensures Valid(s0, next) && Exec(s0, next) == Apply(Exec(s0, before), e) && Sends(s0, next, c) == Sends(s0, before, c)
  {
    hide Apply, Enabled;
    Snoc(s0, before, e);
    assert (before + [e])[..|before|] == before;
    before + [e]
  }

  ghost function HandOver(s0: State, before: seq<Event>, c: nat, local: set<Row>, rows: seq<Row>): (next: seq<Event>)
    requires Valid(s0, before) && AtRow(Exec(s0, before), c, local, rows) && rows != []
    ensures Enabled(Exec(s0, before), Send(c))
    ensures Valid(s0, next) && Exec(s0, next) == Apply(Exec(s0, before), Send(c))
    ensures Sends(s0, next, c) == Sends(s0, before, c) + [rows[0]]
  {
    SendNext(s0, before, c, local, rows);
    Snoc(s0, before, Send(c));
    before + [Send(c)]
  }

  lemma NextRow(rows: seq<Row>, i: nat)
    requires i < |rows|
    ensures rows[i..][1..] == rows[i + 1..] && rows[..i] + [rows[i]] == rows[..i + 1]
  {
  }

  lemma GoneIs(s: State, c: nat)
    requires Gone(s, c)
    ensures !s.inflight && c !in s.drains
  {
  }

  lemma SnapshotNext(s0: State, before: seq<Event>, c: nat, due: seq<Row>)
    requires Valid(s0, before) && Enabled(Exec(s0, before), Snapshot(c, due))
    ensures Valid(s0, before + [Snapshot(c, due)]) && Sends(s0, before + [Snapshot(c, due)], c) == []
  {
    hide Apply, Enabled;
    Snoc(s0, before, Snapshot(c, due));
  }

  /** The module's two maps and its guard; `state` is the machine above, for the proof. */
  class Deliverer {
    var table: map<Row, Status>
    var deliveryAttempts: map<Row, nat>
    var inflight: bool
    ghost var state: State

    ghost predicate Matches()
      reads this
    {
      state.table == table && state.attempts == deliveryAttempts && state.inflight == inflight
    }

    constructor (table: map<Row, Status>)
      ensures Matches() && state == Start(table)
    {
      this.table, deliveryAttempts, inflight := table, map[], false;
      state := Start(table);
    }

    /** The catch clause; escaped: markDeliveryFailed threw out of the drain. */
    method Retry(r: Row, markOk: bool) returns (escaped: bool)
      modifies `table, `deliveryAttempts
      ensures escaped == (Of(old(deliveryAttempts), r) + 1 >= MAX_DELIVERY_ATTEMPTS && !markOk)
      ensures forall s: State :: s.table == old(table) && s.attempts == old(deliveryAttempts) ==>
                table == Charge(s, r, markOk).table && deliveryAttempts == Charge(s, r, markOk).attempts
    {
      var tries := (if r in deliveryAttempts then deliveryAttempts[r] else 0) + 1;
      escaped := false;
      deliveryAttempts := deliveryAttempts[r := tries];
      if tries >= MAX_DELIVERY_ATTEMPTS {
        if markOk {
          table := if r in table then table else table[r := Failed];
          deliveryAttempts := deliveryAttempts - {r};
        } else {
          escaped := true;
        }
      }
    }

    /** The catch clause at the row r, and on with the loop. */
    method Recover(ghost s0: State, ghost before: seq<Event>, ghost e: Event, c: nat, local: set<Row>,
                   ghost rows: seq<Row>, r: Row, markOk: bool)
      returns (ghost run: seq<Event>, escaped: bool)
      requires table == state.table && deliveryAttempts == state.attempts && rows != [] && rows[0] == r
      requires Valid(s0, before) && state == Exec(s0, before)
      requires EndsIn(state, e, c, local, rows, markOk)
      modifies `table, `deliveryAttempts, `state
      ensures Valid(s0, run) && state == Exec(s0, run)
      ensures table == state.table && deliveryAttempts == state.attempts
      ensures if escaped || |rows| == 1 then Gone(state, c) else AtRow(state, c, local, rows[1..])
      ensures Sends(s0, run, c) == Sends(s0, before, c)
    {
      hide Valid, Exec, Apply, Enabled, Charge, Gone, AtRow, Sends;
      run := Quietly(s0, before, e, c);
      ghost var s1 := state;
      state := Apply(state, e);
      escaped := Retry(r, markOk);
      assert table == Charge(s1, r, markOk).table;
      hide EndsIn;
    }

    /** deliverMessage and markDelivered went well: what follows them. */
    method Deliver(ghost s0: State, ghost before: seq<Event>, c: nat, local: set<Row>, ghost rows: seq<Row>, r: Row, o: Outcome)
      returns (ghost run: seq<Event>, escaped: bool)
      requires table == state.table && deliveryAttempts == state.attempts && rows != [] && rows[0] == r
      requires Stands(state, c, local, rows, Sending)
      requires Valid(s0, before) && state == Exec(s0, before)
      modifies `table, `deliveryAttempts, `state
      ensures Valid(s0, run) && state == Exec(s0, run)
      ensures table == state.table && deliveryAttempts == state.attempts
      ensures if escaped || |rows| == 1 then Gone(state, c) else AtRow(state, c, local + {r}, rows[1..])
      ensures Sends(s0, run, c) == Sends(s0, before, c)
    {
      hide Valid, Exec, Apply, Enabled, Charge, Gone, AtRow, Sends, EndsIn, Stands;
      SentEffect(state, c, local, rows, o.markOk);
      run := Quietly(s0, before, Sent(c, true, o.markOk), c);
      state := Apply(state, Sent(c, true, o.markOk));
      table := if r in table then table else table[r := Delivered];
      deliveryAttempts := deliveryAttempts - {r};
      escaped := false;
      if o.settled {
        SettledEffect(state, c, local + {r}, rows);
        run := Quietly(s0, run, Settled(c), c);
        state := Apply(state, Settled(c));
      } else {
        ThrewEffect(state, c, local + {r}, rows, o.markOk);
        run, escaped := Recover(s0, run, SettleThrew(c, o.markOk), c, local + {r}, rows, r, o.markOk);
      }
    }

    /** One turn of the loop. */
    method DeliverRow(ghost s0: State, ghost before: seq<Event>, c: nat, local: set<Row>, ghost rows: seq<Row>, r: Row,
                      o: Outcome)
      returns (ghost run: seq<Event>, escaped: bool)
      requires Matches() && rows != [] && rows[0] == r && AtRow(state, c, local, rows)
      requires Valid(s0, before) && state == Exec(s0, before)
      modifies `table, `deliveryAttempts, `state
      ensures Valid(s0, run) && state == Exec(s0, run)
      ensures table == state.table && deliveryAttempts == state.attempts
      ensures if escaped || |rows| == 1 then Gone(state, c)
              else AtRow(state, c, if o.sent && o.dbOk then local + {r} else local, rows[1..])
      ensures Sends(s0, run, c) == Sends(s0, before, c) + [r]
    {
      hide Valid, Exec, Apply, Enabled, Charge, Gone, AtRow, Sends, EndsIn, Stands;
      SendEffect(state, c, local, rows);
      run := HandOver(s0, before, c, local, rows);
      state := Apply(state, Send(c));
      if o.sent && o.dbOk {
        run, escaped := Deliver(s0, run, c, local, rows, r, o);
      } else {
        FailEffect(state, c, local, rows, o);
        run, escaped := Recover(s0, run, Failing(c, o), c, local, rows, r, o.markOk);
      }
    }

    /** One whole call with no other call in between: a run of the machine. It hands over the
        rows of due that have no mark, in the order of due, and all of them unless it throws. */
    method DeliverSessionMessages(c: nat, due: seq<Row>, o: nat -> Outcome) returns (threw: bool, ghost run: seq<Event>)
      requires Matches() && c !in state.drains && Distinct(due)
      modifies this
      ensures Matches() && Valid(old(state), run) && state == Exec(old(state), run)
      ensures c !in state.drains
      ensures old(inflight) ==> !threw && Sends(old(state), run, c) == [] && table == old(table)
      ensures !old(inflight) ==> InDueOrder(due, old(table), Sends(old(state), run, c))
      ensures !old(inflight) && !threw ==> AllOf(due, old(table), Sends(old(state), run, c))
    {
      ghost var s0 := state;
      threw := false;
      if !inflight { OpenEffect(s0, c, due); } else { BusyEffect(s0, c); }
      assert Sends(s0, [], c) == [];
      hide Valid, Exec, Apply, Enabled, AtRow, Undelivered, Distinct, Sends, InDueOrder, AllOf;
      run := Quietly(s0, [], Call(c), c);
      state := Apply(s0, Call(c));
      if inflight { return; }
      inflight := true;
      var local := table.Keys;
      var undelivered := Undelivered(due, table);
      SnapshotNext(s0, run, c, due);
      run := Took(s0, run, Snapshot(c, due));
      state := Apply(state, Snapshot(c, due));
      assert undelivered[0..] == undelivered && undelivered[..0] == [];
      hide Gone;
      var i := 0;
      while i < |undelivered| && !threw
        invariant i <= |undelivered| && inflight
        invariant Valid(s0, run) && state == Exec(s0, run)
        invariant table == state.table && deliveryAttempts == state.attempts
        invariant if i < |undelivered| && !threw then AtRow(state, c, local, undelivered[i..]) else Gone(state, c)
        invariant Sends(s0, run, c) == undelivered[..i]
        decreases |undelivered| - i
      {
        run, threw := DeliverRow(s0, run, c, local, undelivered[i..], undelivered[i], o(i));
        NextRow(undelivered, i);
        if o(i).sent && o(i).dbOk { local := local + {undelivered[i]}; }
        i := i + 1;
      }
      assert undelivered[..|undelivered|] == undelivered;
      PrefixInOrder(due, old(table), undelivered[..i]);
      GoneIs(state, c);
      inflight := false;
    }
  }
}
