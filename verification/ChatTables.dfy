/** The two chat-sdk tables that src/state-sqlite.ts works on, as maps keyed by
    their primary keys, and the SQL statements it sends as functions on them. */
module ChatTables {
  import opened Prelude

  datatype LockRow = LockRow(token: nat, expiresAt: int)
  datatype ListRow = ListRow(value: string, expiresAt: Option<int>)

  type Locks = map<string, LockRow>
  type Lists = map<(string, int), ListRow>

  // --- chat_sdk_locks ---

  /** DELETE … WHERE thread_id = k AND expires_at < now */
  function DeleteExpiredLock(t: Locks, k: string, now: int): Locks {
    if k in t && t[k].expiresAt < now then t - {k} else t
  }

  /** INSERT … ON CONFLICT (thread_id) DO NOTHING */
  function InsertLockIfAbsent(t: Locks, k: string, row: LockRow): Locks {
    if k in t then t else t[k := row]
  }

  /** `WHERE thread_id = k AND token = token` selects a row */
  predicate HoldsLock(t: Locks, k: string, token: nat) {
    k in t && t[k].token == token
  }

  /** DELETE … WHERE thread_id = k AND token = token */
  function DeleteLockOf(t: Locks, k: string, token: nat): Locks {
    if HoldsLock(t, k, token) then t - {k} else t
  }

  /** UPDATE … SET expires_at = e WHERE thread_id = k AND token = token */
  function UpdateExpiry(t: Locks, k: string, token: nat, e: int): Locks {
    if HoldsLock(t, k, token) then t[k := LockRow(token, e)] else t
  }

  /** DELETE … WHERE expires_at < now, over every key */
  function SweepLocks(t: Locks, now: int): Locks {
    map k | k in t && !(t[k].expiresAt < now) :: t[k]
  }

  // --- chat_sdk_lists ---

  /** The indices stored under a key. */
  function Idxs(t: Lists, key: string): set<int> {
    set p | p in t && p.0 == key :: p.1
  }

  /** COALESCE(MAX(idx), -1) + 1 over the rows of a key. */
  ghost predicate IsNextIdx(t: Lists, key: string, n: int) {
    if Idxs(t, key) == {} then n == 0
    else n - 1 in Idxs(t, key) && forall i :: i in Idxs(t, key) ==> i <= n - 1
  }

  ghost function NextIdx(t: Lists, key: string): (n: int)
    ensures IsNextIdx(t, key, n)
    ensures (key, n) !in t
  {
    NextIdxExists(t, key);
    var n :| IsNextIdx(t, key, n);
    assert n !in Idxs(t, key);
    n
  }

  lemma {:induction false} MaxExists(s: set<int>) returns (m: int)
    requires s != {}
    ensures m in s && forall i :: i in s ==> i <= m
    decreases |s|
  {
    if forall x :: x !in s { assert false; }
    var x :| x in s;
    m := x;
    if s != {x} {
      var m' := MaxExists(s - {x});
      assert forall i :: i in s ==> i == x || i in s - {x};
      m := if x < m' then m' else x;
    }
  }

  lemma {:induction false} MinExists(s: set<int>) returns (m: int)
    requires s != {}
    ensures m in s && forall i :: i in s ==> m <= i
    decreases |s|
  {
    if forall x :: x !in s { assert false; }
    var x :| x in s;
    m := x;
    if s != {x} {
      var m' := MinExists(s - {x});
      assert forall i :: i in s ==> i == x || i in s - {x};
      m := if m' < x then m' else x;
    }
  }

  lemma NextIdxExists(t: Lists, key: string)
    ensures exists n :: IsNextIdx(t, key, n)
  {
    if Idxs(t, key) == {} {
      assert IsNextIdx(t, key, 0);
    } else {
      var m := MaxExists(Idxs(t, key));
      assert IsNextIdx(t, key, m + 1);
    }
  }

  lemma NextIdxUnique(t: Lists, key: string, n: int)
    requires IsNextIdx(t, key, n)
    ensures n == NextIdx(t, key)
  {
  }

  /** MIN(idx) over the rows of a key. */
  ghost predicate IsMinIdx(t: Lists, key: string, n: int) {
    (key, n) in t && forall i: int :: (key, i) in t ==> n <= i
  }

  /** DELETE … WHERE key = key AND idx <= cutoff */
  function DeleteUpTo(t: Lists, key: string, cutoff: int): Lists {
    map p | p in t && !(p.0 == key && p.1 <= cutoff) :: t[p]
  }

  /** DELETE … WHERE expires_at IS NOT NULL AND expires_at < now, over every key */
  function SweepLists(t: Lists, now: int): Lists {
    map p | p in t && !(t[p].expiresAt.Some? && t[p].expiresAt.value < now) :: t[p]
  }

  /** The whole append transaction: insert after the maximum, then trim when a
      limit other than 0 was given and the cutoff is not negative. */
  ghost function AppendRow(t: Lists, key: string, row: ListRow, maxLength: Option<int>): Lists {
    var idx := NextIdx(t, key);
    var t1 := t[(key, idx) := row];
    if maxLength.Some? && maxLength.value != 0 && idx - maxLength.value >= 0
    then DeleteUpTo(t1, key, idx - maxLength.value)
    else t1
  }

  /** A sweep drops exactly the rows whose expiry has passed, and changes none. */
  lemma SweptIff(locks: Locks, lists: Lists, now: int, k: string, p: (string, int))
    ensures k in SweepLocks(locks, now) <==> k in locks && locks[k].expiresAt >= now
    ensures k in SweepLocks(locks, now) ==> SweepLocks(locks, now)[k] == locks[k]
    ensures p in SweepLists(lists, now) <==>
            p in lists && (lists[p].expiresAt == None || lists[p].expiresAt.value >= now)
    ensures p in SweepLists(lists, now) ==> SweepLists(lists, now)[p] == lists[p]
  {
  }
}
