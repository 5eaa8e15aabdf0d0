/** src/state-sqlite.ts: the adapter object, one call at a time. */
module StateSqlite {
  import opened Prelude
  import opened ChatTables

  /** The shared database: every adapter instance writes the same tables. */
  class Db {
    var locks: Locks
    var lists: Lists

    constructor ()
      ensures locks == map[] && lists == map[]
    {
      locks, lists := map[], map[];
    }
  }

  datatype Lock = Lock(threadId: string, token: nat, expiresAt: int)

  /** An empty namespace is falsy in the source, so it prefixes nothing. */
  function K(namespace: Option<string>, key: string): string {
    if namespace.Some? && namespace.value != "" then namespace.value + ":" + key else key
  }

  function QueueKey(threadId: string): string {
    "queue:" + threadId
  }

  class Adapter {
    const db: Db
    const namespace: Option<string>

    constructor (db: Db, namespace: Option<string>)
      ensures this.db == db && this.namespace == namespace
    {
      this.db, this.namespace := db, namespace;
    }

    /** `token` stands for the UUID drawn by the call. */
    method AcquireLock(threadId: string, ttlMs: int, now: int, token: nat) returns (lock: Option<Lock>)
      modifies db`locks
      ensures var k := K(namespace, threadId);
              var free := k !in old(db.locks) || old(db.locks)[k].expiresAt < now;
              && (lock == if free then Some(Lock(threadId, token, now + ttlMs)) else None)
              && (db.locks == if free then old(db.locks)[k := LockRow(token, now + ttlMs)] else old(db.locks))
    {
      var k := K(namespace, threadId);
      var expiresAt := now + ttlMs;
      db.locks := DeleteExpiredLock(db.locks, k, now);
      if k in db.locks { return None; }
      db.locks := InsertLockIfAbsent(db.locks, k, LockRow(token, expiresAt));
      assert db.locks == old(db.locks)[k := LockRow(token, expiresAt)];
      lock := Some(Lock(threadId, token, expiresAt));
    }

    method ReleaseLock(lock: Lock)
      modifies db`locks
      ensures var k := K(namespace, lock.threadId);
              db.locks == if HoldsLock(old(db.locks), k, lock.token) then old(db.locks) - {k} else old(db.locks)
    {
      db.locks := DeleteLockOf(db.locks, K(namespace, lock.threadId), lock.token);
    }

    /** The source writes the new expiry back into the caller's lock object; here
        it is returned. */
    method ExtendLock(lock: Lock, ttlMs: int, now: int) returns (ok: bool, lock': Lock)
      modifies db`locks
      ensures var k := K(namespace, lock.threadId);
              && ok == HoldsLock(old(db.locks), k, lock.token)
              && lock' == (if ok then lock.(expiresAt := now + ttlMs) else lock)
              && db.locks == (if ok then old(db.locks)[k := LockRow(lock.token, now + ttlMs)] else old(db.locks))
    {
      var k := K(namespace, lock.threadId);
      ok := HoldsLock(db.locks, k, lock.token);
      db.locks := UpdateExpiry(db.locks, k, lock.token, now + ttlMs);
      lock' := if ok then lock.(expiresAt := now + ttlMs) else lock;
    }

    /** The insert and the trim are one transaction; in a single caller's run the
        unique constraint cannot fire, so the retry loop runs its body once. */
    method AppendToList(key: string, value: string, maxLength: Option<int>, ttlMs: Option<int>, now: int)
      modifies db`lists
      ensures var expiresAt := if ttlMs.Some? && ttlMs.value != 0 then Some(now + ttlMs.value) else None;
              db.lists == AppendRow(old(db.lists), K(namespace, key), ListRow(value, expiresAt), maxLength)
    {
      var k := K(namespace, key);
      var expiresAt := if ttlMs.Some? && ttlMs.value != 0 then Some(now + ttlMs.value) else None;
      var done := false;
      while !done
        invariant !done ==> db.lists == old(db.lists)
        invariant done ==> db.lists == AppendRow(old(db.lists), k, ListRow(value, expiresAt), maxLength)
        decreases !done
      {
        var idx := 0;
        if Idxs(db.lists, k) != {} {
          ghost var top := MaxExists(Idxs(db.lists, k));
          var m :| m in Idxs(db.lists, k) && forall i :: i in Idxs(db.lists, k) ==> i <= m;
          idx := m + 1;
        }
        NextIdxUnique(db.lists, k, idx);
        if (k, idx) !in db.lists {
          db.lists := db.lists[(k, idx) := ListRow(value, expiresAt)];
          if maxLength.Some? && maxLength.value != 0 {
            var cutoff := idx - maxLength.value;
            if cutoff >= 0 {
              db.lists := DeleteUpTo(db.lists, k, cutoff);
            }
          }
          done := true;
        }
      }
    }

    method QueueDepth(threadId: string) returns (count: nat)
      ensures count == |Idxs(db.lists, K(namespace, QueueKey(threadId)))|
    {
      count := |Idxs(db.lists, K(namespace, QueueKey(threadId)))|;
    }

    method Enqueue(threadId: string, entry: string, maxSize: int, now: int) returns (depth: nat)
      modifies db`lists
      ensures var k := K(namespace, QueueKey(threadId));
              && db.lists == AppendRow(old(db.lists), k, ListRow(entry, None), Some(maxSize))
              && depth == |Idxs(db.lists, k)|
    {
      AppendToList(QueueKey(threadId), entry, Some(maxSize), None, now);
      depth := QueueDepth(threadId);
    }

    /** Removes the row with the smallest index, or answers None exactly when the
        key has no row. */
    method Dequeue(threadId: string) returns (entry: Option<string>)
      modifies db`lists
      ensures var k := K(namespace, QueueKey(threadId));
              if Idxs(old(db.lists), k) == {} then
                entry == None && db.lists == old(db.lists)
              else
                exists m :: IsMinIdx(old(db.lists), k, m)
                         && entry == Some(old(db.lists)[(k, m)].value)
                         && db.lists == old(db.lists) - {(k, m)}
    {
      var k := K(namespace, QueueKey(threadId));
      entry := None;
      var go := true;
      while go
        invariant entry == None && db.lists == old(db.lists)
        invariant !go ==> Idxs(db.lists, k) == {}
        decreases go
      {
        if Idxs(db.lists, k) != {} {
          ghost var low := MinExists(Idxs(db.lists, k));
          var m :| m in Idxs(db.lists, k) && forall i :: i in Idxs(db.lists, k) ==> m <= i;
          forall i: int | (k, i) in db.lists
            ensures m <= i
          {
            assert i in Idxs(db.lists, k);
          }
          assert IsMinIdx(db.lists, k, m);
          entry := Some(db.lists[(k, m)].value);
          db.lists := db.lists - {(k, m)};
          return;
        }
        go := Idxs(db.lists, k) != {};
      }
    }
  }

  // --- Namespaces ---

  /** The keys as they are stored: no namespace, or an empty one, adds nothing. */
  lemma StoredKeys(namespace: string, key: string, threadId: string)
    ensures K(None, key) == key && K(Some(""), key) == key
    ensures namespace != "" ==> K(Some(namespace), QueueKey(threadId)) == namespace + (":queue:" + threadId)
  {
    assert namespace + ":" + ("queue:" + threadId) == namespace + (":" + ("queue:" + threadId));
    assert ":" + ("queue:" + threadId) == ":queue:" + threadId;
  }

  /** Two named instances share no row for any pair of keys exactly when neither
      name followed by ':' is a prefix of the other. */
  lemma NamespacesIsolatedIff(n1: string, n2: string)
    requires n1 != "" && n2 != ""
    ensures (forall k1: string, k2: string :: K(Some(n1), k1) != K(Some(n2), k2))
       <==> !(n1 + ":" <= n2 + ":") && !(n2 + ":" <= n1 + ":")
  {
    var p1, p2 := n1 + ":", n2 + ":";
    if p1 <= p2 {
      var rest := p2[|p1|..];
      assert p2 == p1 + rest;
      assert K(Some(n1), rest + "") == K(Some(n2), "") by { assert p1 + rest == p2 + ""; }
    } else if p2 <= p1 {
      var rest := p1[|p2|..];
      assert p1 == p2 + rest;
      assert K(Some(n1), "") == K(Some(n2), rest) by { assert p2 + rest == p1 + ""; }
    } else {
      forall k1: string, k2: string
        ensures p1 + k1 != p2 + k2
      {
        PrefixesOfOne(p1, k1, p2, k2);
      }
    }
  }

  /** Two prefixes of one string are comparable. */
  lemma PrefixesOfOne(p1: string, k1: string, p2: string, k2: string)
    ensures p1 + k1 == p2 + k2 ==> p1 <= p2 || p2 <= p1
  {
    if p1 + k1 == p2 + k2 {
      assert p1 == (p1 + k1)[..|p1|];
      assert p2 == (p2 + k2)[..|p2|];
    }
  }
}
