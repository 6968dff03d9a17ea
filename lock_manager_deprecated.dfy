/** The earlier lock manager
  * (module/scheduler_components/deterministic_lock_manager_deprecated.cpp):
  * the same lock states, except that a blocked writer is queued as a
  * writer, and a manager that works on a transaction holder's local keys
  * and counts the keys that are locked. */
module LockManagerDeprecated {
  import opened Types
  import LM = LockManager
  import TransactionUtils

  /** LockStateDeprecated::AcquireWriteLock: granted only on a free key; a
    * blocked writer is queued under mode WRITE. */
  function AcquireWriteLock(s: LM.LockState, txn: LM.TxnId): (r: (LM.LockState, bool))
    ensures r.1 <==> s.mode == UNLOCKED
    ensures r.1 ==> r.0 == s.(mode := WRITE, holders := s.holders + {txn})
    ensures !r.1 ==> r.0 == s.(waiters := s.waiters + {txn}, waiterQueue := s.waiterQueue + [(txn, WRITE)])
  {
    match s.mode
    case UNLOCKED => (s.(holders := s.holders + {txn}, mode := WRITE), true)
    case _ => (s.(waiters := s.waiters + {txn}, waiterQueue := s.waiterQueue + [(txn, WRITE)]), false)
  }

  lemma AcquireWriteLockKeepsInv(s: LM.LockState, txn: LM.TxnId)
    requires LM.Inv(s) && !LM.IsQueued(s, txn)
    ensures LM.Inv(AcquireWriteLock(s, txn).0)
  {
    LM.AppendKeepsQueue(s.waiterQueue, txn, WRITE);
  }

  /** One request of AcquireLocks, in the mode the holder lists. */
  function AcquireOne(s: LM.LockState, txn: LM.TxnId, mode: LockMode): (LM.LockState, bool)
  {
    if mode == READ then LM.AcquireReadLock(s, txn) else AcquireWriteLock(s, txn)
  }

  lemma AcquireOneKeepsInv(s: LM.LockState, txn: LM.TxnId, mode: LockMode)
    requires LM.Inv(s) && !LM.IsQueued(s, txn)
    ensures LM.Inv(AcquireOne(s, txn, mode).0)
  {
    LM.AcquireReadLockKeepsInv(s, txn);
    AcquireWriteLockKeepsInv(s, txn);
  }

  /** An acquisition never frees a key: a locked key stays locked, and a
    * free key is granted, so it becomes locked. */
  lemma AcquireOneLocks(s: LM.LockState, txn: LM.TxnId, mode: LockMode)
    ensures AcquireOne(s, txn, mode).0.mode != UNLOCKED
    ensures s.mode == UNLOCKED ==> AcquireOne(s, txn, mode).1
  {
  }

  /** A writer at the head of the queue is granted alone and in mode
    * WRITE when the last holder leaves. */
  lemma WriterHeadGrantedAlone(s: LM.LockState, txn: LM.TxnId)
    requires LM.Inv(s) && s.holders == {txn} && s.waiterQueue != [] && s.waiterQueue[0].1 == WRITE
    ensures LM.ReleaseSpec(s, txn).1 == {s.waiterQueue[0].0}
    ensures LM.ReleaseSpec(s, txn).0.mode == WRITE
    ensures LM.ReleaseSpec(s, txn).0.holders == {s.waiterQueue[0].0}
  {
    assert s.holders - {txn} == {};
    assert s.waiterQueue[0] in s.waiterQueue;
  }

  /** A reader holds key A; transaction 2 asks to write A and transaction 3
    * to read it. When the reader releases, the writer alone is granted, in
    * mode WRITE; when the writer releases, the second reader is. */
  lemma WriterExclusive()
    ensures var s1 := LM.AcquireReadLock(LM.FreeLock, 1).0;
            var s2 := AcquireWriteLock(s1, 2).0;
            var s3 := LM.AcquireReadLock(s2, 3).0;
            LM.Inv(s3) &&
            LM.ReleaseSpec(s3, 1).1 == {2} && LM.ReleaseSpec(s3, 1).0.mode == WRITE &&
            LM.ReleaseSpec(LM.ReleaseSpec(s3, 1).0, 2).1 == {3} &&
            LM.ReleaseSpec(LM.ReleaseSpec(s3, 1).0, 2).0.mode == READ
  {
    WriterQueuesBehindReader();
    ReaderReleaseGrantsWriter();
    WriterReleaseGrantsReader();
  }

  lemma WriterQueuesBehindReader()
    ensures AcquireWriteLock(LM.AcquireReadLock(LM.FreeLock, 1).0, 2).0 == LM.LockState(READ, {1}, {2}, [(2, WRITE)])
    ensures LM.AcquireReadLock(LM.LockState(READ, {1}, {2}, [(2, WRITE)]), 3).0 ==
      LM.LockState(READ, {1}, {2, 3}, [(2, WRITE), (3, READ)])
  {
  }

  lemma ReaderReleaseGrantsWriter()
    ensures LM.ReleaseSpec(LM.LockState(READ, {1}, {2, 3}, [(2, WRITE), (3, READ)]), 1) ==
      (LM.LockState(WRITE, {2}, {3}, [(3, READ)]), {2})
  {
    var q: seq<(LM.TxnId, LockMode)> := [(2, WRITE), (3, READ)];
    var waiting: set<LM.TxnId> := {2, 3};
    assert {1} - {1} == {} && waiting - {2} == {3};
    assert q[1..] == [(3, READ)];
  }

  lemma WriterReleaseGrantsReader()
    ensures LM.ReleaseSpec(LM.LockState(WRITE, {2}, {3}, [(3, READ)]), 2).1 == {3}
    ensures LM.ReleaseSpec(LM.LockState(WRITE, {2}, {3}, [(3, READ)]), 2).0.mode == READ
  {
    var q: seq<(LM.TxnId, LockMode)> := [(3, READ)];
    assert LM.ReadRunLength(q) == 1;
    assert q[..1] == q;
  }

  /* ---------- The locked-key counter ---------- */

  function LockedKeys(table: map<Key, LM.LockState>): set<Key>
  {
    set k | k in table && table[k].mode != UNLOCKED
  }

  /** Storing a state for one key changes the number of locked keys by
    * what that key's own entry changes. */
  lemma LockedKeysUpdate(table: map<Key, LM.LockState>, key: Key, s: LM.LockState)
    ensures |LockedKeys(table[key := s])| ==
      |LockedKeys(table)| - (if LM.LockOf(table, key).mode != UNLOCKED then 1 else 0) + (if s.mode != UNLOCKED then 1 else 0)
  {
    var before := LockedKeys(table);
    var after := LockedKeys(table[key := s]);
    assert after - {key} == before - {key};
    assert key in before <==> LM.LockOf(table, key).mode != UNLOCKED;
    assert key in after <==> s.mode != UNLOCKED;
    CountUpdate(before, after, key, LM.LockOf(table, key).mode != UNLOCKED, s.mode != UNLOCKED);
  }

  /** Two sets that agree but for one element differ in size by whether
    * each holds it. */
  lemma CountUpdate<T>(before: set<T>, after: set<T>, x: T, wasIn: bool, isIn: bool)
    requires after - {x} == before - {x}
    requires (x in before <==> wasIn) && (x in after <==> isIn)
    ensures |after| == |before| - (if wasIn then 1 else 0) + (if isIn then 1 else 0)
  {
    WithOrWithout(before, x);
    WithOrWithout(after, x);
  }

  /** A set is the rest of it, with or without one element. */
  lemma WithOrWithout<T>(a: set<T>, x: T)
    ensures |a| == |a - {x}| + (if x in a then 1 else 0)
  {
    if x in a {
      assert a == (a - {x}) + {x};
    } else {
      assert a == a - {x};
    }
  }

  /** Forgetting a free key does not change the locked keys. */
  lemma LockedKeysEvict(table: map<Key, LM.LockState>, key: Key)
    requires key in table && table[key].mode == UNLOCKED
    ensures LockedKeys(table - {key}) == LockedKeys(table)
  {
  }

  /** A key's release unlocks at most that key: the number of locked keys
    * goes down by one exactly when the key goes from locked to free. */
  lemma ReleaseKeyLockedCount(table: map<Key, LM.LockState>, waited: map<LM.TxnId, int>, ready: set<LM.TxnId>,
                              key: Key, txn: LM.TxnId, next: LM.LockState)
    requires LM.TableInv(table)
    requires next == LM.ReleaseSpec(LM.LockOf(table, key), txn).0
    ensures var t := table[key := next];
      var t' := if next.mode == UNLOCKED && |t| > LOCK_TABLE_SIZE_LIMIT then t - {key} else t;
      LM.ReleaseKey(LM.ReleaseState(table, waited, ready), key, txn).lockTable == t' &&
      LM.TableInv(t') &&
      |LockedKeys(t')| == |LockedKeys(table)| - (if LM.LockOf(table, key).mode != UNLOCKED && next.mode == UNLOCKED then 1 else 0)
  {
    var t := table[key := next];
    LockedKeysUpdate(table, key, next);
    if next.mode == UNLOCKED && |t| > LOCK_TABLE_SIZE_LIMIT {
      LockedKeysEvict(t, key);
    }
  }

  /* ---------- AcquireLocks ---------- */

  /** The loop of AcquireLocks, key by key in list order: the table and
    * the number of locks acquired. */
  function AcquireFold(table: map<Key, LM.LockState>, keys: seq<(Key, LockMode)>, txn: LM.TxnId): LM.AcquireState
  {
    if keys == [] then LM.AcquireState(table, 0)
    else
      var st := AcquireFold(table, keys[..|keys| - 1], txn);
      var (key, mode) := keys[|keys| - 1];
      var (s, granted) := AcquireOne(LM.LockOf(st.table, key), txn, mode);
      LM.AcquireState(st.table[key := s], st.grants + if granted then 1 else 0)
  }

  /** The fatal checks of AcquireLocks: each key is listed once, with a
    * real mode, and the transaction neither holds nor waits for it. */
  predicate Requestable(table: map<Key, LM.LockState>, keys: seq<(Key, LockMode)>, txn: LM.TxnId)
  {
    LM.DistinctKeys(keys) &&
    forall i :: 0 <= i < |keys| ==> keys[i].1 != UNLOCKED && !LM.IsQueued(LM.LockOf(table, keys[i].0), txn)
  }

  /** A key the list does not name keeps its state through the loop. */
  lemma {:induction false} FoldUntouched(table: map<Key, LM.LockState>, keys: seq<(Key, LockMode)>, txn: LM.TxnId, key: Key)
    requires forall i :: 0 <= i < |keys| ==> keys[i].0 != key
    ensures LM.LockOf(AcquireFold(table, keys, txn).table, key) == LM.LockOf(table, key)
  {
    if keys != [] {
      FoldUntouched(table, keys[..|keys| - 1], txn, key);
    }
  }

  /** Under the checks every lock keeps its invariant through the loop. */
  lemma {:induction false} FoldKeepsInv(table: map<Key, LM.LockState>, keys: seq<(Key, LockMode)>, txn: LM.TxnId)
    requires LM.TableInv(table) && Requestable(table, keys, txn)
    ensures LM.TableInv(AcquireFold(table, keys, txn).table)
  {
    if keys != [] {
      var init := keys[..|keys| - 1];
      var (key, mode) := keys[|keys| - 1];
      assert Requestable(table, init, txn);
      FoldKeepsInv(table, init, txn);
      FoldUntouched(table, init, txn, key);
      AcquireOneKeepsInv(LM.LockOf(table, key), txn, mode);
    }
  }

  /* ---------- The manager ---------- */

  class DeterministicLockManagerDeprecated {
    var lockTable: map<Key, LM.LockState>
    var numLocksWaited: map<LM.TxnId, int>
    var numLockedKeys: int

    /** Every lock keeps its invariant, and `num_locked_keys_` is the
      * number of keys whose lock is held. */
    ghost predicate Valid()
      reads this
    {
      LM.TableInv(lockTable) && numLockedKeys == |LockedKeys(lockTable)|
    }

    constructor ()
      ensures Valid()
      ensures lockTable == map[] && numLocksWaited == map[] && numLockedKeys == 0
    {
      lockTable := map[];
      numLocksWaited := map[];
      numLockedKeys := 0;
      assert LockedKeys(map[]) == {};
    }

    /** AcceptTransaction: false for a holder without local keys; otherwise
      * the counter grows by their number, and the transaction is ready
      * (its counter erased) when that gives 0. */
    method AcceptTransaction(holder: TransactionUtils.TransactionHolder) returns (ready: bool)
      requires Valid()
      requires holder.keysInPartition != [] ==> holder.txn.Some?
      modifies this
      ensures Valid()
      ensures lockTable == old(lockTable) && numLockedKeys == old(numLockedKeys)
      ensures holder.keysInPartition == [] ==> !ready && numLocksWaited == old(numLocksWaited)
      ensures holder.keysInPartition != [] ==>
        var id := holder.txn.value.id;
        var c := LM.Waited(old(numLocksWaited), id) + |holder.keysInPartition|;
        (ready <==> c == 0) && numLocksWaited == LM.Settle(old(numLocksWaited), id, c)
    {
      var keys := holder.keysInPartition;
      if keys == [] {
        return false;
      }
      var id := holder.txn.value.id;
      var c := LM.Waited(numLocksWaited, id) + |keys|;
      numLocksWaited := numLocksWaited[id := c];
      if numLocksWaited[id] == 0 {
        numLocksWaited := numLocksWaited - {id};
        return true;
      }
      return false;
    }

    /** AcquireLocks: each listed key is requested in its mode; the counter
      * goes down by the number of locks acquired, and the transaction is
      * ready only when it acquired at least one and the counter is then 0. */
    method AcquireLocks(holder: TransactionUtils.TransactionHolder) returns (ready: bool)
      requires Valid()
      requires holder.keysInPartition != [] ==>
        holder.txn.Some? && Requestable(lockTable, holder.keysInPartition, holder.txn.value.id)
      modifies this
      ensures Valid()
      ensures holder.keysInPartition == [] ==>
        !ready && lockTable == old(lockTable) && numLocksWaited == old(numLocksWaited)
      ensures holder.keysInPartition != [] ==>
        var id := holder.txn.value.id;
        var st := AcquireFold(old(lockTable), holder.keysInPartition, id);
        var c := LM.Waited(old(numLocksWaited), id) - st.grants;
        lockTable == st.table &&
        (ready <==> st.grants > 0 && c == 0) &&
        numLocksWaited == if st.grants > 0 then LM.Settle(old(numLocksWaited), id, c) else old(numLocksWaited)
    {
      var keys := holder.keysInPartition;
      if keys == [] {
        return false;
      }
      var id := holder.txn.value.id;
      FoldKeepsInv(lockTable, keys, id);
      var acquired := AcquireEach(keys, id);
      if acquired > 0 {
        var c := LM.Waited(numLocksWaited, id) - acquired;
        numLocksWaited := numLocksWaited[id := c];
        if numLocksWaited[id] == 0 {
          numLocksWaited := numLocksWaited - {id};
          return true;
        }
      }
      return false;
    }

    /** AcceptTransactionAndAcquireLocks: both calls in turn. The counter
      * first grows by the number of local keys and then shrinks by the
      * locks acquired, so the transaction is ready exactly when it now
      * holds, with this call, every lock it was waiting for. */
    method AcceptTransactionAndAcquireLocks(holder: TransactionUtils.TransactionHolder) returns (ready: bool)
      requires Valid()
      requires holder.keysInPartition != [] ==>
        holder.txn.Some? && Requestable(lockTable, holder.keysInPartition, holder.txn.value.id)
      modifies this
      ensures Valid()
      ensures holder.keysInPartition == [] ==>
        !ready && lockTable == old(lockTable) && numLocksWaited == old(numLocksWaited)
      ensures holder.keysInPartition != [] ==>
        var id := holder.txn.value.id;
        var st := AcquireFold(old(lockTable), holder.keysInPartition, id);
        var c := LM.Waited(old(numLocksWaited), id) + |holder.keysInPartition| - st.grants;
        lockTable == st.table &&
        (ready <==> st.grants > 0 && c == 0) &&
        LM.Waited(numLocksWaited, id) == c
    {
      var accepted := AcceptTransaction(holder);
      ready := AcquireLocks(holder);
    }

    /** The loop of AcquireLocks: one request per listed key, in order,
      * counting the locks acquired and the keys that get locked. */
    method AcquireEach(keys: seq<(Key, LockMode)>, id: LM.TxnId) returns (acquired: nat)
      requires numLockedKeys == |LockedKeys(lockTable)|
      modifies this
      ensures lockTable == AcquireFold(old(lockTable), keys, id).table
      ensures acquired == AcquireFold(old(lockTable), keys, id).grants
      ensures numLockedKeys == |LockedKeys(lockTable)|
      ensures numLocksWaited == old(numLocksWaited)
    {
      ghost var table0 := lockTable;
      acquired := 0;
      var i := 0;
      while i < |keys|
        invariant 0 <= i <= |keys|
        invariant lockTable == AcquireFold(table0, keys[..i], id).table
        invariant acquired == AcquireFold(table0, keys[..i], id).grants
        invariant numLockedKeys == |LockedKeys(lockTable)|
        invariant numLocksWaited == old(numLocksWaited)
      {
        assert keys[..i + 1][..i] == keys[..i];
        var granted := AcquireStep(keys[i].0, keys[i].1, id);
        if granted {
          acquired := acquired + 1;
        }
        i := i + 1;
      }
      assert keys[..|keys|] == keys;
    }

    /** One key of AcquireEach: the request, and the count of locked keys. */
    method AcquireStep(key: Key, mode: LockMode, id: LM.TxnId) returns (granted: bool)
      requires numLockedKeys == |LockedKeys(lockTable)|
      modifies this`lockTable, this`numLockedKeys
      ensures lockTable == old(lockTable)[key := AcquireOne(LM.LockOf(old(lockTable), key), id, mode).0]
      ensures granted == AcquireOne(LM.LockOf(old(lockTable), key), id, mode).1
      ensures numLockedKeys == |LockedKeys(lockTable)|
    {
      var before := LM.LockOf(lockTable, key);
      var (next, g) := AcquireOne(before, id, mode);
      AcquireOneLocks(before, id, mode);
      LockedKeysUpdate(lockTable, key, next);
      lockTable := lockTable[key := next];
      granted := g;
      if before.mode == UNLOCKED && next.mode != UNLOCKED {
        numLockedKeys := numLockedKeys + 1;
      }
    }

    /** ReleaseLocks: releases the holder's keys in turn, returns the
      * transactions that got their last lock through it, and forgets the
      * releaser's counter. */
    method ReleaseLocks(holder: TransactionUtils.TransactionHolder) returns (ready: set<LM.TxnId>)
      requires Valid() && holder.txn.Some?
      modifies this
      ensures Valid()
      ensures var st := LM.ReleaseAll(LM.ReleaseState(old(lockTable), old(numLocksWaited), {}),
                                      LM.KeysOfRequests(holder.keysInPartition), holder.txn.value.id);
        lockTable == st.lockTable && numLocksWaited == st.numLocksWaited - {holder.txn.value.id} &&
        ready == st.ready
    {
      var id := holder.txn.value.id;
      var names := LM.KeysOfRequests(holder.keysInPartition);
      ready := ReleaseListed(names, id);
      numLocksWaited := numLocksWaited - {id};
    }

    /** The loop of ReleaseLocks: one release per listed key, in order. */
    method ReleaseListed(names: seq<Key>, id: LM.TxnId) returns (ready: set<LM.TxnId>)
      requires Valid()
      modifies this
      ensures Valid()
      ensures LM.ReleaseAll(LM.ReleaseState(old(lockTable), old(numLocksWaited), {}), names, id) ==
        LM.ReleaseState(lockTable, numLocksWaited, ready)
    {
      ghost var st0 := LM.ReleaseState(lockTable, numLocksWaited, {});
      ready := {};
      var i := 0;
      while i < |names|
        invariant 0 <= i <= |names|
        invariant Valid()
        invariant LM.ReleaseAll(st0, names[..i], id) == LM.ReleaseState(lockTable, numLocksWaited, ready)
      {
        LM.ReleaseAllSnoc(st0, names, i, id);
        ready := ReleaseStep(names[i], id, ready);
        i := i + 1;
      }
      assert names[..|names|] == names;
    }

    /** One key of ReleaseLocks. */
    method ReleaseStep(key: Key, id: LM.TxnId, ready0: set<LM.TxnId>) returns (ready: set<LM.TxnId>)
      requires Valid()
      modifies this
      ensures Valid()
      ensures LM.ReleaseState(lockTable, numLocksWaited, ready) ==
        LM.ReleaseKey(LM.ReleaseState(old(lockTable), old(numLocksWaited), ready0), key, id)
    {
      var table, count, newGrantees := ReleaseEntry(lockTable, numLockedKeys, key, id, numLocksWaited, ready0);
      numLocksWaited, ready := LM.AccountGrants(numLocksWaited, newGrantees, ready0);
      lockTable, numLockedKeys := table, count;
    }
  }

  /** The lock part of one key of ReleaseLocks, on the table and the
    * counter of locked keys: the counter goes down when the key goes from
    * locked to free, and a free lock is evicted from a full table. */
  method ReleaseEntry(table: map<Key, LM.LockState>, count: int, key: Key, id: LM.TxnId,
                      ghost waited: map<LM.TxnId, int>, ghost ready: set<LM.TxnId>)
    returns (table': map<Key, LM.LockState>, count': int, newGrantees: set<LM.TxnId>)
    requires LM.TableInv(table) && count == |LockedKeys(table)|
    ensures table' == LM.ReleaseKey(LM.ReleaseState(table, waited, ready), key, id).lockTable
    ensures LM.TableInv(table') && count' == |LockedKeys(table')|
    ensures newGrantees == LM.ReleaseSpec(LM.LockOf(table, key), id).1
  {
    var lock := LM.LockOf(table, key);
    LM.ReleaseKeepsInv(lock, id);
    var next;
    next, newGrantees := LM.Release(lock, id);
    ReleaseKeyLockedCount(table, waited, ready, key, id, next);
    table' := table[key := next];
    count' := count;
    if next.mode == UNLOCKED {
      if lock.mode != UNLOCKED {
        count' := count' - 1;
      }
      if |table'| > LOCK_TABLE_SIZE_LIMIT {
        table' := table' - {key};
      }
    }
  }
}
