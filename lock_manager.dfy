/** The deterministic lock manager of a partition's scheduler
  * (module/scheduler_components/deterministic_lock_manager.cpp). A lock
  * state is a value: the table holds one per key, and `lock_table_[key]`
  * inserts a free one on first use. */
module LockManager {
  import opened Types
  import Configurations
  import TransactionUtils

  type TxnId = nat

  /** The locking state of one key: the mode, the holders, the waiters and
    * the FIFO queue of waiters with the mode each is queued under. */
  datatype LockState = LockState(
    mode: LockMode,
    holders: set<TxnId>,
    waiters: set<TxnId>,
    waiterQueue: seq<(TxnId, LockMode)>)

  /** A default-constructed lock state. */
  const FreeLock: LockState := LockState(UNLOCKED, {}, {}, [])

  function QueuedIds(q: seq<(TxnId, LockMode)>): set<TxnId>
  {
    set e | e in q :: e.0
  }

  predicate DistinctIds(q: seq<(TxnId, LockMode)>)
  {
    forall i, j :: 0 <= i < j < |q| ==> q[i].0 != q[j].0
  }

  /** The invariant every lock state keeps: UNLOCKED exactly when nobody
    * holds the lock, and then nobody waits; a write lock has one holder;
    * the waiter set is the set of queued ids, each queued once, under a
    * real mode, and no holder waits. */
  predicate Inv(s: LockState)
  {
    (s.mode == UNLOCKED <==> s.holders == {}) &&
    (s.mode == UNLOCKED ==> s.waiters == {}) &&
    (s.mode == WRITE ==> |s.holders| == 1) &&
    s.waiters == QueuedIds(s.waiterQueue) &&
    DistinctIds(s.waiterQueue) &&
    s.holders !! s.waiters &&
    (forall i :: 0 <= i < |s.waiterQueue| ==> s.waiterQueue[i].1 != UNLOCKED)
  }

  /** LockState::AcquireReadLock: granted at once on a free key, or on a
    * read-locked key nobody waits for; otherwise queued as a reader. */
  function AcquireReadLock(s: LockState, txn: TxnId): (r: (LockState, bool))
    ensures r.1 <==> s.mode == UNLOCKED || (s.mode == READ && s.waiters == {})
    ensures r.1 ==> r.0 == s.(mode := READ, holders := s.holders + {txn})
    ensures !r.1 ==> r.0 == s.(waiters := s.waiters + {txn}, waiterQueue := s.waiterQueue + [(txn, READ)])
  {
    match s.mode
    case UNLOCKED => (s.(holders := s.holders + {txn}, mode := READ), true)
    case READ =>
      if s.waiters == {} then (s.(holders := s.holders + {txn}), true)
      else (s.(waiters := s.waiters + {txn}, waiterQueue := s.waiterQueue + [(txn, READ)]), false)
    case WRITE => (s.(waiters := s.waiters + {txn}, waiterQueue := s.waiterQueue + [(txn, READ)]), false)
  }

  /** LockState::AcquireWriteLock as written: granted only on a free key;
    * a blocked writer is queued under mode READ. */
  function AcquireWriteLock(s: LockState, txn: TxnId): (r: (LockState, bool))
    ensures r.1 <==> s.mode == UNLOCKED
    ensures r.1 ==> r.0 == s.(mode := WRITE, holders := s.holders + {txn})
    ensures !r.1 ==> r.0 == s.(waiters := s.waiters + {txn}, waiterQueue := s.waiterQueue + [(txn, READ)])
  {
    match s.mode
    case UNLOCKED => (s.(holders := s.holders + {txn}, mode := WRITE), true)
    case _ => (s.(waiters := s.waiters + {txn}, waiterQueue := s.waiterQueue + [(txn, READ)]), false)
  }

  /** LockState::IsQueued: the transaction holds or waits for the lock. */
  predicate IsQueued(s: LockState, txn: TxnId)
  {
    txn in s.holders || txn in s.waiters
  }

  /** The queue without the entries of txn (the remove_if of Release). */
  function RemoveTxn(q: seq<(TxnId, LockMode)>, txn: TxnId): (r: seq<(TxnId, LockMode)>)
    ensures forall e :: e in r <==> e in q && e.0 != txn
    ensures DistinctIds(q) ==> DistinctIds(r)
  {
    if q == [] then []
    else if q[0].0 == txn then RemoveTxn(q[1..], txn)
    else
      var rest := RemoveTxn(q[1..], txn);
      assert forall e :: e in rest ==> e in q[1..];
      [q[0]] + rest
  }

  /** The number of consecutive READ entries at the head of the queue. */
  function ReadRunLength(q: seq<(TxnId, LockMode)>): (n: nat)
    ensures n <= |q|
    ensures forall i :: 0 <= i < n ==> q[i].1 == READ
    ensures n < |q| ==> q[n].1 != READ
  {
    if q == [] || q[0].1 != READ then 0 else 1 + ReadRunLength(q[1..])
  }

  /** What LockState::Release does: a non-holder is only taken off the
    * queue; a holder leaves; if it was the last holder, the lock goes to
    * UNLOCKED when nobody waits, else to the head group of the queue: all
    * the READ entries at its head, or its single WRITE entry. The second
    * component is the set of new holders. */
  function ReleaseSpec(s: LockState, txn: TxnId): (LockState, set<TxnId>)
    requires Inv(s)
  {
    if txn !in s.holders then
      (s.(waiterQueue := RemoveTxn(s.waiterQueue, txn), waiters := s.waiters - {txn}), {})
    else if s.holders - {txn} != {} then
      (s.(holders := s.holders - {txn}), {})
    else if s.waiters == {} then
      (s.(holders := {}, mode := UNLOCKED), {})
    else if s.waiterQueue[0].1 == READ then
      var n := ReadRunLength(s.waiterQueue);
      var granted := QueuedIds(s.waiterQueue[..n]);
      (LockState(READ, granted, s.waiters - granted, s.waiterQueue[n..]), granted)
    else
      // Inv leaves WRITE as the only other mode of a queued entry
      var front := s.waiterQueue[0].0;
      (LockState(WRITE, {front}, s.waiters - {front}, s.waiterQueue[1..]), {front})
  }

  lemma QueuedIdsSplit(q: seq<(TxnId, LockMode)>, n: nat)
    requires n < |q|
    ensures QueuedIds(q[..n + 1]) == QueuedIds(q[..n]) + {q[n].0}
  {
    assert q[..n + 1] == q[..n] + [q[n]];
  }

  /** LockState::Release, with its do-while loop granting the READ run. */
  method Release(s: LockState, txn: TxnId) returns (r: LockState, granted: set<TxnId>)
    requires Inv(s)
    ensures (r, granted) == ReleaseSpec(s, txn)
  {
    if txn !in s.holders {
      r := s.(waiterQueue := RemoveTxn(s.waiterQueue, txn), waiters := s.waiters - {txn});
      return r, {};
    }
    var holders := s.holders - {txn};
    if holders != {} {
      return s.(holders := holders), {};
    }
    if s.waiters == {} {
      return s.(holders := holders, mode := UNLOCKED), {};
    }
    assert holders == {};
    var queue := s.waiterQueue;
    var waiters := s.waiters;
    var front := queue[0];
    var mode: LockMode;
    if front.1 == READ {
      ghost var n: nat := 0;
      var id := queue[0].0;
      QueuedIdsSplit(s.waiterQueue, 0);
      assert QueuedIds(s.waiterQueue[..0]) == {};
      holders := holders + {id};
      waiters := waiters - {id};
      queue := queue[1..];
      n := 1;
      while queue != [] && queue[0].1 == READ
        invariant 1 <= n <= ReadRunLength(s.waiterQueue)
        invariant queue == s.waiterQueue[n..]
        invariant holders == QueuedIds(s.waiterQueue[..n])
        invariant waiters == s.waiters - holders
        decreases |queue|
      {
        id := queue[0].0;
        QueuedIdsSplit(s.waiterQueue, n);
        holders := holders + {id};
        waiters := waiters - {id};
        queue := queue[1..];
        n := n + 1;
      }
      assert n == ReadRunLength(s.waiterQueue);
      assert holders == QueuedIds(s.waiterQueue[..ReadRunLength(s.waiterQueue)]);
      assert queue == s.waiterQueue[ReadRunLength(s.waiterQueue)..];
      mode := READ;
    } else {
      holders := holders + {front.0};
      waiters := waiters - {front.0};
      queue := queue[1..];
      mode := WRITE;
    }
    r := LockState(mode, holders, waiters, queue);
    granted := holders;
    assert r == ReleaseSpec(s, txn).0;
  }

  /* ---------- Properties of a single lock ---------- */

  /** A release by a transaction that does not hold the lock only takes it
    * off the waiters, grants nothing and leaves the mode alone. */
  lemma ReleaseByNonHolder(s: LockState, txn: TxnId)
    requires Inv(s) && txn !in s.holders
    ensures ReleaseSpec(s, txn).1 == {}
    ensures ReleaseSpec(s, txn).0.mode == s.mode
    ensures ReleaseSpec(s, txn).0.holders == s.holders
    ensures !IsQueued(ReleaseSpec(s, txn).0, txn)
  {
    assert txn !in QueuedIds(RemoveTxn(s.waiterQueue, txn));
  }

  /** A release by a holder, case by case: other holders remain, so nothing
    * is granted; or nobody waits, so the key is unlocked; or the new
    * holders are exactly the granted group, which is not empty. */
  lemma ReleaseByHolder(s: LockState, txn: TxnId)
    requires Inv(s) && txn in s.holders
    ensures var (r, granted) := ReleaseSpec(s, txn);
      (s.holders != {txn} ==> granted == {} && r.holders == s.holders - {txn} && r.mode == s.mode) &&
      (s.holders == {txn} && s.waiters == {} ==> granted == {} && r.mode == UNLOCKED && r.holders == {}) &&
      (s.holders == {txn} && s.waiters != {} ==>
         granted != {} && r.holders == granted && granted <= s.waiters && r.waiters == s.waiters - granted)
  {
    if s.holders == {txn} && s.waiters != {} {
      assert s.waiterQueue != [];
      assert s.holders - {txn} == {};
      if s.waiterQueue[0].1 == READ {
        var n := ReadRunLength(s.waiterQueue);
        assert n >= 1;
        assert s.waiterQueue[0] in s.waiterQueue[..n];
        QueuedIdsOfSuffix(s.waiterQueue, n);
        var g := QueuedIds(s.waiterQueue[..n]);
        assert ReleaseSpec(s, txn) == (LockState(READ, g, s.waiters - g, s.waiterQueue[n..]), g);
        assert s.waiterQueue[0].0 in g;
        assert g <= s.waiters;
      } else {
        assert s.waiterQueue[0] in s.waiterQueue;
      }
    }
  }

  lemma QueuedIdsOfSuffix(q: seq<(TxnId, LockMode)>, n: nat)
    requires n <= |q|
    ensures QueuedIds(q) == QueuedIds(q[..n]) + QueuedIds(q[n..])
  {
    assert q == q[..n] + q[n..];
    forall e | e in q ensures e in q[..n] || e in q[n..] {
    }
  }

  lemma DistinctSplit(q: seq<(TxnId, LockMode)>, n: nat)
    requires n <= |q| && DistinctIds(q)
    ensures DistinctIds(q[n..])
    ensures QueuedIds(q[..n]) !! QueuedIds(q[n..])
  {
    forall a, b | a in q[..n] && b in q[n..] ensures a.0 != b.0 {
      var i :| 0 <= i < n && q[i] == a;
      var j :| n <= j < |q| && q[j] == b;
    }
  }

  lemma {:induction false} QueuedIdsSize(q: seq<(TxnId, LockMode)>)
    requires DistinctIds(q)
    ensures |QueuedIds(q)| == |q|
  {
    if q != [] {
      QueuedIdsSize(q[1..]);
      assert QueuedIds(q) == {q[0].0} + QueuedIds(q[1..]);
      assert q[0].0 !in QueuedIds(q[1..]);
    }
  }

  /** Acquiring a read lock keeps the invariant, for a transaction that
    * neither holds nor waits for the lock. */
  lemma AcquireReadLockKeepsInv(s: LockState, txn: TxnId)
    requires Inv(s) && !IsQueued(s, txn)
    ensures Inv(AcquireReadLock(s, txn).0)
  {
    AppendKeepsQueue(s.waiterQueue, txn, READ);
  }

  /** Acquiring a write lock keeps the invariant, under the same condition. */
  lemma AcquireWriteLockKeepsInv(s: LockState, txn: TxnId)
    requires Inv(s) && !IsQueued(s, txn)
    ensures Inv(AcquireWriteLock(s, txn).0)
  {
    AppendKeepsQueue(s.waiterQueue, txn, READ);
  }

  lemma AppendKeepsQueue(q: seq<(TxnId, LockMode)>, txn: TxnId, mode: LockMode)
    requires DistinctIds(q) && txn !in QueuedIds(q)
    ensures DistinctIds(q + [(txn, mode)])
    ensures QueuedIds(q + [(txn, mode)]) == QueuedIds(q) + {txn}
  {
    var q' := q + [(txn, mode)];
    forall i, j | 0 <= i < j < |q'| ensures q'[i].0 != q'[j].0 {
      if j == |q| {
        assert q[i] in q;
      }
    }
    forall e | e in q' ensures e in q || e == (txn, mode) {
    }
  }

  /** Releasing keeps the invariant. */
  lemma ReleaseKeepsInv(s: LockState, txn: TxnId)
    requires Inv(s)
    ensures Inv(ReleaseSpec(s, txn).0)
  {
    if txn !in s.holders {
      var r := ReleaseSpec(s, txn).0;
      assert r.waiters == QueuedIds(r.waiterQueue);
    } else if s.holders - {txn} != {} {
    } else if s.waiters == {} {
    } else {
      assert s.waiterQueue != [];
      if s.waiterQueue[0].1 == READ {
        GrantReadRunKeepsInv(s, txn);
      } else {
        GrantWriterKeepsInv(s, txn);
      }
    }
  }

  lemma GrantReadRunKeepsInv(s: LockState, txn: TxnId)
    requires Inv(s) && s.holders == {txn} && s.waiterQueue != [] && s.waiterQueue[0].1 == READ
    ensures Inv(ReleaseSpec(s, txn).0)
  {
    var q := s.waiterQueue;
    var n := ReadRunLength(q);
    assert s.holders - {txn} == {};
    assert q[0] in q && q[0].0 in s.waiters;
    var r := ReleaseSpec(s, txn).0;
    assert r == LockState(READ, QueuedIds(q[..n]), s.waiters - QueuedIds(q[..n]), q[n..]);
    QueuedIdsOfSuffix(q, n);
    DistinctSplit(q, n);
    assert q[0] in q[..n];
    forall i | 0 <= i < |r.waiterQueue| ensures r.waiterQueue[i].1 != UNLOCKED {
      assert r.waiterQueue[i] == q[n + i];
    }
  }

  lemma GrantWriterKeepsInv(s: LockState, txn: TxnId)
    requires Inv(s) && s.holders == {txn} && s.waiterQueue != [] && s.waiterQueue[0].1 != READ
    ensures Inv(ReleaseSpec(s, txn).0)
  {
    var q := s.waiterQueue;
    assert s.holders - {txn} == {};
    assert q[0] in q && q[0].0 in s.waiters;
    var r := ReleaseSpec(s, txn).0;
    assert r == LockState(WRITE, {q[0].0}, s.waiters - {q[0].0}, q[1..]);
    QueuedIdsOfSuffix(q, 1);
    DistinctSplit(q, 1);
    assert q[..1] == [q[0]];
    assert QueuedIds(q[..1]) == {q[0].0};
    forall i | 0 <= i < |r.waiterQueue| ensures r.waiterQueue[i].1 != UNLOCKED {
      assert r.waiterQueue[i] == q[1 + i];
    }
  }

  /* ---------- Consequence of the READ tag of line 42 ---------- */

  predicate AllReadTags(q: seq<(TxnId, LockMode)>)
  {
    forall i :: 0 <= i < |q| ==> q[i].1 == READ
  }

  /** Every operation keeps every queued entry tagged READ, whatever mode
    * the waiter asked for. */
  lemma QueueStaysRead(s: LockState, txn: TxnId)
    requires Inv(s) && AllReadTags(s.waiterQueue)
    ensures AllReadTags(AcquireReadLock(s, txn).0.waiterQueue)
    ensures AllReadTags(AcquireWriteLock(s, txn).0.waiterQueue)
    ensures AllReadTags(ReleaseSpec(s, txn).0.waiterQueue)
  {
    var r := ReleaseSpec(s, txn).0;
    if txn !in s.holders {
      forall i | 0 <= i < |r.waiterQueue| ensures r.waiterQueue[i].1 == READ {
        assert r.waiterQueue[i] in s.waiterQueue;
      }
    }
  }

  /** Hence the WRITE branch of Release is never taken: when the last
    * holder leaves, every waiter, writers included, is granted at once and
    * the lock stays in mode READ. */
  lemma LastReleaseGrantsEveryWaiter(s: LockState, txn: TxnId)
    requires Inv(s) && AllReadTags(s.waiterQueue)
    requires s.holders == {txn} && s.waiters != {}
    ensures ReleaseSpec(s, txn).1 == s.waiters
    ensures ReleaseSpec(s, txn).0.mode == READ
    ensures ReleaseSpec(s, txn).0.waiterQueue == []
  {
    assert s.waiterQueue != [];
    var n := ReadRunLength(s.waiterQueue);
    assert n == |s.waiterQueue|;
    assert s.waiterQueue[..n] == s.waiterQueue;
  }

  /** A reader holds key A; transaction 2 asks to write A and transaction 3
    * to read it. When the reader releases, the writer is granted together
    * with the second reader: the write lock is not exclusive. */
  lemma WriterSharesLockAsWritten()
    ensures var s1 := AcquireReadLock(FreeLock, 1).0;
            var s2 := AcquireWriteLock(s1, 2).0;
            var s3 := AcquireReadLock(s2, 3).0;
            Inv(s3) &&
            ReleaseSpec(s3, 1).1 == {2, 3} && ReleaseSpec(s3, 1).0.mode == READ
  {
    var s1 := AcquireReadLock(FreeLock, 1).0;
    var s2 := AcquireWriteLock(s1, 2).0;
    var s3 := AcquireReadLock(s2, 3).0;
    assert s3 == LockState(READ, {1}, {2, 3}, [(2, READ), (3, READ)]);
    assert ReadRunLength(s3.waiterQueue) == 2;
    assert s3.waiterQueue[..2] == s3.waiterQueue;
  }

  /* ---------- The lock table ---------- */

  /** `lock_table_[key]`: the stored state, or a fresh one. */
  function LockOf(table: map<Key, LockState>, key: Key): LockState
  {
    if key in table then table[key] else FreeLock
  }

  predicate TableInv(table: map<Key, LockState>)
  {
    forall k :: k in table ==> Inv(table[k])
  }

  /** `num_locks_waited_[txn]`: the stored count, or 0. */
  function Waited(counts: map<TxnId, int>, txn: TxnId): int
  {
    if txn in counts then counts[txn] else 0
  }

  /** One request of AcquireLocks: a transaction already holding or waiting
    * for the key is skipped; otherwise it asks for the lock in its mode.
    * The flag says whether the lock was granted in this call. */
  function AcquireOne(s: LockState, txn: TxnId, mode: LockMode): (LockState, bool)
  {
    if IsQueued(s, txn) then (s, false)
    else if mode == READ then AcquireReadLock(s, txn)
    else AcquireWriteLock(s, txn)
  }

  lemma AcquireOneKeepsInv(s: LockState, txn: TxnId, mode: LockMode)
    requires Inv(s)
    ensures Inv(AcquireOne(s, txn, mode).0)
  {
    if !IsQueued(s, txn) {
      AcquireReadLockKeepsInv(s, txn);
      AcquireWriteLockKeepsInv(s, txn);
    }
  }

  /** The keys of `modes` whose lock AcquireLocks grants txn in this call. */
  function GrantedKeys(table: map<Key, LockState>, modes: map<Key, LockMode>, txn: TxnId): set<Key>
  {
    set k | k in modes && AcquireOne(LockOf(table, k), txn, modes[k]).1
  }

  /** The counters after the grants of one release: each new holder waits
    * for one lock less, and a counter reaching 0 is erased. */
  function Decremented(counts: map<TxnId, int>, granted: set<TxnId>): map<TxnId, int>
  {
    map h | h in counts.Keys + granted && !(h in granted && Waited(counts, h) == 1) ::
      if h in granted then Waited(counts, h) - 1 else counts[h]
  }

  /** The new holders whose counter reaches 0 through these grants. */
  function NewlyReady(counts: map<TxnId, int>, granted: set<TxnId>): set<TxnId>
  {
    set h | h in granted && Waited(counts, h) == 1
  }

  datatype ReleaseState = ReleaseState(
    lockTable: map<Key, LockState>,
    numLocksWaited: map<TxnId, int>,
    ready: set<TxnId>)

  /** One key of ReleaseLocks: release the key, account for the new holders
    * and forget the key when it is free and the table is over its limit. */
  function ReleaseKey(st: ReleaseState, key: Key, txn: TxnId): (r: ReleaseState)
    requires TableInv(st.lockTable)
    ensures TableInv(r.lockTable)
  {
    ReleaseKeepsInv(LockOf(st.lockTable, key), txn);
    var (s, granted) := ReleaseSpec(LockOf(st.lockTable, key), txn);
    var table := st.lockTable[key := s];
    ReleaseState(
      if s.mode == UNLOCKED && |table| > LOCK_TABLE_SIZE_LIMIT then table - {key} else table,
      Decremented(st.numLocksWaited, granted),
      st.ready + NewlyReady(st.numLocksWaited, granted))
  }

  /** ReleaseLocks over the keys in order. */
  function ReleaseAll(st: ReleaseState, keys: seq<Key>, txn: TxnId): (r: ReleaseState)
    requires TableInv(st.lockTable)
    ensures TableInv(r.lockTable)
  {
    if keys == [] then st
    else ReleaseKey(ReleaseAll(st, keys[..|keys| - 1], txn), keys[|keys| - 1], txn)
  }

  /** Releasing one more key of the list. */
  lemma ReleaseAllSnoc(st: ReleaseState, keys: seq<Key>, i: nat, txn: TxnId)
    requires TableInv(st.lockTable) && i < |keys|
    ensures ReleaseAll(st, keys[..i + 1], txn) == ReleaseKey(ReleaseAll(st, keys[..i], txn), keys[i], txn)
  {
    assert keys[..i + 1][..i] == keys[..i];
  }

  /** A key's release reports ready exactly the new holders whose counter
    * was at 1, and their counters are gone. */
  lemma ReleaseKeyReady(st: ReleaseState, key: Key, txn: TxnId, h: TxnId)
    requires TableInv(st.lockTable)
    ensures var granted := ReleaseSpec(LockOf(st.lockTable, key), txn).1;
      var r := ReleaseKey(st, key, txn);
      (h in r.ready <==> h in st.ready || (h in granted && Waited(st.numLocksWaited, h) == 1)) &&
      (h in granted && Waited(st.numLocksWaited, h) == 1 ==> h !in r.numLocksWaited) &&
      (h in granted && Waited(st.numLocksWaited, h) != 1 ==> Waited(r.numLocksWaited, h) == Waited(st.numLocksWaited, h) - 1) &&
      (h !in granted ==> Waited(r.numLocksWaited, h) == Waited(st.numLocksWaited, h))
  {
  }

  /** A key's release keeps the other entries of the table, and drops its
    * own entry only when it is free and the table is over its limit. */
  lemma ReleaseKeyEvicts(st: ReleaseState, key: Key, txn: TxnId)
    requires TableInv(st.lockTable)
    ensures var s := ReleaseSpec(LockOf(st.lockTable, key), txn).0;
      var r := ReleaseKey(st, key, txn);
      (forall k :: k != key ==> (k in r.lockTable <==> k in st.lockTable)) &&
      (forall k :: k != key && k in r.lockTable ==> r.lockTable[k] == st.lockTable[k]) &&
      (key in r.lockTable <==> !(s.mode == UNLOCKED && |st.lockTable[key := s]| > LOCK_TABLE_SIZE_LIMIT)) &&
      (key in r.lockTable ==> r.lockTable[key] == s)
  {
  }

  function KeysOfRequests(keys: seq<(Key, LockMode)>): seq<Key>
  {
    seq(|keys|, i requires 0 <= i < |keys| => keys[i].0)
  }

  /** A counter set to c, where the source erases a counter reaching 0. */
  function Settle(counts: map<TxnId, int>, txn: TxnId, c: int): (r: map<TxnId, int>)
    ensures Waited(r, txn) == c
    ensures (txn in r <==> c != 0)
    ensures forall h :: h != txn ==> (h in r <==> h in counts)
    ensures forall h :: h in r && h != txn ==> r[h] == counts[h]
  {
    if c == 0 then counts - {txn} else counts[txn := c]
  }

  /** A counter set and then erased is as if erased. */
  lemma SetThenErase(counts: map<TxnId, int>, txn: TxnId, c: int)
    ensures counts[txn := c] - {txn} == counts - {txn}
  {
  }

  /** Registering n locks and then taking g grants leaves the same
    * counters as the other order, and either order reports ready exactly
    * when the combined count is 0. */
  lemma RegisterAcquireCommute(counts: map<TxnId, int>, txn: TxnId, n: nat, g: nat)
    ensures var afterRegister := Settle(counts, txn, Waited(counts, txn) + n);
            var afterAcquire := Settle(counts, txn, Waited(counts, txn) - g);
            Settle(afterRegister, txn, Waited(afterRegister, txn) - g) ==
            Settle(afterAcquire, txn, Waited(afterAcquire, txn) + n) ==
            Settle(counts, txn, Waited(counts, txn) + n - g)
  {
    var final := Settle(counts, txn, Waited(counts, txn) + n - g);
    var afterRegister := Settle(counts, txn, Waited(counts, txn) + n);
    var afterAcquire := Settle(counts, txn, Waited(counts, txn) - g);
    var x := Settle(afterRegister, txn, Waited(afterRegister, txn) - g);
    var y := Settle(afterAcquire, txn, Waited(afterAcquire, txn) + n);
    assert x.Keys == final.Keys && y.Keys == final.Keys;
  }

  /** The table after AcquireLocks: each requested key holds the state its
    * request leaves; any other key is untouched. */
  function Acquired(table: map<Key, LockState>, modes: map<Key, LockMode>, txn: TxnId): (r: map<Key, LockState>)
    ensures r.Keys == table.Keys + modes.Keys
  {
    map k | k in table.Keys + modes.Keys ::
      if k in modes then AcquireOne(LockOf(table, k), txn, modes[k]).0 else table[k]
  }

  /** Every lock of the table keeps its invariant through AcquireLocks. */
  lemma AcquiredKeepsInv(table: map<Key, LockState>, modes: map<Key, LockMode>, txn: TxnId)
    requires TableInv(table)
    ensures TableInv(Acquired(table, modes, txn))
  {
    forall k | k in modes {
      AcquireOneKeepsInv(LockOf(table, k), txn, modes[k]);
    }
  }

  /** A request for one more key, not requested before: that key was
    * untouched so far, and it adds its own state. */
  lemma AcquiredStep(table: map<Key, LockState>, modes: map<Key, LockMode>, key: Key, mode: LockMode, txn: TxnId)
    requires key !in modes
    ensures LockOf(Acquired(table, modes, txn), key) == LockOf(table, key)
    ensures Acquired(table, modes[key := mode], txn) ==
      Acquired(table, modes, txn)[key := AcquireOne(LockOf(table, key), txn, mode).0]
  {
    var m := Acquired(table, modes[key := mode], txn);
    var m' := Acquired(table, modes, txn)[key := AcquireOne(LockOf(table, key), txn, mode).0];
    forall k | k in m ensures k in m' && m[k] == m'[k] {
      if k != key && k in modes {
        assert m[k] == AcquireOne(LockOf(table, k), txn, modes[k]).0;
      }
    }
  }

  /** ... and its own grant. */
  lemma GrantedStep(table: map<Key, LockState>, modes: map<Key, LockMode>, key: Key, mode: LockMode, txn: TxnId)
    requires key !in modes
    ensures |GrantedKeys(table, modes[key := mode], txn)| ==
      |GrantedKeys(table, modes, txn)| + (if AcquireOne(LockOf(table, key), txn, mode).1 then 1 else 0)
  {
    var g := GrantedKeys(table, modes, txn);
    var g' := GrantedKeys(table, modes[key := mode], txn);
    var b := AcquireOne(LockOf(table, key), txn, mode).1;
    GrantedMembers(table, modes, key, mode, txn);
    SetStep(g, g', key, b);
  }

  /** A set that differs from another in at most one element. */
  lemma SetStep<T>(g: set<T>, g': set<T>, key: T, b: bool)
    requires key !in g && (key in g' <==> b)
    requires forall k :: k != key ==> (k in g' <==> k in g)
    ensures |g'| == |g| + (if b then 1 else 0)
  {
    if b {
      assert g' == g + {key};
    } else {
      assert g' == g;
    }
  }

  lemma GrantedMembers(table: map<Key, LockState>, modes: map<Key, LockMode>, key: Key, mode: LockMode, txn: TxnId)
    requires key !in modes
    ensures key !in GrantedKeys(table, modes, txn)
    ensures key in GrantedKeys(table, modes[key := mode], txn) <==> AcquireOne(LockOf(table, key), txn, mode).1
    ensures forall k :: k != key ==>
      (k in GrantedKeys(table, modes[key := mode], txn) <==> k in GrantedKeys(table, modes, txn))
  {
    forall k | k != key
      ensures k in GrantedKeys(table, modes[key := mode], txn) <==> k in GrantedKeys(table, modes, txn)
    {
      if k in modes {
        assert modes[key := mode][k] == modes[k];
      }
    }
  }

  predicate DistinctKeys(keys: seq<(Key, LockMode)>)
  {
    forall i, j :: 0 <= i < j < |keys| ==> keys[i].0 != keys[j].0
  }

  /** The modes a request list names. */
  function ModesOf(keys: seq<(Key, LockMode)>): map<Key, LockMode>
  {
    if keys == [] then map[] else ModesOf(keys[..|keys| - 1])[keys[|keys| - 1].0 := keys[|keys| - 1].1]
  }

  lemma {:induction false} ModesOfEntries(keys: seq<(Key, LockMode)>)
    requires DistinctKeys(keys)
    ensures forall i :: 0 <= i < |keys| ==> keys[i].0 in ModesOf(keys) && ModesOf(keys)[keys[i].0] == keys[i].1
    ensures forall k :: k in ModesOf(keys) ==> (k, ModesOf(keys)[k]) in keys
  {
    if keys != [] {
      var init := keys[..|keys| - 1];
      ModesOfEntries(init);
      forall k | k in ModesOf(keys) ensures (k, ModesOf(keys)[k]) in keys {
        if k != keys[|keys| - 1].0 {
          assert (k, ModesOf(init)[k]) in init;
        }
      }
    }
  }

  /** A list naming every key of `modes` once names exactly `modes`. */
  lemma ModesOfListed(keys: seq<(Key, LockMode)>, modes: map<Key, LockMode>)
    requires TransactionUtils.ListsLockModes(keys, modes)
    ensures ModesOf(keys) == modes
  {
    ModesOfEntries(keys);
    forall k | k in modes ensures k in ModesOf(keys) && ModesOf(keys)[k] == modes[k] {
      var i :| 0 <= i < |keys| && keys[i] == (k, modes[k]);
    }
    forall k | k in ModesOf(keys) ensures k in modes {
      var i :| 0 <= i < |keys| && keys[i] == (k, ModesOf(keys)[k]);
    }
  }

  /** The loop of AcquireLocks, key by key in list order: the table and
    * the number of grants so far. */
  datatype AcquireState = AcquireState(table: map<Key, LockState>, grants: nat)

  function AcquireFold(table: map<Key, LockState>, keys: seq<(Key, LockMode)>, txn: TxnId): AcquireState
  {
    if keys == [] then AcquireState(table, 0)
    else
      var st := AcquireFold(table, keys[..|keys| - 1], txn);
      var (key, mode) := keys[|keys| - 1];
      var (s, granted) := AcquireOne(LockOf(st.table, key), txn, mode);
      AcquireState(st.table[key := s], st.grants + if granted then 1 else 0)
  }

  /** The order of the keys does not matter: over distinct keys the loop
    * leaves the table of `Acquired` and makes one grant per granted key. */
  lemma {:induction false} FoldIsAcquired(table: map<Key, LockState>, keys: seq<(Key, LockMode)>, txn: TxnId)
    requires DistinctKeys(keys)
    ensures AcquireFold(table, keys, txn).table == Acquired(table, ModesOf(keys), txn)
    ensures AcquireFold(table, keys, txn).grants == |GrantedKeys(table, ModesOf(keys), txn)|
  {
    if keys != [] {
      var init := keys[..|keys| - 1];
      var (key, mode) := keys[|keys| - 1];
      FoldIsAcquired(table, init, txn);
      ModesOfEntries(init);
      assert key !in ModesOf(init);
      AcquiredStep(table, ModesOf(init), key, mode, txn);
      GrantedStep(table, ModesOf(init), key, mode, txn);
    }
  }

  /** The counters once g grants were taken off txn's counter. */
  function Counted(counts: map<TxnId, int>, txn: TxnId, g: nat): map<TxnId, int>
  {
    if g == 0 then counts else counts[txn := Waited(counts, txn) - g]
  }

  lemma CountedStep(counts: map<TxnId, int>, txn: TxnId, g: nat)
    ensures Waited(Counted(counts, txn, g), txn) == Waited(counts, txn) - g
    ensures Counted(counts, txn, g + 1) ==
      Counted(counts, txn, g)[txn := Waited(Counted(counts, txn, g), txn) - 1]
  {
    var m := Counted(counts, txn, g + 1);
    var m' := Counted(counts, txn, g)[txn := Waited(Counted(counts, txn, g), txn) - 1];
    assert m.Keys == m'.Keys;
  }

  /** The final test of AcquireLocks turns the counted map into the
    * settled one. */
  lemma CountedSettles(counts: map<TxnId, int>, txn: TxnId, g: nat)
    ensures var m := Counted(counts, txn, g);
      Waited(m, txn) == Waited(counts, txn) - g &&
      (Waited(m, txn) == 0 ==> m - {txn} == Settle(counts, txn, Waited(counts, txn) - g)) &&
      (Waited(m, txn) != 0 ==> m == Settle(counts, txn, Waited(counts, txn) - g))
  {
    var m := Counted(counts, txn, g);
    var c := Waited(counts, txn) - g;
    if c != 0 {
      assert m.Keys == counts[txn := c].Keys;
    } else {
      assert (m - {txn}).Keys == (counts - {txn}).Keys;
    }
  }

  /** The outcome of AcquireLocks for the requests `modes`: every request
    * made, and the counter lowered by the number of grants, erased and
    * reported ready when it reaches 0. */
  ghost predicate AcquireOutcome(table: map<Key, LockState>, counts: map<TxnId, int>, ready: bool,
                                 table0: map<Key, LockState>, counts0: map<TxnId, int>,
                                 modes: map<Key, LockMode>, txn: TxnId)
  {
    var c := Waited(counts0, txn) - |GrantedKeys(table0, modes, txn)|;
    table == Acquired(table0, modes, txn) &&
    (ready <==> c == 0) && counts == Settle(counts0, txn, c)
  }

  /** The accounting of AccountGrants once the holders in `done` are
    * taken into account, stated point by point. */
  ghost predicate Accounted(counts: map<TxnId, int>, ready: set<TxnId>,
                            counts0: map<TxnId, int>, ready0: set<TxnId>, done: set<TxnId>)
  {
    (forall x :: x in counts <==> (x in counts0 || x in done) && !(x in done && Waited(counts0, x) == 1)) &&
    (forall x :: x in counts ==> counts[x] == if x in done then Waited(counts0, x) - 1 else counts0[x]) &&
    (forall x :: x in ready <==> x in ready0 || (x in done && Waited(counts0, x) == 1))
  }

  lemma AccountedAll(counts: map<TxnId, int>, ready: set<TxnId>,
                     counts0: map<TxnId, int>, ready0: set<TxnId>, granted: set<TxnId>)
    requires Accounted(counts, ready, counts0, ready0, granted)
    ensures counts == Decremented(counts0, granted)
    ensures ready == ready0 + NewlyReady(counts0, granted)
  {
  }

  /** The grant accounting of one release: each new holder's counter goes
    * down by one; the ones that reach 0 are erased and ready. */
  method AccountGrants(counts: map<TxnId, int>, granted: set<TxnId>, ready0: set<TxnId>)
    returns (counts': map<TxnId, int>, ready: set<TxnId>)
    ensures counts' == Decremented(counts, granted)
    ensures ready == ready0 + NewlyReady(counts, granted)
  {
    counts' := counts;
    ready := ready0;
    var rest := granted;
    ghost var done: set<TxnId> := {};
    while rest != {}
      invariant rest + done == granted && rest !! done
      invariant Accounted(counts', ready, counts, ready0, done)
      decreases |rest|
    {
      var holder :| holder in rest;
      counts', ready := AccountOne(counts', ready, holder, counts, ready0, done);
      done := done + {holder};
      rest := rest - {holder};
    }
    AccountedAll(counts', ready, counts, ready0, granted);
  }

  /** One new holder: `num_locks_waited_[holder]--`, erased at 0. */
  method AccountOne(counts: map<TxnId, int>, ready: set<TxnId>, holder: TxnId, ghost counts0: map<TxnId, int>,
                    ghost ready0: set<TxnId>, ghost done: set<TxnId>) returns (counts': map<TxnId, int>, ready': set<TxnId>)
    requires holder !in done && Accounted(counts, ready, counts0, ready0, done)
    ensures Accounted(counts', ready', counts0, ready0, done + {holder})
  {
    assert Waited(counts, holder) == Waited(counts0, holder);
    var c := Waited(counts, holder) - 1;
    if c == 0 {
      counts' := counts - {holder};
      ready' := ready + {holder};
    } else {
      counts' := counts[holder := c];
      ready' := ready;
    }
  }

  class DeterministicLockManager {
    const config: Configurations.Configuration
    var lockTable: map<Key, LockState>
    var numLocksWaited: map<TxnId, int>

    ghost predicate Valid()
      reads this
    {
      config.config.numPartitions >= 1 && TableInv(lockTable)
    }

    constructor (config: Configurations.Configuration)
      requires config.config.numPartitions >= 1
      ensures Valid()
      ensures this.config == config && lockTable == map[] && numLocksWaited == map[]
    {
      this.config := config;
      lockTable := map[];
      numLocksWaited := map[];
    }

    /** The local keys of the transaction and their lock modes. */
    function Requests(txn: Transaction): map<Key, LockMode>
      requires config.config.numPartitions >= 1
    {
      TransactionUtils.LocalLockModes(config, txn)
    }

    /** ExtractKeys: the local keys of the transaction, each once with its
      * lock mode. */
    method LocalRequests(txn: Transaction) returns (keys: seq<(Key, LockMode)>)
      requires config.config.numPartitions >= 1
      ensures TransactionUtils.ListsLockModes(keys, Requests(txn))
      ensures |keys| == |Requests(txn)| && (keys == [] <==> Requests(txn) == map[])
    {
      keys := TransactionUtils.ExtractKeysInPartition([], config, txn);
      TransactionUtils.ListedSize(keys, Requests(txn));
    }

    /** RegisterTxn: a transaction with no local key changes nothing and
      * is not ready; otherwise its counter grows by its number of local
      * keys, and it is ready (and its counter erased) when that gives 0. */
    method RegisterTxn(txn: Transaction) returns (ready: bool)
      requires Valid()
      modifies this`numLocksWaited
      ensures Valid()
      ensures lockTable == old(lockTable)
      ensures Requests(txn) == map[] ==> !ready && numLocksWaited == old(numLocksWaited)
      ensures Requests(txn) != map[] ==>
        var c := Waited(old(numLocksWaited), txn.id) + |Requests(txn)|;
        (ready <==> c == 0) && numLocksWaited == Settle(old(numLocksWaited), txn.id, c)
    {
      var keys := LocalRequests(txn);
      if keys == [] {
        return false;
      }
      var c := Waited(numLocksWaited, txn.id) + |keys|;
      var counts := numLocksWaited[txn.id := c];
      if counts[txn.id] == 0 {
        SetThenErase(numLocksWaited, txn.id, c);
        numLocksWaited := counts - {txn.id};
        return true;
      }
      numLocksWaited := counts;
      return false;
    }

    /** AcquireLocks: every local key the transaction does not already
      * hold or wait for is requested in its mode; each grant lowers the
      * counter by one. The transaction is ready, and its counter erased,
      * when the counter is then 0. */
    method AcquireLocks(txn: Transaction) returns (ready: bool)
      requires Valid()
      modifies this
      ensures Valid()
      ensures Requests(txn) == map[] ==>
        !ready && lockTable == old(lockTable) && numLocksWaited == old(numLocksWaited)
      ensures Requests(txn) != map[] ==>
        AcquireOutcome(lockTable, numLocksWaited, ready, old(lockTable), old(numLocksWaited), Requests(txn), txn.id)
    {
      var keys := LocalRequests(txn);
      if keys == [] {
        return false;
      }
      ready := AcquireListed(keys, Requests(txn), txn.id);
    }

    /** AcquireLocks once its local keys are listed, each once. */
    method AcquireListed(keys: seq<(Key, LockMode)>, ghost modes: map<Key, LockMode>, id: TxnId)
      returns (ready: bool)
      requires Valid() && TransactionUtils.ListsLockModes(keys, modes)
      modifies this
      ensures Valid()
      ensures AcquireOutcome(lockTable, numLocksWaited, ready, old(lockTable), old(numLocksWaited), modes, id)
    {
      AcquiredKeepsInv(lockTable, modes, id);
      FoldIsAcquired(lockTable, keys, id);
      ModesOfListed(keys, modes);
      ghost var counts0 := numLocksWaited;
      AcquireEach(keys, id);
      CountedSettles(counts0, id, |GrantedKeys(old(lockTable), modes, id)|);
      if Waited(numLocksWaited, id) == 0 {
        numLocksWaited := numLocksWaited - {id};
        return true;
      }
      return false;
    }

    /** The loop of AcquireLocks: one request per listed key, in order. */
    method AcquireEach(keys: seq<(Key, LockMode)>, id: TxnId)
      modifies this
      ensures var st := AcquireFold(old(lockTable), keys, id);
        lockTable == st.table && numLocksWaited == Counted(old(numLocksWaited), id, st.grants)
    {
      ghost var table0 := lockTable;
      ghost var counts0 := numLocksWaited;
      var i := 0;
      while i < |keys|
        invariant 0 <= i <= |keys|
        invariant lockTable == AcquireFold(table0, keys[..i], id).table
        invariant numLocksWaited == Counted(counts0, id, AcquireFold(table0, keys[..i], id).grants)
      {
        var (key, mode) := keys[i];
        assert keys[..i + 1][..i] == keys[..i];
        CountedStep(counts0, id, AcquireFold(table0, keys[..i], id).grants);
        var (next, acquired) := AcquireOne(LockOf(lockTable, key), id, mode);
        lockTable := lockTable[key := next];
        if acquired {
          numLocksWaited := numLocksWaited[id := Waited(numLocksWaited, id) - 1];
        }
        i := i + 1;
      }
      assert keys[..|keys|] == keys;
    }

    /** One key of ReleaseLocks. */
    method ReleaseStep(key: Key, id: TxnId, ready0: set<TxnId>) returns (ready: set<TxnId>)
      requires Valid()
      modifies this`lockTable, this`numLocksWaited
      ensures Valid()
      ensures ReleaseState(lockTable, numLocksWaited, ready) ==
        ReleaseKey(ReleaseState(old(lockTable), old(numLocksWaited), ready0), key, id)
    {
      var state := LockOf(lockTable, key);
      ReleaseKeepsInv(state, id);
      var next, newHolders := Release(state, id);
      var table := lockTable[key := next];
      var counts;
      counts, ready := AccountGrants(numLocksWaited, newHolders, ready0);
      if next.mode == UNLOCKED && |table| > LOCK_TABLE_SIZE_LIMIT {
        table := table - {key};
      }
      ghost var spec := ReleaseKey(ReleaseState(lockTable, numLocksWaited, ready0), key, id);
      assert ReleaseState(table, counts, ready) == spec;
      lockTable, numLocksWaited := table, counts;
    }

    /** ReleaseLocks: releases every local key of the transaction in turn,
      * returns the transactions that got their last lock through it, and
      * forgets the releaser's counter. The keys come in the order of the
      * transaction's maps, which the model leaves open. */
    method ReleaseLocks(txn: Transaction) returns (ready: set<TxnId>)
      requires Valid()
      modifies this
      ensures Valid()
      ensures exists keys: seq<(Key, LockMode)> ::
        TransactionUtils.ListsLockModes(keys, Requests(txn)) &&
        var st := ReleaseAll(ReleaseState(old(lockTable), old(numLocksWaited), {}), KeysOfRequests(keys), txn.id);
        lockTable == st.lockTable && numLocksWaited == st.numLocksWaited - {txn.id} && ready == st.ready
    {
      var keys := TransactionUtils.ExtractKeysInPartition([], config, txn);
      ready := ReleaseListed(KeysOfRequests(keys), txn.id);
      numLocksWaited := numLocksWaited - {txn.id};
    }

    /** The loop of ReleaseLocks over the keys in order. */
    method ReleaseListed(names: seq<Key>, id: TxnId) returns (ready: set<TxnId>)
      requires Valid()
      modifies this
      ensures Valid()
      ensures ReleaseState(lockTable, numLocksWaited, ready) ==
        ReleaseAll(ReleaseState(old(lockTable), old(numLocksWaited), {}), names, id)
    {
      ghost var st0 := ReleaseState(lockTable, numLocksWaited, {});
      ready := {};
      var i := 0;
      while i < |names|
        invariant 0 <= i <= |names|
        invariant Valid()
        invariant ReleaseAll(st0, names[..i], id) == ReleaseState(lockTable, numLocksWaited, ready)
      {
        ReleaseAllSnoc(st0, names, i, id);
        ready := ReleaseStep(names[i], id, ready);
        i := i + 1;
      }
      assert names[..|names|] == names;
    }
  }
}
