/** The simple remaster manager
  * (module/scheduler_components/simple_remaster_manager.cpp): one FIFO
  * queue of blocked transactions per local log, named by the master of
  * the transactions it holds. A transaction waits behind every earlier
  * blocked transaction of its log. */
module SimpleRemasterManager {
  import opened Types
  import opened Wrappers
  import opened RemasterManager
  import TransactionHolders

  /** This manager's CheckCounters: like the shared scan, except that the
    * master of every stored key is compared first, whatever the counters. */
  function SimpleCheckKeys(keys: seq<(Key, LockMode)>, metadata: map<Key, Metadata>, storage: Storage)
    : Result<VerifyMasterResult, string>
  {
    if keys == [] then Ok(VALID)
    else
      var key := keys[0].0;
      if key !in metadata then Err("no master metadata for a key")
      else if key in storage && metadata[key].master != storage[key].metadata.master then Err("masters don't match")
      else if metadata[key].counter < StorageCounter(storage, key) then Ok(ABORT)
      else if metadata[key].counter > StorageCounter(storage, key) then Ok(WAITING)
      else SimpleCheckKeys(keys[1..], metadata, storage)
  }

  function SimpleCheck(txn: HeldTxn, storage: Storage): Result<VerifyMasterResult, string>
  {
    SimpleCheckKeys(txn.keys, txn.metadata, storage)
  }

  /** When every stored key agrees on its master, this check is the shared
    * one; the two differ only in when a master mismatch is fatal. */
  lemma {:induction false} SimpleCheckIsShared(keys: seq<(Key, LockMode)>, metadata: map<Key, Metadata>, storage: Storage)
    requires forall i :: 0 <= i < |keys| && keys[i].0 in metadata && keys[i].0 in storage ==>
      metadata[keys[i].0].master == storage[keys[i].0].metadata.master
    ensures SimpleCheckKeys(keys, metadata, storage) == CheckKeys(keys, metadata, storage)
  {
    if keys != [] {
      assert forall i :: 0 <= i < |keys[1..]| ==> keys[1..][i] == keys[i + 1];
      SimpleCheckIsShared(keys[1..], metadata, storage);
    }
  }

  /** A stored key with another master is fatal here even when its counter
    * is behind, where the shared check reports ABORT. */
  lemma MasterMismatchIsFatal(key: Key)
    ensures var storage := map[key := Record("", Metadata(0, 2))];
      var metadata := map[key := Metadata(1, 1)];
      SimpleCheckKeys([(key, READ)], metadata, storage).Err? &&
      CheckKeys([(key, READ)], metadata, storage) == Ok(ABORT)
  {
  }

  /** Every queued transaction is known and its check does not fail. */
  predicate Checkable(queue: seq<nat>, txns: map<nat, HeldTxn>, storage: Storage)
  {
    forall i :: 0 <= i < |queue| ==> queue[i] in txns && SimpleCheck(txns[queue[i]], storage).Ok?
  }

  /** A slice of a checkable queue is checkable. */
  lemma CheckableSlice(queue: seq<nat>, lo: nat, hi: nat, txns: map<nat, HeldTxn>, storage: Storage)
    requires Checkable(queue, txns, storage) && lo <= hi <= |queue|
    ensures Checkable(queue[lo..hi], txns, storage)
  {
    forall i | 0 <= i < hi - lo ensures queue[lo..hi][i] in txns && SimpleCheck(txns[queue[lo..hi][i]], storage).Ok? {
      assert queue[lo..hi][i] == queue[lo + i];
    }
  }

  lemma CheckableTail(queue: seq<nat>, txns: map<nat, HeldTxn>, storage: Storage)
    requires Checkable(queue, txns, storage) && queue != []
    ensures Checkable(queue[1..], txns, storage)
  {
    forall i | 0 <= i < |queue| - 1 ensures queue[1..][i] in txns && SimpleCheck(txns[queue[1..][i]], storage).Ok? {
      assert queue[1..][i] == queue[i + 1];
    }
  }

  lemma AppendOne(a: seq<nat>, x: nat, b: seq<nat>)
    ensures (a + [x]) + b == a + ([x] + b)
  {
  }

  function Verdict(id: nat, txns: map<nat, HeldTxn>, storage: Storage): VerifyMasterResult
    requires id in txns && SimpleCheck(txns[id], storage).Ok?
  {
    SimpleCheck(txns[id], storage).value
  }

  function Join(a: RemasterOccurredResult, b: RemasterOccurredResult): RemasterOccurredResult
  {
    RemasterOccurredResult(a.unblocked + b.unblocked, a.shouldAbort + b.shouldAbort)
  }

  const NoneUnblocked := RemasterOccurredResult([], [])

  /** TryToUnblock on one queue: the heads leave while their check is
    * VALID (unblocked) or ABORT (to abort); the first WAITING head stays.
    * Returns the rest of the queue and what left. */
  function Unblock(queue: seq<nat>, txns: map<nat, HeldTxn>, storage: Storage)
    : (r: (seq<nat>, RemasterOccurredResult))
    requires Checkable(queue, txns, storage)
    ensures |r.0| <= |queue| && r.0 == queue[|queue| - |r.0|..]
    ensures Checkable(r.0, txns, storage)
    decreases |queue|
  {
    if queue == [] then ([], NoneUnblocked)
    else
      match Verdict(queue[0], txns, storage)
      case WAITING => (queue, NoneUnblocked)
      case VALID =>
        var (rest, res) := Unblock(queue[1..], txns, storage);
        (rest, res.(unblocked := [queue[0]] + res.unblocked))
      case ABORT =>
        var (rest, res) := Unblock(queue[1..], txns, storage);
        (rest, res.(shouldAbort := [queue[0]] + res.shouldAbort))
  }

  /** A WAITING head stops the unblocking. */
  lemma UnblockWaits(queue: seq<nat>, txns: map<nat, HeldTxn>, storage: Storage)
    requires Checkable(queue, txns, storage) && queue != [] && Verdict(queue[0], txns, storage) == WAITING
    ensures Unblock(queue, txns, storage) == (queue, NoneUnblocked)
  {
  }

  /** A head that is not WAITING leaves, and the rest of the queue is
    * unblocked after it. */
  lemma UnblockPops(queue: seq<nat>, txns: map<nat, HeldTxn>, storage: Storage)
    requires Checkable(queue, txns, storage) && queue != [] && Verdict(queue[0], txns, storage) != WAITING
    ensures Checkable(queue[1..], txns, storage)
    ensures var r, after := Unblock(queue, txns, storage), Unblock(queue[1..], txns, storage);
      r.0 == after.0 &&
      (Verdict(queue[0], txns, storage) == VALID ==> r.1 == after.1.(unblocked := [queue[0]] + after.1.unblocked)) &&
      (Verdict(queue[0], txns, storage) == ABORT ==> r.1 == after.1.(shouldAbort := [queue[0]] + after.1.shouldAbort))
  {
    CheckableTail(queue, txns, storage);
  }

  /** The ids of `ids` whose verdict is v, in order. */
  function WithVerdict(ids: seq<nat>, v: VerifyMasterResult, txns: map<nat, HeldTxn>, storage: Storage): seq<nat>
    requires Checkable(ids, txns, storage)
  {
    if ids == [] then []
    else (if Verdict(ids[0], txns, storage) == v then [ids[0]] else []) + WithVerdict(ids[1..], v, txns, storage)
  }

  /** Unblock takes off the longest prefix without a WAITING verdict: the
    * ids that leave are all VALID or ABORT, and the head that stays, if
    * any, is WAITING. */
  lemma {:induction false} UnblockStopsAtWaiting(queue: seq<nat>, txns: map<nat, HeldTxn>, storage: Storage)
    requires Checkable(queue, txns, storage)
    ensures var rest := Unblock(queue, txns, storage).0;
      (forall j :: 0 <= j < |queue| - |rest| ==> Verdict(queue[j], txns, storage) != WAITING) &&
      (rest != [] ==> Verdict(rest[0], txns, storage) == WAITING)
  {
    if queue != [] && Verdict(queue[0], txns, storage) != WAITING {
      var tail := queue[1..];
      CheckableTail(queue, txns, storage);
      UnblockStopsAtWaiting(tail, txns, storage);
      var rest := Unblock(queue, txns, storage).0;
      UnblockPops(queue, txns, storage);
      forall j | 0 <= j < |queue| - |rest| ensures Verdict(queue[j], txns, storage) != WAITING {
        if j > 0 { assert queue[j] == tail[j - 1]; }
      }
    }
  }

  /** What leaves the queue is reported in two lists, the VALID ids and the
    * ABORT ids, each in queue order. */
  lemma {:induction false} UnblockReports(queue: seq<nat>, txns: map<nat, HeldTxn>, storage: Storage)
    requires Checkable(queue, txns, storage)
    ensures var r := Unblock(queue, txns, storage);
      var popped := queue[..|queue| - |r.0|];
      Checkable(popped, txns, storage) &&
      r.1.unblocked == WithVerdict(popped, VALID, txns, storage) &&
      r.1.shouldAbort == WithVerdict(popped, ABORT, txns, storage)
  {
    var r := Unblock(queue, txns, storage);
    var popped := queue[..|queue| - |r.0|];
    CheckableSlice(queue, 0, |queue| - |r.0|, txns, storage);
    if queue != [] && Verdict(queue[0], txns, storage) != WAITING {
      var tail := queue[1..];
      CheckableTail(queue, txns, storage);
      UnblockReports(tail, txns, storage);
      var t := Unblock(tail, txns, storage);
      UnblockPops(queue, txns, storage);
      assert popped[0] == queue[0];
      assert popped[1..] == tail[..|tail| - |t.0|];
    } else if queue != [] {
      assert popped == [];
    }
  }

  /** The recursion of TryToUnblock over one queue: the rest of the queue
    * and the result with what left appended. */
  method UnblockQueue(queue: seq<nat>, txns: map<nat, HeldTxn>, storage: Storage, result0: RemasterOccurredResult)
    returns (rest: seq<nat>, result: RemasterOccurredResult)
    requires Checkable(queue, txns, storage)
    ensures rest == Unblock(queue, txns, storage).0
    ensures result == Join(result0, Unblock(queue, txns, storage).1)
    decreases |queue|
  {
    if queue == [] {
      JoinNone(result0);
      return [], result0;
    }
    var id := queue[0];
    var verdict := SimpleCheck(txns[id], storage).value;
    if verdict == WAITING {
      UnblockWaits(queue, txns, storage);
      JoinNone(result0);
      return queue, result0;
    }
    var tail := queue[1..];
    UnblockPops(queue, txns, storage);
    ghost var after := Unblock(tail, txns, storage);
    result := result0;
    if verdict == VALID {
      result := result.(unblocked := result.unblocked + [id]);
    } else {
      result := result.(shouldAbort := result.shouldAbort + [id]);
    }
    JoinHead(result0, result, id, verdict, after.1, Unblock(queue, txns, storage).1);
    rest, result := UnblockQueue(tail, txns, storage, result);
  }

  lemma JoinNone(a: RemasterOccurredResult)
    ensures Join(a, NoneUnblocked) == a
  {
    assert a.unblocked + [] == a.unblocked && a.shouldAbort + [] == a.shouldAbort;
  }

  /** Appending the head to the result, then what follows it, appends what
    * the whole queue gives. */
  lemma JoinHead(result0: RemasterOccurredResult, result: RemasterOccurredResult, id: nat, verdict: VerifyMasterResult,
                 after: RemasterOccurredResult, whole: RemasterOccurredResult)
    requires verdict == VALID ==>
      result == result0.(unblocked := result0.unblocked + [id]) && whole == after.(unblocked := [id] + after.unblocked)
    requires verdict == ABORT ==>
      result == result0.(shouldAbort := result0.shouldAbort + [id]) && whole == after.(shouldAbort := [id] + after.shouldAbort)
    requires verdict != WAITING
    ensures Join(result, after) == Join(result0, whole)
  {
    if verdict == VALID {
      AppendOne(result0.unblocked, id, after.unblocked);
    } else {
      AppendOne(result0.shouldAbort, id, after.shouldAbort);
    }
  }

  /** The queue of a local log: empty when there is none. */
  function QueueOf(queues: map<nat, seq<nat>>, m: nat): seq<nat>
  {
    if m in queues then queues[m] else []
  }

  /** The search of RemasterOccured for the remastered key among a
    * transaction's local keys. */
  method ContainsKey(keys: seq<(Key, LockMode)>, key: Key) returns (b: bool)
    ensures b <==> HasKey(keys, key)
  {
    var i := 0;
    while i < |keys|
      invariant 0 <= i <= |keys|
      invariant forall j :: 0 <= j < i ==> keys[j].0 != key
    {
      if keys[i].0 == key {
        return true;
      }
      i := i + 1;
    }
    return false;
  }

  /** Every queue can be checked. */
  predicate AllCheckable(queues: map<nat, seq<nat>>, txns: map<nat, HeldTxn>, storage: Storage)
  {
    forall m :: m in queues ==> Checkable(queues[m], txns, storage)
  }

  /** The head of the queue touches the key. */
  predicate HeadTouches(queue: seq<nat>, key: Key, txns: map<nat, HeldTxn>)
  {
    queue != [] && queue[0] in txns && HasKey(txns[queue[0]].keys, key)
  }

  /** RemasterOccured over the queues in the given order: a queue whose
    * head touches the key is unblocked, the others are left alone. */
  function RemasterFold(queues: map<nat, seq<nat>>, order: seq<nat>, key: Key,
                        txns: map<nat, HeldTxn>, storage: Storage): (r: (map<nat, seq<nat>>, RemasterOccurredResult))
    requires AllCheckable(queues, txns, storage)
    ensures r.0.Keys == queues.Keys && AllCheckable(r.0, txns, storage)
    decreases |order|
  {
    if order == [] then (queues, NoneUnblocked)
    else
      var (q1, r1) := RemasterFold(queues, order[..|order| - 1], key, txns, storage);
      var m := order[|order| - 1];
      if m in q1 && HeadTouches(q1[m], key, txns) then
        var (rest, res) := Unblock(q1[m], txns, storage);
        (q1[m := rest], Join(r1, res))
      else (q1, r1)
  }

  /** One more queue name extends the fold by that queue's unblocking. */
  lemma RemasterFoldStep(queues: map<nat, seq<nat>>, order: seq<nat>, m: nat, key: Key,
                         txns: map<nat, HeldTxn>, storage: Storage)
    requires AllCheckable(queues, txns, storage) && m in queues
    ensures var before := RemasterFold(queues, order, key, txns, storage);
      var after := RemasterFold(queues, order + [m], key, txns, storage);
      m in before.0 &&
      if HeadTouches(before.0[m], key, txns) then
        after.0 == before.0[m := Unblock(before.0[m], txns, storage).0] &&
        after.1 == Join(before.1, Unblock(before.0[m], txns, storage).1)
      else after == before
  {
    assert (order + [m])[..|order|] == order;
  }

  /** The order lists each name of the set once. */
  ghost predicate Enumerates(order: seq<nat>, names: set<nat>)
  {
    (forall i, j :: 0 <= i < j < |order| ==> order[i] != order[j]) &&
    (forall m :: m in names <==> m in order)
  }

  /** The loop of RemasterOccured over the queues, on values. */
  method RemasterQueues(queues: map<nat, seq<nat>>, key: Key, txns: map<nat, HeldTxn>, storage: Storage)
    returns (queues': map<nat, seq<nat>>, result: RemasterOccurredResult)
    requires AllCheckable(queues, txns, storage)
    ensures exists order: seq<nat> ::
      Enumerates(order, queues.Keys) &&
      queues' == RemasterFold(queues, order, key, txns, storage).0 &&
      result == RemasterFold(queues, order, key, txns, storage).1
  {
    queues', result := queues, NoneUnblocked;
    var rest := queues.Keys;
    ghost var order: seq<nat> := [];
    while rest != {}
      invariant rest <= queues.Keys
      invariant forall i, j :: 0 <= i < j < |order| ==> order[i] != order[j]
      invariant forall m :: m in queues <==> m in order || m in rest
      invariant forall m :: m in order ==> m !in rest
      invariant queues' == RemasterFold(queues, order, key, txns, storage).0
      invariant result == RemasterFold(queues, order, key, txns, storage).1
      decreases |rest|
    {
      var m :| m in rest;
      RemasterFoldStep(queues, order, m, key, txns, storage);
      var queue := queues'[m];
      var touches := false;
      if queue != [] {
        touches := ContainsKey(txns[queue[0]].keys, key);
      }
      if touches {
        var left;
        left, result := UnblockQueue(queue, txns, storage, result);
        queues' := queues'[m := left];
      }
      order := order + [m];
      rest := rest - {m};
    }
    assert Enumerates(order, queues.Keys);
  }

  /** Whatever the order of distinct queue names, each queue ends as its own
    * unblocking alone leaves it: the remaster examines only the queues
    * whose head touches the key. */
  lemma {:induction false} RemasterFoldQueues(queues: map<nat, seq<nat>>, order: seq<nat>, key: Key,
                                               txns: map<nat, HeldTxn>, storage: Storage, m: nat)
    requires AllCheckable(queues, txns, storage)
    requires forall i, j :: 0 <= i < j < |order| ==> order[i] != order[j]
    requires m in queues
    ensures RemasterFold(queues, order, key, txns, storage).0[m] ==
      if m in order && HeadTouches(queues[m], key, txns) then Unblock(queues[m], txns, storage).0 else queues[m]
  {
    if order != [] {
      var init, last := order[..|order| - 1], order[|order| - 1];
      assert order == init + [last];
      RemasterFoldQueues(queues, init, key, txns, storage, m);
      var before := RemasterFold(queues, init, key, txns, storage);
      var after := RemasterFold(queues, order, key, txns, storage);
      assert m in order <==> m in init || m == last;
      if last == m {
        assert m !in init;
        RemasterFoldStep(queues, init, m, key, txns, storage);
      } else {
        assert after.0[m] == before.0[m];
      }
    }
  }

  /** Some master of the metadata has no blocked transaction: the check
    * may then be called. */
  predicate NoQueueFor(queues: map<nat, seq<nat>>, metadata: map<Key, Metadata>)
  {
    exists k :: k in metadata && QueueOf(queues, metadata[k].master) == []
  }

  /** How VerifyMaster leaves the queues for the log m: behind a non-empty
    * queue the transaction joins it as WAITING; otherwise the check gives
    * the result and only a WAITING transaction starts the queue. */
  predicate Enqueued(before: map<nat, seq<nat>>, after: map<nat, seq<nat>>, m: nat, id: nat,
                     r: VerifyMasterResult, check: Result<VerifyMasterResult, string>)
  {
    if QueueOf(before, m) != [] then r == WAITING && after == before[m := QueueOf(before, m) + [id]]
    else check == Ok(r) && after == if r == WAITING then before[m := [id]] else before
  }

  /** The blocked transactions of each local log. */
  class SimpleRemasterManager {
    var blockedQueue: map<nat, seq<nat>>

    constructor ()
      ensures blockedQueue == map[]
    {
      blockedQueue := map[];
    }

    /** VerifyMaster. A transaction without local keys or without metadata
      * is VALID and not queued. Otherwise its log is the master of its
      * first metadata entry (any entry: the map's order is not modelled);
      * behind a non-empty queue it is queued as WAITING without a check,
      * else the check decides and only a WAITING transaction is queued. */
    method VerifyMaster(id: nat, txns: map<nat, HeldTxn>, storage: Storage) returns (r: VerifyMasterResult)
      requires id in txns
      requires txns[id].keys != [] && txns[id].metadata != map[] && NoQueueFor(blockedQueue, txns[id].metadata) ==>
        SimpleCheck(txns[id], storage).Ok?
      modifies this
      ensures txns[id].keys == [] || txns[id].metadata == map[] ==> r == VALID && blockedQueue == old(blockedQueue)
      ensures txns[id].keys != [] && txns[id].metadata != map[] ==>
        exists m :: m in TransactionHolders.Masters(txns[id].metadata) &&
          Enqueued(old(blockedQueue), blockedQueue, m, id, r, SimpleCheck(txns[id], storage))
    {
      var txn := txns[id];
      if txn.keys == [] || txn.metadata == map[] {
        return VALID;
      }
      var k :| k in txn.metadata;
      var m := txn.metadata[k].master;
      assert m in TransactionHolders.Masters(txn.metadata);
      if m in blockedQueue && blockedQueue[m] != [] {
        blockedQueue := blockedQueue[m := blockedQueue[m] + [id]];
        assert Enqueued(old(blockedQueue), blockedQueue, m, id, WAITING, SimpleCheck(txn, storage));
        return WAITING;
      }
      assert NoQueueFor(blockedQueue, txn.metadata);
      r := SimpleCheck(txn, storage).value;
      assert QueueOf(blockedQueue, m) + [id] == [id];
      if r == WAITING {
        blockedQueue := blockedQueue[m := QueueOf(blockedQueue, m) + [id]];
      }
      assert Enqueued(old(blockedQueue), blockedQueue, m, id, r, SimpleCheck(txn, storage));
    }

    /** TryToUnblock: unblocks the heads of one queue, appending what left
      * to the result. */
    method TryToUnblock(m: nat, txns: map<nat, HeldTxn>, storage: Storage, result0: RemasterOccurredResult)
      returns (result: RemasterOccurredResult)
      requires Checkable(QueueOf(blockedQueue, m), txns, storage)
      modifies this
      ensures result == Join(result0, Unblock(QueueOf(old(blockedQueue), m), txns, storage).1)
      ensures blockedQueue ==
        if m in old(blockedQueue) then old(blockedQueue)[m := Unblock(old(blockedQueue)[m], txns, storage).0]
        else old(blockedQueue)
    {
      var rest;
      rest, result := UnblockQueue(QueueOf(blockedQueue, m), txns, storage, result0);
      if m in blockedQueue {
        blockedQueue := blockedQueue[m := rest];
      }
    }

    /** RemasterOccured: the queues, taken in the map's order, whose head
      * touches the remastered key are unblocked. The new counter is not
      * read. */
    method RemasterOccured(key: Key, remasterCounter: nat, txns: map<nat, HeldTxn>, storage: Storage)
      returns (result: RemasterOccurredResult)
      requires AllCheckable(blockedQueue, txns, storage)
      modifies this
      ensures exists order: seq<nat> ::
        Enumerates(order, old(blockedQueue).Keys) &&
        blockedQueue == RemasterFold(old(blockedQueue), order, key, txns, storage).0 &&
        result == RemasterFold(old(blockedQueue), order, key, txns, storage).1
    {
      blockedQueue, result := RemasterQueues(blockedQueue, key, txns, storage);
    }
  }
}
