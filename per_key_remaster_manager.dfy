/** The per-key remaster manager
  * (module/scheduler_components/per_key_remaster_manager.cpp): one queue
  * of blocked transactions per local key, sorted by the transaction's
  * counter for that key, ties in arrival order. A transaction is blocked
  * when its counters are ahead of storage or when a transaction queued on
  * one of its keys has a counter no larger than its own. */
module PerKeyRemasterManager {
  import opened Types
  import opened Wrappers
  import opened RemasterManager

  /** A queue entry: the transaction and its counter for the queue's key. */
  datatype Blocked = Blocked(id: nat, counter: nat)

  type Queues = map<Key, seq<Blocked>>

  /** The transactions of one queue. */
  function IdsOf(q: seq<Blocked>): set<nat>
  {
    set i | 0 <= i < |q| :: q[i].id
  }

  /** The transactions queued on some key. */
  ghost function Queued(queues: Queues): set<nat>
  {
    set k, x | k in queues && x in IdsOf(queues[k]) :: x
  }

  /** The positions of all queue entries; the unblocking recursion removes
    * entries and so strictly shrinks this set. */
  ghost function Entries(queues: Queues): set<(Key, nat)>
  {
    set k, i | k in queues && 0 <= i < |queues[k]| :: (k, i)
  }

  /** The local keys of a transaction as a set. */
  function KeysOf(keys: seq<(Key, LockMode)>): set<Key>
  {
    set j | 0 <= j < |keys| :: keys[j].0
  }

  predicate DistinctKeys(keys: seq<(Key, LockMode)>)
  {
    forall i, j :: 0 <= i < j < |keys| ==> keys[i].0 != keys[j].0
  }

  /** Every holder lists each of its local keys once. */
  predicate WellFormed(txns: map<nat, HeldTxn>)
  {
    forall x :: x in txns ==> DistinctKeys(txns[x].keys)
  }

  predicate SortedByCounter(q: seq<Blocked>)
  {
    forall i, j :: 0 <= i < j < |q| ==> q[i].counter <= q[j].counter
  }

  predicate DistinctIds(q: seq<Blocked>)
  {
    forall i, j :: 0 <= i < j < |q| ==> q[i].id != q[j].id
  }

  /** An entry of the queue of `key` is a known transaction with that local
    * key, queued with its own counter for the key. */
  predicate EntryOk(key: Key, e: Blocked, txns: map<nat, HeldTxn>)
  {
    e.id in txns && key in KeysOf(txns[e.id].keys) &&
    key in txns[e.id].metadata && e.counter == txns[e.id].metadata[key].counter
  }

  /** A queue is never empty (an emptied queue is erased), is sorted by
    * counter and holds each transaction once. */
  predicate QueueOk(key: Key, q: seq<Blocked>, txns: map<nat, HeldTxn>)
  {
    q != [] && SortedByCounter(q) && DistinctIds(q) &&
    forall i :: 0 <= i < |q| ==> EntryOk(key, q[i], txns)
  }

  /** The transaction is queued on each of the keys. */
  predicate QueuedOnAll(queues: Queues, id: nat, keys: seq<(Key, LockMode)>)
  {
    forall j :: 0 <= j < |keys| ==> keys[j].0 in queues && id in IdsOf(queues[keys[j].0])
  }

  /** The invariant of the queues: every queue is well formed, and a queued
    * transaction is queued on all of its local keys. */
  ghost predicate Valid(queues: Queues, txns: map<nat, HeldTxn>)
  {
    QueuesOk(queues, txns) &&
    (forall x :: x in Queued(queues) ==> x in txns && QueuedOnAll(queues, x, txns[x].keys))
  }

  predicate QueuesOk(queues: Queues, txns: map<nat, HeldTxn>)
  {
    forall k :: k in queues ==> QueueOk(k, queues[k], txns)
  }

  /** The counter check of every queued transaction succeeds. */
  ghost predicate Checkable(queues: Queues, txns: map<nat, HeldTxn>, storage: Storage)
  {
    forall x :: x in Queued(queues) ==> x in txns && CheckCounters(txns[x], storage).Ok?
  }

  function Elems(s: seq<nat>): set<nat>
  {
    set i | 0 <= i < |s| :: s[i]
  }

  predicate Distinct(s: seq<nat>)
  {
    forall i, j :: 0 <= i < j < |s| ==> s[i] != s[j]
  }

  function Join(a: RemasterOccurredResult, b: RemasterOccurredResult): RemasterOccurredResult
  {
    RemasterOccurredResult(a.unblocked + b.unblocked, a.shouldAbort + b.shouldAbort)
  }

  const NoneUnblocked := RemasterOccurredResult([], [])

  /** From the transactions `before`, those no longer queued in `after`
    * are exactly the reported ones, each reported once: as unblocked when
    * its check is VALID, as to abort when it is ABORT. Nothing joins. */
  ghost predicate Reports(before: set<nat>, after: Queues, added: RemasterOccurredResult,
                          txns: map<nat, HeldTxn>, storage: Storage)
  {
    Queued(after) <= before &&
    Elems(added.unblocked) + Elems(added.shouldAbort) == before - Queued(after) &&
    Distinct(added.unblocked) && Distinct(added.shouldAbort) &&
    Elems(added.unblocked) !! Elems(added.shouldAbort) &&
    (forall i :: 0 <= i < |added.unblocked| ==>
      added.unblocked[i] in txns && CheckCounters(txns[added.unblocked[i]], storage) == Ok(VALID)) &&
    (forall i :: 0 <= i < |added.shouldAbort| ==>
      added.shouldAbort[i] in txns && CheckCounters(txns[added.shouldAbort[i]], storage) == Ok(ABORT))
  }

  lemma ElemsSmall(h: nat)
    ensures Elems([h]) == {h} && Elems([]) == {}
  {
    assert [h][0] == h;
  }

  lemma ElemsAppend(a: seq<nat>, b: seq<nat>)
    ensures Elems(a + b) == Elems(a) + Elems(b)
  {
    forall x | x in Elems(a) + Elems(b) ensures x in Elems(a + b) {
      if x in Elems(a) {
        var i :| 0 <= i < |a| && a[i] == x;
        assert (a + b)[i] == x;
      } else {
        var i :| 0 <= i < |b| && b[i] == x;
        assert (a + b)[|a| + i] == x;
      }
    }
  }

  lemma DistinctAppend(a: seq<nat>, b: seq<nat>)
    requires Distinct(a) && Distinct(b) && Elems(a) !! Elems(b)
    ensures Distinct(a + b)
  {
    forall i, j | 0 <= i < j < |a + b| ensures (a + b)[i] != (a + b)[j] {
      if i < |a| && j >= |a| {
        assert (a + b)[i] in Elems(a);
        assert (a + b)[j] == b[j - |a|];
        assert (a + b)[j] in Elems(b);
      }
    }
  }

  /** Two reports in a row make one. */
  lemma ReportsJoin(before: set<nat>, mid: Queues, after: Queues, a: RemasterOccurredResult,
                    b: RemasterOccurredResult, txns: map<nat, HeldTxn>, storage: Storage)
    requires Reports(before, mid, a, txns, storage) && Reports(Queued(mid), after, b, txns, storage)
    ensures Reports(before, after, Join(a, b), txns, storage)
  {
    ElemsAppend(a.unblocked, b.unblocked);
    ElemsAppend(a.shouldAbort, b.shouldAbort);
    DistinctAppend(a.unblocked, b.unblocked);
    DistinctAppend(a.shouldAbort, b.shouldAbort);
    var j := Join(a, b);
    forall i | 0 <= i < |j.unblocked|
      ensures j.unblocked[i] in txns && CheckCounters(txns[j.unblocked[i]], storage) == Ok(VALID)
    {
      if i >= |a.unblocked| { assert j.unblocked[i] == b.unblocked[i - |a.unblocked|]; }
    }
    forall i | 0 <= i < |j.shouldAbort|
      ensures j.shouldAbort[i] in txns && CheckCounters(txns[j.shouldAbort[i]], storage) == Ok(ABORT)
    {
      if i >= |a.shouldAbort| { assert j.shouldAbort[i] == b.shouldAbort[i - |a.shouldAbort|]; }
    }
  }

  /** A queue without the first entry of the transaction. */
  function Without(q: seq<Blocked>, id: nat): seq<Blocked>
  {
    if q == [] then []
    else if q[0].id == id then q[1..]
    else [q[0]] + Without(q[1..], id)
  }

  /** Without takes out the entry at index i, the transaction's first. */
  predicate RemovedAt(q: seq<Blocked>, id: nat, i: nat)
  {
    i < |q| && q[i].id == id && Without(q, id) == q[..i] + q[i + 1..]
  }

  /** Without leaves a queue without the transaction unchanged, and
    * otherwise takes out one entry of it. */
  lemma {:induction false} WithoutIsRemoval(q: seq<Blocked>, id: nat)
    ensures id !in IdsOf(q) ==> Without(q, id) == q
    ensures id in IdsOf(q) ==> exists i :: RemovedAt(q, id, i)
  {
    if id in IdsOf(q) {
      WithoutPresent(q, id);
    } else {
      WithoutAbsent(q, id);
    }
  }

  lemma {:induction false} WithoutAbsent(q: seq<Blocked>, id: nat)
    requires id !in IdsOf(q)
    ensures Without(q, id) == q
  {
    if q != [] {
      var t := q[1..];
      TailIds(q);
      WithoutAbsent(t, id);
      assert q[0].id != id;
      assert q == [q[0]] + t;
    }
  }

  lemma {:induction false} WithoutPresent(q: seq<Blocked>, id: nat)
    requires id in IdsOf(q)
    ensures exists i :: RemovedAt(q, id, i)
  {
    if q[0].id == id {
      assert RemovedAt(q, id, 0);
    } else {
      var t := q[1..];
      TailIds(q);
      WithoutPresent(t, id);
      var i: nat :| RemovedAt(t, id, i);
      RemovedAtCons(q, id, i);
    }
  }

  /** The ids of a queue are its first entry's and those of the rest. */
  lemma TailIds(q: seq<Blocked>)
    requires q != []
    ensures IdsOf(q) == {q[0].id} + IdsOf(q[1..])
  {
    var t := q[1..];
    forall x | x in IdsOf(q) ensures x in {q[0].id} + IdsOf(t) {
      var k :| 0 <= k < |q| && q[k].id == x;
      if k > 0 { assert t[k - 1] == q[k]; }
    }
    forall x | x in IdsOf(t) ensures x in IdsOf(q) {
      var k :| 0 <= k < |t| && t[k].id == x;
      assert q[k + 1] == t[k];
    }
  }

  lemma RemovedAtCons(q: seq<Blocked>, id: nat, i: nat)
    requires q != [] && q[0].id != id && RemovedAt(q[1..], id, i)
    ensures RemovedAt(q, id, i + 1)
  {
    var t := q[1..];
    assert Without(q, id) == [q[0]] + Without(t, id);
    assert q[..i + 1] == [q[0]] + t[..i];
    assert q[i + 2..] == t[i + 1..];
  }

  /** Removing the transaction keeps the queue's order and its other
    * entries, and takes one entry exactly when the transaction is there. */
  lemma WithoutProps(q: seq<Blocked>, id: nat)
    requires DistinctIds(q)
    ensures IdsOf(Without(q, id)) == IdsOf(q) - {id}
    ensures SortedByCounter(q) ==> SortedByCounter(Without(q, id))
    ensures DistinctIds(Without(q, id))
    ensures forall e :: e in Without(q, id) ==> e in q
    ensures |Without(q, id)| == if id in IdsOf(q) then |q| - 1 else |q|
  {
    WithoutIsRemoval(q, id);
    if id in IdsOf(q) {
      var i: nat :| RemovedAt(q, id, i);
      RemovalProps(q, i);
    }
  }

  /** The queue without the entry at index i keeps the order and the other
    * entries. */
  lemma RemovalProps(q: seq<Blocked>, i: nat)
    requires i < |q| && DistinctIds(q)
    ensures var r := q[..i] + q[i + 1..];
      IdsOf(r) == IdsOf(q) - {q[i].id} && DistinctIds(r) &&
      (SortedByCounter(q) ==> SortedByCounter(r)) &&
      (forall e :: e in r ==> e in q) && |r| == |q| - 1
  {
    var r := q[..i] + q[i + 1..];
    assert forall j :: 0 <= j < |r| ==> r[j] == if j < i then q[j] else q[j + 1];
    RemovalIds(q, i, r);
    assert DistinctIds(r) by {
      forall j, l | 0 <= j < l < |r| ensures r[j].id != r[l].id {
        var j' := if j < i then j else j + 1;
        var l' := if l < i then l else l + 1;
        assert r[j] == q[j'] && r[l] == q[l'] && j' < l';
      }
    }
    if SortedByCounter(q) {
      forall j, l | 0 <= j < l < |r| ensures r[j].counter <= r[l].counter {
        var j' := if j < i then j else j + 1;
        var l' := if l < i then l else l + 1;
        assert r[j] == q[j'] && r[l] == q[l'] && j' < l';
      }
    }
  }

  lemma RemovalIds(q: seq<Blocked>, i: nat, r: seq<Blocked>)
    requires i < |q| && DistinctIds(q) && |r| == |q| - 1
    requires forall j {:trigger r[j]} :: 0 <= j < |r| ==> r[j] == if j < i then q[j] else q[j + 1]
    ensures IdsOf(r) == IdsOf(q) - {q[i].id}
    ensures forall e :: e in r ==> e in q
  {
    forall x | x in IdsOf(q) - {q[i].id} ensures x in IdsOf(r) {
      var j :| 0 <= j < |q| && q[j].id == x;
      if j < i { assert r[j] == q[j]; } else { assert r[j - 1] == q[j]; }
    }
    forall x | x in IdsOf(r) ensures x in IdsOf(q) - {q[i].id} {
      var j :| 0 <= j < |r| && r[j].id == x;
      if j < i { assert q[j].id == x; } else { assert q[j + 1].id == x; }
    }
    forall e | e in r ensures e in q {
      var j :| 0 <= j < |r| && r[j] == e;
      if j < i { assert q[j] == e; } else { assert q[j + 1] == e; }
    }
  }

  /** The queues of the given keys without the transaction, an emptied
    * queue erased. */
  function Dropped(queues: Queues, ks: set<Key>, id: nat): Queues
  {
    map k | k in queues && (k !in ks || Without(queues[k], id) != []) ::
      if k in ks then Without(queues[k], id) else queues[k]
  }

  /** Each kept queue is the old one without the transaction. */
  lemma DroppedQueue(queues: Queues, ks: set<Key>, id: nat, k: Key)
    requires forall k' :: k' in queues ==> DistinctIds(queues[k'])
    requires k in Dropped(queues, ks, id)
    ensures k in queues
    ensures IdsOf(Dropped(queues, ks, id)[k]) == IdsOf(queues[k]) - (if k in ks then {id} else {})
    ensures |Dropped(queues, ks, id)[k]| <= |queues[k]|
  {
    WithoutProps(queues[k], id);
  }

  /** Dropping only removes entries. */
  lemma DroppedEntries(queues: Queues, ks: set<Key>, id: nat)
    requires forall k :: k in queues ==> DistinctIds(queues[k])
    ensures Entries(Dropped(queues, ks, id)) <= Entries(queues)
  {
    var d := Dropped(queues, ks, id);
    forall e | e in Entries(d) ensures e in Entries(queues) {
      var k, i :| k in d && 0 <= i < |d[k]| && e == (k, i);
      DroppedQueue(queues, ks, id, k);
    }
  }

  /** Dropping a transaction from a queue that holds it removes an entry. */
  lemma DroppedShrinks(queues: Queues, ks: set<Key>, id: nat, w: Key)
    requires forall k :: k in queues ==> DistinctIds(queues[k])
    requires w in ks && w in queues && id in IdsOf(queues[w])
    ensures Entries(Dropped(queues, ks, id)) < Entries(queues)
  {
    DroppedEntries(queues, ks, id);
    var d := Dropped(queues, ks, id);
    var last := (w, |queues[w]| - 1);
    assert last in Entries(queues);
    WithoutProps(queues[w], id);
    assert last !in Entries(d);
  }

  /** Dropping a queued transaction from the queues of its keys leaves every
    * other queued transaction queued and the dropped one nowhere. */
  lemma DroppedQueued(queues: Queues, txns: map<nat, HeldTxn>, id: nat)
    requires QueuesOk(queues, txns) && id in txns
    ensures Queued(Dropped(queues, KeysOf(txns[id].keys), id)) == Queued(queues) - {id}
  {
    DroppedQueuedLeaves(queues, txns, id);
    DroppedQueuedStays(queues, txns, id);
  }

  lemma DroppedQueuedLeaves(queues: Queues, txns: map<nat, HeldTxn>, id: nat)
    requires QueuesOk(queues, txns) && id in txns
    ensures Queued(Dropped(queues, KeysOf(txns[id].keys), id)) <= Queued(queues) - {id}
  {
    var ks := KeysOf(txns[id].keys);
    var d := Dropped(queues, ks, id);
    forall x | x in Queued(d) ensures x in Queued(queues) - {id} {
      var k :| k in d && x in IdsOf(d[k]);
      DroppedQueue(queues, ks, id, k);
    }
  }

  lemma DroppedQueuedStays(queues: Queues, txns: map<nat, HeldTxn>, id: nat)
    requires QueuesOk(queues, txns) && id in txns
    ensures Queued(queues) - {id} <= Queued(Dropped(queues, KeysOf(txns[id].keys), id))
  {
    var ks := KeysOf(txns[id].keys);
    var d := Dropped(queues, ks, id);
    forall x | x in Queued(queues) - {id} ensures x in Queued(d) {
      var k :| k in queues && x in IdsOf(queues[k]);
      DroppedKeeps(queues, ks, id, k, x);
    }
  }

  /** Another transaction of a queue stays in it. */
  lemma DroppedKeeps(queues: Queues, ks: set<Key>, id: nat, k: Key, x: nat)
    requires k in queues && DistinctIds(queues[k]) && x in IdsOf(queues[k]) && x != id
    ensures k in Dropped(queues, ks, id) && x in IdsOf(Dropped(queues, ks, id)[k])
  {
    WithoutProps(queues[k], id);
  }

  /** Dropping a transaction from the queues of its keys keeps the queues
    * valid. */
  lemma DroppedValid(queues: Queues, txns: map<nat, HeldTxn>, id: nat)
    requires Valid(queues, txns) && id in txns
    ensures Valid(Dropped(queues, KeysOf(txns[id].keys), id), txns)
  {
    var ks := KeysOf(txns[id].keys);
    var d := Dropped(queues, ks, id);
    DroppedQueued(queues, txns, id);
    forall k | k in d ensures QueueOk(k, d[k], txns) {
      WithoutProps(queues[k], id);
      forall i | 0 <= i < |d[k]| ensures EntryOk(k, d[k][i], txns) {
        assert d[k][i] in queues[k];
      }
    }
    forall x | x in Queued(d) ensures x in txns && QueuedOnAll(d, x, txns[x].keys) {
      assert x in Queued(queues) && x != id;
      forall j | 0 <= j < |txns[x].keys| ensures txns[x].keys[j].0 in d && x in IdsOf(d[txns[x].keys[j].0]) {
        var k := txns[x].keys[j].0;
        WithoutProps(queues[k], id);
        assert x in IdsOf(Without(queues[k], id));
      }
    }
  }

  /** Dropping from one more key of a set that did not hold it. */
  lemma DroppedStep(queues: Queues, ks: set<Key>, id: nat, k: Key)
    requires k !in ks
    ensures var d := Dropped(queues, ks, id);
      (k in d <==> k in queues) &&
      (k in d ==> d[k] == queues[k]) &&
      Dropped(queues, ks + {k}, id) ==
        if k in d then (if Without(d[k], id) == [] then d - {k} else d[k := Without(d[k], id)]) else d
  {
  }

  lemma DroppedNothing(queues: Queues, id: nat)
    ensures Dropped(queues, {}, id) == queues
  {
  }

  lemma KeysOfStep(keys: seq<(Key, LockMode)>, i: nat)
    requires i < |keys| && DistinctKeys(keys)
    ensures KeysOf(keys[..i + 1]) == KeysOf(keys[..i]) + {keys[i].0}
    ensures keys[i].0 !in KeysOf(keys[..i])
  {
    assert forall j :: 0 <= j < i ==> keys[..i + 1][j] == keys[..i][j];
    assert keys[..i + 1][i] == keys[i];
  }

  /** The scan of ReleaseTransaction over one queue: the first entry of the
    * transaction is erased. */
  method RemoveEntry(q: seq<Blocked>, id: nat) returns (q': seq<Blocked>)
    ensures q' == Without(q, id)
  {
    var i := 0;
    while i < |q|
      invariant 0 <= i <= |q|
      invariant Without(q, id) == q[..i] + Without(q[i..], id)
    {
      if q[i].id == id {
        assert q[i..][1..] == q[i + 1..];
        return q[..i] + q[i + 1..];
      }
      assert q[i..][1..] == q[i + 1..];
      assert q[..i + 1] == q[..i] + [q[i]];
      i := i + 1;
    }
    assert q[..i] == q;
    return q;
  }

  /** The first loop of ReleaseTransaction: the transaction leaves the
    * queue of each of its keys, and an emptied queue is erased. */
  method RemoveFromQueues(queues: Queues, keys: seq<(Key, LockMode)>, id: nat) returns (queues': Queues)
    requires DistinctKeys(keys)
    ensures queues' == Dropped(queues, KeysOf(keys), id)
  {
    queues' := queues;
    DroppedNothing(queues, id);
    assert KeysOf(keys[..0]) == {};
    var i := 0;
    while i < |keys|
      invariant 0 <= i <= |keys|
      invariant queues' == Dropped(queues, KeysOf(keys[..i]), id)
    {
      var key := keys[i].0;
      KeysOfStep(keys, i);
      DroppedStep(queues, KeysOf(keys[..i]), id, key);
      if key in queues' {
        var q := RemoveEntry(queues'[key], id);
        if q == [] {
          queues' := queues' - {key};
        } else {
          queues' := queues'[key := q];
        }
      }
      i := i + 1;
    }
    assert keys[..i] == keys;
  }

  /** The transaction is at the front of the queue of each of the keys. */
  predicate FrontsAll(queues: Queues, keys: seq<(Key, LockMode)>, id: nat)
  {
    forall j :: 0 <= j < |keys| ==> keys[j].0 in queues && queues[keys[j].0] != [] && queues[keys[j].0][0].id == id
  }

  /** The front test of TryToUnblock; every key has a queue, as its CHECK
    * demands. */
  method FrontsEvery(queues: Queues, keys: seq<(Key, LockMode)>, id: nat) returns (b: bool)
    requires forall j :: 0 <= j < |keys| ==> keys[j].0 in queues && queues[keys[j].0] != []
    ensures b <==> FrontsAll(queues, keys, id)
  {
    var i := 0;
    while i < |keys|
      invariant 0 <= i <= |keys|
      invariant forall j :: 0 <= j < i ==> queues[keys[j].0][0].id == id
    {
      if queues[keys[i].0][0].id != id {
        return false;
      }
      i := i + 1;
    }
    return true;
  }

  /** The garbage collection of TryToUnblock: the front of each key's queue,
    * this transaction's entry, is popped, and an emptied queue erased. */
  method PopFronts(queues: Queues, keys: seq<(Key, LockMode)>, ghost id: nat) returns (queues': Queues)
    requires DistinctKeys(keys) && FrontsAll(queues, keys, id)
    ensures queues' == Dropped(queues, KeysOf(keys), id)
  {
    queues' := queues;
    DroppedNothing(queues, id);
    assert KeysOf(keys[..0]) == {};
    var i := 0;
    while i < |keys|
      invariant 0 <= i <= |keys|
      invariant queues' == Dropped(queues, KeysOf(keys[..i]), id)
    {
      var key := keys[i].0;
      KeysOfStep(keys, i);
      DroppedStep(queues, KeysOf(keys[..i]), id, key);
      var q := queues'[key][1..];
      if q == [] {
        queues' := queues' - {key};
      } else {
        queues' := queues'[key := q];
      }
      i := i + 1;
    }
    assert keys[..i] == keys;
  }

  /** A transaction that leaves before the rest is reported first. */
  lemma ReportsFirst(before: set<nat>, h: nat, after: Queues, rest: RemasterOccurredResult,
                     v: VerifyMasterResult, txns: map<nat, HeldTxn>, storage: Storage)
    requires h in before && h in txns && CheckCounters(txns[h], storage) == Ok(v) && v != WAITING
    requires Reports(before - {h}, after, rest, txns, storage)
    ensures Reports(before, after, Join(First(h, v), rest), txns, storage)
  {
    var j := Join(First(h, v), rest);
    ElemsSmall(h);
    ElemsAppend(First(h, v).unblocked, rest.unblocked);
    ElemsAppend(First(h, v).shouldAbort, rest.shouldAbort);
    DistinctAppend(First(h, v).unblocked, rest.unblocked);
    DistinctAppend(First(h, v).shouldAbort, rest.shouldAbort);
    forall i | 0 <= i < |j.unblocked|
      ensures j.unblocked[i] in txns && CheckCounters(txns[j.unblocked[i]], storage) == Ok(VALID)
    {
      if i >= |First(h, v).unblocked| { assert j.unblocked[i] == rest.unblocked[i - |First(h, v).unblocked|]; }
    }
    forall i | 0 <= i < |j.shouldAbort|
      ensures j.shouldAbort[i] in txns && CheckCounters(txns[j.shouldAbort[i]], storage) == Ok(ABORT)
    {
      if i >= |First(h, v).shouldAbort| { assert j.shouldAbort[i] == rest.shouldAbort[i - |First(h, v).shouldAbort|]; }
    }
  }

  /** The report of one transaction leaving with a VALID or ABORT check. */
  function First(h: nat, v: VerifyMasterResult): RemasterOccurredResult
  {
    if v == VALID then RemasterOccurredResult([h], []) else RemasterOccurredResult([], [h])
  }

  /** What TryToUnblock does with the queue of the key: nothing without a
    * queue or when its front must still wait; a front whose check is ABORT
    * is reported first as to abort; a front whose check is VALID is
    * reported first as unblocked when it fronts the queues of all its keys,
    * and nothing happens otherwise. */
  ghost predicate FrontOutcome(queues: Queues, key: Key, queues': Queues, added: RemasterOccurredResult,
                               txns: map<nat, HeldTxn>, storage: Storage)
    requires Valid(queues, txns) && Checkable(queues, txns, storage)
  {
    if key !in queues then queues' == queues && added == NoneUnblocked
    else
      var head := queues[key][0].id;
      assert head in IdsOf(queues[key]);
      match CheckCounters(txns[head], storage).value
      case WAITING => queues' == queues && added == NoneUnblocked
      case ABORT => added.shouldAbort != [] && added.shouldAbort[0] == head
      case VALID =>
        if FrontsAll(queues, txns[head].keys, head) then added.unblocked != [] && added.unblocked[0] == head
        else queues' == queues && added == NoneUnblocked
  }

  /** TryToUnblock on the queue of the key; the cascade it starts reports
    * every transaction that leaves a queue. */
  method TryToUnblock(queues: Queues, key: Key, txns: map<nat, HeldTxn>, storage: Storage)
    returns (queues': Queues, added: RemasterOccurredResult)
    requires WellFormed(txns) && Valid(queues, txns) && Checkable(queues, txns, storage)
    ensures Valid(queues', txns) && Checkable(queues', txns, storage)
    ensures Entries(queues') <= Entries(queues)
    ensures Reports(Queued(queues), queues', added, txns, storage)
    ensures FrontOutcome(queues, key, queues', added, txns, storage)
    decreases Entries(queues), 1
  {
    if key !in queues {
      return queues, NoneUnblocked;
    }
    var head := queues[key][0].id;
    assert head in IdsOf(queues[key]);
    assert EntryOk(key, queues[key][0], txns);
    var keys := txns[head].keys;
    var verdict := CheckCounters(txns[head], storage).value;
    if verdict == WAITING {
      return queues, NoneUnblocked;
    }
    var rest;
    if verdict == ABORT {
      queues', rest := Release(queues, head, txns, storage);
    } else {
      var fronts := FrontsEvery(queues, keys, head);
      if !fronts {
        return queues, NoneUnblocked;
      }
      var popped := PopFronts(queues, keys, head);
      DroppedValid(queues, txns, head);
      DroppedQueued(queues, txns, head);
      DroppedShrinks(queues, KeysOf(keys), head, key);
      queues', rest := RetryKeys(popped, keys, txns, storage);
    }
    ReportsFirst(Queued(queues), head, queues', rest, verdict, txns, storage);
    added := Join(First(head, verdict), rest);
  }

  /** The retries of TryToUnblock and ReleaseTransaction on the queue of
    * each of the keys, in order. */
  method RetryKeys(queues: Queues, keys: seq<(Key, LockMode)>, txns: map<nat, HeldTxn>, storage: Storage)
    returns (queues': Queues, added: RemasterOccurredResult)
    requires WellFormed(txns) && Valid(queues, txns) && Checkable(queues, txns, storage)
    ensures Valid(queues', txns) && Checkable(queues', txns, storage)
    ensures Entries(queues') <= Entries(queues)
    ensures Reports(Queued(queues), queues', added, txns, storage)
    decreases Entries(queues), 2
  {
    queues', added := queues, NoneUnblocked;
    var i := 0;
    while i < |keys|
      invariant Valid(queues', txns) && Checkable(queues', txns, storage)
      invariant Entries(queues') <= Entries(queues)
      invariant Reports(Queued(queues), queues', added, txns, storage)
    {
      var next, more := TryToUnblock(queues', keys[i].0, txns, storage);
      ReportsJoin(Queued(queues), queues', next, added, more, txns, storage);
      queues', added := next, Join(added, more);
      i := i + 1;
    }
  }

  /** ReleaseTransaction: the transaction leaves the queues of its keys and
    * their fronts are retried. It is never among what is reported. */
  method Release(queues: Queues, id: nat, txns: map<nat, HeldTxn>, storage: Storage)
    returns (queues': Queues, added: RemasterOccurredResult)
    requires WellFormed(txns) && Valid(queues, txns) && Checkable(queues, txns, storage) && id in txns
    ensures Valid(queues', txns) && Checkable(queues', txns, storage)
    ensures Entries(queues') <= Entries(queues)
    ensures Reports(Queued(queues) - {id}, queues', added, txns, storage)
    ensures id !in Elems(added.unblocked) && id !in Elems(added.shouldAbort)
    decreases Entries(queues), if id in Queued(queues) then 0 else 3
  {
    var keys := txns[id].keys;
    var dropped := RemoveFromQueues(queues, keys, id);
    DroppedValid(queues, txns, id);
    DroppedQueued(queues, txns, id);
    DroppedEntries(queues, KeysOf(keys), id);
    if id in Queued(queues) {
      var w :| w in queues && id in IdsOf(queues[w]);
      var i :| 0 <= i < |queues[w]| && queues[w][i].id == id;
      assert EntryOk(w, queues[w][i], txns);
      DroppedShrinks(queues, KeysOf(keys), id, w);
    }
    queues', added := RetryKeys(dropped, keys, txns, storage);
  }

  /** Where a counter goes in a queue: after every entry with a counter no
    * larger, before the first with a larger one. */
  function InsertionPoint(q: seq<Blocked>, c: nat): (p: nat)
    ensures p <= |q|
    ensures forall j :: 0 <= j < p ==> q[j].counter <= c
    ensures p < |q| ==> q[p].counter > c
  {
    if q == [] || q[0].counter > c then 0 else 1 + InsertionPoint(q[1..], c)
  }

  function Inserted(q: seq<Blocked>, e: Blocked): seq<Blocked>
  {
    q[..InsertionPoint(q, e.counter)] + [e] + q[InsertionPoint(q, e.counter)..]
  }

  /** InsertIntoBlockedQueue: skips the entries whose counter is no larger,
    * then inserts. */
  method InsertIntoBlockedQueue(q: seq<Blocked>, e: Blocked) returns (q': seq<Blocked>)
    ensures q' == Inserted(q, e)
  {
    var i := 0;
    while i < |q| && q[i].counter <= e.counter
      invariant 0 <= i <= |q|
      invariant forall j :: 0 <= j < i ==> q[j].counter <= e.counter
    {
      i := i + 1;
    }
    q' := q[..i] + [e] + q[i..];
  }

  /** Insertion keeps a sorted queue sorted, puts the entry after the equal
    * counters already there, and adds it to the other entries. */
  lemma InsertedProps(q: seq<Blocked>, e: Blocked)
    requires SortedByCounter(q)
    ensures SortedByCounter(Inserted(q, e))
    ensures IdsOf(Inserted(q, e)) == IdsOf(q) + {e.id}
    ensures DistinctIds(q) && e.id !in IdsOf(q) ==> DistinctIds(Inserted(q, e))
    ensures forall x :: x in Inserted(q, e) ==> x == e || x in q
  {
    var p := InsertionPoint(q, e.counter);
    var r := Inserted(q, e);
    InsertedIndex(q, e, p, r);
    InsertedSorted(q, e, p, r);
    InsertedIds(q, e, p, r);
    InsertedAdds(q, e);
  }

  /** The entries of a queue with `e` placed at `p`, index by index. */
  lemma InsertedIndex(q: seq<Blocked>, e: Blocked, p: nat, r: seq<Blocked>)
    requires p <= |q| && r == q[..p] + [e] + q[p..]
    ensures |r| == |q| + 1
    ensures forall j {:trigger r[j]} :: 0 <= j < |r| ==> r[j] == if j < p then q[j] else if j == p then e else q[j - 1]
  {
  }

  /** Insertion adds the entry to the others. */
  lemma InsertedAdds(q: seq<Blocked>, e: Blocked)
    ensures multiset(Inserted(q, e)) == multiset(q) + multiset{e}
    ensures forall x :: x in Inserted(q, e) ==> x == e || x in q
  {
    var p := InsertionPoint(q, e.counter);
    assert q == q[..p] + q[p..];
  }

  lemma InsertedSorted(q: seq<Blocked>, e: Blocked, p: nat, r: seq<Blocked>)
    requires SortedByCounter(q) && p <= |q| && |r| == |q| + 1
    requires forall j :: 0 <= j < p ==> q[j].counter <= e.counter
    requires p < |q| ==> q[p].counter > e.counter
    requires forall j {:trigger r[j]} :: 0 <= j < |r| ==> r[j] == if j < p then q[j] else if j == p then e else q[j - 1]
    ensures SortedByCounter(r)
  {
    forall i, j | 0 <= i < j < |r| ensures r[i].counter <= r[j].counter {
      if j > p && i < p {
        assert r[i] == q[i] && r[j] == q[j - 1];
      } else if j > p && i == p {
        assert r[j] == q[j - 1];
        assert q[p].counter <= q[j - 1].counter;
      } else if j > p {
        assert r[i] == q[i - 1] && r[j] == q[j - 1];
      } else if j == p {
        assert r[i] == q[i];
      } else {
        assert r[i] == q[i] && r[j] == q[j];
      }
    }
  }

  lemma InsertedIds(q: seq<Blocked>, e: Blocked, p: nat, r: seq<Blocked>)
    requires p <= |q| && |r| == |q| + 1
    requires forall j {:trigger r[j]} :: 0 <= j < |r| ==> r[j] == if j < p then q[j] else if j == p then e else q[j - 1]
    ensures IdsOf(r) == IdsOf(q) + {e.id}
    ensures DistinctIds(q) && e.id !in IdsOf(q) ==> DistinctIds(r)
  {
    forall x | x in IdsOf(q) + {e.id} ensures x in IdsOf(r) {
      if x == e.id { assert r[p].id == x; }
      else {
        var j :| 0 <= j < |q| && q[j].id == x;
        if j < p { assert r[j] == q[j]; } else { assert r[j + 1] == q[j]; }
      }
    }
    forall x | x in IdsOf(r) ensures x in IdsOf(q) + {e.id} {
      var j :| 0 <= j < |r| && r[j].id == x;
      if j < p { assert q[j].id == x; } else if j > p { assert q[j - 1].id == x; }
    }
    if DistinctIds(q) && e.id !in IdsOf(q) {
      forall i, j | 0 <= i < j < |r| ensures r[i].id != r[j].id {
        if i == p {
          assert r[j] == q[j - 1];
          assert q[j - 1].id in IdsOf(q);
        } else if j == p {
          assert r[i] == q[i];
          assert q[i].id in IdsOf(q);
        } else {
          var i' := if i < p then i else i - 1;
          var j' := if j < p then j else j - 1;
          assert r[i] == q[i'] && r[j] == q[j'] && i' < j';
        }
      }
    }
  }

  /** The queues after the insertion of a transaction on each of its keys. */
  function Enqueued(queues: Queues, keys: seq<(Key, LockMode)>, id: nat, metadata: map<Key, Metadata>): Queues
    requires KeysOf(keys) <= metadata.Keys
  {
    map k | k in queues.Keys + KeysOf(keys) ::
      if k in KeysOf(keys) then Inserted(QueueOf(queues, k), Blocked(id, metadata[k].counter)) else queues[k]
  }

  /** The queue of a key: empty when there is none. */
  function QueueOf(queues: Queues, k: Key): seq<Blocked>
  {
    if k in queues then queues[k] else []
  }

  /** The second loop of VerifyMaster: the transaction is inserted in the
    * queue of each of its keys with its counter for that key. */
  method EnqueueOnKeys(queues: Queues, keys: seq<(Key, LockMode)>, id: nat, metadata: map<Key, Metadata>)
    returns (queues': Queues)
    requires DistinctKeys(keys) && KeysOf(keys) <= metadata.Keys
    ensures queues' == Enqueued(queues, keys, id, metadata)
  {
    queues' := queues;
    assert KeysOf(keys[..0]) == {};
    var i := 0;
    while i < |keys|
      invariant 0 <= i <= |keys|
      invariant queues' == Enqueued(queues, keys[..i], id, metadata)
    {
      var key := keys[i].0;
      KeysOfStep(keys, i);
      EnqueuedStep(queues, keys, i, id, metadata);
      var q := InsertIntoBlockedQueue(QueueOf(queues', key), Blocked(id, metadata[key].counter));
      queues' := queues'[key := q];
      i := i + 1;
    }
    assert keys[..i] == keys;
  }

  lemma EnqueuedStep(queues: Queues, keys: seq<(Key, LockMode)>, i: nat, id: nat, metadata: map<Key, Metadata>)
    requires i < |keys| && DistinctKeys(keys) && KeysOf(keys) <= metadata.Keys
    requires KeysOf(keys[..i + 1]) == KeysOf(keys[..i]) + {keys[i].0} && keys[i].0 !in KeysOf(keys[..i])
    ensures var before := Enqueued(queues, keys[..i], id, metadata);
      var k := keys[i].0;
      QueueOf(before, k) == QueueOf(queues, k) &&
      Enqueued(queues, keys[..i + 1], id, metadata) ==
        before[k := Inserted(QueueOf(before, k), Blocked(id, metadata[k].counter))]
  {
  }

  /** Each key's queue gains the transaction exactly when it is one of its
    * keys. */
  lemma EnqueuedQueue(queues: Queues, txns: map<nat, HeldTxn>, id: nat, k: Key)
    requires id in txns && KeysOf(txns[id].keys) <= txns[id].metadata.Keys
    requires k in queues ==> QueueOk(k, queues[k], txns)
    requires id !in IdsOf(QueueOf(queues, k))
    requires k in Enqueued(queues, txns[id].keys, id, txns[id].metadata)
    ensures var e := Enqueued(queues, txns[id].keys, id, txns[id].metadata);
      QueueOk(k, e[k], txns) &&
      IdsOf(e[k]) == IdsOf(QueueOf(queues, k)) + (if k in KeysOf(txns[id].keys) then {id} else {})
  {
    var md := txns[id].metadata;
    var e := Enqueued(queues, txns[id].keys, id, md);
    if k in KeysOf(txns[id].keys) {
      var q := QueueOf(queues, k);
      var b := Blocked(id, md[k].counter);
      assert e[k] == Inserted(q, b);
      InsertedProps(q, b);
      assert EntryOk(k, b, txns);
      forall x | x in e[k] ensures EntryOk(k, x, txns) {
        if x != b {
          var l :| 0 <= l < |q| && q[l] == x;
        }
      }
    }
  }

  /** Enqueuing a new transaction on all its keys keeps the queues valid. */
  lemma EnqueuedValid(queues: Queues, txns: map<nat, HeldTxn>, id: nat)
    requires Valid(queues, txns) && id in txns && id !in Queued(queues)
    requires KeysOf(txns[id].keys) <= txns[id].metadata.Keys
    ensures var e := Enqueued(queues, txns[id].keys, id, txns[id].metadata);
      Valid(e, txns) && Queued(e) == Queued(queues) + (if txns[id].keys == [] then {} else {id})
  {
    EnqueuedQueuesOk(queues, txns, id);
    EnqueuedQueuedIs(queues, txns, id);
    EnqueuedAllOnAll(queues, txns, id);
  }

  lemma EnqueuedQueuesOk(queues: Queues, txns: map<nat, HeldTxn>, id: nat)
    requires QueuesOk(queues, txns) && id in txns && id !in Queued(queues)
    requires KeysOf(txns[id].keys) <= txns[id].metadata.Keys
    ensures QueuesOk(Enqueued(queues, txns[id].keys, id, txns[id].metadata), txns)
  {
    var e := Enqueued(queues, txns[id].keys, id, txns[id].metadata);
    forall k | k in e ensures QueueOk(k, e[k], txns) {
      EnqueuedAt(queues, txns, id, k);
    }
  }

  lemma EnqueuedAllOnAll(queues: Queues, txns: map<nat, HeldTxn>, id: nat)
    requires Valid(queues, txns) && id in txns && id !in Queued(queues)
    requires KeysOf(txns[id].keys) <= txns[id].metadata.Keys
    ensures var e := Enqueued(queues, txns[id].keys, id, txns[id].metadata);
      Queued(e) == Queued(queues) + (if txns[id].keys == [] then {} else {id}) &&
      forall x :: x in Queued(e) ==> x in txns && QueuedOnAll(e, x, txns[x].keys)
  {
    var e := Enqueued(queues, txns[id].keys, id, txns[id].metadata);
    EnqueuedQueuedIs(queues, txns, id);
    forall x | x in Queued(e) ensures x in txns && QueuedOnAll(e, x, txns[x].keys) {
      EnqueuedOnAll(queues, txns, id, x);
    }
  }

  /** A transaction queued after the insertion is queued on all its keys. */
  lemma EnqueuedOnAll(queues: Queues, txns: map<nat, HeldTxn>, id: nat, x: nat)
    requires Valid(queues, txns) && id in txns && id !in Queued(queues)
    requires KeysOf(txns[id].keys) <= txns[id].metadata.Keys
    requires x == id || x in Queued(queues)
    ensures x in txns && QueuedOnAll(Enqueued(queues, txns[id].keys, id, txns[id].metadata), x, txns[x].keys)
  {
    var keys := txns[id].keys;
    var e := Enqueued(queues, keys, id, txns[id].metadata);
    forall j | 0 <= j < |txns[x].keys| ensures txns[x].keys[j].0 in e && x in IdsOf(e[txns[x].keys[j].0]) {
      var k := txns[x].keys[j].0;
      if x == id {
        assert k in KeysOf(keys);
      } else {
        assert QueuedOnAll(queues, x, txns[x].keys);
        assert k in queues && x in IdsOf(queues[k]);
      }
      EnqueuedAt(queues, txns, id, k);
    }
  }

  /** EnqueuedQueue at a key, from the invariant of the old queues. */
  lemma EnqueuedAt(queues: Queues, txns: map<nat, HeldTxn>, id: nat, k: Key)
    requires QueuesOk(queues, txns) && id in txns && id !in Queued(queues)
    requires KeysOf(txns[id].keys) <= txns[id].metadata.Keys
    requires k in Enqueued(queues, txns[id].keys, id, txns[id].metadata)
    ensures var e := Enqueued(queues, txns[id].keys, id, txns[id].metadata);
      QueueOk(k, e[k], txns) &&
      IdsOf(e[k]) == IdsOf(QueueOf(queues, k)) + (if k in KeysOf(txns[id].keys) then {id} else {})
  {
    EnqueuedQueue(queues, txns, id, k);
  }

  /** The enqueued transaction joins the queued ones. */
  lemma EnqueuedQueuedIs(queues: Queues, txns: map<nat, HeldTxn>, id: nat)
    requires QueuesOk(queues, txns) && id in txns && id !in Queued(queues)
    requires KeysOf(txns[id].keys) <= txns[id].metadata.Keys
    ensures Queued(Enqueued(queues, txns[id].keys, id, txns[id].metadata)) ==
      Queued(queues) + (if txns[id].keys == [] then {} else {id})
  {
    EnqueuedQueuedLeaves(queues, txns, id);
    EnqueuedQueuedStays(queues, txns, id);
  }

  lemma EnqueuedQueuedLeaves(queues: Queues, txns: map<nat, HeldTxn>, id: nat)
    requires QueuesOk(queues, txns) && id in txns && id !in Queued(queues)
    requires KeysOf(txns[id].keys) <= txns[id].metadata.Keys
    ensures Queued(Enqueued(queues, txns[id].keys, id, txns[id].metadata)) <=
      Queued(queues) + (if txns[id].keys == [] then {} else {id})
  {
    var keys := txns[id].keys;
    var e := Enqueued(queues, keys, id, txns[id].metadata);
    forall x | x in Queued(e) ensures x in Queued(queues) + (if keys == [] then {} else {id}) {
      var k :| k in e && x in IdsOf(e[k]);
      EnqueuedAt(queues, txns, id, k);
      if x != id {
        assert x in IdsOf(QueueOf(queues, k));
        assert k in queues;
      } else {
        assert k in KeysOf(keys);
      }
    }
  }

  lemma EnqueuedQueuedStays(queues: Queues, txns: map<nat, HeldTxn>, id: nat)
    requires QueuesOk(queues, txns) && id in txns && id !in Queued(queues)
    requires KeysOf(txns[id].keys) <= txns[id].metadata.Keys
    ensures Queued(queues) + (if txns[id].keys == [] then {} else {id}) <=
      Queued(Enqueued(queues, txns[id].keys, id, txns[id].metadata))
  {
    var keys := txns[id].keys;
    var e := Enqueued(queues, keys, id, txns[id].metadata);
    if keys != [] {
      assert keys[0].0 in KeysOf(keys);
      EnqueuedAt(queues, txns, id, keys[0].0);
      assert id in IdsOf(e[keys[0].0]);
    }
    forall x | x in Queued(queues) ensures x in Queued(e) {
      var k :| k in queues && x in IdsOf(queues[k]);
      EnqueuedAt(queues, txns, id, k);
      assert x in IdsOf(e[k]);
    }
  }

  /** Some key of the transaction has a queue whose front has a counter no
    * larger than the transaction's own for that key. */
  predicate BlockedBehind(queues: Queues, keys: seq<(Key, LockMode)>, metadata: map<Key, Metadata>)
  {
    exists j :: 0 <= j < |keys| && BlockedAt(queues, keys[j].0, metadata)
  }

  predicate BlockedAt(queues: Queues, k: Key, metadata: map<Key, Metadata>)
  {
    k in queues && queues[k] != [] && k in metadata && queues[k][0].counter <= metadata[k].counter
  }

  /** The first loop of VerifyMaster: is the transaction indirectly
    * blocked by a queue of one of its keys? */
  method IndirectlyBlocked(queues: Queues, keys: seq<(Key, LockMode)>, metadata: map<Key, Metadata>)
    returns (b: bool)
    requires forall k :: k in queues ==> queues[k] != []
    requires KeysOf(keys) <= metadata.Keys
    ensures b <==> BlockedBehind(queues, keys, metadata)
  {
    var i := 0;
    while i < |keys|
      invariant 0 <= i <= |keys|
      invariant forall j :: 0 <= j < i ==> !BlockedAt(queues, keys[j].0, metadata)
    {
      var key := keys[i].0;
      assert key in KeysOf(keys);
      if key in queues && queues[key][0].counter <= metadata[key].counter {
        assert BlockedAt(queues, keys[i].0, metadata);
        return true;
      }
      i := i + 1;
    }
    return false;
  }

  /** A transaction that is not blocked behind any queue has, on each of its
    * keys, a counter below that of every transaction queued there. */
  lemma NotBlockedGoesFirst(queues: Queues, txns: map<nat, HeldTxn>, keys: seq<(Key, LockMode)>,
                            metadata: map<Key, Metadata>)
    requires QueuesOk(queues, txns) && KeysOf(keys) <= metadata.Keys
    requires !BlockedBehind(queues, keys, metadata)
    ensures forall j, i :: 0 <= j < |keys| && keys[j].0 in queues && 0 <= i < |queues[keys[j].0]| ==>
      queues[keys[j].0][i].counter > metadata[keys[j].0].counter
  {
    forall j, i | 0 <= j < |keys| && keys[j].0 in queues && 0 <= i < |queues[keys[j].0]|
      ensures queues[keys[j].0][i].counter > metadata[keys[j].0].counter
    {
      var k := keys[j].0;
      assert k in KeysOf(keys);
      assert !BlockedAt(queues, k, metadata);
      assert QueueOk(k, queues[k], txns);
      if i > 0 { assert queues[k][0].counter <= queues[k][i].counter; }
    }
  }

  /** What VerifyMaster requires of the transaction: its check does not
    * fail, and a transaction it queues has metadata for each local key. */
  predicate Verifiable(txn: HeldTxn, storage: Storage)
  {
    txn.keys != [] && txn.metadata != map[] ==>
      CheckCounters(txn, storage).Ok? &&
      (CheckCounters(txn, storage) == Ok(WAITING) ==> KeysOf(txn.keys) <= txn.metadata.Keys)
  }

  /** A transaction whose counters all agree with storage has metadata for
    * each of its local keys. */
  lemma ValidCheckHasMetadata(txn: HeldTxn, storage: Storage)
    requires txn.keys != [] && txn.metadata != map[] && CheckCounters(txn, storage) == Ok(VALID)
    ensures KeysOf(txn.keys) <= txn.metadata.Keys
  {
    CheckKeysValid(txn.keys, txn.metadata, storage);
    forall k | k in KeysOf(txn.keys) ensures k in txn.metadata {
      var j :| 0 <= j < |txn.keys| && txn.keys[j].0 == k;
      assert KeyAgrees(txn.keys[j].0, txn.metadata, storage);
    }
  }

  /** The blocked transactions of each local key. */
  class PerKeyRemasterManager {
    var blockedQueue: Queues

    constructor ()
      ensures blockedQueue == map[]
    {
      blockedQueue := map[];
    }

    /** VerifyMaster. Without local keys or metadata the transaction is
      * VALID and not queued; an ABORT check is returned as is; a VALID
      * check stays VALID unless a queue of one of its keys blocks it;
      * otherwise the transaction is queued on all its keys as WAITING. */
    method VerifyMaster(id: nat, txns: map<nat, HeldTxn>, storage: Storage) returns (r: VerifyMasterResult)
      requires WellFormed(txns) && Valid(blockedQueue, txns) && Checkable(blockedQueue, txns, storage)
      requires id in txns && id !in Queued(blockedQueue) && Verifiable(txns[id], storage)
      modifies this`blockedQueue
      ensures Valid(blockedQueue, txns) && Checkable(blockedQueue, txns, storage)
      ensures var txn := txns[id];
        if txn.keys == [] || txn.metadata == map[] then
          r == VALID && blockedQueue == old(blockedQueue)
        else if CheckCounters(txn, storage) == Ok(ABORT) then
          r == ABORT && blockedQueue == old(blockedQueue)
        else if CheckCounters(txn, storage) == Ok(VALID) && !BlockedBehind(old(blockedQueue), txn.keys, txn.metadata) then
          r == VALID && blockedQueue == old(blockedQueue)
        else
          r == WAITING && KeysOf(txn.keys) <= txn.metadata.Keys &&
          blockedQueue == Enqueued(old(blockedQueue), txn.keys, id, txn.metadata) &&
          Queued(blockedQueue) == Queued(old(blockedQueue)) + {id}
    {
      var txn := txns[id];
      if txn.keys == [] || txn.metadata == map[] {
        return VALID;
      }
      var check := CheckCounters(txn, storage).value;
      if check == ABORT {
        return ABORT;
      }
      if check == VALID {
        ValidCheckHasMetadata(txn, storage);
        var blocked := IndirectlyBlocked(blockedQueue, txn.keys, txn.metadata);
        if !blocked {
          return VALID;
        }
      }
      EnqueuedValid(blockedQueue, txns, id);
      blockedQueue := EnqueueOnKeys(blockedQueue, txn.keys, id, txn.metadata);
      return WAITING;
    }

    /** ReleaseTransaction: the transaction leaves its queues, and what the
      * retries of their fronts unblock or abort is returned; it is never
      * itself in the result. */
    method ReleaseTransaction(id: nat, txns: map<nat, HeldTxn>, storage: Storage) returns (result: RemasterOccurredResult)
      requires WellFormed(txns) && Valid(blockedQueue, txns) && Checkable(blockedQueue, txns, storage)
      requires id in txns
      modifies this
      ensures Valid(blockedQueue, txns) && Checkable(blockedQueue, txns, storage)
      ensures Reports(Queued(old(blockedQueue)) - {id}, blockedQueue, result, txns, storage)
      ensures id !in Elems(result.unblocked) && id !in Elems(result.shouldAbort)
    {
      blockedQueue, result := Release(blockedQueue, id, txns, storage);
    }

    /** RemasterOccured: nothing without a queue for the key, otherwise the
      * front of its queue is retried. The new counter is not read. */
    method RemasterOccured(key: Key, remasterCounter: nat, txns: map<nat, HeldTxn>, storage: Storage)
      returns (result: RemasterOccurredResult)
      requires WellFormed(txns) && Valid(blockedQueue, txns) && Checkable(blockedQueue, txns, storage)
      modifies this
      ensures Valid(blockedQueue, txns) && Checkable(blockedQueue, txns, storage)
      ensures Reports(Queued(old(blockedQueue)), blockedQueue, result, txns, storage)
      ensures FrontOutcome(old(blockedQueue), key, blockedQueue, result, txns, storage)
    {
      if key !in blockedQueue {
        return NoneUnblocked;
      }
      blockedQueue, result := TryToUnblock(blockedQueue, key, txns, storage);
    }
  }
}
