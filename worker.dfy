/** The worker of module/scheduler_components/worker.cpp: every transaction
  * the scheduler dispatches to it goes through the phases
  * READ_LOCAL_STORAGE, WAIT_REMOTE_READ, EXECUTE, COMMIT and FINISH, reading
  * and writing the partition's storage. */
module Workers {
  import opened Types
  import opened Wrappers
  import Configurations
  import ProtoUtils
  import Commands

  datatype Phase = READ_LOCAL_STORAGE | WAIT_REMOTE_READ | EXECUTE | COMMIT | FINISH

  /** What a worker request hands over of the scheduler's holder: the
    * transaction (possibly null), and its active and involved partitions. */
  datatype Dispatched = Dispatched(txn: Option<Transaction>, active: set<nat>, involved: set<nat>)

  /** TransactionState: the transaction a worker runs, the partitions of its
    * holder, the remote reads it still waits for (a uint32) and its phase. */
  datatype TxnState = TxnState(txn: Transaction, active: set<nat>, involved: set<nat>, waitingOn: nat, phase: Phase)

  datatype WorkerRequest =
    | ProcessWorker(holder: Dispatched)
    | RemoteReadIn(result: RemoteReadResult)
    | OtherRequest

  /** What a worker sends on its socket to the scheduler: an empty response
    * (alive), the id of a finished transaction, or a remote read result for
    * another partition's scheduler. The worker runs the very transaction
    * object of the scheduler's holder (it is handed over by address), so
    * when the scheduler reads the holder after `Done` it sees the
    * transaction as the worker left it; `Done` carries that transaction. */
  datatype Payload = EmptyResponse | Done(txnId: nat, txn: Transaction) | Reads(result: RemoteReadResult)

  /** A message and the machine it is forwarded to ("" for the local
    * scheduler itself). */
  datatype Outgoing = Outgoing(payload: Payload, forwardTo: string)

  datatype WorkerError =
    | InvalidRequest
    | NullTransaction
    | AlreadyDispatched(txnId: nat)
    | UnknownTxn(txnId: nat)
    | InvalidPhase(txnId: nat)
    | ProcedureNotSet(txnId: nat)
    | MissingMetadata(key: Key)
    | RemasterMissingKey(key: Key)
    | NoWriteKey(txnId: nat)

  /** `n - 1` on a uint32: 0 wraps to the largest value. */
  function Dec32(n: nat): (m: nat)
    requires n < UINT32_LIMIT
    ensures m < UINT32_LIMIT && (m + 1) % UINT32_LIMIT == n
  {
    if n == 0 then UINT32_LIMIT - 1 else n - 1
  }

  /** The number of remote reads a partition waits for: none for a passive
    * partition; for an active one, the number of involved partitions minus
    * one, computed on a size_t and stored in a uint32. */
  function WaitCount(local: nat, active: set<nat>, involved: set<nat>): (n: nat)
    ensures n < UINT32_LIMIT
    ensures local !in active ==> n == 0
    ensures local in active ==> (n + 1) % UINT32_LIMIT == |involved| % UINT32_LIMIT
  {
    if local !in active then 0
    else if |involved| == 0 then UINT32_LIMIT - 1
    else (|involved| - 1) % UINT32_LIMIT
  }

  /** An active partition that involves k >= 1 partitions, fewer than 2^32,
    * waits for a read from each of the other k - 1. */
  lemma ActiveWaitsForOthers(local: nat, active: set<nat>, involved: set<nat>)
    requires local in active && local in involved && |involved| < UINT32_LIMIT
    ensures WaitCount(local, active, involved) == |involved - {local}|
  {
  }

  // -------------------------------------------------------------------------
  // Arrival: the non-local keys leave the read and write sets.

  /** The entries of `m` whose key is stored in the local partition. */
  function LocalPart(config: Configurations.Configuration, m: map<Key, Value>): (r: map<Key, Value>)
    requires config.config.numPartitions >= 1
  {
    map k | k in m && config.IsLocalKey(k) :: m[k]
  }

  /** The erase-while-iterating loop of ProcessWorkerRequest on one map. */
  method KeepLocal(config: Configurations.Configuration, m: map<Key, Value>) returns (r: map<Key, Value>)
    requires config.config.numPartitions >= 1
    ensures r == LocalPart(config, m)
  {
    r := m;
    var rest := m.Keys;
    while rest != {}
      invariant rest <= m.Keys
      invariant forall k :: k in r <==> k in m && (k in rest || config.IsLocalKey(k))
      invariant forall k :: k in r ==> r[k] == m[k]
      decreases |rest|
    {
      var k :| k in rest;
      var local := config.KeyIsInLocalPartition(k);
      if !local {
        r := r - {k};
      }
      rest := rest - {k};
    }
    assert r.Keys == LocalPart(config, m).Keys;
  }

  /** LocalPart keeps exactly the local keys with their values. */
  lemma LocalPartKeeps(config: Configurations.Configuration, m: map<Key, Value>, k: Key)
    requires config.config.numPartitions >= 1
    ensures k in LocalPart(config, m) <==> k in m && config.IsLocalKey(k)
    ensures k in LocalPart(config, m) ==> LocalPart(config, m)[k] == m[k]
  {
  }

  // -------------------------------------------------------------------------
  // ReadLocalStorage.

  /** Some key of the transaction's master metadata is stored with another
    * master: the transaction must abort. */
  predicate StaleMaster(storage: Storage, metadata: map<Key, Metadata>)
  {
    exists k :: k in metadata && k in storage && storage[k].metadata.master != metadata[k].master
  }

  /** The loop over the master metadata, which stops at the first stale key. */
  method CheckMasters(storage: Storage, metadata: map<Key, Metadata>) returns (abort: bool)
    ensures abort <==> StaleMaster(storage, metadata)
  {
    abort := false;
    var rest := metadata.Keys;
    while rest != {}
      invariant rest <= metadata.Keys
      invariant forall k :: k in metadata && k !in rest && k in storage ==> storage[k].metadata.master == metadata[k].master
      decreases |rest|
    {
      var k :| k in rest;
      if k in storage && storage[k].metadata.master != metadata[k].master {
        abort := true;
        return;
      }
      rest := rest - {k};
    }
  }

  /** What Storage::Read leaves in a default record: the stored value, or the
    * empty string for a missing key. */
  function StoredValue(storage: Storage, k: Key): Value
  {
    if k in storage then storage[k].value else ""
  }

  /** The keys of `m` with the values they have in storage. */
  function Filled(storage: Storage, m: map<Key, Value>): (r: map<Key, Value>)
  {
    map k | k in m :: StoredValue(storage, k)
  }

  /** The loop that overwrites each value of a read or write set with the
    * stored one. */
  method Fill(storage: Storage, m: map<Key, Value>) returns (r: map<Key, Value>)
    ensures r == Filled(storage, m)
  {
    r := m;
    var rest := m.Keys;
    while rest != {}
      invariant rest <= m.Keys && r.Keys == m.Keys
      invariant forall k :: k in r && k !in rest ==> r[k] == StoredValue(storage, k)
      decreases |rest|
    {
      var k :| k in rest;
      r := r[k := StoredValue(storage, k)];
      rest := rest - {k};
    }
  }

  /** A filled set holds the stored value of every one of its keys, and the
    * empty string for the keys not stored. */
  lemma FilledReadsStorage(storage: Storage, m: map<Key, Value>, k: Key)
    requires k in m
    ensures k in Filled(storage, m)
    ensures k in storage ==> Filled(storage, m)[k] == storage[k].value
    ensures k !in storage ==> Filled(storage, m)[k] == ""
  {
  }

  /** The same payload to the local scheduler of `replica` for each
    * partition of `order`, in that order. */
  function SendsTo(p: Payload, order: seq<nat>, replica: nat): (out: seq<Outgoing>)
    ensures |out| == |order|
    ensures forall i :: 0 <= i < |order| ==>
      out[i] == Outgoing(p, ProtoUtils.MakeMachineIdAsString(replica, order[i]))
  {
    if order == [] then []
    else [Outgoing(p, ProtoUtils.MakeMachineIdAsString(replica, order[0]))] + SendsTo(p, order[1..], replica)
  }

  /** `order` lists every element of `s` once. */
  ghost predicate ListsOnce(order: seq<nat>, s: set<nat>)
  {
    && (forall i, j :: 0 <= i < j < |order| ==> order[i] != order[j])
    && (forall x :: x in order <==> x in s)
  }

  /** The payload went to every partition of `dests` once, in some order. */
  ghost predicate Broadcast(sends: seq<Outgoing>, p: Payload, dests: set<nat>, replica: nat)
  {
    exists order :: ListsOnce(order, dests) && sends == SendsTo(p, order, replica)
  }

  /** A list without repetitions is as long as its set. */
  lemma {:induction false} ListsOnceLength(order: seq<nat>, s: set<nat>)
    requires ListsOnce(order, s)
    ensures |order| == |s|
    decreases |order|
  {
    if order != [] {
      var rest := order[1..];
      assert ListsOnce(rest, s - {order[0]}) by {
        forall x ensures x in rest <==> x in s - {order[0]} {
          if x in rest {
            var j :| 0 <= j < |rest| && rest[j] == x;
            assert order[j + 1] == x;
          }
          if x in s - {order[0]} {
            var j :| 0 <= j < |order| && order[j] == x;
            assert j != 0 && rest[j - 1] == x;
          }
        }
      }
      ListsOnceLength(rest, s - {order[0]});
    } else {
      assert forall x :: x !in s;
      assert s == {};
    }
  }

  /** A broadcast sends one message per destination, and every destination
    * gets the payload. */
  lemma BroadcastReachesEach(sends: seq<Outgoing>, p: Payload, dests: set<nat>, replica: nat)
    requires Broadcast(sends, p, dests, replica)
    ensures |sends| == |dests|
    ensures forall o :: o in sends ==> o.payload == p
    ensures forall d :: d in dests ==> Outgoing(p, ProtoUtils.MakeMachineIdAsString(replica, d)) in sends
  {
    var order :| ListsOnce(order, dests) && sends == SendsTo(p, order, replica);
    ListsOnceLength(order, dests);
    forall d | d in dests ensures Outgoing(p, ProtoUtils.MakeMachineIdAsString(replica, d)) in sends {
      var i :| 0 <= i < |order| && order[i] == d;
      assert sends[i] == Outgoing(p, ProtoUtils.MakeMachineIdAsString(replica, d));
    }
  }

  /** SendToOtherPartitions: the request to the scheduler of each partition
    * of `partitions` but the local one, all on the local replica, in the
    * iteration order of an unordered set. */
  method SendToOtherPartitions(p: Payload, partitions: set<nat>, replica: nat, local: nat) returns (sends: seq<Outgoing>)
    ensures Broadcast(sends, p, partitions - {local}, replica)
  {
    sends := [];
    ghost var order: seq<nat> := [];
    var rest := partitions;
    while rest != {}
      invariant rest <= partitions
      invariant ListsOnce(order, partitions - rest - {local})
      invariant sends == SendsTo(p, order, replica)
      decreases |rest|
    {
      var q :| q in rest;
      SendStep(order, partitions, rest, local, q);
      if q != local {
        sends := sends + [Outgoing(p, ProtoUtils.MakeMachineIdAsString(replica, q))];
        SendsToSnoc(p, order, q, replica);
        order := order + [q];
      }
      rest := rest - {q};
    }
  }

  /** One partition of the loop of SendToOtherPartitions. */
  lemma SendStep(order: seq<nat>, partitions: set<nat>, rest: set<nat>, local: nat, q: nat)
    requires ListsOnce(order, partitions - rest - {local}) && q in rest && rest <= partitions
    ensures q != local ==> ListsOnce(order + [q], partitions - (rest - {q}) - {local})
    ensures q == local ==> ListsOnce(order, partitions - (rest - {q}) - {local})
  {
    if q != local {
      ListsOnceAdd(order, partitions - rest - {local}, q);
      assert partitions - (rest - {q}) - {local} == partitions - rest - {local} + {q};
    } else {
      assert partitions - (rest - {q}) - {local} == partitions - rest - {local};
    }
  }

  lemma ListsOnceAdd(order: seq<nat>, s: set<nat>, q: nat)
    requires ListsOnce(order, s) && q !in s
    ensures ListsOnce(order + [q], s + {q})
  {
    var o := order + [q];
    forall x ensures x in o <==> x in s + {q} {
      if x in o {
        var j :| 0 <= j < |o| && o[j] == x;
        if j < |order| {
          assert order[j] == x;
        }
      }
      if x in s {
        var j :| 0 <= j < |order| && order[j] == x;
        assert o[j] == x;
      }
      if x == q {
        assert o[|order|] == q;
      }
    }
  }

  lemma {:induction false} SendsToSnoc(p: Payload, order: seq<nat>, q: nat, replica: nat)
    ensures SendsTo(p, order + [q], replica) == SendsTo(p, order, replica) + [Outgoing(p, ProtoUtils.MakeMachineIdAsString(replica, q))]
    decreases |order|
  {
    if order == [] {
      assert order + [q] == [q];
    } else {
      assert (order + [q])[0] == order[0] && (order + [q])[1..] == order[1..] + [q];
      SendsToSnoc(p, order[1..], q, replica);
    }
  }

  /** The transaction after ReadLocalStorage: ABORTED when a master is
    * stale, otherwise with its read and write values taken from storage. */
  function AfterLocalRead(storage: Storage, txn: Transaction): (t: Transaction)
    ensures t.id == txn.id && t.procedure == txn.procedure && t.metadata == txn.metadata
    ensures t.readSet.Keys == txn.readSet.Keys && t.writeSet.Keys == txn.writeSet.Keys
    ensures StaleMaster(storage, txn.metadata) ==> t == txn.(status := ABORTED)
    ensures !StaleMaster(storage, txn.metadata) ==> t.status == txn.status
    ensures !StaleMaster(storage, txn.metadata) ==>
      && (forall k :: k in t.readSet ==> t.readSet[k] == StoredValue(storage, k))
      && (forall k :: k in t.writeSet ==> t.writeSet[k] == StoredValue(storage, k))
  {
    if StaleMaster(storage, txn.metadata) then txn.(status := ABORTED)
    else txn.(readSet := Filled(storage, txn.readSet), writeSet := Filled(storage, txn.writeSet))
  }

  /** The remote read result a partition sends after its local read: the
    * abort flag, and the reads only when not aborting. */
  function LocalReadResult(txn: Transaction, local: nat, abort: bool): RemoteReadResult
  {
    RemoteReadResult(txn.id, local, abort, if abort then map[] else txn.readSet)
  }

  /** The state after ReadLocalStorage: the transaction after its local
    * read, waiting for its remote reads, or ready to EXECUTE when it awaits
    * none. */
  function LocalReadState(storage: Storage, st: TxnState, local: nat): (st': TxnState)
    ensures st'.txn.id == st.txn.id && st'.waitingOn < UINT32_LIMIT
    ensures st'.phase == WAIT_REMOTE_READ <==> st'.waitingOn > 0
    ensures st'.phase == WAIT_REMOTE_READ || st'.phase == EXECUTE
  {
    var w := WaitCount(local, st.active, st.involved);
    TxnState(AfterLocalRead(storage, st.txn), st.active, st.involved, w, if w == 0 then EXECUTE else WAIT_REMOTE_READ)
  }

  /** ReadLocalStorage on a state: the new state and the messages to the
    * other active partitions. */
  method ReadLocal(storage: Storage, st: TxnState, replica: nat, local: nat) returns (st': TxnState, sends: seq<Outgoing>)
    ensures st' == LocalReadState(storage, st, local)
    ensures Broadcast(sends, Reads(LocalReadResult(st'.txn, local, StaleMaster(storage, st.txn.metadata))),
                      st.active - {local}, replica)
    ensures forall o :: o in sends ==> o.payload.Reads?
  {
    var txn := st.txn;
    var abort := CheckMasters(storage, txn.metadata);
    if abort {
      txn := txn.(status := ABORTED);
    } else {
      var rs := Fill(storage, txn.readSet);
      var ws := Fill(storage, txn.writeSet);
      txn := txn.(readSet := rs, writeSet := ws);
    }
    var request := Reads(RemoteReadResult(txn.id, local, abort, if abort then map[] else txn.readSet));
    sends := SendToOtherPartitions(request, st.active, replica, local);
    var waiting := 0;
    if local in st.active {
      waiting := if |st.involved| == 0 then UINT32_LIMIT - 1 else (|st.involved| - 1) % UINT32_LIMIT;
    }
    st' := TxnState(txn, st.active, st.involved, waiting, if waiting == 0 then EXECUTE else WAIT_REMOTE_READ);
    BroadcastReachesEach(sends, request, st.active - {local}, replica);
  }

  // -------------------------------------------------------------------------
  // A remote read result.

  /** The transaction after a remote read result: ABORTED for an aborting
    * sender, otherwise with the sender's reads merged into the read set. */
  function AfterRemoteRead(txn: Transaction, res: RemoteReadResult): (t: Transaction)
    ensures t.id == txn.id && t.procedure == txn.procedure
    ensures res.willAbort ==> t == txn.(status := ABORTED)
    ensures !res.willAbort ==> t.status == txn.status && t.readSet.Keys == txn.readSet.Keys + res.readValues.Keys
    ensures !res.willAbort ==> forall k :: k in res.readValues ==> t.readSet[k] == res.readValues[k]
    ensures !res.willAbort ==> forall k :: k in txn.readSet && k !in res.readValues ==> t.readSet[k] == txn.readSet[k]
  {
    if res.willAbort then txn.(status := ABORTED) else txn.(readSet := txn.readSet + res.readValues)
  }

  // -------------------------------------------------------------------------
  // Execute.

  /** Execute on a transaction: the code runs unless the transaction is
    * already aborted, a remaster commits, and a transaction without a
    * procedure is fatal. */
  function Executed(txn: Transaction): (r: Result<Transaction, WorkerError>)
    ensures r.Err? <==> txn.procedure.NoProcedure?
    ensures r.Err? ==> r.error == ProcedureNotSet(txn.id)
    ensures r.Ok? ==> r.value.status == ABORTED || r.value.status == COMMITTED
    ensures r.Ok? ==> r.value.id == txn.id && r.value.procedure == txn.procedure && r.value.metadata == txn.metadata
    ensures txn.status == ABORTED && txn.procedure.Code? ==> r == Ok(txn)
    ensures txn.procedure.Remaster? ==> r == Ok(txn.(status := COMMITTED))
  {
    match txn.procedure
    case Code(_) => Ok(if txn.status == ABORTED then txn else Commands.Executed(txn))
    case Remaster(_) => Ok(txn.(status := COMMITTED))
    case NoProcedure => Err(ProcedureNotSet(txn.id))
  }

  // -------------------------------------------------------------------------
  // Commit.

  /** Every local key the transaction writes that is not stored yet has
    * master metadata in the transaction (the CHECK in Commit). */
  predicate MetadataCovers(config: Configurations.Configuration, storage: Storage,
                           writes: map<Key, Value>, metadata: map<Key, Metadata>)
    requires config.config.numPartitions >= 1
  {
    forall k :: k in writes && config.IsLocalKey(k) && k !in storage ==> k in metadata
  }

  /** The storage after the writes of a committed code transaction: each
    * local written key takes its new value, keeps the metadata it has, and a
    * new key takes the transaction's metadata. */
  function Written(config: Configurations.Configuration, storage: Storage,
                   writes: map<Key, Value>, metadata: map<Key, Metadata>): (s: Storage)
    requires config.config.numPartitions >= 1
    requires MetadataCovers(config, storage, writes, metadata)
  {
    map k | k in storage.Keys + writes.Keys && (k in storage || config.IsLocalKey(k)) ::
      if k in writes && config.IsLocalKey(k)
      then Record(writes[k], if k in storage then storage[k].metadata else metadata[k])
      else storage[k]
  }

  /** The storage without the local keys of the delete set. */
  function Deleted(config: Configurations.Configuration, storage: Storage, deletes: seq<Key>): (s: Storage)
    requires config.config.numPartitions >= 1
  {
    map k | k in storage && !(k in deletes && config.IsLocalKey(k)) :: storage[k]
  }

  /** After a committed code transaction, a local written key that is not
    * deleted holds the new value; its metadata is the stored one, or the
    * transaction's for a new key; a deleted local key is gone; and a key of
    * another partition is untouched. */
  lemma CommitEffects(config: Configurations.Configuration, storage: Storage, txn: Transaction, k: Key)
    requires config.config.numPartitions >= 1
    requires MetadataCovers(config, storage, txn.writeSet, txn.metadata)
    ensures var s := Deleted(config, Written(config, storage, txn.writeSet, txn.metadata), txn.deleteSet);
      && (config.IsLocalKey(k) && k in txn.writeSet && k !in txn.deleteSet ==>
            k in s && s[k].value == txn.writeSet[k] &&
            s[k].metadata == (if k in storage then storage[k].metadata else txn.metadata[k]))
      && (config.IsLocalKey(k) && k in txn.deleteSet ==> k !in s)
      && (!config.IsLocalKey(k) ==> (k in s <==> k in storage) && (k in s ==> s[k] == storage[k]))
      && (config.IsLocalKey(k) && k !in txn.writeSet && k !in txn.deleteSet ==>
            (k in s <==> k in storage) && (k in s ==> s[k] == storage[k]))
  {
  }

  /** The value of one key after the writes of `done`. */
  function WrittenAt(config: Configurations.Configuration, storage: Storage, writes: map<Key, Value>,
                     metadata: map<Key, Metadata>, done: set<Key>, k: Key): Record
    requires config.config.numPartitions >= 1
    requires k in storage || (k in writes && k in done && config.IsLocalKey(k))
    requires k in writes && k in done && config.IsLocalKey(k) && k !in storage ==> k in metadata
  {
    if k in writes && k in done && config.IsLocalKey(k)
    then Record(writes[k], if k in storage then storage[k].metadata else metadata[k])
    else storage[k]
  }

  /** The storage after the writes of the keys in `done`, key by key. */
  ghost predicate WroteKeys(config: Configurations.Configuration, storage: Storage, writes: map<Key, Value>,
                            metadata: map<Key, Metadata>, done: set<Key>, s: Storage)
    requires config.config.numPartitions >= 1
  {
    forall k ::
      && (k in writes && k in done && config.IsLocalKey(k) && k !in storage ==> k in metadata)
      && (k in s <==> k in storage || (k in writes && k in done && config.IsLocalKey(k)))
      && (k in s ==> s[k] == WrittenAt(config, storage, writes, metadata, done, k))
  }

  lemma WroteAll(config: Configurations.Configuration, storage: Storage, writes: map<Key, Value>,
                 metadata: map<Key, Metadata>, s: Storage)
    requires config.config.numPartitions >= 1
    requires WroteKeys(config, storage, writes, metadata, writes.Keys, s)
    ensures MetadataCovers(config, storage, writes, metadata)
    ensures s == Written(config, storage, writes, metadata)
  {
    var w := Written(config, storage, writes, metadata);
    assert s.Keys == w.Keys;
    forall k | k in s ensures s[k] == w[k] {
      assert s[k] == WrittenAt(config, storage, writes, metadata, writes.Keys, k);
    }
  }

  /** One key of the loop over the write set. */
  lemma WroteOne(config: Configurations.Configuration, storage: Storage, writes: map<Key, Value>,
                 metadata: map<Key, Metadata>, done: set<Key>, s: Storage, k: Key, rec: Record)
    requires config.config.numPartitions >= 1
    requires WroteKeys(config, storage, writes, metadata, done, s)
    requires k in writes && k !in done && config.IsLocalKey(k) && (k in storage || k in metadata)
    requires rec == Record(writes[k], if k in storage then storage[k].metadata else metadata[k])
    ensures WroteKeys(config, storage, writes, metadata, done + {k}, s[k := rec])
  {
    var s' := s[k := rec];
    forall j | j in s' ensures s'[j] == WrittenAt(config, storage, writes, metadata, done + {k}, j) {
      if j != k {
        assert s'[j] == WrittenAt(config, storage, writes, metadata, done, j);
      }
    }
  }

  /** A key of another partition: nothing to write. */
  lemma SkippedOne(config: Configurations.Configuration, storage: Storage, writes: map<Key, Value>,
                   metadata: map<Key, Metadata>, done: set<Key>, s: Storage, k: Key)
    requires config.config.numPartitions >= 1
    requires WroteKeys(config, storage, writes, metadata, done, s)
    requires !config.IsLocalKey(k)
    ensures WroteKeys(config, storage, writes, metadata, done + {k}, s)
  {
    forall j | j in s ensures s[j] == WrittenAt(config, storage, writes, metadata, done + {k}, j) {
      assert s[j] == WrittenAt(config, storage, writes, metadata, done, j);
    }
  }

  /** One key of the loop over the write set: a local key is written, with
    * the stored metadata or, for a new key, the transaction's. */
  method WriteOne(config: Configurations.Configuration, storage: Storage, writes: map<Key, Value>,
                  metadata: map<Key, Metadata>, done: set<Key>, s: Storage, k: Key)
    returns (r: Result<Storage, WorkerError>)
    requires config.config.numPartitions >= 1
    requires WroteKeys(config, storage, writes, metadata, done, s)
    requires k in writes && k !in done
    ensures r.Ok? ==> WroteKeys(config, storage, writes, metadata, done + {k}, r.value)
    ensures r.Err? ==> r == Err(MissingMetadata(k)) && config.IsLocalKey(k) && k !in storage && k !in metadata
  {
    var local := config.KeyIsInLocalPartition(k);
    if !local {
      SkippedOne(config, storage, writes, metadata, done, s, k);
      return Ok(s);
    }
    var found := k in s;
    assert found <==> k in storage;
    if !found && k !in metadata {
      return Err(MissingMetadata(k));
    }
    var meta := if found then s[k].metadata else metadata[k];
    WroteOne(config, storage, writes, metadata, done, s, k, Record(writes[k], meta));
    r := Ok(s[k := Record(writes[k], meta)]);
  }

  /** The loop over the write set of Commit. It fails at a local key that is
    * neither stored nor in the metadata. */
  method WriteAll(config: Configurations.Configuration, storage: Storage,
                  writes: map<Key, Value>, metadata: map<Key, Metadata>) returns (r: Result<Storage, WorkerError>)
    requires config.config.numPartitions >= 1
    ensures r.Ok? <==> MetadataCovers(config, storage, writes, metadata)
    ensures r.Ok? ==> r.value == Written(config, storage, writes, metadata)
    ensures r.Err? ==> (r.error.MissingMetadata? &&
      var k := r.error.key; k in writes && config.IsLocalKey(k) && k !in storage && k !in metadata)
  {
    var s := storage;
    var rest := writes.Keys;
    while rest != {}
      invariant rest <= writes.Keys
      invariant WroteKeys(config, storage, writes, metadata, writes.Keys - rest, s)
      decreases |rest|
    {
      var k :| k in rest;
      assert writes.Keys - (rest - {k}) == (writes.Keys - rest) + {k};
      var step := WriteOne(config, storage, writes, metadata, writes.Keys - rest, s, k);
      if step.Err? {
        return step;
      }
      s := step.value;
      rest := rest - {k};
    }
    WroteAll(config, storage, writes, metadata, s);
    r := Ok(s);
  }

  /** The loop over the delete set of Commit. */
  method DeleteAll(config: Configurations.Configuration, storage: Storage, deletes: seq<Key>) returns (s: Storage)
    requires config.config.numPartitions >= 1
    ensures s == Deleted(config, storage, deletes)
  {
    s := storage;
    for i := 0 to |deletes|
      invariant forall k :: k in s <==> k in storage && !(k in deletes[..i] && config.IsLocalKey(k))
      invariant forall k :: k in s ==> s[k] == storage[k]
    {
      var local := config.KeyIsInLocalPartition(deletes[i]);
      if local {
        s := s - {deletes[i]};
      }
      assert deletes[..i + 1] == deletes[..i] + [deletes[i]];
    }
    assert deletes[..|deletes|] == deletes;
    assert s == Deleted(config, storage, deletes);
  }

  /** The storage after a remaster transaction that remasters `key`: a
    * local key gets the new master and the next counter (a uint32), and
    * keeps its value. */
  function Remastered(config: Configurations.Configuration, storage: Storage, txn: Transaction, key: Key): (r: Result<Storage, WorkerError>)
    requires config.config.numPartitions >= 1
    requires txn.procedure.Remaster?
    ensures !config.IsLocalKey(key) ==> r == Ok(storage)
    ensures config.IsLocalKey(key) && key !in txn.metadata ==> r == Err(MissingMetadata(key))
    ensures config.IsLocalKey(key) && key in txn.metadata && key !in storage ==> r == Err(RemasterMissingKey(key))
    ensures r.Err? ==> r.error.MissingMetadata? || r.error.RemasterMissingKey?
    ensures r.Ok? && config.IsLocalKey(key) ==>
      && r.value.Keys == storage.Keys
      && r.value[key].value == storage[key].value
      && r.value[key].metadata == Metadata(txn.procedure.newMaster, (txn.metadata[key].counter + 1) % UINT32_LIMIT)
      && (forall k :: k in storage && k != key ==> r.value[k] == storage[k])
  {
    if !config.IsLocalKey(key) then Ok(storage)
    else if key !in txn.metadata then Err(MissingMetadata(key))
    else if key !in storage then Err(RemasterMissingKey(key))
    else
      var counter := (txn.metadata[key].counter + 1) % UINT32_LIMIT;
      Ok(storage[key := Record(storage[key].value, Metadata(txn.procedure.newMaster, counter))])
  }

  /** Commit on a state, for the storage `storage`: the result the
    * transaction's procedure calls for. A remaster takes the first key of
    * its write set (an arbitrary one: the set is unordered), passed as
    * `key`. */
  ghost predicate CommitsAs(config: Configurations.Configuration, storage: Storage, txn: Transaction,
                            r: Result<Storage, WorkerError>)
    requires config.config.numPartitions >= 1
  {
    match txn.procedure
    case Code(_) =>
      if txn.status != COMMITTED then r == Ok(storage)
      else if MetadataCovers(config, storage, txn.writeSet, txn.metadata)
      then r == Ok(Deleted(config, Written(config, storage, txn.writeSet, txn.metadata), txn.deleteSet))
      else r.Err? && r.error.MissingMetadata? && r.error.key in txn.writeSet && config.IsLocalKey(r.error.key)
    case Remaster(_) =>
      if txn.writeSet == map[] then r == Err(NoWriteKey(txn.id))
      else exists key :: key in txn.writeSet && r == Remastered(config, storage, txn, key)
    case NoProcedure => r == Err(ProcedureNotSet(txn.id))
  }

  /** An aborted code transaction leaves the storage as it is. */
  lemma AbortedWritesNothing(config: Configurations.Configuration, storage: Storage, txn: Transaction, r: Result<Storage, WorkerError>)
    requires config.config.numPartitions >= 1
    requires txn.procedure.Code? && txn.status == ABORTED
    requires CommitsAs(config, storage, txn, r)
    ensures r == Ok(storage)
  {
  }

  /** Commit on the storage. */
  method CommitStorage(config: Configurations.Configuration, storage: Storage, txn: Transaction) returns (r: Result<Storage, WorkerError>)
    requires config.config.numPartitions >= 1
    ensures CommitsAs(config, storage, txn, r)
  {
    match txn.procedure
    case Code(_) =>
      if txn.status != COMMITTED {
        return Ok(storage);
      }
      var written := WriteAll(config, storage, txn.writeSet, txn.metadata);
      if written.Err? {
        return Err(written.error);
      }
      var s := DeleteAll(config, written.value, txn.deleteSet);
      r := Ok(s);
    case Remaster(newMaster) =>
      if txn.writeSet == map[] {
        return Err(NoWriteKey(txn.id));
      }
      var key :| key in txn.writeSet;
      var local := config.KeyIsInLocalPartition(key);
      if !local {
        return Ok(storage);
      }
      if key !in txn.metadata {
        return Err(MissingMetadata(key));
      }
      var meta := txn.metadata[key];
      if key !in storage {
        return Err(RemasterMissingKey(key));
      }
      r := Ok(storage[key := Record(storage[key].value, Metadata(newMaster, (meta.counter + 1) % UINT32_LIMIT))]);
    case NoProcedure =>
      r := Err(ProcedureNotSet(txn.id));
  }

  // -------------------------------------------------------------------------
  // The worker.

  /** The fatal errors of the EXECUTE and COMMIT phases. */
  predicate PhaseError(e: WorkerError)
  {
    e.ProcedureNotSet? || e.MissingMetadata? || e.RemasterMissingKey? || e.NoWriteKey?
  }

  /** Commit fails only with a fatal error of its phase. */
  lemma CommitErrors(config: Configurations.Configuration, storage: Storage, txn: Transaction, r: Result<Storage, WorkerError>)
    requires config.config.numPartitions >= 1
    requires CommitsAs(config, storage, txn, r) && r.Err?
    ensures PhaseError(r.error)
  {
    if txn.procedure.Remaster? && txn.writeSet != map[] {
      var key :| key in txn.writeSet && r == Remastered(config, storage, txn, key);
    }
  }

  /** Commit of `t` on values: the transaction and the storage after it, or
    * the fatal error. */
  ghost predicate CommitsTo(config: Configurations.Configuration, storage: Storage, t: Transaction,
                            out: Result<(Transaction, Storage), WorkerError>)
    requires config.config.numPartitions >= 1
  {
    exists res :: CommitsAs(config, storage, t, res) &&
      out == (if res.Ok? then Ok((t, res.value)) else Err(res.error))
  }

  /** The phases from `st.phase` on, EXECUTE, COMMIT and FINISH, on values:
    * the transaction as the worker leaves it and the storage after the
    * commit, or the fatal error of the phase that failed. */
  ghost predicate RunsToEnd(config: Configurations.Configuration, storage: Storage, st: TxnState,
                            out: Result<(Transaction, Storage), WorkerError>)
    requires config.config.numPartitions >= 1
  {
    match st.phase
    case EXECUTE =>
      (match Executed(st.txn)
       case Err(e) => out == Err(e)
       case Ok(t) => CommitsTo(config, storage, t, out))
    case COMMIT => CommitsTo(config, storage, st.txn, out)
    case FINISH => out == Ok((st.txn, storage))
    case _ => false
  }

  /** A run whose EXECUTE fails. */
  lemma RunFailsAtExecute(config: Configurations.Configuration, storage: Storage, st: TxnState)
    requires config.config.numPartitions >= 1
    requires st.phase == EXECUTE && Executed(st.txn).Err?
    ensures RunsToEnd(config, storage, st, Err(Executed(st.txn).error))
  {
  }

  /** A run that reaches COMMIT with the transaction `t`, from EXECUTE or
    * from COMMIT itself. */
  lemma RunThroughCommit(config: Configurations.Configuration, storage: Storage, st: TxnState, t: Transaction,
                         res: Result<Storage, WorkerError>)
    requires config.config.numPartitions >= 1
    requires (st.phase == EXECUTE && Executed(st.txn) == Ok(t)) || (st.phase == COMMIT && st.txn == t)
    requires CommitsAs(config, storage, t, res)
    ensures RunsToEnd(config, storage, st, if res.Ok? then Ok((t, res.value)) else Err(res.error))
  {
    assert CommitsTo(config, storage, t, if res.Ok? then Ok((t, res.value)) else Err(res.error));
  }

  /** From EXECUTE, a committed code transaction whose new local keys all
    * have master metadata ends with its writes and deletes applied, and
    * with nothing else. */
  lemma RunsToEndCommitted(config: Configurations.Configuration, storage: Storage, st: TxnState,
                           out: Result<(Transaction, Storage), WorkerError>)
    requires config.config.numPartitions >= 1
    requires st.phase == EXECUTE && st.txn.procedure.Code?
    requires Executed(st.txn).Ok? && Executed(st.txn).value.status == COMMITTED
    requires MetadataCovers(config, storage, Executed(st.txn).value.writeSet, Executed(st.txn).value.metadata)
    ensures var t := Executed(st.txn).value;
      RunsToEnd(config, storage, st, out) <==>
        out == Ok((t, Deleted(config, Written(config, storage, t.writeSet, t.metadata), t.deleteSet)))
  {
    var t := Executed(st.txn).value;
    var s := Deleted(config, Written(config, storage, t.writeSet, t.metadata), t.deleteSet);
    if out == Ok((t, s)) {
      assert CommitsAs(config, storage, t, Ok(s));
    }
  }

  /** From EXECUTE, a code transaction that ends ABORTED (stale masters, an
    * aborting remote read or its own code) leaves the storage as it is. */
  lemma RunsToEndAborted(config: Configurations.Configuration, storage: Storage, st: TxnState,
                         out: Result<(Transaction, Storage), WorkerError>)
    requires config.config.numPartitions >= 1
    requires st.phase == EXECUTE && st.txn.procedure.Code?
    requires Executed(st.txn).Ok? && Executed(st.txn).value.status == ABORTED
    ensures RunsToEnd(config, storage, st, out) <==> out == Ok((Executed(st.txn).value, storage))
  {
    var t := Executed(st.txn).value;
    if out == Ok((t, storage)) {
      assert CommitsAs(config, storage, t, Ok(storage));
    }
  }

  /** A transaction without a procedure stops at EXECUTE. */
  lemma RunsToEndWithoutProcedure(config: Configurations.Configuration, storage: Storage, st: TxnState,
                                  out: Result<(Transaction, Storage), WorkerError>)
    requires config.config.numPartitions >= 1
    requires st.phase == EXECUTE && st.txn.procedure.NoProcedure?
    ensures RunsToEnd(config, storage, st, out) <==> out == Err(ProcedureNotSet(st.txn.id))
  {
  }

  /** A run that ends gives the transaction ABORTED or COMMITTED, with its
    * id kept; a run that fails fails with a fatal error of its phase. */
  lemma RunsToEndOutcome(config: Configurations.Configuration, storage: Storage, st: TxnState,
                         out: Result<(Transaction, Storage), WorkerError>)
    requires config.config.numPartitions >= 1
    requires st.phase == EXECUTE
    requires RunsToEnd(config, storage, st, out)
    ensures out.Ok? ==> out.value.0.id == st.txn.id && out.value.0.status in {ABORTED, COMMITTED}
    ensures out.Err? ==> PhaseError(out.error)
  {
    match Executed(st.txn)
    case Err(e) =>
    case Ok(t) =>
      var res :| CommitsAs(config, storage, t, res) &&
        out == (if res.Ok? then Ok((t, res.value)) else Err(res.error));
      if res.Err? {
        CommitErrors(config, storage, t, res);
      }
  }

  /** `outbox` ends with the FINISH response for `id` and grew past `n`. */
  predicate Finished(outbox: seq<Outgoing>, n: nat, id: nat)
  {
    && |outbox| > n
    && outbox[|outbox| - 1].payload.Done?
    && outbox[|outbox| - 1].payload.txnId == id
    && outbox[|outbox| - 1].forwardTo == ""
  }

  /** Messages that are all reads do not report the end of a
    * transaction. */
  lemma ReadsDoNotFinish(outbox: seq<Outgoing>, n: nat, id: nat)
    requires n <= |outbox| && forall o :: o in outbox[n..] ==> o.payload.Reads?
    ensures !Finished(outbox, n, id)
  {
    if |outbox| > n {
      assert outbox[|outbox| - 1] in outbox[n..];
    }
  }

  class Worker {
    const identity: string
    const config: Configurations.Configuration
    const commands: Commands.KeyValueCommands
    /** The partition's key/value store, shared with the other workers. */
    var storage: Storage
    var txnStates: map<nat, TxnState>
    /** What the worker sent on its socket to the scheduler, in order. */
    var outbox: seq<Outgoing>

    ghost predicate Valid()
      reads this
    {
      && config.config.numPartitions >= 1
      && forall id :: id in txnStates ==> txnStates[id].waitingOn < UINT32_LIMIT && txnStates[id].txn.id == id
    }

    /** Between two requests, every transaction the worker holds still waits
      * for at least one remote read. */
    ghost predicate Quiescent()
      reads this
    {
      forall id :: id in txnStates ==> txnStates[id].phase == WAIT_REMOTE_READ && txnStates[id].waitingOn > 0
    }

    constructor (identity: string, config: Configurations.Configuration, storage: Storage)
      requires config.config.numPartitions >= 1
      ensures Valid() && Quiescent()
      ensures this.identity == identity && this.config == config && this.storage == storage
      ensures txnStates == map[] && outbox == [] && fresh(commands)
    {
      this.identity := identity;
      this.config := config;
      this.storage := storage;
      txnStates := map[];
      outbox := [];
      commands := new Commands.KeyValueCommands();
    }

    /** SetUp: an empty response tells the scheduler the worker is alive. */
    method SetUp()
      modifies this`outbox
      ensures outbox == old(outbox) + [Outgoing(EmptyResponse, "")]
    {
      outbox := outbox + [Outgoing(EmptyResponse, "")];
    }

    /** ProcessWorkerRequest: the transaction loses its non-local read and
      * write keys and gets a state in READ_LOCAL_STORAGE; a transaction
      * already held is fatal. */
    method ProcessWorkerRequest(d: Dispatched) returns (r: Result<nat, WorkerError>)
      requires Valid()
      modifies this`txnStates
      ensures Valid()
      ensures d.txn.None? ==> r == Err(NullTransaction) && txnStates == old(txnStates)
      ensures d.txn.Some? && d.txn.value.id in old(txnStates) ==>
        r == Err(AlreadyDispatched(d.txn.value.id)) && txnStates == old(txnStates)
      ensures d.txn.Some? && d.txn.value.id !in old(txnStates) ==>
        var txn := d.txn.value;
        && r == Ok(txn.id)
        && txnStates == old(txnStates)[txn.id :=
             TxnState(txn.(readSet := LocalPart(config, txn.readSet), writeSet := LocalPart(config, txn.writeSet)),
                      d.active, d.involved, 0, READ_LOCAL_STORAGE)]
    {
      if d.txn.None? {
        return Err(NullTransaction);
      }
      var txn := d.txn.value;
      var rs := KeepLocal(config, txn.readSet);
      var ws := KeepLocal(config, txn.writeSet);
      if txn.id in txnStates {
        return Err(AlreadyDispatched(txn.id));
      }
      txnStates := txnStates[txn.id := TxnState(txn.(readSet := rs, writeSet := ws), d.active, d.involved, 0, READ_LOCAL_STORAGE)];
      r := Ok(txn.id);
    }

    /** ProcessRemoteReadResult: the read aborts or fills the transaction,
      * and the last awaited read moves it from WAIT_REMOTE_READ to EXECUTE.
      * A read for an unknown transaction, and a last read in another phase,
      * are fatal. */
    method ProcessRemoteReadResult(res: RemoteReadResult) returns (r: Result<nat, WorkerError>)
      requires Valid()
      modifies this`txnStates
      ensures Valid()
      ensures res.txnId !in old(txnStates) ==> r == Err(UnknownTxn(res.txnId)) && txnStates == old(txnStates)
      ensures res.txnId in old(txnStates) ==>
        var st := old(txnStates)[res.txnId];
        var w := Dec32(st.waitingOn);
        if w == 0 && st.phase != WAIT_REMOTE_READ then r == Err(InvalidPhase(res.txnId))
        else
          r == Ok(res.txnId) &&
          txnStates == old(txnStates)[res.txnId := st.(txn := AfterRemoteRead(st.txn, res), waitingOn := w,
                                                      phase := if w == 0 then EXECUTE else st.phase)]
    {
      if res.txnId !in txnStates {
        return Err(UnknownTxn(res.txnId));
      }
      var st := txnStates[res.txnId];
      var txn := st.txn;
      if res.willAbort {
        txn := txn.(status := ABORTED);
      } else {
        txn := txn.(readSet := txn.readSet + res.readValues);
      }
      var w := if st.waitingOn == 0 then UINT32_LIMIT - 1 else st.waitingOn - 1;
      var phase := st.phase;
      if w == 0 {
        if phase == WAIT_REMOTE_READ {
          phase := EXECUTE;
        } else {
          return Err(InvalidPhase(res.txnId));
        }
      }
      txnStates := txnStates[res.txnId := st.(txn := txn, waitingOn := w, phase := phase)];
      r := Ok(res.txnId);
    }

    /** ReadLocalStorage on the state of `id`. */
    method ReadLocalStorage(id: nat)
      requires Valid() && id in txnStates
      modifies this`txnStates, this`outbox
      ensures Valid() && id in txnStates
      ensures txnStates == old(txnStates)[id := LocalReadState(storage, old(txnStates)[id], config.GetLocalPartition())]
      ensures |outbox| >= |old(outbox)| && outbox[..|old(outbox)|] == old(outbox)
      ensures Broadcast(outbox[|old(outbox)|..],
                        Reads(LocalReadResult(txnStates[id].txn, config.GetLocalPartition(),
                                              StaleMaster(storage, old(txnStates)[id].txn.metadata))),
                        old(txnStates)[id].active - {config.GetLocalPartition()}, config.GetLocalReplica())
      ensures forall o :: o in outbox[|old(outbox)|..] ==> o.payload.Reads?
    {
      var st', sends := ReadLocal(storage, txnStates[id], config.GetLocalReplica(), config.GetLocalPartition());
      txnStates := txnStates[id := st'];
      outbox := outbox + sends;
      assert outbox[|old(outbox)|..] == sends;
    }

    /** Execute on the state of `id`: it moves to COMMIT. */
    method Execute(id: nat) returns (r: Result<(), WorkerError>)
      requires Valid() && id in txnStates
      modifies this`txnStates, commands
      ensures Valid()
      ensures var st := old(txnStates)[id];
        match Executed(st.txn)
        case Err(e) => r == Err(e) && txnStates == old(txnStates)
        case Ok(t) => r.Ok? && txnStates == old(txnStates)[id := st.(txn := t, phase := COMMIT)]
    {
      var st := txnStates[id];
      var txn := st.txn;
      match txn.procedure {
        case Code(_) =>
          if txn.status != ABORTED {
            txn := commands.Execute(txn);
          }
        case Remaster(_) =>
          txn := txn.(status := COMMITTED);
        case NoProcedure =>
          return Err(ProcedureNotSet(txn.id));
      }
      txnStates := txnStates[id := st.(txn := txn, phase := COMMIT)];
      r := Ok(());
    }

    /** Commit on the state of `id`: the storage changes as the procedure
      * calls for, and the state moves to FINISH. */
    method Commit(id: nat) returns (r: Result<(), WorkerError>, ghost res: Result<Storage, WorkerError>)
      requires Valid() && id in txnStates
      modifies this`txnStates, this`storage
      ensures Valid()
      ensures r.Err? ==> PhaseError(r.error)
      ensures var st := old(txnStates)[id];
        CommitsAs(config, old(storage), st.txn, res) &&
          match res
          case Err(e) => r == Err(e) && storage == old(storage) && txnStates == old(txnStates)
          case Ok(s) => r.Ok? && storage == s && txnStates == old(txnStates)[id := st.(phase := FINISH)]
    {
      var st := txnStates[id];
      var got := CommitStorage(config, storage, st.txn);
      res := got;
      if got.Err? {
        CommitErrors(config, storage, st.txn, got);
        return Err(got.error), res;
      }
      storage := got.value;
      txnStates := txnStates[id := st.(phase := FINISH)];
      r := Ok(());
    }

    /** Finish: the scheduler learns the transaction is done, and its state
      * is erased. */
    method Finish(id: nat)
      requires id in txnStates
      modifies this`txnStates, this`outbox
      ensures txnStates == old(txnStates) - {id}
      ensures outbox == old(outbox) + [Outgoing(Done(id, old(txnStates)[id].txn), "")]
    {
      outbox := outbox + [Outgoing(Done(id, txnStates[id].txn), "")];
      txnStates := txnStates - {id};
    }

    /** The state after the phases EXECUTE, COMMIT and FINISH of `st`, run
      * from the storage `s0`, the states `states0` and the outbox
      * `outbox0`: the run `RunsToEnd` gives either ended, with its storage,
      * the state of `id` erased and the scheduler told with the final
      * transaction, or failed, with the storage and the outbox as they
      * were and `id` still held. */
    ghost predicate AdvancedFrom(st: TxnState, s0: Storage, states0: map<nat, TxnState>, outbox0: seq<Outgoing>,
                                 id: nat, r: Result<(), WorkerError>)
      reads this
      requires config.config.numPartitions >= 1
    {
      exists out :: RunsToEnd(config, s0, st, out) &&
        (out.Ok? ==>
           && r.Ok? && storage == out.value.1 && txnStates == states0 - {id}
           && outbox == outbox0 + [Outgoing(Done(id, out.value.0), "")]) &&
        (out.Err? ==> r == Err(out.error) && storage == s0 && outbox == outbox0 && id in txnStates)
    }

    /** The state after the local read of `st0` and the phases after it,
      * from the storage `s0`, the states `states0` and the outbox
      * `outbox0`: the outbox `mid` adds to `outbox0` the local read's result
      * for each other active partition; then the transaction waits for its
      * remote reads with nothing else changed, or runs to the end as
      * AdvancedFrom says. */
    ghost predicate LocalReadOutcome(st0: TxnState, s0: Storage, states0: map<nat, TxnState>, outbox0: seq<Outgoing>,
                                     mid: seq<Outgoing>, id: nat, r: Result<(), WorkerError>)
      reads this
      requires config.config.numPartitions >= 1
    {
      var st := LocalReadState(s0, st0, config.GetLocalPartition());
      && |outbox0| <= |mid| && mid[..|outbox0|] == outbox0
      && Broadcast(mid[|outbox0|..],
                   Reads(LocalReadResult(st.txn, config.GetLocalPartition(), StaleMaster(s0, st0.txn.metadata))),
                   st0.active - {config.GetLocalPartition()}, config.GetLocalReplica())
      && (st.phase == WAIT_REMOTE_READ ==>
            r.Ok? && txnStates == states0[id := st] && storage == s0 && outbox == mid)
      && (st.phase != WAIT_REMOTE_READ ==> AdvancedFrom(st, s0, states0, mid, id, r))
    }

    /** AdvanceTransaction: the phases from the current one on, stopping
      * while remote reads are awaited. `mid` is the outbox after the local
      * read. */
    method AdvanceTransaction(id: nat) returns (r: Result<(), WorkerError>, ghost mid: seq<Outgoing>)
      requires Valid() && id in txnStates
      modifies this`txnStates, this`outbox, this`storage, commands
      ensures Valid()
      ensures txnStates - {id} == old(txnStates) - {id}
      ensures old(txnStates)[id].phase == WAIT_REMOTE_READ ==>
        r.Ok? && txnStates == old(txnStates) && storage == old(storage) && outbox == old(outbox)
      ensures old(txnStates)[id].phase in {EXECUTE, COMMIT, FINISH} ==>
        AdvancedFrom(old(txnStates)[id], old(storage), old(txnStates), old(outbox), id, r)
      ensures old(txnStates)[id].phase == READ_LOCAL_STORAGE ==>
        LocalReadOutcome(old(txnStates)[id], old(storage), old(txnStates), old(outbox), mid, id, r)
      ensures r.Ok? && old(txnStates)[id].phase == READ_LOCAL_STORAGE ==>
        (id in txnStates ==> txnStates[id].phase == WAIT_REMOTE_READ && txnStates[id].waitingOn > 0)
      ensures r.Ok? && old(txnStates)[id].phase != WAIT_REMOTE_READ ==>
        (id !in txnStates <==> Finished(outbox, |old(outbox)|, id))
      ensures r.Ok? && old(txnStates)[id].phase in {EXECUTE, COMMIT, FINISH} ==> id !in txnStates
      ensures r.Err? ==> PhaseError(r.error)
    {
      r := Ok(());
      ghost var n := |outbox|;
      if txnStates[id].phase == READ_LOCAL_STORAGE {
        ReadLocalStorage(id);
        ReadsDoNotFinish(outbox, n, id);
      }
      mid := outbox;
      if txnStates[id].phase == WAIT_REMOTE_READ {
        return;
      }
      r := AdvanceFromExecute(id);
    }

    /** The phases EXECUTE, COMMIT and FINISH of AdvanceTransaction. */
    method AdvanceFromExecute(id: nat) returns (r: Result<(), WorkerError>)
      requires Valid() && id in txnStates && txnStates[id].phase in {EXECUTE, COMMIT, FINISH}
      modifies this`txnStates, this`outbox, this`storage, commands
      ensures Valid()
      ensures txnStates - {id} == old(txnStates) - {id}
      ensures AdvancedFrom(old(txnStates)[id], old(storage), old(txnStates), old(outbox), id, r)
      ensures r.Ok? ==> id !in txnStates && Finished(outbox, |old(outbox)|, id)
      ensures r.Err? ==> id in txnStates && outbox == old(outbox) && PhaseError(r.error)
    {
      ghost var st0 := txnStates[id];
      ghost var s0 := storage;
      if txnStates[id].phase == EXECUTE {
        r := Execute(id);
        if r.Err? {
          RunFailsAtExecute(config, s0, st0);
          Ended(st0, s0, old(txnStates), old(outbox), id, r, Err(r.error));
          return;
        }
      }
      assert txnStates - {id} == old(txnStates) - {id};
      r := CommitAndFinish(id, st0, s0, old(txnStates));
    }

    /** The phases COMMIT and FINISH of AdvanceFromExecute, from the state
      * that `st0` has on entry to COMMIT or FINISH. */
    method CommitAndFinish(id: nat, ghost st0: TxnState, ghost s0: Storage, ghost states0: map<nat, TxnState>)
      returns (r: Result<(), WorkerError>)
      requires Valid() && id in txnStates && Committing(st0, txnStates[id])
      requires storage == s0 && txnStates - {id} == states0 - {id}
      modifies this`txnStates, this`outbox, this`storage
      ensures Valid()
      ensures txnStates - {id} == old(txnStates) - {id}
      ensures AdvancedFrom(st0, s0, states0, old(outbox), id, r)
      ensures r.Ok? ==> id !in txnStates && Finished(outbox, |old(outbox)|, id)
      ensures r.Err? ==> id in txnStates && outbox == old(outbox) && PhaseError(r.error)
    {
      ghost var st1 := txnStates[id];
      ghost var out: Result<(Transaction, Storage), WorkerError> := Ok((st1.txn, s0));
      if txnStates[id].phase == COMMIT {
        ghost var res;
        r, res := Commit(id);
        RunThroughCommit(config, s0, st0, st1.txn, res);
        out := if res.Ok? then Ok((st1.txn, res.value)) else Err(res.error);
        if r.Err? {
          Ended(st0, s0, states0, old(outbox), id, r, out);
          return;
        }
      }
      Finish(id);
      r := Ok(());
      assert txnStates == states0 - {id};
      Ended(st0, s0, states0, old(outbox), id, r, out);
    }

    /** AdvancedFrom reads the states before only through the other
      * transactions' states. */
    lemma AdvancedFromOthers(st: TxnState, s0: Storage, a: map<nat, TxnState>, b: map<nat, TxnState>,
                             outbox0: seq<Outgoing>, id: nat, r: Result<(), WorkerError>)
      requires config.config.numPartitions >= 1
      requires a - {id} == b - {id}
      requires AdvancedFrom(st, s0, a, outbox0, id, r)
      ensures AdvancedFrom(st, s0, b, outbox0, id, r)
    {
      var out :| RunsToEnd(config, s0, st, out) &&
        (out.Ok? ==>
           && r.Ok? && storage == out.value.1 && txnStates == a - {id}
           && outbox == outbox0 + [Outgoing(Done(id, out.value.0), "")]) &&
        (out.Err? ==> r == Err(out.error) && storage == s0 && outbox == outbox0 && id in txnStates);
      Ended(st, s0, b, outbox0, id, r, out);
    }

    /** LocalReadOutcome reads the states before only through the other
      * transactions' states. */
    lemma LocalReadOutcomeOthers(st0: TxnState, s0: Storage, a: map<nat, TxnState>, b: map<nat, TxnState>,
                                 outbox0: seq<Outgoing>, mid: seq<Outgoing>, id: nat, r: Result<(), WorkerError>)
      requires config.config.numPartitions >= 1
      requires a - {id} == b - {id}
      requires LocalReadOutcome(st0, s0, a, outbox0, mid, id, r)
      ensures LocalReadOutcome(st0, s0, b, outbox0, mid, id, r)
    {
      var st := LocalReadState(s0, st0, config.GetLocalPartition());
      if st.phase != WAIT_REMOTE_READ {
        AdvancedFromOthers(st, s0, a, b, mid, id, r);
      } else {
        var pa, pb := a[id := st], b[id := st];
        forall j ensures j in pa <==> j in pb {
          if j != id {
            assert j in a - {id} <==> j in b - {id};
          }
        }
        forall j | j in pa ensures pa[j] == pb[j] {
          if j != id {
            assert (a - {id})[j] == (b - {id})[j];
          }
        }
        assert pa == pb;
      }
    }

    /** `st1` is the state of `st0` on entry to COMMIT or FINISH, after
      * EXECUTE if `st0` was in that phase. */
    ghost predicate Committing(st0: TxnState, st1: TxnState)
    {
      && st1.phase in {COMMIT, FINISH}
      && (st0.phase == EXECUTE ==> Executed(st0.txn) == Ok(st1.txn) && st1.phase == COMMIT)
      && (st0.phase != EXECUTE ==> st1 == st0)
    }

    /** The witness of AdvancedFrom for a run that either failed or reached
      * FINISH. */
    lemma Ended(st: TxnState, s0: Storage, states0: map<nat, TxnState>, outbox0: seq<Outgoing>,
                id: nat, r: Result<(), WorkerError>, out: Result<(Transaction, Storage), WorkerError>)
      requires config.config.numPartitions >= 1
      requires RunsToEnd(config, s0, st, out)
      requires out.Ok? ==>
        && r.Ok? && storage == out.value.1 && txnStates == states0 - {id}
        && outbox == outbox0 + [Outgoing(Done(id, out.value.0), "")]
      requires out.Err? ==> r == Err(out.error) && storage == s0 && outbox == outbox0 && id in txnStates
      ensures AdvancedFrom(st, s0, states0, outbox0, id, r)
    {
    }

    /** A dispatched transaction starts where ProcessWorkerRequest leaves it
      * and goes on with AdvanceTransaction: it is new to the worker, reads
      * the local storage, tells the other active partitions, and then waits
      * for remote reads or runs to the end. `mid` is the outbox after the
      * local read. */
    method HandleDispatched(d: Dispatched) returns (r: Result<(), WorkerError>, ghost mid: seq<Outgoing>)
      requires Valid() && Quiescent()
      modifies this`txnStates, this`outbox, this`storage, commands
      ensures Valid()
      ensures r.Ok? ==> Quiescent()
      ensures d.txn.None? || d.txn.value.id in old(txnStates) ==>
        r.Err? && txnStates == old(txnStates) && storage == old(storage) && outbox == old(outbox)
      ensures d.txn.Some? && d.txn.value.id !in old(txnStates) ==>
        var txn := d.txn.value;
        LocalReadOutcome(TxnState(txn.(readSet := LocalPart(config, txn.readSet), writeSet := LocalPart(config, txn.writeSet)),
                                  d.active, d.involved, 0, READ_LOCAL_STORAGE),
                         old(storage), old(txnStates), old(outbox), mid, txn.id, r)
      ensures d.txn.Some? && r.Ok? ==>
        var id := d.txn.value.id;
        id !in old(txnStates) && (id !in txnStates <==> Finished(outbox, |old(outbox)|, id))
    {
      mid := outbox;
      var got := ProcessWorkerRequest(d);
      if got.Err? {
        return Err(got.error), mid;
      }
      ghost var states1 := txnStates;
      assert txnStates - {got.value} == old(txnStates) - {got.value};
      r, mid := AdvanceTransaction(got.value);
      QuiescentAfter(old(txnStates), got.value, r.Ok?);
      LocalReadOutcomeOthers(states1[got.value], old(storage), states1, old(txnStates), old(outbox), mid, got.value, r);
    }

    /** A remote read result is applied by ProcessRemoteReadResult; the last
      * one awaited runs the transaction to the end, continuing with
      * AdvanceTransaction. */
    method HandleRemoteRead(res: RemoteReadResult) returns (r: Result<(), WorkerError>)
      requires Valid() && Quiescent()
      modifies this`txnStates, this`outbox, this`storage, commands
      ensures Valid()
      ensures r.Ok? ==> Quiescent()
      ensures (r.Err? && r.error.UnknownTxn? <==> res.txnId !in old(txnStates)) && r != Err(InvalidPhase(res.txnId))
      ensures res.txnId !in old(txnStates) ==>
        txnStates == old(txnStates) && storage == old(storage) && outbox == old(outbox)
      ensures res.txnId in old(txnStates) ==>
        var id := res.txnId;
        var st := old(txnStates)[id];
        var w := Dec32(st.waitingOn);
        var st' := st.(txn := AfterRemoteRead(st.txn, res), waitingOn := w,
                       phase := if w == 0 then EXECUTE else st.phase);
        && (w != 0 ==>
              r.Ok? && txnStates == old(txnStates)[id := st'] && storage == old(storage) && outbox == old(outbox))
        && (w == 0 ==> AdvancedFrom(st', old(storage), old(txnStates), old(outbox), id, r))
      ensures r.Ok? ==>
        var id := res.txnId;
        id in old(txnStates) &&
        (id !in txnStates <==> Finished(outbox, |old(outbox)|, id)) &&
        (id !in txnStates <==> old(txnStates)[id].waitingOn == 1)
    {
      var got := ProcessRemoteReadResult(res);
      if got.Err? {
        return Err(got.error);
      }
      ghost var states1 := txnStates;
      assert txnStates - {got.value} == old(txnStates) - {got.value};
      ghost var mid;
      r, mid := AdvanceTransaction(got.value);
      QuiescentAfter(old(txnStates), got.value, r.Ok?);
      if states1[got.value].phase == EXECUTE {
        AdvancedFromOthers(states1[got.value], old(storage), states1, old(txnStates), old(outbox), got.value, r);
      }
    }

    /** Loop, for one request from the scheduler: a dispatched transaction
      * or a remote read, each followed by AdvanceTransaction; any other
      * request is fatal. Between requests no transaction is left in a phase
      * other than WAIT_REMOTE_READ, so the fatal phase check of a remote read
      * never fires. */
    method HandleRequest(req: WorkerRequest) returns (r: Result<(), WorkerError>, ghost mid: seq<Outgoing>)
      requires Valid() && Quiescent()
      modifies this`txnStates, this`outbox, this`storage, commands
      ensures Valid()
      ensures r.Ok? ==> Quiescent()
      ensures req.OtherRequest? ==>
        r == Err(InvalidRequest) && txnStates == old(txnStates) && storage == old(storage) && outbox == old(outbox)
      ensures req.ProcessWorker? && (req.holder.txn.None? || req.holder.txn.value.id in old(txnStates)) ==>
        r.Err? && txnStates == old(txnStates) && storage == old(storage) && outbox == old(outbox)
      ensures req.ProcessWorker? && req.holder.txn.Some? && req.holder.txn.value.id !in old(txnStates) ==>
        var d := req.holder;
        var txn := d.txn.value;
        LocalReadOutcome(TxnState(txn.(readSet := LocalPart(config, txn.readSet), writeSet := LocalPart(config, txn.writeSet)),
                                  d.active, d.involved, 0, READ_LOCAL_STORAGE),
                         old(storage), old(txnStates), old(outbox), mid, txn.id, r)
      ensures req.ProcessWorker? && req.holder.txn.Some? && r.Ok? ==>
        var id := req.holder.txn.value.id;
        id !in old(txnStates) && (id !in txnStates <==> Finished(outbox, |old(outbox)|, id))
      ensures req.RemoteReadIn? ==>
        (r.Err? && r.error.UnknownTxn? <==> req.result.txnId !in old(txnStates)) &&
        r != Err(InvalidPhase(req.result.txnId))
      ensures req.RemoteReadIn? && req.result.txnId in old(txnStates) ==>
        var id := req.result.txnId;
        var st := old(txnStates)[id];
        var w := Dec32(st.waitingOn);
        var st' := st.(txn := AfterRemoteRead(st.txn, req.result), waitingOn := w,
                       phase := if w == 0 then EXECUTE else st.phase);
        && (w != 0 ==>
              r.Ok? && txnStates == old(txnStates)[id := st'] && storage == old(storage) && outbox == old(outbox))
        && (w == 0 ==> AdvancedFrom(st', old(storage), old(txnStates), old(outbox), id, r))
      ensures req.RemoteReadIn? && r.Ok? ==>
        var id := req.result.txnId;
        id in old(txnStates) &&
        (id !in txnStates <==> Finished(outbox, |old(outbox)|, id)) &&
        (id !in txnStates <==> old(txnStates)[id].waitingOn == 1)
    {
      mid := outbox;
      match req
      case ProcessWorker(d) =>
        r, mid := HandleDispatched(d);
      case RemoteReadIn(res) =>
        r := HandleRemoteRead(res);
      case OtherRequest =>
        r := Err(InvalidRequest);
    }

    /** The one transaction AdvanceTransaction touched is done or waiting,
      * and the others were waiting already. */
    lemma QuiescentAfter(before: map<nat, TxnState>, id: nat, ok: bool)
      requires forall j :: j in before && j != id ==> before[j].phase == WAIT_REMOTE_READ && before[j].waitingOn > 0
      requires txnStates - {id} == before - {id}
      requires ok ==> id !in txnStates || (txnStates[id].phase == WAIT_REMOTE_READ && txnStates[id].waitingOn > 0)
      ensures ok ==> Quiescent()
    {
      if ok {
        forall j | j in txnStates ensures txnStates[j].phase == WAIT_REMOTE_READ && txnStates[j].waitingOn > 0 {
          if j != id {
            assert j in txnStates - {id};
            assert (txnStates - {id})[j] == before[j];
          }
        }
      }
    }
  }
}
