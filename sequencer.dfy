/** The sequencer (module/sequencer.cpp): it collects single-home and
  * lock-only transactions into a batch and, at every wake-up, numbers the
  * batch, proposes it to the local Paxos group and sends it to every
  * scheduler. A multi-home batch from the orderer is projected onto a
  * lock-only transaction per member, holding the keys this replica masters. */
module Sequencers {
  import opened Wrappers
  import opened Types
  import opened Messages
  import ProtoUtils
  import PaxosLeader
  import Configurations

  /** The batch NewBatch starts: empty and SINGLE_HOME. */
  function NewBatch(): Batch
  {
    Batch(0, [], SINGLE_HOME)
  }

  /** What a sequencer batch may hold. */
  predicate SingleHomeOrLockOnly(txn: Transaction)
  {
    txn.txnType == SINGLE_HOME || txn.txnType == LOCK_ONLY
  }

  predicate SequencerBatch(b: Batch)
  {
    b.txnType == SINGLE_HOME && forall i :: 0 <= i < |b.transactions| ==> SingleHomeOrLockOnly(b.transactions[i])
  }

  /** Every machine "r:p", partition by partition and, within one,
    * replica by replica (the order of the wake-up loops). */
  function PartMajor(numReplicas: nat, numPartitions: nat): seq<string>
  {
    if numPartitions == 0 then []
    else PartMajor(numReplicas, numPartitions - 1) + ReplicasOf(numPartitions - 1, numReplicas)
  }

  /** Every machine of the R x P grid is among the R * P entries. */
  lemma {:induction false} PartMajorCoversAll(numReplicas: nat, numPartitions: nat)
    ensures |PartMajor(numReplicas, numPartitions)| == numReplicas * numPartitions
    ensures forall r: nat, p: nat :: r < numReplicas && p < numPartitions ==>
      ProtoUtils.MakeMachineIdAsString(r, p) in PartMajor(numReplicas, numPartitions)
  {
    if numPartitions > 0 {
      PartMajorCoversAll(numReplicas, numPartitions - 1);
      var prefix := PartMajor(numReplicas, numPartitions - 1);
      var last := ReplicasOf(numPartitions - 1, numReplicas);
      assert PartMajor(numReplicas, numPartitions) == prefix + last;
      Configurations.MulSucc(numPartitions - 1, numReplicas);
      assert |prefix + last| == numReplicas * (numPartitions - 1) + numReplicas;
      forall r: nat, p: nat | r < numReplicas && p < numPartitions
        ensures ProtoUtils.MakeMachineIdAsString(r, p) in prefix + last
      {
        InConcat(prefix, last, ProtoUtils.MakeMachineIdAsString(r, p));
        if p == numPartitions - 1 {
          assert last[r] == ProtoUtils.MakeMachineIdAsString(r, p);
        }
      }
    }
  }

  lemma InConcat<T>(a: seq<T>, b: seq<T>, x: T)
    ensures x in a + b <==> x in a || x in b
  {
  }

  /** The two wake-up loops: the request to the scheduler of every machine. */
  method SendToAllSchedulers(req: Request, numReplicas: nat, numPartitions: nat) returns (out: seq<Envelope>)
    ensures out == ToMachines(SchedulerChannel, PartMajor(numReplicas, numPartitions), req)
  {
    out := [];
    for part := 0 to numPartitions
      invariant out == ToMachines(SchedulerChannel, PartMajor(numReplicas, part), req)
    {
      var sends := SendToReplicas(SchedulerChannel, req, part, numReplicas);
      ToMachinesConcat(SchedulerChannel, PartMajor(numReplicas, part), ReplicasOf(part, numReplicas), req);
      out := out + sends;
    }
  }

  /** The keys of a key/value map whose master is the given replica. */
  function Mastered(kv: map<Key, Value>, md: map<Key, Metadata>, replica: nat): map<Key, Value>
    requires kv.Keys <= md.Keys
  {
    map k | k in kv && md[k].master == replica :: kv[k]
  }

  /** The lock-only part of a multi-home transaction at one replica: a new
    * transaction with only the id, the type LOCK_ONLY, and the read and
    * write entries whose keys that replica masters. */
  function LockOnly(txn: Transaction, replica: nat): Transaction
    requires ProtoUtils.HasAllMetadata(txn)
  {
    EmptyTransaction().(id := txn.id, txnType := LOCK_ONLY,
      readSet := Mastered(txn.readSet, txn.metadata, replica),
      writeSet := Mastered(txn.writeSet, txn.metadata, replica))
  }

  /** The lock-only parts split the keys of a transaction between the
    * replicas: a key belongs to the part of its master and of no other, with
    * its value; the part carries the id and nothing else of the original. */
  lemma LockOnlyPartsSplitKeys(txn: Transaction, replica: nat)
    requires ProtoUtils.HasAllMetadata(txn)
    ensures var part := LockOnly(txn, replica);
      part.id == txn.id && part.txnType == LOCK_ONLY && part.metadata == map[] && part.procedure == NoProcedure
    ensures var part := LockOnly(txn, replica);
      forall k :: k in part.readSet <==> k in txn.readSet && txn.metadata[k].master == replica
    ensures var part := LockOnly(txn, replica);
      forall k :: k in part.writeSet <==> k in txn.writeSet && txn.metadata[k].master == replica
    ensures var part := LockOnly(txn, replica);
      forall k :: (k in part.readSet ==> part.readSet[k] == txn.readSet[k]) && (k in part.writeSet ==> part.writeSet[k] == txn.writeSet[k])
    ensures forall other :: other != replica ==>
      AllKeys(LockOnly(txn, replica)) * AllKeys(LockOnly(txn, other)) == {}
  {
  }

  /** One projection loop of ProcessMultiHomeBatch over a key/value map. */
  method ProjectEntries(kv: map<Key, Value>, md: map<Key, Metadata>, replica: nat) returns (r: map<Key, Value>)
    requires kv.Keys <= md.Keys
    ensures r == Mastered(kv, md, replica)
  {
    r := map[];
    var rest := kv.Keys;
    while rest != {}
      invariant rest <= kv.Keys
      invariant r == map k | k in kv.Keys - rest && md[k].master == replica :: kv[k]
      decreases rest
    {
      var k :| k in rest;
      if md[k].master == replica {
        r := r[k := kv[k]];
      }
      rest := rest - {k};
    }
  }

  method MakeLockOnly(txn: Transaction, replica: nat) returns (part: Transaction)
    requires ProtoUtils.HasAllMetadata(txn)
    ensures part == LockOnly(txn, replica)
  {
    var readSet := ProjectEntries(txn.readSet, txn.metadata, replica);
    var writeSet := ProjectEntries(txn.writeSet, txn.metadata, replica);
    part := EmptyTransaction().(id := txn.id, txnType := LOCK_ONLY, readSet := readSet, writeSet := writeSet);
  }

  /** The lock-only parts of a batch at one replica, in batch order. */
  function LockOnlyParts(txns: seq<Transaction>, replica: nat): (parts: seq<Transaction>)
    requires forall i :: 0 <= i < |txns| ==> ProtoUtils.HasAllMetadata(txns[i])
    ensures |parts| == |txns|
    ensures forall i :: 0 <= i < |txns| ==> parts[i] == LockOnly(txns[i], replica)
  {
    seq(|txns|, i requires 0 <= i < |txns| => LockOnly(txns[i], replica))
  }

  class Sequencer {
    const config: Configurations.Configuration
    var batch: Batch
    var batchIdCounter: nat
    var outbox: seq<Envelope>

    ghost predicate Valid()
      reads this
    {
      SequencerBatch(batch)
    }

    constructor(config: Configurations.Configuration)
      ensures Valid()
      ensures this.config == config && batch == NewBatch() && batchIdCounter == 0 && outbox == []
    {
      this.config := config;
      batch := NewBatch();
      batchIdCounter := 0;
      outbox := [];
    }

    /** NextBatchId: the counter is incremented first, then stamped with
      * the local machine's number. */
    method NextBatchId() returns (id: nat)
      modifies this`batchIdCounter
      ensures batchIdCounter == NextCounter(old(batchIdCounter))
      ensures id == StampedId(batchIdCounter, config.GetLocalMachineIdAsNumber())
    {
      batchIdCounter := NextCounter(batchIdCounter);
      id := StampedId(batchIdCounter, config.GetLocalMachineIdAsNumber());
    }

    /** PutSingleHomeTransactionIntoBatch: only a single-home or lock-only
      * transaction may join the batch (a fatal check). */
    method PutSingleHomeTransactionIntoBatch(txn: Transaction)
      requires Valid() && SingleHomeOrLockOnly(txn)
      modifies this`batch
      ensures Valid()
      ensures batch == old(batch).(transactions := old(batch).transactions + [txn])
    {
      batch := batch.(transactions := batch.transactions + [txn]);
    }

    /** HandleInternalRequest: a forwarded transaction joins the batch; a
      * forwarded batch is projected; anything else is ignored. */
    method HandleInternalRequest(req: Request)
      requires Valid()
      requires req.ForwardTxn? ==> SingleHomeOrLockOnly(req.txn)
      requires req.ForwardBatchData? && req.batch.txnType == MULTI_HOME ==>
        forall i :: 0 <= i < |req.batch.transactions| ==> ProtoUtils.HasAllMetadata(req.batch.transactions[i])
      modifies this
      ensures Valid() && batchIdCounter == old(batchIdCounter)
      ensures req.ForwardTxn? ==>
        batch.transactions == old(batch.transactions) + [req.txn] && outbox == old(outbox)
      ensures req.ForwardBatchData? && req.batch.txnType != MULTI_HOME ==>
        batch == old(batch) && outbox == old(outbox)
      ensures req.ForwardBatchData? && req.batch.txnType == MULTI_HOME ==>
        batch.transactions == old(batch.transactions) + LockOnlyParts(req.batch.transactions, config.GetLocalReplica()) &&
        outbox == old(outbox) + ToMachines(SchedulerChannel, PartitionsOf(config.GetLocalReplica(), config.GetNumPartitions()), req)
      ensures !req.ForwardTxn? && !req.ForwardBatchData? ==> batch == old(batch) && outbox == old(outbox)
    {
      if req.ForwardTxn? {
        PutSingleHomeTransactionIntoBatch(req.txn);
      } else if req.ForwardBatchData? {
        ProcessMultiHomeBatch(req);
      }
    }

    /** ProcessMultiHomeBatch: a batch that is not MULTI_HOME is rejected.
      * Otherwise each member yields its lock-only part at the local replica,
      * in batch order, and the batch itself goes to the scheduler of every
      * partition of the local replica. A member's keys must all have
      * metadata (the lookup throws otherwise). */
    method ProcessMultiHomeBatch(req: Request)
      requires Valid() && req.ForwardBatchData?
      requires req.batch.txnType == MULTI_HOME ==>
        forall i :: 0 <= i < |req.batch.transactions| ==> ProtoUtils.HasAllMetadata(req.batch.transactions[i])
      modifies this`batch, this`outbox
      ensures Valid()
      ensures req.batch.txnType != MULTI_HOME ==> batch == old(batch) && outbox == old(outbox)
      ensures req.batch.txnType == MULTI_HOME ==>
        batch.transactions == old(batch.transactions) + LockOnlyParts(req.batch.transactions, config.GetLocalReplica()) &&
        batch.id == old(batch.id) && batch.txnType == old(batch.txnType) &&
        outbox == old(outbox) + ToMachines(SchedulerChannel, PartitionsOf(config.GetLocalReplica(), config.GetNumPartitions()), req)
    {
      var mh := req.batch;
      if mh.txnType != MULTI_HOME {
        return;
      }
      var localRep := config.GetLocalReplica();
      var txns := batch.transactions;
      var i := 0;
      while i < |mh.transactions|
        invariant i <= |mh.transactions|
        invariant Valid() && batch.id == old(batch.id) && outbox == old(outbox)
        invariant batch.transactions == txns + LockOnlyParts(mh.transactions[..i], localRep)
      {
        var part := MakeLockOnly(mh.transactions[i], localRep);
        PutSingleHomeTransactionIntoBatch(part);
        assert mh.transactions[..i + 1] == mh.transactions[..i] + [mh.transactions[i]];
        i := i + 1;
      }
      assert mh.transactions[..i] == mh.transactions;
      var sends := SendToPartitions(req, localRep, config.GetNumPartitions());
      outbox := outbox + sends;
    }

    /** HandlePeriodicWakeUp: nothing happens to an empty batch. Otherwise
      * the batch takes the next id and the position (counter - 1,
      * wrapping), the local partition is proposed to the local Paxos group,
      * the batch goes to the scheduler of every machine, and a new batch
      * starts. */
    method HandlePeriodicWakeUp()
      requires Valid()
      modifies this
      ensures Valid()
      ensures old(batch.transactions) == [] ==>
        batch == old(batch) && batchIdCounter == old(batchIdCounter) && outbox == old(outbox)
      ensures old(batch.transactions) != [] ==>
        var counter := NextCounter(old(batchIdCounter));
        var sealed := old(batch).(id := StampedId(counter, config.GetLocalMachineIdAsNumber()));
        var req := ForwardBatchData(sealed, PreviousCounter(counter));
        batchIdCounter == counter && batch == NewBatch() &&
        outbox == old(outbox) + [Envelope(LocalPaxosChannel, None, Paxos(PaxosLeader.ProposeRequest(config.GetLocalPartition())))] +
          ToMachines(SchedulerChannel, PartMajor(config.GetNumReplicas(), config.GetNumPartitions()), req)
    {
      if batch.transactions == [] {
        return;
      }
      var id := NextBatchId();
      var sealed := batch.(id := id);
      var req := ForwardBatchData(sealed, PreviousCounter(batchIdCounter));
      outbox := outbox + [Envelope(LocalPaxosChannel, None, Paxos(PaxosLeader.ProposeRequest(config.GetLocalPartition())))];
      var sends := SendToAllSchedulers(req, config.GetNumReplicas(), config.GetNumPartitions());
      outbox := outbox + sends;
      batch := NewBatch();
    }
  }

  /** batch_id_counter_ - 1 in 32-bit unsigned arithmetic. */
  function PreviousCounter(counter: nat): (c: nat)
    requires counter < UINT32_LIMIT
    ensures c < UINT32_LIMIT
    ensures NextCounter(c) == counter
  {
    if counter == 0 then UINT32_LIMIT - 1 else counter - 1
  }

  /** A replication loop: the request to the scheduler of every partition
    * of one replica. */
  method SendToPartitions(req: Request, replica: nat, numPartitions: nat) returns (out: seq<Envelope>)
    ensures out == ToMachines(SchedulerChannel, PartitionsOf(replica, numPartitions), req)
  {
    out := [];
    for part := 0 to numPartitions
      invariant |out| == part
      invariant forall j :: 0 <= j < part ==> out[j] == Envelope(SchedulerChannel, Some(ProtoUtils.MakeMachineIdAsString(replica, j)), req)
    {
      out := out + [Envelope(SchedulerChannel, Some(ProtoUtils.MakeMachineIdAsString(replica, part)), req)];
    }
  }

  /** Successive batches of one sequencer: the positions count 0, 1, 2, ...
    * (before the counter wraps), and the ids grow with them. */
  lemma PositionsCountFromZero(counter: nat, machine: nat)
    requires machine < MAX_NUM_MACHINES
    requires (counter + 2) * MAX_NUM_MACHINES + machine < UINT32_LIMIT
    ensures PreviousCounter(NextCounter(counter)) == counter
    ensures PreviousCounter(NextCounter(NextCounter(counter))) == counter + 1
    ensures StampedId(NextCounter(counter), machine) < StampedId(NextCounter(NextCounter(counter)), machine)
  {
    StampedIdsDistinct(counter + 1, machine, counter + 2, machine);
  }
}
