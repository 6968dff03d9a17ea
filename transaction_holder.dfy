/** The transaction holder of common/transaction_holder.cpp: the local
  * keys of a transaction with their lock modes, and the partitions it
  * touches. */
module TransactionHolders {
  import opened Types
  import opened Wrappers
  import Configurations
  import TransactionUtils

  /** The partitions that own at least one of `keys`. */
  function Participants(cfg: Configurations.ConfigMessage, keys: set<Key>): set<nat>
    requires cfg.numPartitions >= 1
  {
    set k | k in keys :: Configurations.PartitionOfKey(k, cfg.partitionKeyNumBytes, cfg.numPartitions)
  }

  lemma ParticipantsAdd(cfg: Configurations.ConfigMessage, keys: set<Key>, k: Key)
    requires cfg.numPartitions >= 1
    ensures Participants(cfg, keys + {k}) ==
      Participants(cfg, keys) + {Configurations.PartitionOfKey(k, cfg.partitionKeyNumBytes, cfg.numPartitions)}
  {
  }

  /** Every participant is a partition number. */
  lemma ParticipantsBounded(cfg: Configurations.ConfigMessage, keys: set<Key>)
    requires cfg.numPartitions >= 1
    ensures forall p :: p in Participants(cfg, keys) ==> p < cfg.numPartitions
  {
  }

  /** The local partition participates exactly when the transaction has a
    * local key, that is when its list of local keys is not empty. */
  lemma LocalParticipates(config: Configurations.Configuration, txn: Transaction)
    requires config.config.numPartitions >= 1
    ensures config.localPartition in Participants(config.config, AllKeys(txn)) <==>
      TransactionUtils.LocalLockModes(config, txn) != map[]
  {
    var modes := TransactionUtils.LocalLockModes(config, txn);
    if config.localPartition in Participants(config.config, AllKeys(txn)) {
      var k :| k in AllKeys(txn) &&
        Configurations.PartitionOfKey(k, config.config.partitionKeyNumBytes, config.config.numPartitions) == config.localPartition;
      assert config.IsLocalKey(k);
      assert k in modes;
    }
    if modes != map[] {
      var k :| k in modes;
      assert config.IsLocalKey(k);
    }
  }

  /** The read keys outside `rest` are done: the local ones that are not
    * written are listed once with mode READ. */
  ghost predicate ReadsListed(config: Configurations.Configuration, txn: Transaction,
                              added: seq<(Key, LockMode)>, rest: set<Key>)
    requires config.config.numPartitions >= 1
  {
    rest <= txn.readSet.Keys &&
    (forall i, j :: 0 <= i < j < |added| ==> added[i].0 != added[j].0) &&
    (forall i :: 0 <= i < |added| ==>
      added[i].1 == READ && added[i].0 in txn.readSet && added[i].0 !in txn.writeSet &&
      config.IsLocalKey(added[i].0) && added[i].0 !in rest) &&
    (forall k :: k in txn.readSet && k !in rest && k !in txn.writeSet && config.IsLocalKey(k) ==>
      (k, READ) in added)
  }

  /** The written keys outside `rest` are done: the local ones are listed
    * once with mode WRITE. */
  ghost predicate WritesListed(config: Configurations.Configuration, txn: Transaction,
                               added: seq<(Key, LockMode)>, rest: set<Key>)
    requires config.config.numPartitions >= 1
  {
    rest <= txn.writeSet.Keys &&
    (forall i, j :: 0 <= i < j < |added| ==> added[i].0 != added[j].0) &&
    (forall i :: 0 <= i < |added| ==>
      added[i].1 == WRITE && added[i].0 in txn.writeSet && config.IsLocalKey(added[i].0) && added[i].0 !in rest) &&
    (forall k :: k in txn.writeSet && k !in rest && config.IsLocalKey(k) ==> (k, WRITE) in added)
  }

  /** The loop over the read set: every key's partition joins the
    * participants, and the local keys that are not written are listed once
    * with mode READ. */
  method ReadKeyPartitions(config: Configurations.Configuration, txn: Transaction)
    returns (added: seq<(Key, LockMode)>, parts: set<nat>)
    requires config.config.numPartitions >= 1
    ensures forall i, j :: 0 <= i < j < |added| ==> added[i].0 != added[j].0
    ensures forall i :: 0 <= i < |added| ==>
      added[i].1 == READ && added[i].0 in txn.readSet && added[i].0 !in txn.writeSet && config.IsLocalKey(added[i].0)
    ensures forall k :: k in txn.readSet && k !in txn.writeSet && config.IsLocalKey(k) ==> (k, READ) in added
    ensures parts == Participants(config.config, txn.readSet.Keys)
  {
    added, parts := [], {};
    var rest := txn.readSet.Keys;
    while rest != {}
      invariant ReadsListed(config, txn, added, rest)
      invariant parts == Participants(config.config, txn.readSet.Keys - rest)
      decreases |rest|
    {
      var k :| k in rest;
      var p := config.GetPartitionOfKey(k);
      ParticipantsAdd(config.config, txn.readSet.Keys - rest, k);
      assert txn.readSet.Keys - (rest - {k}) == (txn.readSet.Keys - rest) + {k};
      parts := parts + {p};
      added := ReadOne(config, txn, added, rest, k);
      rest := rest - {k};
    }
  }

  /** One read key: listed when it is local and not written. */
  method ReadOne(config: Configurations.Configuration, txn: Transaction,
                 added: seq<(Key, LockMode)>, rest: set<Key>, k: Key) returns (added': seq<(Key, LockMode)>)
    requires config.config.numPartitions >= 1
    requires ReadsListed(config, txn, added, rest) && k in rest
    ensures ReadsListed(config, txn, added', rest - {k})
  {
    added' := added;
    var local := config.KeyIsInLocalPartition(k);
    if local && k !in txn.writeSet {
      added' := added + [(k, READ)];
    }
  }

  /** The loop over the write set: every key's partition joins the
    * participants, and the local keys are listed once with mode WRITE. */
  method WriteKeyPartitions(config: Configurations.Configuration, txn: Transaction)
    returns (added: seq<(Key, LockMode)>, parts: set<nat>)
    requires config.config.numPartitions >= 1
    ensures forall i, j :: 0 <= i < j < |added| ==> added[i].0 != added[j].0
    ensures forall i :: 0 <= i < |added| ==>
      added[i].1 == WRITE && added[i].0 in txn.writeSet && config.IsLocalKey(added[i].0)
    ensures forall k :: k in txn.writeSet && config.IsLocalKey(k) ==> (k, WRITE) in added
    ensures parts == Participants(config.config, txn.writeSet.Keys)
  {
    added, parts := [], {};
    var rest := txn.writeSet.Keys;
    while rest != {}
      invariant WritesListed(config, txn, added, rest)
      invariant parts == Participants(config.config, txn.writeSet.Keys - rest)
      decreases |rest|
    {
      var k :| k in rest;
      var p := config.GetPartitionOfKey(k);
      ParticipantsAdd(config.config, txn.writeSet.Keys - rest, k);
      assert txn.writeSet.Keys - (rest - {k}) == (txn.writeSet.Keys - rest) + {k};
      parts := parts + {p};
      added := WriteOne(config, txn, added, rest, k);
      rest := rest - {k};
    }
  }

  /** One written key: listed when it is local. */
  method WriteOne(config: Configurations.Configuration, txn: Transaction,
                  added: seq<(Key, LockMode)>, rest: set<Key>, k: Key) returns (added': seq<(Key, LockMode)>)
    requires config.config.numPartitions >= 1
    requires WritesListed(config, txn, added, rest) && k in rest
    ensures WritesListed(config, txn, added', rest - {k})
  {
    added' := added;
    var local := config.KeyIsInLocalPartition(k);
    if local {
      added' := added + [(k, WRITE)];
    }
  }

  /** ExtractKeyPartitions: appends the local keys with their lock modes to
    * `keys` and adds the partition of every read or written key to
    * `participants`, whatever the local partition. */
  method ExtractKeyPartitions(keys: seq<(Key, LockMode)>, participants: set<nat>,
                              config: Configurations.Configuration, txn: Transaction)
    returns (keys': seq<(Key, LockMode)>, participants': set<nat>)
    requires config.config.numPartitions >= 1
    ensures |keys'| >= |keys| && keys'[..|keys|] == keys
    ensures TransactionUtils.ListsLockModes(keys'[|keys|..], TransactionUtils.LocalLockModes(config, txn))
    ensures participants' == participants + Participants(config.config, AllKeys(txn))
  {
    var readList, readParts := ReadKeyPartitions(config, txn);
    var writeList, writeParts := WriteKeyPartitions(config, txn);
    TransactionUtils.LocalListsJoin(config, txn, readList, writeList);
    var added := readList + writeList;
    keys' := keys + added;
    TransactionUtils.ConcatParts(keys, added);
    participants' := participants + readParts + writeParts;
  }

  /** The masters named in a transaction's metadata. */
  function Masters(metadata: map<Key, Metadata>): set<nat>
  {
    set k | k in metadata :: metadata[k].master
  }

  /** GetReplicaId of a transaction: 0 without metadata, otherwise the
    * master of the map's first entry. The map's order is not modelled, so
    * the entry is any one of them; for a single-home or lock-only
    * transaction every entry names the same master. */
  method GetReplicaIdOf(txn: Transaction) returns (r: nat)
    ensures txn.metadata == map[] ==> r == 0
    ensures txn.metadata != map[] ==> r in Masters(txn.metadata)
  {
    if txn.metadata == map[] {
      return 0;
    }
    var k :| k in txn.metadata;
    r := txn.metadata[k].master;
  }

  /** When all the metadata names one master, that master is the replica
    * id whichever entry comes first. */
  lemma OneMasterReplicaId(metadata: map<Key, Metadata>, m: nat, r: nat)
    requires metadata != map[] && forall k :: k in metadata ==> metadata[k].master == m
    requires r in Masters(metadata)
    ensures r == m
  {
  }

  /** The holder of a transaction in the scheduler and the worker: the
    * transaction (none once released), the worker it went to, the remote
    * reads that came before it, its local keys and the partitions it
    * touches. */
  class TransactionHolder {
    var txn: Option<Transaction>
    var worker: string
    var earlyRemoteReads: seq<RemoteReadResult>
    var keysInPartition: seq<(Key, LockMode)>
    var partitionParticipants: set<nat>

    /** A default holder has no transaction and no worker. */
    constructor ()
      ensures txn == None && worker == "" && earlyRemoteReads == []
      ensures keysInPartition == [] && partitionParticipants == {}
    {
      txn := None;
      worker := "";
      earlyRemoteReads := [];
      keysInPartition := [];
      partitionParticipants := {};
    }

    /** The holder of a transaction: its local keys and participants are
      * extracted. */
    constructor WithTransaction(config: Configurations.Configuration, t: Transaction)
      requires config.config.numPartitions >= 1
      ensures txn == Some(t) && worker == "" && earlyRemoteReads == []
      ensures TransactionUtils.ListsLockModes(keysInPartition, TransactionUtils.LocalLockModes(config, t))
      ensures partitionParticipants == Participants(config.config, AllKeys(t))
    {
      txn := None;
      worker := "";
      earlyRemoteReads := [];
      keysInPartition := [];
      partitionParticipants := {};
      new;
      SetTransaction(config, t);
    }

    /** SetTransaction appends the transaction's local keys to the ones
      * already held and adds its participants, clearing neither. */
    method SetTransaction(config: Configurations.Configuration, t: Transaction)
      requires config.config.numPartitions >= 1
      modifies this
      ensures txn == Some(t) && worker == old(worker) && earlyRemoteReads == old(earlyRemoteReads)
      ensures |keysInPartition| >= |old(keysInPartition)|
      ensures keysInPartition[..|old(keysInPartition)|] == old(keysInPartition)
      ensures TransactionUtils.ListsLockModes(keysInPartition[|old(keysInPartition)|..],
                                              TransactionUtils.LocalLockModes(config, t))
      ensures partitionParticipants == old(partitionParticipants) + Participants(config.config, AllKeys(t))
    {
      keysInPartition, partitionParticipants :=
        ExtractKeyPartitions(keysInPartition, partitionParticipants, config, t);
      txn := Some(t);
    }

    function GetTransaction(): Option<Transaction>
      reads this
    {
      txn
    }

    /** ReleaseTransaction hands out the transaction and leaves none. */
    method ReleaseTransaction() returns (t: Option<Transaction>)
      modifies this
      ensures t == old(txn) && txn == None
      ensures worker == old(worker) && keysInPartition == old(keysInPartition)
      ensures earlyRemoteReads == old(earlyRemoteReads) && partitionParticipants == old(partitionParticipants)
    {
      t := txn;
      txn := None;
    }

    method SetWorker(w: string)
      modifies this
      ensures worker == w && GetWorker() == w
      ensures txn == old(txn) && keysInPartition == old(keysInPartition)
      ensures earlyRemoteReads == old(earlyRemoteReads) && partitionParticipants == old(partitionParticipants)
    {
      worker := w;
    }

    function GetWorker(): string
      reads this
    {
      worker
    }

    function KeysInPartition(): seq<(Key, LockMode)>
      reads this
    {
      keysInPartition
    }

    function PartitionParticipants(): set<nat>
      reads this
    {
      partitionParticipants
    }

    /** For a holder of one transaction, the participants are partitions
      * below the partition count, and the local partition is among them
      * exactly when the holder lists local keys. */
    lemma HeldParticipants(config: Configurations.Configuration, t: Transaction)
      requires config.config.numPartitions >= 1
      requires txn == Some(t) && partitionParticipants == Participants(config.config, AllKeys(t))
      requires TransactionUtils.ListsLockModes(keysInPartition, TransactionUtils.LocalLockModes(config, t))
      ensures forall p :: p in PartitionParticipants() ==> p < config.config.numPartitions
      ensures config.GetLocalPartition() in PartitionParticipants() <==> KeysInPartition() != []
    {
      ParticipantsBounded(config.config, AllKeys(t));
      LocalParticipates(config, t);
      var modes := TransactionUtils.LocalLockModes(config, t);
      if modes != map[] {
        var k :| k in modes;
        assert (k, modes[k]) in keysInPartition;
      }
      if keysInPartition != [] {
        assert keysInPartition[0].0 in modes;
      }
    }

    /** GetReplicaId of the held transaction, which must be present. */
    method GetReplicaId() returns (r: nat)
      requires txn.Some?
      ensures txn.value.metadata == map[] ==> r == 0
      ensures txn.value.metadata != map[] ==> r in Masters(txn.value.metadata)
    {
      r := GetReplicaIdOf(txn.value);
    }

    /** The (transaction id, replica id) pair that names a lock-only
      * transaction. */
    method GetTransactionIdReplicaIdPair() returns (pair: (nat, nat))
      requires txn.Some?
      ensures pair.0 == txn.value.id
      ensures txn.value.metadata == map[] ==> pair.1 == 0
      ensures txn.value.metadata != map[] ==> pair.1 in Masters(txn.value.metadata)
    {
      var r := GetReplicaIdOf(txn.value);
      pair := (txn.value.id, r);
    }
  }
}
