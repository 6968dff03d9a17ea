/** The forwarder (module/forwarder.cpp): it finds out where a new
  * transaction is mastered. A transaction whose keys all have master
  * metadata is routed at once; any other is parked while every partition of
  * the local replica is asked for the masters of the keys it lacks. */
module Forwarders {
  import opened Wrappers
  import opened Types
  import opened Messages
  import ProtoUtils
  import Configurations

  /** TransactionContainsKey: the key is read or written. */
  predicate ContainsKey(txn: Transaction, key: Key)
  {
    key in txn.readSet || key in txn.writeSet
  }

  /** s lists, each once, the keys of `keys` without metadata in md. */
  ghost predicate ListsMissing(s: seq<Key>, keys: set<Key>, md: map<Key, Metadata>)
  {
    (forall k :: k in s <==> k in keys && k !in md) &&
    (forall i, j :: 0 <= i < j < |s| ==> s[i] != s[j])
  }

  /** The keys of a lookup request: the read keys lacking metadata, then
    * the write keys lacking metadata, each part in map order (any order). */
  ghost predicate LookupLists(keys: seq<Key>, txn: Transaction)
  {
    exists i: nat :: i <= |keys| &&
      ListsMissing(keys[..i], txn.readSet.Keys, txn.metadata) &&
      ListsMissing(keys[i..], txn.writeSet.Keys, txn.metadata)
  }

  /** One loop of MakeLookupMasterRequest over a key set. */
  method ListMissing(keys: set<Key>, md: map<Key, Metadata>) returns (s: seq<Key>)
    ensures ListsMissing(s, keys, md)
  {
    s := [];
    var rest := keys;
    while rest != {}
      invariant rest <= keys
      invariant forall k :: k in s <==> k in keys - rest && k !in md
      invariant forall i, j :: 0 <= i < j < |s| ==> s[i] != s[j]
      decreases rest
    {
      var k :| k in rest;
      if k !in md {
        s := s + [k];
      }
      rest := rest - {k};
    }
  }

  /** MakeLookupMasterRequest: a lookup for the transaction's id, listing
    * the read keys then the write keys that lack metadata. A key both read
    * and written is listed twice. */
  method MakeLookupMasterRequest(txn: Transaction) returns (req: Request)
    ensures req.LookupMaster? && req.txnId == txn.id && LookupLists(req.keys, txn)
  {
    var readMissing := ListMissing(txn.readSet.Keys, txn.metadata);
    var writeMissing := ListMissing(txn.writeSet.Keys, txn.metadata);
    var keys := readMissing + writeMissing;
    assert keys[..|readMissing|] == readMissing && keys[|readMissing|..] == writeMissing;
    req := LookupMaster(txn.id, keys);
  }

  /** A lookup lists exactly the keys the transaction accesses but has no
    * metadata for. */
  lemma LookupListsExactlyMissing(keys: seq<Key>, txn: Transaction)
    requires LookupLists(keys, txn)
    ensures forall k :: k in keys <==> k in AllKeys(txn) && k !in txn.metadata
  {
    var i: nat :| i <= |keys| &&
      ListsMissing(keys[..i], txn.readSet.Keys, txn.metadata) &&
      ListsMissing(keys[i..], txn.writeSet.Keys, txn.metadata);
    forall k ensures k in keys <==> k in AllKeys(txn) && k !in txn.metadata {
      InSplit(keys, i, k);
    }
  }

  /** An element of a sequence is in the part before i or in the part
    * after it. */
  lemma InSplit<T>(s: seq<T>, i: nat, x: T)
    requires i <= |s|
    ensures x in s <==> x in s[..i] || x in s[i..]
  {
    assert s == s[..i] + s[i..];
  }

  /** The lookup result one partition returns (internal::LookupMasterResponse):
    * the metadata of the keys it stores and the keys it has never seen. */
  datatype Response =
    | LookupMasterResponse(txnId: nat, masterMetadata: map<Key, Metadata>, newKeys: seq<Key>)
    | OtherResponse

  /** The transaction's metadata after a lookup result: entries already
    * there are kept (insert does not overwrite), found metadata is added
    * for keys the transaction accesses, and a new key it accesses gets the
    * default master with counter 0, overriding both. */
  function MergedMetadata(txn: Transaction, masterMetadata: map<Key, Metadata>, newKeys: seq<Key>): map<Key, Metadata>
  {
    WithNewKeys(WithFound(txn, masterMetadata), txn, newKeys)
  }

  /** The first loop: found metadata of accessed keys, inserted. */
  function WithFound(txn: Transaction, masterMetadata: map<Key, Metadata>): map<Key, Metadata>
  {
    map k | k in txn.metadata.Keys + (set k | k in masterMetadata && ContainsKey(txn, k)) ::
      if k in txn.metadata then txn.metadata[k] else masterMetadata[k]
  }

  /** The second loop: accessed new keys set to the default master. */
  function WithNewKeys(md: map<Key, Metadata>, txn: Transaction, newKeys: seq<Key>): map<Key, Metadata>
  {
    var added := set k | k in newKeys && ContainsKey(txn, k);
    map k | k in md.Keys + added :: if k in added then Metadata(DEFAULT_MASTER_REGION_OF_NEW_KEY, 0) else md[k]
  }

  /** What the merge means: nothing unrelated to the transaction is added,
    * new keys get master 0 and counter 0, known metadata is kept otherwise,
    * and every accessed key the result covers now has metadata. */
  lemma MergedMetadataIs(txn: Transaction, masterMetadata: map<Key, Metadata>, newKeys: seq<Key>)
    ensures var md := MergedMetadata(txn, masterMetadata, newKeys);
      forall k :: k in md && k !in txn.metadata ==> ContainsKey(txn, k)
    ensures var md := MergedMetadata(txn, masterMetadata, newKeys);
      forall k :: k in newKeys && ContainsKey(txn, k) ==> k in md && md[k] == Metadata(DEFAULT_MASTER_REGION_OF_NEW_KEY, 0)
    ensures var md := MergedMetadata(txn, masterMetadata, newKeys);
      forall k :: k in txn.metadata && k !in newKeys ==> k in md && md[k] == txn.metadata[k]
    ensures var md := MergedMetadata(txn, masterMetadata, newKeys);
      forall k :: ContainsKey(txn, k) && (k in masterMetadata || k in newKeys) ==> k in md
    ensures var md := MergedMetadata(txn, masterMetadata, newKeys);
      forall k :: k in md && k !in txn.metadata && k !in newKeys ==> md[k] == masterMetadata[k]
  {
  }

  /** The merge of HandleInternalResponse, loop by loop: found metadata
    * first, then the new keys. */
  method MergeLookup(txn: Transaction, masterMetadata: map<Key, Metadata>, newKeys: seq<Key>) returns (t: Transaction)
    ensures t == txn.(metadata := MergedMetadata(txn, masterMetadata, newKeys))
  {
    var found := InsertFound(txn, masterMetadata);
    var md := SetNewKeys(found, txn, newKeys);
    t := txn.(metadata := md);
  }

  method InsertFound(txn: Transaction, masterMetadata: map<Key, Metadata>) returns (md: map<Key, Metadata>)
    ensures md == WithFound(txn, masterMetadata)
  {
    md := txn.metadata;
    var rest := masterMetadata.Keys;
    while rest != {}
      invariant rest <= masterMetadata.Keys
      invariant forall k :: k in md <==> k in txn.metadata || (k in masterMetadata.Keys - rest && ContainsKey(txn, k))
      invariant forall k :: k in md ==> md[k] == if k in txn.metadata then txn.metadata[k] else masterMetadata[k]
      decreases rest
    {
      var k :| k in rest;
      if ContainsKey(txn, k) && k !in md {
        md := md[k := masterMetadata[k]];
      }
      rest := rest - {k};
    }
  }

  method SetNewKeys(found: map<Key, Metadata>, txn: Transaction, newKeys: seq<Key>) returns (md: map<Key, Metadata>)
    ensures md == WithNewKeys(found, txn, newKeys)
  {
    md := found;
    var i := 0;
    while i < |newKeys|
      invariant i <= |newKeys|
      invariant forall k :: k in md <==> k in found || (k in newKeys[..i] && ContainsKey(txn, k))
      invariant forall k :: k in md ==> md[k] == if k in newKeys[..i] && ContainsKey(txn, k) then Metadata(DEFAULT_MASTER_REGION_OF_NEW_KEY, 0) else found[k]
    {
      assert newKeys[..i + 1] == newKeys[..i] + [newKeys[i]];
      if ContainsKey(txn, newKeys[i]) {
        md := md[newKeys[i] := Metadata(DEFAULT_MASTER_REGION_OF_NEW_KEY, 0)];
      }
      i := i + 1;
    }
    assert newKeys[..i] == newKeys;
  }

  /** A lookup result that covers every key the lookup listed settles the
    * type: the transaction is then no longer UNKNOWN. */
  lemma CoveringResultSettlesType(txn: Transaction, keys: seq<Key>, masterMetadata: map<Key, Metadata>, newKeys: seq<Key>)
    requires LookupLists(keys, txn)
    requires forall k :: k in keys ==> k in masterMetadata || k in newKeys
    ensures ProtoUtils.TransactionTypeOf(txn.(metadata := MergedMetadata(txn, masterMetadata, newKeys))) != UNKNOWN
  {
    LookupListsExactlyMissing(keys, txn);
    MergedMetadataIs(txn, masterMetadata, newKeys);
    var t := txn.(metadata := MergedMetadata(txn, masterMetadata, newKeys));
    assert AllKeys(t) == AllKeys(txn);
    assert ProtoUtils.HasAllMetadata(t);
  }

  /** The master shared by every entry of single-home metadata (the first
    * entry's, in the source). */
  function HomeOf(md: map<Key, Metadata>): nat
    requires md != map[] && ProtoUtils.SameMaster(md)
  {
    var k :| k in md; md[k].master
  }

  /** Whether Forward can route the transaction: a single-home one needs a
    * metadata entry to read its home from. */
  predicate Routable(txn: Transaction)
  {
    txn.txnType == SINGLE_HOME ==> txn.metadata != map[] && ProtoUtils.SameMaster(txn.metadata)
  }

  /** The sends of Forward. A single-home transaction goes to the sequencer
    * of this machine when its home is the local replica, else to the
    * sequencer of the drawn partition of its home replica; a multi-home one
    * to the orderer at the leader partition of the local replica; anything
    * else goes nowhere. */
  function Routed(txn: Transaction, localReplica: nat, leaderPartition: nat, partition: nat): seq<Envelope>
    requires Routable(txn)
  {
    if txn.txnType == SINGLE_HOME then
      var home := HomeOf(txn.metadata);
      if home == localReplica then [Envelope(SequencerChannel, None, ForwardTxn(txn))]
      else [Envelope(SequencerChannel, Some(ProtoUtils.MakeMachineIdAsString(home, partition)), ForwardTxn(txn))]
    else if txn.txnType == MULTI_HOME then
      [Envelope(MultiHomeOrdererChannel, Some(ProtoUtils.MakeMachineIdAsString(localReplica, leaderPartition)), ForwardTxn(txn))]
    else []
  }

  /** Routing reaches the home: a single-home transaction with all its
    * metadata goes, alone, to a sequencer of the replica mastering every key
    * it accesses; the machine named is (home, partition). A multi-home one
    * goes to the orderer of the local replica; an UNKNOWN one nowhere. */
  lemma RoutedToHome(txn: Transaction, localReplica: nat, leaderPartition: nat, partition: nat)
    requires Routable(txn) && ProtoUtils.HasAllMetadata(txn)
    requires partition < UINT32_LIMIT
    requires forall k :: k in txn.metadata ==> txn.metadata[k].master < UINT32_LIMIT
    ensures var out := Routed(txn, localReplica, leaderPartition, partition);
      txn.txnType == SINGLE_HOME ==>
        |out| == 1 && out[0].channel == SequencerChannel && out[0].req == ForwardTxn(txn) &&
        forall k :: k in AllKeys(txn) ==>
          (txn.metadata[k].master == localReplica <==> out[0].to.None?) &&
          (out[0].to.Some? ==> ProtoUtils.MakeMachineId(out[0].to.value) == Ok(MachineId(txn.metadata[k].master, partition)))
    ensures var out := Routed(txn, localReplica, leaderPartition, partition);
      txn.txnType == MULTI_HOME ==>
        |out| == 1 && out[0].channel == MultiHomeOrdererChannel &&
        out[0].to == Some(ProtoUtils.MakeMachineIdAsString(localReplica, leaderPartition))
    ensures txn.txnType == UNKNOWN ==> Routed(txn, localReplica, leaderPartition, partition) == []
  {
    if txn.txnType == SINGLE_HOME {
      var home := HomeOf(txn.metadata);
      if home != localReplica {
        ProtoUtils.MachineIdRoundTrip(home, partition);
      }
    }
  }

  class Forwarder {
    const config: Configurations.Configuration
    var pendingTransactions: map<nat, Transaction>
    var outbox: seq<Envelope>

    constructor(config: Configurations.Configuration)
      ensures this.config == config && pendingTransactions == map[] && outbox == []
    {
      this.config := config;
      pendingTransactions := map[];
      outbox := [];
    }

    /** Forward: the sends of Routed; partition is the draw of the
      * forwarder's random partition generator. */
    method Forward(txn: Transaction, partition: nat)
      requires Routable(txn)
      modifies this`outbox
      ensures outbox == old(outbox) +
        Routed(txn, config.GetLocalReplica(), config.GetLeaderPartitionForMultiHomeOrdering(), partition)
    {
      if txn.txnType == SINGLE_HOME {
        var home := HomeOf(txn.metadata);
        if home == config.GetLocalReplica() {
          outbox := outbox + [Envelope(SequencerChannel, None, ForwardTxn(txn))];
        } else {
          var machine := ProtoUtils.MakeMachineIdAsString(home, partition);
          outbox := outbox + [Envelope(SequencerChannel, Some(machine), ForwardTxn(txn))];
        }
      } else if txn.txnType == MULTI_HOME {
        var destination := ProtoUtils.MakeMachineIdAsString(config.GetLocalReplica(), config.GetLeaderPartitionForMultiHomeOrdering());
        outbox := outbox + [Envelope(MultiHomeOrdererChannel, Some(destination), ForwardTxn(txn))];
      }
    }

    /** HandleInternalRequest: only ForwardTxn is handled. A transaction of
      * known type is forwarded at once; any other is parked under its id
      * and a lookup for its missing keys goes to the server of every
      * partition of the local replica. A forwarded transaction accesses
      * some key (the server rejects the others). */
    method HandleInternalRequest(req: Request, partition: nat)
      requires req.ForwardTxn? ==> AllKeys(req.txn) != {}
      modifies this
      ensures !req.ForwardTxn? ==> pendingTransactions == old(pendingTransactions) && outbox == old(outbox)
      ensures req.ForwardTxn? ==>
        var txn := ProtoUtils.SetTransactionType(req.txn);
        Routable(txn) &&
        if txn.txnType != UNKNOWN then
          pendingTransactions == old(pendingTransactions) &&
          outbox == old(outbox) + Routed(txn, config.GetLocalReplica(), config.GetLeaderPartitionForMultiHomeOrdering(), partition)
        else
          pendingTransactions == old(pendingTransactions)[txn.id := txn] &&
          |outbox| == |old(outbox)| + config.GetNumPartitions() && outbox[..|old(outbox)|] == old(outbox) &&
          SentLookups(outbox[|old(outbox)|..], txn, config.GetLocalReplica(), config.GetNumPartitions())
    {
      if !req.ForwardTxn? {
        return;
      }
      var txn := ProtoUtils.SetTransactionType(req.txn);
      TypedIsRoutable(req.txn);
      if txn.txnType != UNKNOWN {
        Forward(txn, partition);
        return;
      }
      pendingTransactions := pendingTransactions[txn.id := txn];
      var lookup := MakeLookupMasterRequest(txn);
      var sends := SendToPartitions(lookup, config.GetLocalReplica(), config.GetNumPartitions());
      ghost var before := outbox;
      outbox := outbox + sends;
      assert outbox[..|before|] == before && outbox[|before|..] == sends;
    }

    /** HandleInternalResponse: only lookup results are handled, and only
      * for a parked transaction. Its metadata is merged in place; once its
      * type is known it is forwarded and unparked, otherwise it stays parked
      * with the merged metadata. */
    method HandleInternalResponse(res: Response, partition: nat)
      requires forall id :: id in pendingTransactions ==> AllKeys(pendingTransactions[id]) != {}
      modifies this
      ensures forall id :: id in pendingTransactions ==> AllKeys(pendingTransactions[id]) != {}
      ensures (res.OtherResponse? || res.txnId !in old(pendingTransactions)) ==>
        pendingTransactions == old(pendingTransactions) && outbox == old(outbox)
      ensures res.LookupMasterResponse? && res.txnId in old(pendingTransactions) ==>
        var parked := old(pendingTransactions)[res.txnId];
        var txn := ProtoUtils.SetTransactionType(parked.(metadata := MergedMetadata(parked, res.masterMetadata, res.newKeys)));
        Routable(txn) &&
        if txn.txnType != UNKNOWN then
          pendingTransactions == old(pendingTransactions) - {res.txnId} &&
          outbox == old(outbox) + Routed(txn, config.GetLocalReplica(), config.GetLeaderPartitionForMultiHomeOrdering(), partition)
        else
          pendingTransactions == old(pendingTransactions)[res.txnId := txn] && outbox == old(outbox)
    {
      if res.OtherResponse? || res.txnId !in pendingTransactions {
        return;
      }
      var parked := pendingTransactions[res.txnId];
      var merged := MergeLookup(parked, res.masterMetadata, res.newKeys);
      var txn := ProtoUtils.SetTransactionType(merged);
      MergedMetadataIs(parked, res.masterMetadata, res.newKeys);
      assert AllKeys(merged) == AllKeys(parked);
      TypedIsRoutable(merged);
      if txn.txnType != UNKNOWN {
        Forward(txn, partition);
        pendingTransactions := pendingTransactions - {res.txnId};
      } else {
        pendingTransactions := pendingTransactions[res.txnId := txn];
      }
    }
  }

  /** The loop of HandleInternalRequest: the request to the server of
    * every partition of a replica, in partition order. */
  method SendToPartitions(lookup: Request, replica: nat, numPartitions: nat) returns (out: seq<Envelope>)
    ensures out == ToMachines(ServerChannel, PartitionsOf(replica, numPartitions), lookup)
  {
    out := [];
    for part := 0 to numPartitions
      invariant |out| == part
      invariant forall j :: 0 <= j < part ==> out[j] == Envelope(ServerChannel, Some(ProtoUtils.MakeMachineIdAsString(replica, j)), lookup)
    {
      out := out + [Envelope(ServerChannel, Some(ProtoUtils.MakeMachineIdAsString(replica, part)), lookup)];
    }
  }

  /** The lookups HandleInternalRequest sends: one per partition of the
    * local replica, to its server, each listing the missing keys. */
  ghost predicate SentLookups(out: seq<Envelope>, txn: Transaction, replica: nat, numPartitions: nat)
  {
    exists keys :: LookupLists(keys, txn) &&
      out == ToMachines(ServerChannel, PartitionsOf(replica, numPartitions), LookupMaster(txn.id, keys))
  }

  /** A typed transaction that accesses a key can be routed: single-home
    * means all its keys have metadata of one master. */
  lemma TypedIsRoutable(txn: Transaction)
    requires AllKeys(txn) != {}
    ensures Routable(ProtoUtils.SetTransactionType(txn))
  {
    var t := ProtoUtils.SetTransactionType(txn);
    if t.txnType == SINGLE_HOME {
      var k :| k in AllKeys(txn);
      assert k in t.metadata;
    }
  }
}
