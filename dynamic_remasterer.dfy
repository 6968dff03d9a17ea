/** The dynamic remasterer watches forwarded transactions and, for every key
  * that the same remote replica coordinates three times in a row, asks the
  * server to move the key's mastership to that replica. */
module DynamicRemasterers {
  import opened Types
  import opened Wrappers
  import Configurations
  import ProtoUtils
  import Messages

  const INT32_LIMIT: int := 0x8000_0000

  /** The streak of one key: the replica that coordinated its last remote
    * accesses and how many times in a row (a uint32). */
  datatype AccessHistory = AccessHistory(replica: nat, repeats: nat)

  function Lookup(accesses: map<Key, AccessHistory>, key: Key): Option<AccessHistory>
  {
    if key in accesses then Some(accesses[key]) else None
  }

  /** One access to a key: the key's new history and whether it triggers a
    * remaster. */
  function Access(h: Option<AccessHistory>, coordinator: nat, localAccess: bool)
    : (r: (Option<AccessHistory>, bool))
    requires h.Some? ==> h.value.repeats < UINT32_LIMIT
    ensures r.0.Some? ==> r.0.value.repeats < UINT32_LIMIT
    // a local coordinator leaves no history and never remasters
    ensures localAccess ==> r == (None, false)
    // a remote coordinator always leaves its own replica as the streak's
    ensures !localAccess ==> r.0.Some? && r.0.value.replica == coordinator
    // a new streak starts at one and triggers nothing
    ensures !localAccess && (h.None? || h.value.replica != coordinator) ==>
              r == (Some(AccessHistory(coordinator, 1)), false)
    // a repeat by the same replica counts up (wrapping at 2^32) and remasters
    // exactly when the count becomes three
    ensures !localAccess && h.Some? && h.value.replica == coordinator ==>
              r.0.value.repeats == (h.value.repeats + 1) % UINT32_LIMIT &&
              (r.1 <==> h.value.repeats == 2)
  {
    if localAccess then (None, false)
    else if h.None? || coordinator != h.value.replica then (Some(AccessHistory(coordinator, 1)), false)
    else
      var repeats := (h.value.repeats + 1) % UINT32_LIMIT;
      (Some(AccessHistory(coordinator, repeats)), repeats == 3)
  }

  predicate HistoriesBounded(accesses: map<Key, AccessHistory>)
  {
    forall k :: k in accesses ==> accesses[k].repeats < UINT32_LIMIT
  }

  /** The history of a key after a transaction with the given key set. */
  function NextHistory(accesses: map<Key, AccessHistory>, keys: set<Key>, k: Key,
                       coordinator: nat, localAccess: bool): Option<AccessHistory>
    requires HistoriesBounded(accesses)
  {
    if k in keys then Access(Lookup(accesses, k), coordinator, localAccess).0 else Lookup(accesses, k)
  }

  /** The streak table after one transaction touching `keys`: every key is
    * accessed once and the others keep their history. */
  function AfterTxn(accesses: map<Key, AccessHistory>, keys: set<Key>, coordinator: nat, localAccess: bool)
    : (r: map<Key, AccessHistory>)
    requires HistoriesBounded(accesses)
    ensures HistoriesBounded(r)
    ensures forall k :: Lookup(r, k) == NextHistory(accesses, keys, k, coordinator, localAccess)
  {
    var r := map k | k in accesses.Keys + keys && NextHistory(accesses, keys, k, coordinator, localAccess).Some?
                   :: NextHistory(accesses, keys, k, coordinator, localAccess).value;
    assert forall k :: Lookup(r, k) == NextHistory(accesses, keys, k, coordinator, localAccess) by {
      forall k ensures Lookup(r, k) == NextHistory(accesses, keys, k, coordinator, localAccess) {
        if k !in accesses.Keys + keys {
          assert k !in accesses;
        }
      }
    }
    r
  }

  /** The keys of `keys` whose access triggers a remaster. */
  function Triggered(accesses: map<Key, AccessHistory>, keys: set<Key>, coordinator: nat, localAccess: bool)
    : set<Key>
    requires HistoriesBounded(accesses)
  {
    set k | k in keys && Access(Lookup(accesses, k), coordinator, localAccess).1
  }

  /** The keys a transaction touches: its read keys and its write keys. */
  function TouchedKeys(txn: Transaction): (r: set<Key>)
    ensures forall k :: k in r <==> k in txn.readSet || k in txn.writeSet
  {
    txn.readSet.Keys + txn.writeSet.Keys
  }

  /** The uint32 replica converted to the int32 parameter of MakeTransaction. */
  function Int32Of(r: nat): (i: int)
    requires r < UINT32_LIMIT
    ensures -INT32_LIMIT <= i < INT32_LIMIT
    ensures i >= 0 <==> r < INT32_LIMIT
    ensures i % UINT32_LIMIT == r
  {
    if r < INT32_LIMIT then r else r - UINT32_LIMIT
  }

  /** A remaster transaction of `key` to `newMaster`, sent by `from`: it
    * writes only that key, reads nothing and carries no metadata. */
  predicate IsRemasterTxn(t: Transaction, key: Key, newMaster: nat, from: MachineId)
  {
    t.readSet == map[] && t.writeSet == map[key := ""] && t.metadata == map[]
    && t.procedure == Remaster(newMaster) && t.coordinatingServer == from
    && t.status == NOT_STARTED
  }

  predicate Distinct(order: seq<Key>)
  {
    forall i, j :: 0 <= i < j < |order| ==> order[i] != order[j]
  }

  /** `sent` holds one remaster transaction per key of `order`, in order. */
  predicate SentFor(sent: seq<Transaction>, order: seq<Key>, newMaster: nat, from: MachineId)
  {
    |sent| == |order| && forall i :: 0 <= i < |order| ==> IsRemasterTxn(sent[i], order[i], newMaster, from)
  }

  class DynamicRemasterer {
    const config: Configurations.Configuration
    /** The streak of every remotely accessed key. */
    var keyAccesses: map<Key, AccessHistory>
    /** The remaster requests sent to the server, oldest first. */
    var sentToServer: seq<Transaction>

    predicate Valid()
      reads this`keyAccesses
    {
      HistoriesBounded(keyAccesses)
    }

    constructor (config: Configurations.Configuration)
      ensures this.config == config && keyAccesses == map[] && sentToServer == []
      ensures Valid()
    {
      this.config := config;
      keyAccesses := map[];
      sentToServer := [];
    }

    /** A forwarded transaction is inspected; any other request is ignored. */
    method HandleInternalRequest(req: Messages.Request) returns (ghost order: seq<Key>)
      requires Valid()
      // a coordinating replica is a uint32 on the wire
      requires req.ForwardTxn? ==> req.txn.coordinatingServer.replica < UINT32_LIMIT
      modifies this`keyAccesses, this`sentToServer
      ensures Valid()
      ensures !req.ForwardTxn? ==> keyAccesses == old(keyAccesses) && sentToServer == old(sentToServer)
      ensures req.ForwardTxn? ==>
                keyAccesses == AfterTxn(old(keyAccesses), TouchedKeys(req.txn), req.txn.coordinatingServer.replica,
                                        req.txn.coordinatingServer.replica == config.GetLocalReplica())
      ensures req.ForwardTxn? ==>
                && Distinct(order)
                && (forall k :: k in order <==>
                      k in Triggered(old(keyAccesses), TouchedKeys(req.txn), req.txn.coordinatingServer.replica,
                                     req.txn.coordinatingServer.replica == config.GetLocalReplica()))
                && |sentToServer| == |old(sentToServer)| + |order|
                && sentToServer[..|old(sentToServer)|] == old(sentToServer)
                && (req.txn.coordinatingServer.replica < INT32_LIMIT ==>
                      SentFor(sentToServer[|old(sentToServer)|..], order, req.txn.coordinatingServer.replica,
                              config.GetLocalMachineIdAsProto()))
    {
      order := [];
      if !req.ForwardTxn? {
        return;
      }
      order := MaybeRemasterKeys(req.txn);
    }

    /** Every touched key is accessed once: its streak is updated as
      * Access says and a remaster request goes out for each key whose
      * streak just reached three. */
    method MaybeRemasterKeys(txn: Transaction) returns (ghost order: seq<Key>)
      requires Valid()
      requires txn.coordinatingServer.replica < UINT32_LIMIT
      modifies this`keyAccesses, this`sentToServer
      ensures Valid()
      ensures keyAccesses == AfterTxn(old(keyAccesses), TouchedKeys(txn), txn.coordinatingServer.replica,
                                      txn.coordinatingServer.replica == config.GetLocalReplica())
      ensures Distinct(order)
      ensures forall k :: k in order <==>
                k in Triggered(old(keyAccesses), TouchedKeys(txn), txn.coordinatingServer.replica,
                               txn.coordinatingServer.replica == config.GetLocalReplica())
      ensures |sentToServer| == |old(sentToServer)| + |order|
      ensures sentToServer[..|old(sentToServer)|] == old(sentToServer)
      ensures txn.coordinatingServer.replica < INT32_LIMIT ==>
                SentFor(sentToServer[|old(sentToServer)|..], order, txn.coordinatingServer.replica,
                        config.GetLocalMachineIdAsProto())
    {
      var keys := TouchedKeys(txn);
      var coordinator := txn.coordinatingServer.replica;
      var localAccess := coordinator == config.GetLocalReplica();
      ghost var start := keyAccesses;
      ghost var sent0 := sentToServer;
      var remaining := keys;
      order := [];
      AfterNoKeys(start, coordinator, localAccess);
      while remaining != {}
        invariant remaining <= keys
        invariant Progress(start, keys - remaining, coordinator, localAccess, sent0, order)
        decreases remaining
      {
        var key :| key in remaining;
        order := AccessKey(key, coordinator, localAccess, start, keys - remaining, sent0, order);
        assert keys - (remaining - {key}) == (keys - remaining) + {key};
        remaining := remaining - {key};
      }
      assert keys - remaining == keys;
    }

    /** The state after the keys of `done` were accessed, starting from the
      * table `start` and the outbox `sent0`: the table is AfterTxn of
      * `start`, and the requests added to `sent0` remaster each key of
      * `order` once, `order` listing exactly the Triggered keys. */
    ghost predicate Progress(start: map<Key, AccessHistory>, done: set<Key>, coordinator: nat, localAccess: bool,
                             sent0: seq<Transaction>, order: seq<Key>)
      reads this`keyAccesses, this`sentToServer
    {
      HistoriesBounded(start)
      && keyAccesses == AfterTxn(start, done, coordinator, localAccess)
      && Distinct(order)
      && (forall k :: k in order <==> k in Triggered(start, done, coordinator, localAccess))
      && |sentToServer| == |sent0| + |order| && sentToServer[..|sent0|] == sent0
      && (coordinator < INT32_LIMIT ==>
            SentFor(sentToServer[|sent0|..], order, coordinator, config.GetLocalMachineIdAsProto()))
    }

    /** One key of the transaction is accessed. */
    method AccessKey(key: Key, coordinator: nat, localAccess: bool, ghost start: map<Key, AccessHistory>,
                     ghost done: set<Key>, ghost sent0: seq<Transaction>, ghost order0: seq<Key>)
      returns (ghost order: seq<Key>)
      requires coordinator < UINT32_LIMIT && key !in done
      requires Progress(start, done, coordinator, localAccess, sent0, order0)
      modifies this`keyAccesses, this`sentToServer
      ensures Progress(start, done + {key}, coordinator, localAccess, sent0, order)
    {
      AccessUntouched(start, done, key, coordinator, localAccess);
      var step := Access(Lookup(keyAccesses, key), coordinator, localAccess);
      keyAccesses := if step.0.Some? then keyAccesses[key := step.0.value] else keyAccesses - {key};
      AfterTxnStep(start, done, key, coordinator, localAccess);
      order := order0;
      if step.1 {
        ghost var before := sentToServer;
        SendRemaster(key, coordinator);
        order := order + [key];
        assert sentToServer[|sent0|..] == before[|sent0|..] + [sentToServer[|before|]];
      }
    }

    /** The remaster request of `key` to `newReplica` is sent to the
      * server; waiting for its reply is not modelled. */
    method SendRemaster(key: Key, newReplica: nat)
      requires newReplica < UINT32_LIMIT
      modifies this`sentToServer
      ensures |sentToServer| == |old(sentToServer)| + 1
      ensures sentToServer[..|old(sentToServer)|] == old(sentToServer)
      ensures newReplica < INT32_LIMIT ==>
                IsRemasterTxn(sentToServer[|old(sentToServer)|], key, newReplica, config.GetLocalMachineIdAsProto())
    {
      var remasterTxn := ProtoUtils.MakeTransaction({}, {key}, "", map[], config.GetLocalMachineIdAsProto(),
                                                    Int32Of(newReplica));
      assert remasterTxn.readSet == map[];
      assert remasterTxn.writeSet == map[key := ""];
      assert remasterTxn.metadata == map[];
      sentToServer := sentToServer + [remasterTxn];
    }
  }

  /** A key not yet processed still has its history from before the
    * transaction. */
  lemma AccessUntouched(start: map<Key, AccessHistory>, done: set<Key>, key: Key,
                        coordinator: nat, localAccess: bool)
    requires HistoriesBounded(start) && key !in done
    ensures Lookup(AfterTxn(start, done, coordinator, localAccess), key) == Lookup(start, key)
  {
  }

  /** Processing one more key updates the table at that key only. */
  lemma AfterTxnStep(start: map<Key, AccessHistory>, done: set<Key>, key: Key,
                     coordinator: nat, localAccess: bool)
    requires HistoriesBounded(start) && key !in done
    ensures var before := AfterTxn(start, done, coordinator, localAccess);
            var step := Access(Lookup(start, key), coordinator, localAccess);
            AfterTxn(start, done + {key}, coordinator, localAccess)
              == if step.0.Some? then before[key := step.0.value] else before - {key}
    ensures Triggered(start, done + {key}, coordinator, localAccess)
              == Triggered(start, done, coordinator, localAccess)
                 + (if Access(Lookup(start, key), coordinator, localAccess).1 then {key} else {})
  {
    var before := AfterTxn(start, done, coordinator, localAccess);
    var after := AfterTxn(start, done + {key}, coordinator, localAccess);
    var step := Access(Lookup(start, key), coordinator, localAccess);
    var expected := if step.0.Some? then before[key := step.0.value] else before - {key};
    forall k ensures Lookup(after, k) == Lookup(expected, k) {
    }
    LookupsEqual(after, expected);
  }

  /** A transaction with no keys changes nothing. */
  lemma AfterNoKeys(start: map<Key, AccessHistory>, coordinator: nat, localAccess: bool)
    requires HistoriesBounded(start)
    ensures AfterTxn(start, {}, coordinator, localAccess) == start
    ensures Triggered(start, {}, coordinator, localAccess) == {}
  {
    LookupsEqual(AfterTxn(start, {}, coordinator, localAccess), start);
  }

  lemma LookupsEqual(a: map<Key, AccessHistory>, b: map<Key, AccessHistory>)
    requires forall k :: Lookup(a, k) == Lookup(b, k)
    ensures a == b
  {
    assert forall k :: k in a <==> Lookup(a, k).Some?;
    assert forall k :: k in b <==> Lookup(b, k).Some?;
  }

  /** The history of a key and the number of remasters it triggers after
    * `n` remote accesses in a row by the same replica. */
  function Streak(h: Option<AccessHistory>, coordinator: nat, n: nat): (r: (Option<AccessHistory>, nat))
    requires h.Some? ==> h.value.repeats < UINT32_LIMIT
    ensures r.0.Some? ==> r.0.value.repeats < UINT32_LIMIT
    decreases n
  {
    if n == 0 then (h, 0)
    else
      var prev := Streak(h, coordinator, n - 1);
      var step := Access(prev.0, coordinator, false);
      (step.0, prev.1 + if step.1 then 1 else 0)
  }

  /** From no history (or a streak of another replica), `n` accesses by one
    * replica leave a streak of `n` and trigger one remaster once `n`
    * reaches three: none before, and no further one up to 2^32 repeats. */
  lemma {:induction false} StreakRemastersOnce(h: Option<AccessHistory>, coordinator: nat, n: nat)
    requires h.Some? ==> h.value.repeats < UINT32_LIMIT
    requires h.None? || h.value.replica != coordinator
    requires 1 <= n < UINT32_LIMIT
    ensures Streak(h, coordinator, n) == (Some(AccessHistory(coordinator, n)), if n >= 3 then 1 else 0)
    decreases n
  {
    if n > 1 {
      StreakRemastersOnce(h, coordinator, n - 1);
    }
  }

  /** A local access by the coordinator's own replica ends the streak: the
    * next remote access starts over at one whatever came before. */
  lemma LocalAccessRestarts(h: Option<AccessHistory>, coordinator: nat)
    requires h.Some? ==> h.value.repeats < UINT32_LIMIT
    ensures Access(Access(h, coordinator, true).0, coordinator, false) == (Some(AccessHistory(coordinator, 1)), false)
  {
  }

  /** Keys the transaction does not touch keep their history, and the
    * remastered keys are among the touched ones. */
  lemma UntouchedKeysKept(accesses: map<Key, AccessHistory>, txn: Transaction, coordinator: nat, localAccess: bool,
                          k: Key)
    requires HistoriesBounded(accesses)
    requires k !in txn.readSet && k !in txn.writeSet
    ensures Lookup(AfterTxn(accesses, TouchedKeys(txn), coordinator, localAccess), k) == Lookup(accesses, k)
    ensures k !in Triggered(accesses, TouchedKeys(txn), coordinator, localAccess)
  {
  }

  /** Three identical transactions reading A and B and writing C, each
    * coordinated by remote replica 1: the first two remaster nothing and
    * the third remasters all three keys. */
  lemma ThreeRemoteTransactions()
    ensures var keys: set<Key> := {"A", "B", "C"};
            var t1 := AfterTxn(map[], keys, 1, false);
            var t2 := AfterTxn(t1, keys, 1, false);
            Triggered(map[], keys, 1, false) == {}
            && Triggered(t1, keys, 1, false) == {}
            && Triggered(t2, keys, 1, false) == keys
  {
    var keys: set<Key> := {"A", "B", "C"};
    var t1 := AfterTxn(map[], keys, 1, false);
    var t2 := AfterTxn(t1, keys, 1, false);
    forall k | k in keys ensures Lookup(t1, k) == Some(AccessHistory(1, 1)) && Lookup(t2, k) == Some(AccessHistory(1, 2)) {
      assert Lookup(t1, k) == NextHistory(map[], keys, k, 1, false);
    }
    assert Triggered(t2, keys, 1, false) == keys;
  }
}
