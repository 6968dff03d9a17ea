/** The local-key extraction shared by the lock manager and the scheduler,
  * and the transaction holder of common/transaction_utils.cpp. */
module TransactionUtils {
  import opened Types
  import opened Wrappers
  import Configurations

  /** The lock every local key of the transaction needs: WRITE for a
    * written key (even when it is also read), READ for a key only read. */
  function LocalLockModes(config: Configurations.Configuration, txn: Transaction): map<Key, LockMode>
    requires config.config.numPartitions >= 1
  {
    map k | k in txn.readSet.Keys + txn.writeSet.Keys && config.IsLocalKey(k) ::
      if k in txn.writeSet then WRITE else READ
  }

  /** The list names every key of `modes` once, with its mode. */
  predicate ListsLockModes(keys: seq<(Key, LockMode)>, modes: map<Key, LockMode>)
  {
    (forall i, j :: 0 <= i < j < |keys| ==> keys[i].0 != keys[j].0) &&
    (forall i :: 0 <= i < |keys| ==> keys[i].0 in modes && modes[keys[i].0] == keys[i].1) &&
    (forall k :: k in modes ==> (k, modes[k]) in keys)
  }

  function KeySet(keys: seq<(Key, LockMode)>): set<Key>
  {
    if keys == [] then {} else {keys[0].0} + KeySet(keys[1..])
  }

  /** Such a list has one entry per key, so it is empty exactly when there
    * is no local key. */
  lemma ListedSize(keys: seq<(Key, LockMode)>, modes: map<Key, LockMode>)
    requires ListsLockModes(keys, modes)
    ensures |keys| == |modes|
    ensures keys == [] <==> modes == map[]
  {
    KeySetWithin(keys, modes.Keys);
    forall k | k in modes ensures k in KeySet(keys) {
      KeySetHas(keys, (k, modes[k]));
    }
    assert KeySet(keys) == modes.Keys;
    DistinctKeysSize(keys);
  }

  lemma {:induction false} KeySetHas(keys: seq<(Key, LockMode)>, e: (Key, LockMode))
    requires e in keys
    ensures e.0 in KeySet(keys)
  {
    if keys[0] != e {
      KeySetHas(keys[1..], e);
    }
  }

  lemma {:induction false} KeySetWithin(keys: seq<(Key, LockMode)>, s: set<Key>)
    requires forall i :: 0 <= i < |keys| ==> keys[i].0 in s
    ensures KeySet(keys) <= s
  {
    if keys != [] {
      KeySetWithin(keys[1..], s);
    }
  }

  lemma {:induction false} DistinctKeysSize(keys: seq<(Key, LockMode)>)
    requires forall i, j :: 0 <= i < j < |keys| ==> keys[i].0 != keys[j].0
    ensures |KeySet(keys)| == |keys|
  {
    if keys != [] {
      var rest := keys[1..];
      DistinctKeysSize(rest);
      if keys[0].0 in KeySet(rest) {
        KeySetWitness(rest, keys[0].0);
        assert false;
      }
    }
  }

  lemma {:induction false} KeySetWitness(keys: seq<(Key, LockMode)>, k: Key)
    requires k in KeySet(keys)
    ensures exists i :: 0 <= i < |keys| && keys[i].0 == k
  {
    if keys[0].0 != k {
      KeySetWitness(keys[1..], k);
      var i :| 0 <= i < |keys[1..]| && keys[1..][i].0 == k;
      assert keys[i + 1].0 == k;
    }
  }

  /** No READ entry comes after a WRITE entry. */
  predicate ReadsBeforeWrites(keys: seq<(Key, LockMode)>)
  {
    forall i, j :: 0 <= i < j < |keys| && keys[i].1 == WRITE ==> keys[j].1 == WRITE
  }

  /** ExtractKeysInPartition: appends to `keys` the local read-only keys
    * (mode READ) and then the local written keys (mode WRITE), each once. */
  method ExtractKeysInPartition(keys: seq<(Key, LockMode)>, config: Configurations.Configuration, txn: Transaction)
    returns (r: seq<(Key, LockMode)>)
    requires config.config.numPartitions >= 1
    ensures |r| >= |keys| && r[..|keys|] == keys
    ensures ListsLockModes(r[|keys|..], LocalLockModes(config, txn))
    ensures ReadsBeforeWrites(r[|keys|..])
  {
    var readList := LocalReadKeys(config, txn);
    var writeList := LocalWriteKeys(config, txn);
    LocalListsJoin(config, txn, readList, writeList);
    var added := readList + writeList;
    r := keys + added;
    ConcatParts(keys, added);
  }

  lemma ConcatParts<T>(a: seq<T>, b: seq<T>)
    ensures (a + b)[..|a|] == a && (a + b)[|a|..] == b
  {
  }

  /** The loop over the read set: the local keys that are not written, each
    * once, with mode READ. */
  method LocalReadKeys(config: Configurations.Configuration, txn: Transaction) returns (added: seq<(Key, LockMode)>)
    requires config.config.numPartitions >= 1
    ensures forall i, j :: 0 <= i < j < |added| ==> added[i].0 != added[j].0
    ensures forall i :: 0 <= i < |added| ==>
      added[i].1 == READ && added[i].0 in txn.readSet && added[i].0 !in txn.writeSet && config.IsLocalKey(added[i].0)
    ensures forall k :: k in txn.readSet && k !in txn.writeSet && config.IsLocalKey(k) ==> (k, READ) in added
  {
    added := [];
    var rest := txn.readSet.Keys;
    while rest != {}
      invariant rest <= txn.readSet.Keys
      invariant forall i, j :: 0 <= i < j < |added| ==> added[i].0 != added[j].0
      invariant forall i :: 0 <= i < |added| ==>
        added[i].1 == READ && added[i].0 in txn.readSet && added[i].0 !in txn.writeSet &&
        config.IsLocalKey(added[i].0) && added[i].0 !in rest
      invariant forall k :: k in txn.readSet && k !in rest && k !in txn.writeSet && config.IsLocalKey(k) ==>
        (k, READ) in added
      decreases |rest|
    {
      var k :| k in rest;
      var local := config.KeyIsInLocalPartition(k);
      if local && k !in txn.writeSet {
        added := added + [(k, READ)];
      }
      rest := rest - {k};
    }
  }

  /** The loop over the write set: the local written keys, each once, with
    * mode WRITE. */
  method LocalWriteKeys(config: Configurations.Configuration, txn: Transaction) returns (writes: seq<(Key, LockMode)>)
    requires config.config.numPartitions >= 1
    ensures forall i, j :: 0 <= i < j < |writes| ==> writes[i].0 != writes[j].0
    ensures forall i :: 0 <= i < |writes| ==>
      writes[i].1 == WRITE && writes[i].0 in txn.writeSet && config.IsLocalKey(writes[i].0)
    ensures forall k :: k in txn.writeSet && config.IsLocalKey(k) ==> (k, WRITE) in writes
  {
    writes := [];
    var rest := txn.writeSet.Keys;
    while rest != {}
      invariant rest <= txn.writeSet.Keys
      invariant forall i, j :: 0 <= i < j < |writes| ==> writes[i].0 != writes[j].0
      invariant forall i :: 0 <= i < |writes| ==>
        writes[i].1 == WRITE && writes[i].0 in txn.writeSet && config.IsLocalKey(writes[i].0) && writes[i].0 !in rest
      invariant forall k :: k in txn.writeSet && k !in rest && config.IsLocalKey(k) ==> (k, WRITE) in writes
      decreases |rest|
    {
      var k :| k in rest;
      var local := config.KeyIsInLocalPartition(k);
      if local {
        writes := writes + [(k, WRITE)];
      }
      rest := rest - {k};
    }
  }

  /** The lists of the two loops together name every local key once, with
    * its mode. */
  lemma LocalListsJoin(config: Configurations.Configuration, txn: Transaction,
                       readList: seq<(Key, LockMode)>, writeList: seq<(Key, LockMode)>)
    requires config.config.numPartitions >= 1
    requires forall i, j :: 0 <= i < j < |readList| ==> readList[i].0 != readList[j].0
    requires forall i :: 0 <= i < |readList| ==>
      readList[i].1 == READ && readList[i].0 in txn.readSet && readList[i].0 !in txn.writeSet && config.IsLocalKey(readList[i].0)
    requires forall k :: k in txn.readSet && k !in txn.writeSet && config.IsLocalKey(k) ==> (k, READ) in readList
    requires forall i, j :: 0 <= i < j < |writeList| ==> writeList[i].0 != writeList[j].0
    requires forall i :: 0 <= i < |writeList| ==>
      writeList[i].1 == WRITE && writeList[i].0 in txn.writeSet && config.IsLocalKey(writeList[i].0)
    requires forall k :: k in txn.writeSet && config.IsLocalKey(k) ==> (k, WRITE) in writeList
    ensures ListsLockModes(readList + writeList, LocalLockModes(config, txn))
  {
    var modes := LocalLockModes(config, txn);
    var written := txn.writeSet.Keys;
    forall i | 0 <= i < |readList|
      ensures readList[i].0 in modes && modes[readList[i].0] == readList[i].1 && readList[i].0 !in written
    {
    }
    forall i | 0 <= i < |writeList|
      ensures writeList[i].0 in modes && modes[writeList[i].0] == writeList[i].1 && writeList[i].0 in written
    {
    }
    forall k | k in modes && k !in written ensures (k, modes[k]) in readList {
    }
    forall k | k in modes && k in written ensures (k, modes[k]) in writeList {
    }
    JoinLists(readList, writeList, modes, written);
  }

  lemma JoinLists(readList: seq<(Key, LockMode)>, writeList: seq<(Key, LockMode)>,
                  modes: map<Key, LockMode>, written: set<Key>)
    requires forall i, j :: 0 <= i < j < |readList| ==> readList[i].0 != readList[j].0
    requires forall i, j :: 0 <= i < j < |writeList| ==> writeList[i].0 != writeList[j].0
    requires forall i :: 0 <= i < |readList| ==>
      readList[i].0 in modes && modes[readList[i].0] == readList[i].1 && readList[i].0 !in written
    requires forall i :: 0 <= i < |writeList| ==>
      writeList[i].0 in modes && modes[writeList[i].0] == writeList[i].1 && writeList[i].0 in written
    requires forall k :: k in modes && k !in written ==> (k, modes[k]) in readList
    requires forall k :: k in modes && k in written ==> (k, modes[k]) in writeList
    ensures ListsLockModes(readList + writeList, modes)
  {
    var all := readList + writeList;
    forall i, j | 0 <= i < j < |all| ensures all[i].0 != all[j].0 {
      if j < |readList| {
      } else if i >= |readList| {
        assert all[i] == writeList[i - |readList|] && all[j] == writeList[j - |readList|];
      } else {
        assert all[j] == writeList[j - |readList|];
      }
    }
    forall i | 0 <= i < |all| ensures all[i].0 in modes && modes[all[i].0] == all[i].1 {
      if i >= |readList| {
        assert all[i] == writeList[i - |readList|];
      }
    }
  }

  /** The holder of a transaction in the scheduler: the transaction (none
    * once released), the worker it went to, the remote reads that came
    * before it, and its local keys. */
  class TransactionHolder {
    var txn: Option<Transaction>
    var worker: string
    var earlyRemoteReads: seq<RemoteReadResult>
    var keysInPartition: seq<(Key, LockMode)>

    /** A default holder has no transaction and no worker. */
    constructor ()
      ensures txn == None && worker == "" && earlyRemoteReads == [] && keysInPartition == []
    {
      txn := None;
      worker := "";
      earlyRemoteReads := [];
      keysInPartition := [];
    }

    /** The holder of a transaction: its local keys are extracted. */
    constructor WithTransaction(config: Configurations.Configuration, t: Transaction)
      requires config.config.numPartitions >= 1
      ensures txn == Some(t) && worker == "" && earlyRemoteReads == []
      ensures ListsLockModes(keysInPartition, LocalLockModes(config, t))
    {
      txn := None;
      worker := "";
      earlyRemoteReads := [];
      keysInPartition := [];
      new;
      SetTransaction(config, t);
    }

    /** SetTransaction appends the transaction's local keys to the ones
      * already held, without clearing them. */
    method SetTransaction(config: Configurations.Configuration, t: Transaction)
      requires config.config.numPartitions >= 1
      modifies this
      ensures txn == Some(t) && worker == old(worker) && earlyRemoteReads == old(earlyRemoteReads)
      ensures |keysInPartition| >= |old(keysInPartition)|
      ensures keysInPartition[..|old(keysInPartition)|] == old(keysInPartition)
      ensures ListsLockModes(keysInPartition[|old(keysInPartition)|..], LocalLockModes(config, t))
    {
      keysInPartition := ExtractKeysInPartition(keysInPartition, config, t);
      txn := Some(t);
    }

    function GetTransaction(): Option<Transaction>
      reads this
    {
      txn
    }

    /** ReleaseTransaction hands out the transaction and leaves none. */
    method ReleaseTransaction() returns (t: Option<Transaction>)
      modifies this
      ensures t == old(txn) && txn == None
      ensures worker == old(worker) && keysInPartition == old(keysInPartition)
      ensures earlyRemoteReads == old(earlyRemoteReads)
    {
      t := txn;
      txn := None;
    }

    method SetWorker(w: string)
      modifies this
      ensures worker == w && GetWorker() == w
      ensures txn == old(txn) && keysInPartition == old(keysInPartition)
      ensures earlyRemoteReads == old(earlyRemoteReads)
    {
      worker := w;
    }

    function GetWorker(): string
      reads this
    {
      worker
    }

    function KeysInPartition(): seq<(Key, LockMode)>
      reads this
    {
      keysInPartition
    }
  }
}
