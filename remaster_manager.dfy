/** The counter check shared by the remaster managers
  * (module/scheduler_components/remaster_manager.h): a transaction's
  * master metadata against the metadata in storage. */
module RemasterManager {
  import opened Types
  import opened Wrappers

  datatype VerifyMasterResult = VALID | WAITING | ABORT

  /** The transactions a remaster or a release unblocks, and those that
    * must now abort, in the order they are found. */
  datatype RemasterOccurredResult = RemasterOccurredResult(unblocked: seq<nat>, shouldAbort: seq<nat>)

  /** What the remaster managers read of a transaction holder: the id, the
    * local keys and the transaction's master metadata. */
  datatype HeldTxn = HeldTxn(id: nat, keys: seq<(Key, LockMode)>, metadata: map<Key, Metadata>)

  /** The transaction lists the key among its local keys. */
  predicate HasKey(keys: seq<(Key, LockMode)>, key: Key)
  {
    exists i :: 0 <= i < |keys| && keys[i].0 == key
  }

  /** The counter a key has in storage: 0 for a key not yet stored. */
  function StorageCounter(storage: Storage, key: Key): nat
  {
    if key in storage then storage[key].metadata.counter else 0
  }

  /** The key agrees with storage: the transaction has metadata for it,
    * with the stored counter and, for a stored key, the stored master. */
  predicate KeyAgrees(key: Key, metadata: map<Key, Metadata>, storage: Storage)
  {
    key in metadata && metadata[key].counter == StorageCounter(storage, key) &&
    (key in storage ==> metadata[key].master == storage[key].metadata.master)
  }

  /** The first n keys agree with storage. */
  predicate PrefixAgrees(keys: seq<(Key, LockMode)>, n: nat, metadata: map<Key, Metadata>, storage: Storage)
    requires n <= |keys|
  {
    forall j :: 0 <= j < n ==> KeyAgrees(keys[j].0, metadata, storage)
  }

  /** Key i is the first that disagrees, and its counter is behind storage. */
  predicate BehindAt(keys: seq<(Key, LockMode)>, i: nat, metadata: map<Key, Metadata>, storage: Storage)
    requires i < |keys|
  {
    PrefixAgrees(keys, i, metadata, storage) &&
    keys[i].0 in metadata && metadata[keys[i].0].counter < StorageCounter(storage, keys[i].0)
  }

  /** Key i is the first that disagrees, and its counter is ahead of storage. */
  predicate AheadAt(keys: seq<(Key, LockMode)>, i: nat, metadata: map<Key, Metadata>, storage: Storage)
    requires i < |keys|
  {
    PrefixAgrees(keys, i, metadata, storage) &&
    keys[i].0 in metadata && metadata[keys[i].0].counter > StorageCounter(storage, keys[i].0)
  }

  /** The scan of CheckCounters over the keys in order: the first key
    * whose counter is behind storage gives ABORT, ahead gives WAITING;
    * a key without metadata is an out-of-range error, and equal counters
    * with different masters are fatal. */
  function CheckKeys(keys: seq<(Key, LockMode)>, metadata: map<Key, Metadata>, storage: Storage)
    : Result<VerifyMasterResult, string>
  {
    if keys == [] then Ok(VALID)
    else
      var key := keys[0].0;
      if key !in metadata then Err("no master metadata for a key")
      else if metadata[key].counter < StorageCounter(storage, key) then Ok(ABORT)
      else if metadata[key].counter > StorageCounter(storage, key) then Ok(WAITING)
      else if key in storage && metadata[key].master != storage[key].metadata.master then Err("masters differ")
      else CheckKeys(keys[1..], metadata, storage)
  }

  /** RemasterManager::CheckCounters: VALID without metadata, otherwise the
    * scan of the local keys. Nothing is changed. */
  function CheckCounters(txn: HeldTxn, storage: Storage): (r: Result<VerifyMasterResult, string>)
    ensures txn.metadata == map[] ==> r == Ok(VALID)
  {
    if txn.metadata == map[] then Ok(VALID) else CheckKeys(txn.keys, txn.metadata, storage)
  }

  /** The scan gives ABORT exactly when some key is behind storage and all
    * keys before it agree with storage. */
  lemma {:induction false} CheckKeysAbort(keys: seq<(Key, LockMode)>, metadata: map<Key, Metadata>, storage: Storage)
    ensures CheckKeys(keys, metadata, storage) == Ok(ABORT) <==>
      exists i :: 0 <= i < |keys| && BehindAt(keys, i, metadata, storage)
  {
    if keys != [] {
      var key := keys[0].0;
      CheckKeysAbort(keys[1..], metadata, storage);
      if CheckKeys(keys, metadata, storage) == Ok(ABORT) {
        if !(key in metadata && metadata[key].counter < StorageCounter(storage, key)) {
          var i :| 0 <= i < |keys[1..]| && BehindAt(keys[1..], i, metadata, storage);
          ShiftAgrees(keys, i + 1, metadata, storage);
          assert keys[1..][i] == keys[i + 1];
          assert BehindAt(keys, i + 1, metadata, storage);
        } else {
          assert BehindAt(keys, 0, metadata, storage);
        }
      }
      if exists i :: 0 <= i < |keys| && BehindAt(keys, i, metadata, storage) {
        var i :| 0 <= i < |keys| && BehindAt(keys, i, metadata, storage);
        if i > 0 {
          assert KeyAgrees(keys[0].0, metadata, storage);
          ShiftAgrees(keys, i, metadata, storage);
          assert keys[1..][i - 1] == keys[i];
          assert BehindAt(keys[1..], i - 1, metadata, storage);
        }
      }
    }
  }

  /** The scan gives WAITING exactly when some key is ahead of storage and
    * all keys before it agree with storage. */
  lemma {:induction false} CheckKeysWaiting(keys: seq<(Key, LockMode)>, metadata: map<Key, Metadata>, storage: Storage)
    ensures CheckKeys(keys, metadata, storage) == Ok(WAITING) <==>
      exists i :: 0 <= i < |keys| && AheadAt(keys, i, metadata, storage)
  {
    if keys != [] {
      var key := keys[0].0;
      CheckKeysWaiting(keys[1..], metadata, storage);
      if CheckKeys(keys, metadata, storage) == Ok(WAITING) {
        if !(key in metadata && metadata[key].counter > StorageCounter(storage, key)) {
          var i :| 0 <= i < |keys[1..]| && AheadAt(keys[1..], i, metadata, storage);
          ShiftAgrees(keys, i + 1, metadata, storage);
          assert keys[1..][i] == keys[i + 1];
          assert AheadAt(keys, i + 1, metadata, storage);
        } else {
          assert AheadAt(keys, 0, metadata, storage);
        }
      }
      if exists i :: 0 <= i < |keys| && AheadAt(keys, i, metadata, storage) {
        var i :| 0 <= i < |keys| && AheadAt(keys, i, metadata, storage);
        if i > 0 {
          assert KeyAgrees(keys[0].0, metadata, storage);
          ShiftAgrees(keys, i, metadata, storage);
          assert keys[1..][i - 1] == keys[i];
          assert AheadAt(keys[1..], i - 1, metadata, storage);
        }
      }
    }
  }

  /** The scan gives VALID exactly when every key agrees with storage. */
  lemma {:induction false} CheckKeysValid(keys: seq<(Key, LockMode)>, metadata: map<Key, Metadata>, storage: Storage)
    ensures CheckKeys(keys, metadata, storage) == Ok(VALID) <==> PrefixAgrees(keys, |keys|, metadata, storage)
  {
    if keys != [] {
      CheckKeysValid(keys[1..], metadata, storage);
      ShiftAgrees(keys, |keys|, metadata, storage);
    }
  }

  /** Agreement of a prefix of at least one key is agreement of the first
    * key and of the rest of the prefix. */
  lemma ShiftAgrees(keys: seq<(Key, LockMode)>, n: nat, metadata: map<Key, Metadata>, storage: Storage)
    requires 1 <= n <= |keys|
    ensures PrefixAgrees(keys, n, metadata, storage) <==>
      KeyAgrees(keys[0].0, metadata, storage) && PrefixAgrees(keys[1..], n - 1, metadata, storage)
  {
    if KeyAgrees(keys[0].0, metadata, storage) && PrefixAgrees(keys[1..], n - 1, metadata, storage) {
      forall j | 0 <= j < n ensures KeyAgrees(keys[j].0, metadata, storage) {
        if j > 0 { assert keys[j] == keys[1..][j - 1]; }
      }
    }
    if PrefixAgrees(keys, n, metadata, storage) {
      forall j | 0 <= j < n - 1 ensures KeyAgrees(keys[1..][j].0, metadata, storage) {
        assert keys[1..][j] == keys[j + 1];
      }
    }
  }

  /** A key not yet stored counts as counter 0: storing it with counter 0
    * and the transaction's master changes no verdict. */
  lemma {:induction false} AbsentKeyIsCounterZero(keys: seq<(Key, LockMode)>, metadata: map<Key, Metadata>,
                                                 storage: Storage, key: Key, value: Value)
    requires key !in storage && key in metadata
    ensures CheckKeys(keys, metadata, storage) ==
      CheckKeys(keys, metadata, storage[key := Record(value, Metadata(metadata[key].master, 0))])
  {
    if keys != [] {
      AbsentKeyIsCounterZero(keys[1..], metadata, storage, key, value);
    }
  }
}
