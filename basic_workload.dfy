/** The benchmark's basic workload: keys indexed by partition and home
  * replica, and random transactions that read and write some of them. The
  * random number generator is a nondeterministic choice. */
module BasicWorkloads {
  import opened Types
  import opened Wrappers
  import Configurations
  import ProtoUtils

  datatype WorkloadError =
    | NoHotKey          // GetRandomHotKey on an empty hot list
    | NoColdKey         // GetRandomColdKey on an empty cold list
    | TooManyWrites     // more writes than records per transaction
    | NoSuchReplica     // a datum mastered at a replica that does not exist

  /** The transaction shape of the benchmark. */
  datatype WorkloadParams = WorkloadParams(
    numRecords: nat,
    numWrites: nat,
    valueSize: nat,
    mpNumPartitions: nat,
    mhNumHomes: nat)

  function Min(a: nat, b: nat): nat { if a < b then a else b }

  predicate Distinct(s: seq<nat>)
  {
    forall i, j :: 0 <= i < j < |s| ==> s[i] != s[j]
  }

  /** `s` lists every number below `n` exactly once. */
  predicate IsRangePermutation(s: seq<nat>, n: nat)
  {
    |s| == n && Distinct(s) && forall i :: 0 <= i < |s| ==> s[i] < n
  }

  /** Swapping two positions keeps a permutation of the range. */
  lemma SwapKeepsPermutation(s: seq<nat>, n: nat, i: nat, j: nat)
    requires IsRangePermutation(s, n) && i < n && j < n
    ensures IsRangePermutation(s[i := s[j]][j := s[i]], n)
  {
    var t := s[i := s[j]][j := s[i]];
    forall x, y | 0 <= x < y < |t| ensures t[x] != t[y] {
      var x' := if x == i then j else if x == j then i else x;
      var y' := if y == i then j else if y == j then i else y;
      assert t[x] == s[x'] && t[y] == s[y'];
    }
  }

  /** Choose picks `min(n, k)` distinct numbers below `n`: none when `n` is
    * 0, one uniform pick when `k` is 1, else a prefix of a shuffled range. */
  method Choose(n: nat, k: nat) returns (r: seq<nat>)
    ensures n == 0 ==> r == []
    ensures |r| == Min(n, k)
    ensures Distinct(r)
    ensures forall i :: 0 <= i < |r| ==> r[i] < n
  {
    if n == 0 {
      return [];
    }
    if k == 1 {
      var pick :| 0 <= pick < n;
      return [pick];
    }
    var a := new nat[n];
    for i := 0 to n
      invariant forall j :: 0 <= j < i ==> a[j] == j
    {
      a[i] := i;
    }
    assert IsRangePermutation(a[..], n);
    for i := 0 to n
      invariant IsRangePermutation(a[..], n)
    {
      var j :| i <= j < n;
      SwapKeepsPermutation(a[..], n, i, j);
      a[i], a[j] := a[j], a[i];
    }
    r := a[..Min(n, k)];
  }

  /** PickOne returns an element of a non-empty list. */
  method PickOne<T>(v: seq<T>) returns (x: T)
    requires |v| > 0
    ensures x in v
  {
    var picks := Choose(|v|, 1);
    x := v[picks[0]];
  }

  const CHARACTERS: string := "0123456789ABCDEFGHIJKLMNOPQRSTUVWXYZabcdefghijklmnopqrstuvwxyz"

  /** RandomString draws `n` characters from the alphabet. */
  method RandomString(n: nat) returns (s: string)
    ensures |s| == n
    ensures forall i :: 0 <= i < |s| ==> s[i] in CHARACTERS
  {
    s := "";
    for i := 0 to n
      invariant |s| == i
      invariant forall j :: 0 <= j < |s| ==> s[j] in CHARACTERS
    {
      var picks := Choose(|CHARACTERS|, 1);
      s := s + [CHARACTERS[picks[0]]];
    }
  }

  /** The keys of one partition and home: the first `numHotKeys` added
    * are hot, the rest cold. */
  class KeyList {
    const numHotKeys: nat
    var hotKeys: seq<Key>
    var coldKeys: seq<Key>

    /** The cold list grows only once the hot list is full. */
    predicate Valid()
      reads this`hotKeys, this`coldKeys
    {
      |hotKeys| <= numHotKeys && (coldKeys != [] ==> |hotKeys| == numHotKeys)
    }

    constructor (numHotKeys: nat)
      ensures this.numHotKeys == numHotKeys && hotKeys == [] && coldKeys == []
      ensures Valid()
    {
      this.numHotKeys := numHotKeys;
      hotKeys := [];
      coldKeys := [];
    }

    /** AddKey appends to the hot list while it has room, else to the cold
      * list. */
    method AddKey(key: Key)
      requires Valid()
      modifies this`hotKeys, this`coldKeys
      ensures Valid()
      ensures hotKeys + coldKeys == old(hotKeys + coldKeys) + [key]
      ensures old(|hotKeys|) < numHotKeys ==> hotKeys == old(hotKeys) + [key] && coldKeys == old(coldKeys)
      ensures old(|hotKeys|) >= numHotKeys ==> hotKeys == old(hotKeys) && coldKeys == old(coldKeys) + [key]
    {
      if |hotKeys| < numHotKeys {
        hotKeys := hotKeys + [key];
        return;
      }
      coldKeys := coldKeys + [key];
    }

    method GetRandomHotKey() returns (r: Result<Key, WorkloadError>)
      ensures r.Err? <==> hotKeys == []
      ensures r.Err? ==> r.error == NoHotKey
      ensures r.Ok? ==> r.value in hotKeys
    {
      if hotKeys == [] {
        return Err(NoHotKey);
      }
      var key := PickOne(hotKeys);
      return Ok(key);
    }

    method GetRandomColdKey() returns (r: Result<Key, WorkloadError>)
      ensures r.Err? <==> coldKeys == []
      ensures r.Err? ==> r.error == NoColdKey
      ensures r.Ok? ==> r.value in coldKeys
    {
      if coldKeys == [] {
        return Err(NoColdKey);
      }
      var key := PickOne(coldKeys);
      return Ok(key);
    }
  }

  /** Under Valid, the hot list is the first `numHotKeys` keys ever added
    * and the cold list all the others, in the order they were added. */
  lemma HotKeysComeFirst(hot: seq<Key>, cold: seq<Key>, numHotKeys: nat)
    requires |hot| <= numHotKeys && (cold != [] ==> |hot| == numHotKeys)
    ensures var added := hot + cold;
            hot == added[..Min(numHotKeys, |added|)] && cold == added[Min(numHotKeys, |added|)..]
  {
    var added := hot + cold;
    assert added[..|hot|] == hot;
    assert added[|hot|..] == cold;
  }

  /** The code text of the reads: "GET <key> " for each. */
  function GetsText(keys: seq<Key>): string
  {
    if keys == [] then "" else GetsText(keys[..|keys| - 1]) + "GET " + keys[|keys| - 1] + " "
  }

  /** The code text of the writes: "SET <key> <value> " for each. */
  function SetsText(writeKeys: seq<Key>, values: seq<string>): string
    requires |writeKeys| == |values|
  {
    if writeKeys == [] then ""
    else
      var n := |writeKeys| - 1;
      SetsText(writeKeys[..n], values[..n]) + "SET " + writeKeys[n] + " " + values[n] + " "
  }

  function AsSet(s: seq<Key>): (r: set<Key>)
    ensures forall k :: k in r <==> k in s
  {
    set k | k in s
  }

  class BasicWorkload {
    const config: Configurations.Configuration
    const params: WorkloadParams
    /** The key lists, indexed by partition and then by home replica. */
    const keyLists: seq<seq<KeyList>>

    /** A list per partition and home replica. */
    predicate Shaped()
    {
      |keyLists| == config.GetNumPartitions()
      && forall p :: 0 <= p < |keyLists| ==> |keyLists[p]| == config.GetNumReplicas()
    }

    /** `key` is a cold key of the list for `source` (partition, home). */
    predicate ColdIn(key: Key, source: (nat, nat))
      requires Shaped()
      reads set p, h | 0 <= p < |keyLists| && 0 <= h < |keyLists[p]| :: keyLists[p][h]
    {
      source.0 < |keyLists| && source.1 < |keyLists[source.0]| && key in keyLists[source.0][source.1].coldKeys
    }

    /** The key lists start empty with no hot keys; loading the data files
      * is not modelled here, see IndexDatum. */
    constructor (config: Configurations.Configuration, params: WorkloadParams)
      ensures this.config == config && this.params == params
      ensures Shaped()
      ensures forall p, h :: 0 <= p < |keyLists| && 0 <= h < |keyLists[p]| ==>
                fresh(keyLists[p][h]) && keyLists[p][h].numHotKeys == 0
                && keyLists[p][h].hotKeys == [] && keyLists[p][h].coldKeys == []
    {
      var lists: seq<seq<KeyList>> := [];
      for p := 0 to config.GetNumPartitions()
        invariant |lists| == p
        invariant forall q, h :: 0 <= q < p && 0 <= h < |lists[q]| ==>
                    fresh(lists[q][h]) && lists[q][h].numHotKeys == 0
                    && lists[q][h].hotKeys == [] && lists[q][h].coldKeys == []
        invariant forall q :: 0 <= q < p ==> |lists[q]| == config.GetNumReplicas()
      {
        var row: seq<KeyList> := [];
        for h := 0 to config.GetNumReplicas()
          invariant |row| == h
          invariant forall q, h :: 0 <= q < p && 0 <= h < |lists[q]| ==>
                      fresh(lists[q][h]) && lists[q][h].numHotKeys == 0
                      && lists[q][h].hotKeys == [] && lists[q][h].coldKeys == []
          invariant forall i :: 0 <= i < h ==>
                      fresh(row[i]) && row[i].numHotKeys == 0 && row[i].hotKeys == [] && row[i].coldKeys == []
        {
          var list := new KeyList(0);
          row := row + [list];
        }
        lists := lists + [row];
      }
      this.config := config;
      this.params := params;
      keyLists := lists;
    }

    /** One datum of a partition's data file is indexed under its master,
      * which must be an existing replica. */
    method IndexDatum(partition: nat, key: Key, master: nat) returns (r: Result<(), WorkloadError>)
      requires Shaped() && partition < config.GetNumPartitions()
      requires master < config.GetNumReplicas() ==> keyLists[partition][master].Valid()
      modifies if master < config.GetNumReplicas() then {keyLists[partition][master]} else {}
      ensures r.Err? <==> master >= config.GetNumReplicas()
      ensures r.Err? ==> r.error == NoSuchReplica
      ensures r.Ok? ==>
                var list := keyLists[partition][master];
                list.Valid() && list.hotKeys + list.coldKeys == old(list.hotKeys + list.coldKeys) + [key]
    {
      if master >= config.GetNumReplicas() {
        return Err(NoSuchReplica);
      }
      keyLists[partition][master].AddKey(key);
      return Ok(());
    }

    /** One record of the transaction: a partition among `partitions`, a
      * home among `homes` and a cold key of that list. */
    method PickKey(partitions: seq<nat>, homes: seq<nat>)
      returns (r: Result<Key, WorkloadError>, ghost source: (nat, nat))
      requires Shaped() && |partitions| > 0 && |homes| > 0
      requires forall i :: 0 <= i < |partitions| ==> partitions[i] < config.GetNumPartitions()
      requires forall i :: 0 <= i < |homes| ==> homes[i] < config.GetNumReplicas()
      ensures source.0 in partitions && source.1 in homes
      ensures r.Err? ==> r.error == NoColdKey
      ensures r.Ok? ==> ColdIn(r.value, source)
    {
      var partition := PickOne(partitions);
      var home := PickOne(homes);
      source := (partition, home);
      r := keyLists[partition][home].GetRandomColdKey();
    }

    /** The records of a transaction in order, readKeys first: each key is a
      * cold key of its source, the sources' partitions are among
      * `partitions` and their homes among `homes`. */
    ghost predicate PickedFrom(keys: seq<Key>, sources: seq<(nat, nat)>, partitions: seq<nat>, homes: seq<nat>)
      requires Shaped()
      reads set p, h | 0 <= p < |keyLists| && 0 <= h < |keyLists[p]| :: keyLists[p][h]
    {
      |keys| == |sources|
      && forall i :: 0 <= i < |keys| ==> ColdIn(keys[i], sources[i]) && sources[i].0 in partitions && sources[i].1 in homes
    }

    /** `count` read records: their keys and their GET text. */
    method PickReads(count: nat, partitions: seq<nat>, homes: seq<nat>)
      returns (r: Result<seq<Key>, WorkloadError>, code: string, ghost sources: seq<(nat, nat)>)
      requires Shaped() && |partitions| > 0 && |homes| > 0
      requires forall i :: 0 <= i < |partitions| ==> partitions[i] < config.GetNumPartitions()
      requires forall i :: 0 <= i < |homes| ==> homes[i] < config.GetNumReplicas()
      ensures r.Err? ==> r.error == NoColdKey
      ensures r.Ok? ==> |r.value| == count && code == GetsText(r.value) && PickedFrom(r.value, sources, partitions, homes)
    {
      var keys: seq<Key> := [];
      code, sources := "", [];
      for i := 0 to count
        invariant |keys| == i && code == GetsText(keys)
        invariant PickedFrom(keys, sources, partitions, homes)
      {
        var key; ghost var source;
        key, source := PickKey(partitions, homes);
        if key.Err? {
          return Err(key.error), code, sources;
        }
        GetsTextSnoc(keys, key.value);
        code := code + "GET " + key.value + " ";
        keys, sources := keys + [key.value], sources + [source];
      }
      r := Ok(keys);
    }

    /** `count` write records: their keys, their random values of
      * `valueSize` characters and their SET text. */
    method PickWrites(count: nat, partitions: seq<nat>, homes: seq<nat>)
      returns (r: Result<seq<Key>, WorkloadError>, code: string, ghost values: seq<string>,
               ghost sources: seq<(nat, nat)>)
      requires Shaped() && |partitions| > 0 && |homes| > 0
      requires forall i :: 0 <= i < |partitions| ==> partitions[i] < config.GetNumPartitions()
      requires forall i :: 0 <= i < |homes| ==> homes[i] < config.GetNumReplicas()
      ensures r.Err? ==> r.error == NoColdKey
      ensures r.Ok? ==>
                |r.value| == count && |values| == count && code == SetsText(r.value, values)
                && (forall i :: 0 <= i < count ==> |values[i]| == params.valueSize)
                && PickedFrom(r.value, sources, partitions, homes)
    {
      var keys: seq<Key> := [];
      code, values, sources := "", [], [];
      for i := 0 to count
        invariant |keys| == i && |values| == i && code == SetsText(keys, values)
        invariant forall j :: 0 <= j < i ==> |values[j]| == params.valueSize
        invariant PickedFrom(keys, sources, partitions, homes)
      {
        var key; ghost var source;
        key, source := PickKey(partitions, homes);
        if key.Err? {
          return Err(key.error), code, values, sources;
        }
        var value := RandomString(params.valueSize);
        SetsTextSnoc(keys, values, key.value, value);
        code := code + "SET " + key.value + " " + value + " ";
        keys, values, sources := keys + [key.value], values + [value], sources + [source];
      }
      r := Ok(keys);
    }

    /** Records picked in two runs, one after the other. */
    lemma PickedFromConcat(keys1: seq<Key>, sources1: seq<(nat, nat)>, keys2: seq<Key>, sources2: seq<(nat, nat)>,
                           partitions: seq<nat>, homes: seq<nat>)
      requires Shaped()
      requires PickedFrom(keys1, sources1, partitions, homes) && PickedFrom(keys2, sources2, partitions, homes)
      ensures PickedFrom(keys1 + keys2, sources1 + sources2, partitions, homes)
    {
      var keys, sources := keys1 + keys2, sources1 + sources2;
      forall i | 0 <= i < |keys|
        ensures ColdIn(keys[i], sources[i]) && sources[i].0 in partitions && sources[i].1 in homes
      {
        if i >= |keys1| {
          assert keys[i] == keys2[i - |keys1|] && sources[i] == sources2[i - |keys1|];
        }
      }
    }

    /** NextTransaction draws whether the transaction is multi-partition
      * and multi-home (the two percentages' draws are the parameters),
      * chooses the candidate partitions and homes, then picks the read
      * records and the write records, each write with a fresh random
      * value. */
    method NextTransaction(isMultiPartition: bool, isMultiHome: bool)
      returns (r: Result<Transaction, WorkloadError>, ghost readKeys: seq<Key>, ghost writeKeys: seq<Key>,
               ghost values: seq<string>, ghost partitions: seq<nat>, ghost homes: seq<nat>,
               ghost sources: seq<(nat, nat)>)
      requires Shaped() && config.GetNumPartitions() > 0 && config.GetNumReplicas() > 0
      requires params.mpNumPartitions > 0 && params.mhNumHomes > 0
      ensures params.numWrites > params.numRecords ==> r == Err(TooManyWrites)
      ensures r.Err? ==> r.error == TooManyWrites || r.error == NoColdKey
      ensures r.Ok? ==>
                |readKeys| == params.numRecords - params.numWrites && |writeKeys| == params.numWrites
                && |values| == |writeKeys|
                && (forall i :: 0 <= i < |values| ==> |values[i]| == params.valueSize)
                && r.value.readSet.Keys == AsSet(readKeys) && r.value.writeSet.Keys == AsSet(writeKeys)
                && r.value.procedure == Code(GetsText(readKeys) + SetsText(writeKeys, values))
                && r.value.metadata == map[] && r.value.status == NOT_STARTED
      // the records come from the chosen candidates: one partition unless
      // multi-partition, one home unless multi-home
      ensures r.Ok? ==>
                PickedFrom(readKeys + writeKeys, sources, partitions, homes)
                && Distinct(partitions) && Distinct(homes)
                && |partitions| == Min(config.GetNumPartitions(), if isMultiPartition then params.mpNumPartitions else 1)
                && |homes| == Min(config.GetNumReplicas(), if isMultiHome then params.mhNumHomes else 1)
    {
      readKeys, writeKeys, values, sources := [], [], [], [];
      partitions, homes := [], [];
      if params.numWrites > params.numRecords {
        return Err(TooManyWrites), readKeys, writeKeys, values, partitions, homes, sources;
      }
      var candidatePartitions := Choose(config.GetNumPartitions(),
                                        if isMultiPartition then params.mpNumPartitions else 1);
      var candidateHomes := Choose(config.GetNumReplicas(), if isMultiHome then params.mhNumHomes else 1);
      partitions, homes := candidatePartitions, candidateHomes;
      var readResult, getsCode, readSources := PickReads(params.numRecords - params.numWrites,
                                                    candidatePartitions, candidateHomes);
      if readResult.Err? {
        return Err(readResult.error), readKeys, writeKeys, values, partitions, homes, sources;
      }
      var writeResult, setsCode, writeValues, writeSources := PickWrites(params.numWrites,
                                                                    candidatePartitions, candidateHomes);
      if writeResult.Err? {
        return Err(writeResult.error), readKeys, writeKeys, values, partitions, homes, sources;
      }
      readKeys, writeKeys, values := readResult.value, writeResult.value, writeValues;
      PickedFromConcat(readKeys, readSources, writeKeys, writeSources, partitions, homes);
      sources := readSources + writeSources;
      var txn := ProtoUtils.MakeTransaction(AsSet(readResult.value), AsSet(writeResult.value), getsCode + setsCode, map[],
                                            MachineId(0, 0), -1);
      r := Ok(txn);
    }
  }

  /** Appending a read appends its GET text. */
  lemma GetsTextSnoc(keys: seq<Key>, key: Key)
    ensures GetsText(keys + [key]) == GetsText(keys) + "GET " + key + " "
  {
    assert (keys + [key])[..|keys|] == keys;
  }

  /** Appending a write appends its SET text. */
  lemma SetsTextSnoc(writeKeys: seq<Key>, values: seq<string>, key: Key, value: string)
    requires |writeKeys| == |values|
    ensures SetsText(writeKeys + [key], values + [value]) == SetsText(writeKeys, values) + "SET " + key + " " + value + " "
  {
    assert (writeKeys + [key])[..|writeKeys|] == writeKeys;
    assert (values + [value])[..|values|] == values;
  }
}
