/** The cluster configuration: addresses, the partitioning of keys by FNV
  * hash and the identity of the local machine (common/configuration.cpp). */
module Configurations {
  import opened Types
  import opened Bits
  import opened Fnv
  import ProtoUtils
  import Wrappers

  const UINT64_LIMIT: nat := 0x1_0000_0000_0000_0000

  /** The configuration message: for each replica the addresses of its
    * partitions, and the settings the model uses. */
  datatype ConfigMessage = ConfigMessage(
    replicas: seq<seq<string>>,
    numPartitions: nat,
    numWorkers: nat,
    partitionKeyNumBytes: nat)

  /** The concatenation of a sequence of sequences, in order. */
  function Concat<T>(rows: seq<seq<T>>): seq<T>
  {
    if rows == [] then [] else Concat(rows[..|rows| - 1]) + rows[|rows| - 1]
  }

  /** When every row has n elements, the concatenation has |rows| * n. */
  lemma {:induction false} ConcatLength<T>(rows: seq<seq<T>>, n: nat)
    requires forall r :: 0 <= r < |rows| ==> |rows[r]| == n
    ensures |Concat(rows)| == |rows| * n
  {
    if rows != [] {
      var init := rows[..|rows| - 1];
      ConcatLength(init, n);
      assert Concat(rows) == Concat(init) + rows[|rows| - 1];
      MulSucc(|init|, n);
    }
  }

  lemma MulSucc(a: nat, n: nat)
    ensures (a + 1) * n == a * n + n
  {
  }

  /** When every row has n elements, element p of row r is element
    * r * n + p of the concatenation. */
  lemma {:induction false} ConcatIndex<T>(rows: seq<seq<T>>, n: nat, r: nat, p: nat)
    requires forall i :: 0 <= i < |rows| ==> |rows[i]| == n
    requires r < |rows| && p < n
    ensures r * n + p < |Concat(rows)|
    ensures Concat(rows)[r * n + p] == rows[r][p]
  {
    var last := |rows| - 1;
    var init := rows[..last];
    ConcatLength(init, n);
    ConcatLength(rows, n);
    if r < last {
      ConcatIndex(init, n, r, p);
      MulLess(r, last, n, p);
    }
  }

  lemma MulLess(r: nat, last: nat, n: nat, p: nat)
    requires r < last && p < n
    ensures r * n + p < last * n
  {
    assert (last - r) * n >= n by { MulAtLeast(n, last - r); }
    assert last * n == r * n + (last - r) * n;
  }

  /** The octet value sign-extended to 64 bits, as `hash ^= *it` does with
    * a signed char. */
  function SignExtend64(b: Byte): (v: nat)
    ensures v < UINT64_LIMIT
  {
    if b < 0x80 then b else UINT64_LIMIT - 0x100 + b
  }

  /** FNVHash: the loop keeps a 64-bit hash, multiplies modulo 2^32 and
    * exclusive-ors in each sign-extended character; the 32-bit result is the
    * FNV-1 variant on sign-extended octets. */
  method FnvHash(bytes: seq<Byte>) returns (h: nat)
    ensures h == FnvSignedChars(bytes)
    ensures h < UINT32_LIMIT
  {
    var hash: nat := FNV_OFFSET_BASIS;
    var i := 0;
    while i < |bytes|
      invariant 0 <= i <= |bytes|
      invariant hash < UINT64_LIMIT
      invariant hash % UINT32_LIMIT == FnvSignedChars(bytes[..i])
    {
      StepIn64Bits(hash, bytes[i]);
      hash := (hash * FNV_PRIME) % UINT64_LIMIT % UINT32_LIMIT;
      hash := Xor(hash, SignExtend64(bytes[i]), 64);
      assert bytes[..i + 1][..i] == bytes[..i];
      i := i + 1;
    }
    assert bytes[..i] == bytes;
    h := hash % UINT32_LIMIT;
  }

  /** One step of the 64-bit loop agrees with the 32-bit FNV step on the low
    * 32 bits: the sign extension only sets high bits, which the next
    * multiplication modulo 2^32 and the final truncation discard. */
  lemma StepIn64Bits(hash: nat, b: Byte)
    ensures Xor((hash * FNV_PRIME) % UINT64_LIMIT % UINT32_LIMIT, SignExtend64(b), 64) < UINT64_LIMIT
    ensures Xor((hash * FNV_PRIME) % UINT64_LIMIT % UINT32_LIMIT, SignExtend64(b), 64) % UINT32_LIMIT ==
            Step(hash % UINT32_LIMIT, SignExtend32(b))
  {
    Pow2Widths();
    var h1 := (hash * FNV_PRIME) % UINT64_LIMIT % UINT32_LIMIT;
    TruncatedProduct(hash);
    var e := SignExtend64(b);
    XorLowBits(h1, e, 64, 32);
    XorLowOperands(h1, e, 32);
    SignExtendLow(b);
    ProtoUtils.SmallModulo(h1, UINT32_LIMIT);
  }

  /** Multiplying in 64 bits and keeping the low 32 bits is multiplying the
    * low 32 bits modulo 2^32. */
  lemma TruncatedProduct(hash: nat)
    ensures (hash * FNV_PRIME) % UINT64_LIMIT % UINT32_LIMIT == (hash % UINT32_LIMIT) * FNV_PRIME % UINT32_LIMIT
  {
    ModOfMultiple(hash * FNV_PRIME, UINT32_LIMIT, UINT32_LIMIT);
    ModMulLeft(hash, FNV_PRIME, UINT32_LIMIT);
  }

  /** The low 32 bits of the 64-bit sign extension are the 32-bit one. */
  lemma SignExtendLow(b: Byte)
    ensures SignExtend64(b) % UINT32_LIMIT == SignExtend32(b)
  {
    if b >= 0x80 {
      DivModUnique(SignExtend64(b), UINT32_LIMIT, UINT32_LIMIT - 1, UINT32_LIMIT - 0x100 + b);
    }
  }

  /** The partition of a key: the hash of its first partitionKeyNumBytes
    * octets (all of them for a shorter key) modulo the partition count. */
  function PartitionOfKey(key: Key, partitionKeyNumBytes: nat, numPartitions: nat): (p: nat)
    requires numPartitions >= 1
    ensures p < numPartitions
  {
    var end := if partitionKeyNumBytes >= |key| then |key| else partitionKeyNumBytes;
    FnvSignedChars(KeyBytes(key)[..end]) % numPartitions
  }

  /** Keys that share their first partitionKeyNumBytes octets share a
    * partition. */
  lemma SharedPrefixSamePartition(k1: Key, k2: Key, n: nat, numPartitions: nat)
    requires numPartitions >= 1 && |k1| >= n && |k2| >= n
    requires KeyBytes(k1)[..n] == KeyBytes(k2)[..n]
    ensures PartitionOfKey(k1, n, numPartitions) == PartitionOfKey(k2, n, numPartitions)
  {
  }

  /** A key of ASCII characters lands on the partition that FNV-1 over its
    * octets names, as the data generation tool computes it. */
  lemma AsciiKeyPartition(key: Key, n: nat, numPartitions: nat)
    requires numPartitions >= 1
    requires forall i :: 0 <= i < |key| ==> key[i] as int < 0x80
    ensures PartitionOfKey(key, n, numPartitions) ==
              Fnv1(KeyBytes(key)[..if n >= |key| then |key| else n]) % numPartitions
  {
    var bs := KeyBytes(key)[..if n >= |key| then |key| else n];
    assert IsAscii(bs) by {
      forall i | 0 <= i < |bs| ensures bs[i] < 0x80 { assert bs[i] == ByteOf(key[i]); }
    }
    SignedCharsAgreeOnAscii(bs);
  }

  /** The list of all machine ids "r:p", replica-major. */
  function MachineIdRows(numReplicas: nat, numPartitions: nat): seq<seq<string>>
  {
    seq(numReplicas, r requires 0 <= r < numReplicas =>
      seq(numPartitions, p requires 0 <= p < numPartitions => ProtoUtils.MakeMachineIdAsString(r, p)))
  }

  class Configuration {
    const config: ConfigMessage
    const localAddress: string
    const localReplica: nat
    const localPartition: nat
    const allAddresses: seq<string>

    /** The constructor: every replica must list one address per partition;
      * all addresses are their replica-major concatenation. */
    constructor (config: ConfigMessage, localAddress: string, localReplica: nat, localPartition: nat)
      requires forall r :: 0 <= r < |config.replicas| ==> |config.replicas[r]| == config.numPartitions
      ensures this.config == config && this.localAddress == localAddress
      ensures this.localReplica == localReplica && this.localPartition == localPartition
      ensures allAddresses == Concat(config.replicas)
    {
      var all: seq<string> := [];
      var r := 0;
      while r < |config.replicas|
        invariant 0 <= r <= |config.replicas|
        invariant all == Concat(config.replicas[..r])
      {
        var addresses := config.replicas[r];
        var j := 0;
        while j < |addresses|
          invariant 0 <= j <= |addresses|
          invariant all == Concat(config.replicas[..r]) + addresses[..j]
        {
          all := all + [addresses[j]];
          assert addresses[..j + 1] == addresses[..j] + [addresses[j]];
          j := j + 1;
        }
        assert addresses[..j] == addresses;
        assert config.replicas[..r + 1][..r] == config.replicas[..r];
        r := r + 1;
      }
      assert config.replicas[..r] == config.replicas;
      this.config := config;
      this.localAddress := localAddress;
      this.localReplica := localReplica;
      this.localPartition := localPartition;
      allAddresses := all;
    }

    ghost predicate Valid()
    {
      (forall r :: 0 <= r < |config.replicas| ==> |config.replicas[r]| == config.numPartitions) &&
      allAddresses == Concat(config.replicas)
    }

    function GetNumReplicas(): nat { |config.replicas| }

    function GetNumPartitions(): nat { config.numPartitions }

    /** GetNumWorkers: the configured count, but at least one. */
    function GetNumWorkers(): (n: nat)
      ensures n >= 1
      ensures config.numWorkers >= 1 ==> n == config.numWorkers
    {
      if config.numWorkers >= 1 then config.numWorkers else 1
    }

    function GetAddress(replica: nat, partition: nat): string
      requires replica < |config.replicas| && partition < |config.replicas[replica]|
    {
      config.replicas[replica][partition]
    }

    /** GetNumReplicas and GetNumPartitions count the addresses: there are
      * replicas * partitions of them. */
    lemma AddressCount()
      requires Valid()
      ensures |allAddresses| == GetNumReplicas() * GetNumPartitions()
    {
      ConcatLength(config.replicas, config.numPartitions);
    }

    /** Address p of replica r is entry r * numPartitions + p of all
      * addresses. */
    lemma AllAddressesIndex(replica: nat, partition: nat)
      requires Valid()
      requires replica < GetNumReplicas() && partition < GetNumPartitions()
      ensures |allAddresses| == GetNumReplicas() * GetNumPartitions()
      ensures replica * GetNumPartitions() + partition < |allAddresses| &&
              allAddresses[replica * GetNumPartitions() + partition] == GetAddress(replica, partition)
    {
      ConcatLength(config.replicas, config.numPartitions);
      ConcatIndex(config.replicas, config.numPartitions, replica, partition);
    }

    /** GetAllMachineIds: "r:p" for every replica r and partition p, in
      * replica-major order. */
    method GetAllMachineIds() returns (ids: seq<string>)
      ensures ids == Concat(MachineIdRows(GetNumReplicas(), GetNumPartitions()))
    {
      var numReps, numParts := GetNumReplicas(), GetNumPartitions();
      var rows := MachineIdRows(numReps, numParts);
      ids := [];
      var rep := 0;
      while rep < numReps
        invariant 0 <= rep <= numReps
        invariant ids == Concat(rows[..rep])
      {
        var part := 0;
        while part < numParts
          invariant 0 <= part <= numParts
          invariant ids == Concat(rows[..rep]) + rows[rep][..part]
        {
          ids := ids + [ProtoUtils.MakeMachineIdAsString(rep, part)];
          assert rows[rep][..part + 1] == rows[rep][..part] + [rows[rep][part]];
          part := part + 1;
        }
        assert rows[rep][..part] == rows[rep];
        assert rows[..rep + 1][..rep] == rows[..rep];
        rep := rep + 1;
      }
      assert rows[..rep] == rows;
    }

    /** Every machine id appears once, at position r * numPartitions + p,
      * and parses back to (r, p). */
    lemma AllMachineIdsProperties(replica: nat, partition: nat)
      requires replica < GetNumReplicas() && partition < GetNumPartitions()
      requires GetNumReplicas() <= UINT32_LIMIT && GetNumPartitions() <= UINT32_LIMIT
      ensures var ids := Concat(MachineIdRows(GetNumReplicas(), GetNumPartitions()));
              |ids| == GetNumReplicas() * GetNumPartitions() &&
              replica * GetNumPartitions() + partition < |ids| &&
              ProtoUtils.MakeMachineId(ids[replica * GetNumPartitions() + partition]) ==
                Wrappers.Ok(MachineId(replica, partition))
    {
      var rows := MachineIdRows(GetNumReplicas(), GetNumPartitions());
      ConcatLength(rows, GetNumPartitions());
      ConcatIndex(rows, GetNumPartitions(), replica, partition);
      assert rows[replica][partition] == ProtoUtils.MakeMachineIdAsString(replica, partition);
      ProtoUtils.MachineIdRoundTrip(replica, partition);
    }

    function GetLocalReplica(): nat { localReplica }

    function GetLocalPartition(): nat { localPartition }

    function GetLocalMachineIdAsProto(): MachineId { MachineId(localReplica, localPartition) }

    function GetLocalMachineIdAsString(): string
    {
      ProtoUtils.MakeMachineIdAsString(localReplica, localPartition)
    }

    /** The forms of the local machine id agree: the "r:p" string parses
      * back to the id of the local replica and partition. */
    lemma LocalMachineIdsAgree()
      requires localReplica < UINT32_LIMIT && localPartition < UINT32_LIMIT
      ensures GetLocalMachineIdAsProto() == MachineId(GetLocalReplica(), GetLocalPartition())
      ensures ProtoUtils.MakeMachineId(GetLocalMachineIdAsString()) == Wrappers.Ok(GetLocalMachineIdAsProto())
    {
      ProtoUtils.MachineIdRoundTrip(localReplica, localPartition);
    }

    /** Without wrap-around, the local machine number is the position of
      * the local "r:p" string among all machine ids. */
    lemma LocalMachineIdPosition()
      requires localReplica < GetNumReplicas() && localPartition < GetNumPartitions()
      requires localReplica * GetNumPartitions() + localPartition < UINT32_LIMIT
      ensures var ids := Concat(MachineIdRows(GetNumReplicas(), GetNumPartitions()));
              GetLocalMachineIdAsNumber() < |ids| && ids[GetLocalMachineIdAsNumber()] == GetLocalMachineIdAsString()
    {
      var n := localReplica * config.numPartitions + localPartition;
      assert GetLocalMachineIdAsNumber() == n by {
        ProtoUtils.SmallModulo(n, UINT32_LIMIT);
      }
      var rows := MachineIdRows(GetNumReplicas(), GetNumPartitions());
      ConcatIndex(rows, GetNumPartitions(), localReplica, localPartition);
      assert rows[localReplica][localPartition] == GetLocalMachineIdAsString();
    }

    /** GetLocalMachineIdAsNumber: replica * numPartitions + partition in
      * 32-bit unsigned arithmetic. */
    function GetLocalMachineIdAsNumber(): (n: nat)
      ensures n < UINT32_LIMIT
    {
      (localReplica * config.numPartitions + localPartition) % UINT32_LIMIT
    }

    /** Without wrap-around the number identifies the local machine:
      * dividing by the partition count gives back replica and partition. */
    lemma LocalMachineIdNumberDecodes()
      requires localPartition < config.numPartitions
      requires localReplica * config.numPartitions + localPartition < UINT32_LIMIT
      ensures GetLocalMachineIdAsNumber() / config.numPartitions == localReplica
      ensures GetLocalMachineIdAsNumber() % config.numPartitions == localPartition
    {
      var n := localReplica * config.numPartitions + localPartition;
      assert GetLocalMachineIdAsNumber() == n;
      DivModUnique(n, config.numPartitions, localReplica, localPartition);
    }

    /** GetLeaderPartitionForMultiHomeOrdering: the last partition (the
      * count minus one in 32-bit unsigned arithmetic), so not partition 0
      * once there are two partitions. */
    function GetLeaderPartitionForMultiHomeOrdering(): (p: nat)
      ensures config.numPartitions >= 1 ==> p < config.numPartitions && p + 1 == config.numPartitions
      ensures config.numPartitions >= 2 ==> p != 0
      ensures config.numPartitions == 0 ==> p == UINT32_LIMIT - 1
    {
      if config.numPartitions == 0 then UINT32_LIMIT - 1 else config.numPartitions - 1
    }

    /** GetPartitionOfKey: hashes the key's leading octets with FNVHash. */
    method GetPartitionOfKey(key: Key) returns (p: nat)
      requires config.numPartitions >= 1
      ensures p == PartitionOfKey(key, config.partitionKeyNumBytes, config.numPartitions)
      ensures p < config.numPartitions
    {
      var end := if config.partitionKeyNumBytes >= |key| then |key| else config.partitionKeyNumBytes;
      var h := FnvHash(KeyBytes(key)[..end]);
      p := h % config.numPartitions;
    }

    /** KeyIsInLocalPartition: the key's partition is the local one. */
    method KeyIsInLocalPartition(key: Key) returns (b: bool)
      requires config.numPartitions >= 1
      ensures b <==> IsLocalKey(key)
    {
      var p := GetPartitionOfKey(key);
      b := p == localPartition;
    }

    predicate IsLocalKey(key: Key)
      requires config.numPartitions >= 1
    {
      PartitionOfKey(key, config.partitionKeyNumBytes, config.numPartitions) == localPartition
    }
  }
}
