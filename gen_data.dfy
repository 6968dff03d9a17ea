/** Initial data generation (tools/gen_data.py): keys are the base64 form
  * of their 8-octet little-endian encoding, spread over partitions by
  * FNV-1, and each datum is written as "key,record,master". */
module GenData {
  import opened Wrappers
  import opened Types
  import opened Fnv
  import FnvHashTool
  import ProtoUtils
  import Configurations

  const KEY_SIZE: nat := 12
  const MASTER_SIZE: nat := 2
  /** The octets of a key before encoding. */
  const KEY_OCTETS: nat := 8

  /* ---------- Base64, section 4 of RFC 4648 ---------- */

  predicate IsBase64Char(c: char)
  {
    'A' <= c <= 'Z' || 'a' <= c <= 'z' || '0' <= c <= '9' || c == '+' || c == '/'
  }

  /** The character of a 6-bit value in the base64 alphabet. */
  function EncodeChar(v: nat): (c: char)
    requires v < 64
    ensures IsBase64Char(c)
  {
    if v < 26 then (65 + v) as char
    else if v < 52 then (97 + v - 26) as char
    else if v < 62 then (48 + v - 52) as char
    else if v == 62 then '+'
    else '/'
  }

  /** The 6-bit value of a base64 character. */
  function DecodeChar(c: char): (v: nat)
    requires IsBase64Char(c)
    ensures v < 64 && EncodeChar(v) == c
  {
    if 'A' <= c <= 'Z' then c as int - 65
    else if 'a' <= c <= 'z' then c as int - 97 + 26
    else if '0' <= c <= '9' then c as int - 48 + 52
    else if c == '+' then 62
    else 63
  }

  lemma DecodeEncodeChar(v: nat)
    requires v < 64
    ensures DecodeChar(EncodeChar(v)) == v
  {
  }

  /** The six-bit groups of three octets, most significant first. */
  function Sextets(b0: Byte, b1: Byte, b2: Byte): (c: (nat, nat, nat, nat))
    ensures c.0 < 64 && c.1 < 64 && c.2 < 64 && c.3 < 64
  {
    (b0 / 4, (b0 % 4) * 16 + b1 / 16, (b1 % 16) * 4 + b2 / 64, b2 % 64)
  }

  /** Four characters for three octets. */
  function Quad(b0: Byte, b1: Byte, b2: Byte): (q: string)
    ensures |q| == 4
  {
    var c := Sextets(b0, b1, b2);
    [EncodeChar(c.0), EncodeChar(c.1), EncodeChar(c.2), EncodeChar(c.3)]
  }

  /** The base64 encoding of an octet string: every three octets become
    * four characters; a final one or two octets are padded with zero bits
    * and '='. */
  function Base64Encode(bs: seq<Byte>): (s: string)
    ensures |s| == 4 * ((|bs| + 2) / 3)
  {
    if |bs| == 0 then ""
    else if |bs| == 1 then Quad(bs[0], 0, 0)[..2] + "=="
    else if |bs| == 2 then Quad(bs[0], bs[1], 0)[..3] + "="
    else
      GroupsStep(|bs|);
      Quad(bs[0], bs[1], bs[2]) + Base64Encode(bs[3..])
  }

  /** One more group of three octets is one more group of four characters. */
  lemma GroupsStep(n: nat)
    requires n >= 3
    ensures 4 * ((n + 2) / 3) == 4 + 4 * ((n - 3 + 2) / 3)
  {
    assert (n + 2) / 3 == (n - 3 + 2) / 3 + 1;
  }

  /** The octets of four six-bit groups. */
  function Octets(c0: nat, c1: nat, c2: nat, c3: nat): (b: (Byte, Byte, Byte))
    requires c0 < 64 && c1 < 64 && c2 < 64 && c3 < 64
  {
    (c0 * 4 + c1 / 16, (c1 % 16) * 16 + c2 / 4, (c2 % 4) * 64 + c3)
  }

  /** Decoding of one group of four characters. */
  function DecodeQuad(q: string): Option<seq<Byte>>
    requires |q| == 4
  {
    if !IsBase64Char(q[0]) || !IsBase64Char(q[1]) then None
    else if q[2] == '=' && q[3] == '=' then
      Some([Octets(DecodeChar(q[0]), DecodeChar(q[1]), 0, 0).0])
    else if !IsBase64Char(q[2]) then None
    else if q[3] == '=' then
      var b := Octets(DecodeChar(q[0]), DecodeChar(q[1]), DecodeChar(q[2]), 0);
      Some([b.0, b.1])
    else if !IsBase64Char(q[3]) then None
    else
      var b := Octets(DecodeChar(q[0]), DecodeChar(q[1]), DecodeChar(q[2]), DecodeChar(q[3]));
      Some([b.0, b.1, b.2])
  }

  /** Base64 decoding; padding is accepted only in the last group. */
  function Base64Decode(s: string): Option<seq<Byte>>
    decreases |s|
  {
    if s == [] then Some([])
    else if |s| < 4 then None
    else match DecodeQuad(s[..4])
      case None => None
      case Some(bs) =>
        if |bs| < 3 && |s| > 4 then None
        else match Base64Decode(s[4..])
          case None => None
          case Some(rest) => Some(bs + rest)
  }

  lemma OctetsOfSextets(b0: Byte, b1: Byte, b2: Byte)
    ensures var c := Sextets(b0, b1, b2); Octets(c.0, c.1, c.2, c.3) == (b0, b1, b2)
  {
    var c := Sextets(b0, b1, b2);
    assert c.1 / 16 == b0 % 4;
    assert c.1 % 16 == b1 / 16;
    assert c.2 / 4 == b1 % 16;
    assert c.2 % 4 == b2 / 64;
  }

  lemma QuadRoundTrip(b0: Byte, b1: Byte, b2: Byte)
    ensures DecodeQuad(Quad(b0, b1, b2)) == Some([b0, b1, b2])
  {
    var c := Sextets(b0, b1, b2);
    DecodeEncodeChar(c.0);
    DecodeEncodeChar(c.1);
    DecodeEncodeChar(c.2);
    DecodeEncodeChar(c.3);
    OctetsOfSextets(b0, b1, b2);
  }

  lemma QuadRoundTripTwo(b0: Byte, b1: Byte)
    ensures DecodeQuad(Quad(b0, b1, 0)[..3] + "=") == Some([b0, b1])
  {
    var c := Sextets(b0, b1, 0);
    DecodeEncodeChar(c.0);
    DecodeEncodeChar(c.1);
    DecodeEncodeChar(c.2);
    OctetsOfSextets(b0, b1, 0);
  }

  lemma QuadRoundTripOne(b0: Byte)
    ensures DecodeQuad(Quad(b0, 0, 0)[..2] + "==") == Some([b0])
  {
    var c := Sextets(b0, 0, 0);
    DecodeEncodeChar(c.0);
    DecodeEncodeChar(c.1);
    OctetsOfSextets(b0, 0, 0);
  }

  lemma RoundTripOneOctet(bs: seq<Byte>)
    requires |bs| == 1
    ensures Base64Decode(Base64Encode(bs)) == Some(bs)
  {
    var s := Base64Encode(bs);
    QuadRoundTripOne(bs[0]);
    assert s[..4] == s && s[4..] == [];
    assert Base64Decode(s[4..]) == Some([]);
    var decoded: seq<Byte> := [bs[0]] + [];
    assert decoded == bs;
    assert Base64Decode(s) == Some(decoded);
  }

  lemma RoundTripTwoOctets(bs: seq<Byte>)
    requires |bs| == 2
    ensures Base64Decode(Base64Encode(bs)) == Some(bs)
  {
    var s := Base64Encode(bs);
    QuadRoundTripTwo(bs[0], bs[1]);
    assert s[..4] == s && s[4..] == [];
    assert Base64Decode(s[4..]) == Some([]);
    var decoded: seq<Byte> := [bs[0], bs[1]] + [];
    assert decoded == bs;
    assert Base64Decode(s) == Some(decoded);
  }

  /** Decoding an encoding gives back the octets. */
  lemma {:induction false} Base64RoundTrip(bs: seq<Byte>)
    ensures Base64Decode(Base64Encode(bs)) == Some(bs)
  {
    if |bs| == 1 {
      RoundTripOneOctet(bs);
    } else if |bs| == 2 {
      RoundTripTwoOctets(bs);
    } else if |bs| >= 3 {
      Base64RoundTrip(bs[3..]);
      RoundTripGroup(bs);
    }
  }

  /** Encodings use only the base64 alphabet and the pad character. */
  lemma {:induction false} Base64Alphabet(bs: seq<Byte>)
    ensures forall i :: 0 <= i < |Base64Encode(bs)| ==> IsBase64Char(Base64Encode(bs)[i]) || Base64Encode(bs)[i] == '='
  {
    if |bs| >= 3 {
      Base64Alphabet(bs[3..]);
      var s := Base64Encode(bs);
      assert s == Quad(bs[0], bs[1], bs[2]) + Base64Encode(bs[3..]);
    }
  }

  /** One group of three octets in front of a sequence that round-trips. */
  lemma RoundTripGroup(bs: seq<Byte>)
    requires |bs| >= 3
    requires Base64Decode(Base64Encode(bs[3..])) == Some(bs[3..])
    ensures Base64Decode(Base64Encode(bs)) == Some(bs)
  {
    var s := Base64Encode(bs);
    var q := Quad(bs[0], bs[1], bs[2]);
    QuadRoundTrip(bs[0], bs[1], bs[2]);
    assert s == q + Base64Encode(bs[3..]);
    assert s[..4] == q && s[4..] == Base64Encode(bs[3..]);
    DecodeFullGroup(s, [bs[0], bs[1], bs[2]], bs[3..]);
    SplitFront(bs);
  }

  /** A full group in front of a decodable remainder. */
  lemma DecodeFullGroup(s: string, group: seq<Byte>, rest: seq<Byte>)
    requires |s| >= 4 && |group| == 3
    requires DecodeQuad(s[..4]) == Some(group)
    requires Base64Decode(s[4..]) == Some(rest)
    ensures Base64Decode(s) == Some(group + rest)
  {
  }

  lemma SplitFront<T>(xs: seq<T>)
    requires |xs| >= 3
    ensures [xs[0], xs[1], xs[2]] + xs[3..] == xs
  {
  }

  /* ---------- Keys ---------- */

  const UINT64_LIMIT: nat := 0x1_0000_0000_0000_0000

  /** int.to_bytes(n, byteorder='little'). */
  function ToBytesLittle(k: nat, n: nat): (bs: seq<Byte>)
    ensures |bs| == n
  {
    if n == 0 then [] else [k % 0x100] + ToBytesLittle(k / 0x100, n - 1)
  }

  function FromBytesLittle(bs: seq<Byte>): nat
  {
    if bs == [] then 0 else bs[0] + 0x100 * FromBytesLittle(bs[1..])
  }

  function Pow256(n: nat): nat
  {
    if n == 0 then 1 else 0x100 * Pow256(n - 1)
  }

  lemma {:induction false} LittleEndianRoundTrip(k: nat, n: nat)
    requires k < Pow256(n)
    ensures FromBytesLittle(ToBytesLittle(k, n)) == k
  {
    if n > 0 {
      LittleEndianRoundTrip(k / 0x100, n - 1);
      var bs := ToBytesLittle(k, n);
      assert bs[1..] == ToBytesLittle(k / 0x100, n - 1);
    }
  }

  lemma Pow256Of8()
    ensures Pow256(KEY_OCTETS) == UINT64_LIMIT
  {
  }

  /** encode_key: base64 of the key's eight little-endian octets; larger
    * keys make to_bytes raise OverflowError. */
  function EncodeKey(key: nat): (s: string)
    requires key < UINT64_LIMIT
    ensures |s| == KEY_SIZE
    ensures forall i :: 0 <= i < |s| ==> IsBase64Char(s[i]) || s[i] == '='
  {
    Base64Alphabet(ToBytesLittle(key, KEY_OCTETS));
    Base64Encode(ToBytesLittle(key, KEY_OCTETS))
  }

  /** The key is recovered from its encoding, so distinct keys have
    * distinct encodings. */
  lemma EncodeKeyInjective(k1: nat, k2: nat)
    requires k1 < UINT64_LIMIT && k2 < UINT64_LIMIT
    ensures Base64Decode(EncodeKey(k1)) == Some(ToBytesLittle(k1, KEY_OCTETS))
    ensures EncodeKey(k1) == EncodeKey(k2) ==> k1 == k2
  {
    Pow256Of8();
    Base64RoundTrip(ToBytesLittle(k1, KEY_OCTETS));
    Base64RoundTrip(ToBytesLittle(k2, KEY_OCTETS));
    LittleEndianRoundTrip(k1, KEY_OCTETS);
    LittleEndianRoundTrip(k2, KEY_OCTETS);
  }

  /** partition_of_key, as a function of the key. */
  function GenPartitionOfKey(key: nat, numPartitions: nat): (p: nat)
    requires key < UINT64_LIMIT && numPartitions >= 1
    ensures p < numPartitions
  {
    Fnv1(KeyBytes(EncodeKey(key))) % numPartitions
  }

  /** partition_of_key: fnv_hash of the encoded key modulo the partition
    * count. */
  method PartitionOfKey(key: nat, numPartitions: nat) returns (p: nat)
    requires key < UINT64_LIMIT && numPartitions >= 1
    ensures p == GenPartitionOfKey(key, numPartitions)
    ensures p == PartitionOf(numPartitions)(key)
  {
    var h := FnvHashTool.FnvHash(KeyBytes(EncodeKey(key)));
    p := h % numPartitions;
  }

  /** The generated data lands where the servers look for it: when the
    * configuration hashes at least the twelve characters of an encoded
    * key, its partition is the one the generator chose. */
  lemma GeneratorAgreesWithServers(key: nat, partitionKeyNumBytes: nat, numPartitions: nat)
    requires key < UINT64_LIMIT && numPartitions >= 1 && partitionKeyNumBytes >= KEY_SIZE
    ensures Configurations.PartitionOfKey(EncodeKey(key), partitionKeyNumBytes, numPartitions) ==
              GenPartitionOfKey(key, numPartitions)
  {
    var s := EncodeKey(key);
    assert forall i :: 0 <= i < |s| ==> s[i] as int < 0x80;
    Configurations.AsciiKeyPartition(s, partitionKeyNumBytes, numPartitions);
    assert KeyBytes(s)[..|s|] == KeyBytes(s);
  }

  /* ---------- Distributing keys ---------- */

  /** The partition gen_data gives every key; keys of 2^64 and beyond,
    * which to_bytes refuses, are given partition 0. */
  function PartitionOf(numPartitions: nat): nat -> nat
  {
    (k: nat) => if k < UINT64_LIMIT && numPartitions >= 1 then GenPartitionOfKey(k, numPartitions) else 0
  }

  /** The keys below n whose partition under partitionOf is p, in
    * increasing order. */
  function KeysOfPartition(n: nat, p: nat, partitionOf: nat -> nat): seq<nat>
  {
    if n == 0 then []
    else KeysOfPartition(n - 1, p, partitionOf) + (if partitionOf(n - 1) == p then [n - 1] else [])
  }

  /** A key is in the list of partition p exactly when it is below n and
    * belongs to p. */
  lemma {:induction false} KeysOfPartitionMembers(n: nat, p: nat, partitionOf: nat -> nat, k: nat)
    ensures k in KeysOfPartition(n, p, partitionOf) <==> k < n && partitionOf(k) == p
  {
    if n > 0 {
      KeysOfPartitionMembers(n - 1, p, partitionOf, k);
    }
  }

  /** Every list is strictly increasing, and below n. */
  lemma {:induction false} KeysOfPartitionIncreasing(n: nat, p: nat, partitionOf: nat -> nat)
    ensures forall i :: 0 <= i < |KeysOfPartition(n, p, partitionOf)| ==>
              KeysOfPartition(n, p, partitionOf)[i] < n
    ensures forall i, j :: 0 <= i < j < |KeysOfPartition(n, p, partitionOf)| ==>
              KeysOfPartition(n, p, partitionOf)[i] < KeysOfPartition(n, p, partitionOf)[j]
  {
    if n > 0 {
      KeysOfPartitionIncreasing(n - 1, p, partitionOf);
    }
  }

  /** partitionToKeys holds, for every partition that has one, the list of
    * the keys below n that partitionOf sends there. */
  ghost predicate Distributed(partitionToKeys: map<nat, seq<nat>>, n: nat, partitionOf: nat -> nat)
  {
    (forall p :: p in partitionToKeys <==> KeysOfPartition(n, p, partitionOf) != []) &&
    (forall p :: p in partitionToKeys ==> partitionToKeys[p] == KeysOfPartition(n, p, partitionOf))
  }

  /** One step of the loop: `partition_to_keys[p].append(key)`. */
  method AppendKey(partitionToKeys: map<nat, seq<nat>>, key: nat, p: nat, ghost partitionOf: nat -> nat)
    returns (m: map<nat, seq<nat>>)
    requires Distributed(partitionToKeys, key, partitionOf) && partitionOf(key) == p
    ensures Distributed(m, key + 1, partitionOf)
  {
    var list := if p in partitionToKeys then partitionToKeys[p] else [];
    m := partitionToKeys[p := list + [key]];
  }

  /** partitionOf gives every key below 2^64 the partition gen_data gives it. */
  ghost predicate GenPartitioning(partitionOf: nat -> nat, numPartitions: nat)
  {
    numPartitions >= 1 &&
    forall k: nat {:trigger GenPartitionOfKey(k, numPartitions)} :: k < UINT64_LIMIT ==>
      partitionOf(k) == GenPartitionOfKey(k, numPartitions)
  }

  lemma PartitionOfIsGen(numPartitions: nat)
    requires numPartitions >= 1
    ensures GenPartitioning(PartitionOf(numPartitions), numPartitions)
  {
  }

  lemma NothingDistributed(partitionOf: nat -> nat)
    ensures Distributed(map[], 0, partitionOf)
  {
  }

  /** One iteration of the loop of gen_data: the partition of the key, and
    * the key appended to its list. */
  method DistributeKey(partitionToKeys: map<nat, seq<nat>>, key: nat, numPartitions: nat, ghost partitionOf: nat -> nat)
    returns (m: map<nat, seq<nat>>)
    requires key < UINT64_LIMIT && GenPartitioning(partitionOf, numPartitions)
    requires Distributed(partitionToKeys, key, partitionOf)
    ensures Distributed(m, key + 1, partitionOf)
  {
    var p := PartitionOfKey(key, numPartitions);
    m := AppendKey(partitionToKeys, key, p, partitionOf);
  }

  /** The loop of gen_data: appends every key below numRecords to the list
    * of its partition. Only partitions that receive a key get a list. The
    * partitioning is a ghost parameter, which keeps the hash out of the
    * loop's reasoning. */
  method DistributeKeysBy(numRecords: nat, numPartitions: nat, ghost partitionOf: nat -> nat)
    returns (partitionToKeys: map<nat, seq<nat>>)
    requires numRecords <= UINT64_LIMIT && GenPartitioning(partitionOf, numPartitions)
    ensures Distributed(partitionToKeys, numRecords, partitionOf)
  {
    partitionToKeys := map[];
    NothingDistributed(partitionOf);
    var key := 0;
    while key < numRecords
      invariant 0 <= key <= numRecords
      invariant Distributed(partitionToKeys, key, partitionOf)
    {
      partitionToKeys := DistributeKey(partitionToKeys, key, numPartitions, partitionOf);
      key := key + 1;
    }
  }

  /** The keys below numRecords, each in the list of the partition gen_data
    * gives it. */
  method DistributeKeys(numRecords: nat, numPartitions: nat) returns (partitionToKeys: map<nat, seq<nat>>)
    requires numRecords <= UINT64_LIMIT && numPartitions >= 1
    ensures Distributed(partitionToKeys, numRecords, PartitionOf(numPartitions))
  {
    PartitionOfIsGen(numPartitions);
    partitionToKeys := DistributeKeysBy(numRecords, numPartitions, PartitionOf(numPartitions));
  }

  /** num_jobs: at most max_jobs when that is positive, else one per
    * partition. */
  function NumJobs(numPartitions: nat, maxJobs: int): (n: nat)
    ensures n <= numPartitions
    ensures maxJobs > 0 ==> n <= maxJobs && (n == numPartitions || n == maxJobs)
    ensures maxJobs <= 0 ==> n == numPartitions
  {
    if maxJobs > 0 then (if numPartitions <= maxJobs then numPartitions else maxJobs) else numPartitions
  }

  datatype SizeUnit = B | KB | MB | GB

  function Multiplier(unit: SizeUnit): nat
  {
    match unit
    case B => 1
    case KB => 1024
    case MB => 1024 * 1024
    case GB => 1024 * 1024 * 1024
  }

  /** num_records: the total size divided by the size of one datum (key,
    * record and master), truncated towards zero; a record size of -14
    * divides by zero. */
  function NumRecords(size: int, unit: SizeUnit, recordSize: int): (r: Result<int, string>)
    ensures r.Err? <==> KEY_SIZE + recordSize + MASTER_SIZE == 0
    ensures r.Ok? ==> r.value == TruncDiv(Multiplier(unit) * size, KEY_SIZE + recordSize + MASTER_SIZE)
  {
    var d := KEY_SIZE + recordSize + MASTER_SIZE;
    if d == 0 then Err("ZeroDivisionError: division by zero")
    else Ok(TruncDiv(Multiplier(unit) * size, d))
  }

  function Abs(x: int): nat { if x < 0 then -x else x }

  /** int(a / d): the quotient rounded towards zero; its magnitude is the
    * quotient of the magnitudes and its sign is the product of the signs. */
  function TruncDiv(a: int, d: int): (q: int)
    requires d != 0
    ensures Abs(q) == Abs(a) / Abs(d)
    ensures q > 0 ==> (a > 0) == (d > 0)
    ensures q < 0 ==> (a > 0) != (d > 0)
  {
    var q := Abs(a) / Abs(d);
    assert a == 0 ==> q == 0;
    if (a < 0) == (d < 0) then q else -q
  }

  /** The number of records fills the total size without exceeding it. */
  lemma NumRecordsFit(size: nat, unit: SizeUnit, recordSize: nat)
    ensures NumRecords(size, unit, recordSize).Ok?
    ensures var n := NumRecords(size, unit, recordSize).value;
            var d := KEY_SIZE + recordSize + MASTER_SIZE;
            n >= 0 && n * d <= Multiplier(unit) * size < (n + 1) * d
  {
    var d := KEY_SIZE + recordSize + MASTER_SIZE;
    var total := Multiplier(unit) * size;
    QuotientBounds(total, d);
  }

  lemma QuotientBounds(a: nat, d: nat)
    requires d >= 1
    ensures (a / d) * d <= a < (a / d + 1) * d
  {
    assert a == d * (a / d) + a % d;
    assert (a / d + 1) * d == (a / d) * d + d;
  }

  /* ---------- Text datums ---------- */

  /** The characters of a generated record: lowercase letters and digits. */
  predicate IsRecordText(record: string)
  {
    forall i :: 0 <= i < |record| ==> 'a' <= record[i] <= 'z' || '0' <= record[i] <= '9'
  }

  /** The text datum "key,record,master\n" with master = key mod the
    * replica count. */
  function TextDatum(key: nat, record: string, numReplicas: nat): string
    requires key < UINT64_LIMIT && numReplicas >= 1
  {
    EncodeKey(key) + "," + record + "," + ProtoUtils.NatToString(key % numReplicas) + "\n"
  }

  /** Reads a text datum back into (key, record, master). */
  function ParseTextDatum(line: string): Option<(string, string, nat)>
  {
    if |line| == 0 || line[|line| - 1] != '\n' then None
    else
      var body := line[..|line| - 1];
      match ProtoUtils.Find(body, ',')
      case None => None
      case Some(i) =>
        var rest := body[i + 1..];
        match ProtoUtils.Find(rest, ',')
        case None => None
        case Some(j) =>
          var master := rest[j + 1..];
          if master != [] && forall c :: c in master ==> ProtoUtils.IsDigit(c) then
            Some((body[..i], rest[..j], ProtoUtils.DigitsValue(master)))
          else None
  }

  /** A text datum reads back as the encoded key, the record and the
    * master. */
  lemma TextDatumRoundTrip(key: nat, record: string, numReplicas: nat)
    requires key < UINT64_LIMIT && numReplicas >= 1 && IsRecordText(record)
    ensures ParseTextDatum(TextDatum(key, record, numReplicas)) ==
              Some((EncodeKey(key), record, key % numReplicas))
  {
    var k, m := EncodeKey(key), ProtoUtils.NatToString(key % numReplicas);
    assert ',' !in k;
    assert ',' !in record;
    ProtoUtils.DigitsValueOfNatToString(key % numReplicas);
    var rest := record + "," + m;
    var body := k + "," + rest;
    assert TextDatum(key, record, numReplicas) == body + "\n";
    ParseFields(body + "\n", body, rest, k, record, m);
  }

  /** Three fields without a comma in the first two, the last made of
    * digits, read back from their line. */
  lemma ParseFields(line: string, body: string, rest: string, k: string, record: string, m: string)
    requires ',' !in k && ',' !in record
    requires m != [] && forall i :: 0 <= i < |m| ==> ProtoUtils.IsDigit(m[i])
    requires rest == record + "," + m && body == k + "," + rest && line == body + "\n"
    ensures ParseTextDatum(line) == Some((k, record, ProtoUtils.DigitsValue(m)))
  {
    assert line[..|line| - 1] == body;
    SplitAtComma(k, rest);
    SplitAtComma(record, m);
    assert forall c :: c in m ==> ProtoUtils.IsDigit(c);
  }

  /** The first comma of a + "," + b is the one after a. */
  lemma SplitAtComma(a: string, b: string)
    requires ',' !in a
    ensures ProtoUtils.Find(a + "," + b, ',') == Some(|a|)
    ensures (a + "," + b)[..|a|] == a && (a + "," + b)[|a| + 1..] == b
  {
    var s := a + "," + b;
    assert s[..|a|] == a;
    ProtoUtils.FindFirst(s, ',', |a|);
  }
}
