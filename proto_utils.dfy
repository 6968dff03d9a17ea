/** Machine ids, transaction construction, classification, merging and
  * comparison (common/proto_utils.cpp). */
module ProtoUtils {
  import opened Wrappers
  import opened Types

  /* ---------- Machine ids ---------- */

  function DigitChar(d: nat): (c: char)
    requires d < 10
    ensures '0' <= c <= '9'
  {
    "0123456789"[d]
  }

  predicate IsDigit(c: char) { '0' <= c <= '9' }

  function DigitValue(c: char): (d: nat)
    requires IsDigit(c)
    ensures d < 10
  {
    c as int - '0' as int
  }

  /** std::to_string of an unsigned number: its decimal digits without
    * leading zeros. */
  function NatToString(n: nat): (s: string)
    ensures |s| > 0
    ensures forall i :: 0 <= i < |s| ==> IsDigit(s[i])
  {
    if n < 10 then [DigitChar(n)] else NatToString(n / 10) + [DigitChar(n % 10)]
  }

  /** The number a string of decimal digits denotes. */
  function DigitsValue(ds: string): nat
    requires forall i :: 0 <= i < |ds| ==> IsDigit(ds[i])
  {
    if ds == [] then 0
    else DigitsValue(ds[..|ds| - 1]) * 10 + DigitValue(ds[|ds| - 1])
  }

  /** Reading back the decimal digits of a number gives the number. */
  lemma {:induction false} DigitsValueOfNatToString(n: nat)
    ensures DigitsValue(NatToString(n)) == n
  {
    if n >= 10 {
      DigitsValueOfNatToString(n / 10);
      var s := NatToString(n);
      assert s[..|s| - 1] == NatToString(n / 10);
    }
  }

  /** MakeMachineIdAsString(replica, partition): "<replica>:<partition>". */
  function MakeMachineIdAsString(replica: nat, partition: nat): (s: string)
    ensures exists i :: 0 <= i < |s| && s[i] == ':' &&
              s[..i] == NatToString(replica) && s[i + 1..] == NatToString(partition)
  {
    var s := NatToString(replica) + ":" + NatToString(partition);
    assert s[..|NatToString(replica)|] == NatToString(replica);
    assert s[|NatToString(replica)| + 1..] == NatToString(partition);
    s
  }

  function MachineIdToString(id: MachineId): string
  {
    MakeMachineIdAsString(id.replica, id.partition)
  }

  /** The characters C's isspace accepts. */
  predicate IsSpace(c: char) { c == ' ' || c == '\t' || c == '\n' || c == '\r' || c as int == 11 || c as int == 12 }

  /** The index of the first character at or after i that is not a space. */
  function SkipSpaces(s: string, i: nat): (j: nat)
    requires i <= |s|
    ensures i <= j <= |s|
    ensures j < |s| ==> !IsSpace(s[j])
    ensures forall k :: i <= k < j ==> IsSpace(s[k])
    decreases |s| - i
  {
    if i < |s| && IsSpace(s[i]) then SkipSpaces(s, i + 1) else i
  }

  /** The end of the run of digits that starts at i. */
  function DigitRunEnd(s: string, i: nat): (j: nat)
    requires i <= |s|
    ensures i <= j <= |s|
    ensures j < |s| ==> !IsDigit(s[j])
    ensures forall k :: i <= k < j ==> IsDigit(s[k])
    decreases |s| - i
  {
    if i < |s| && IsDigit(s[i]) then DigitRunEnd(s, i + 1) else i
  }

  const ULONG_LIMIT: nat := 0x1_0000_0000_0000_0000

  datatype ParseError = NoConversion | OutOfRange

  /** std::stoul in base 10 (a 64-bit unsigned long): leading spaces, an
    * optional sign, then at least one digit; whatever follows the digits is
    * ignored. A value above 2^64-1 is out of range; a minus sign negates
    * modulo 2^64. */
  function Stoul(s: string): (r: Result<nat, ParseError>)
    ensures r.Ok? ==> r.value < ULONG_LIMIT
  {
    var i := SkipSpaces(s, 0);
    var neg := i < |s| && s[i] == '-';
    var j := if i < |s| && (s[i] == '-' || s[i] == '+') then i + 1 else i;
    var k := DigitRunEnd(s, j);
    if k == j then Err(NoConversion)
    else
      var v := DigitsValue(s[j..k]);
      if v >= ULONG_LIMIT then Err(OutOfRange)
      else if neg then Ok((ULONG_LIMIT - v) % ULONG_LIMIT)
      else Ok(v)
  }

  /** The first position of c in s, if any. */
  function Find(s: string, c: char): (r: Option<nat>)
    ensures r.Some? ==> r.value < |s| && s[r.value] == c && c !in s[..r.value]
    ensures r.None? ==> c !in s
  {
    if s == [] then None
    else if s[0] == c then Some(0)
    else match Find(s[1..], c)
      case None => None
      case Some(i) =>
        assert s[..i + 1] == [s[0]] + s[1..][..i];
        Some(i + 1)
  }

  /** MakeMachineId(string): splits at the first ':' and parses both halves
    * with stoul; the proto's uint32 fields keep the low 32 bits. Every
    * failure is an invalid argument. */
  function MakeMachineId(s: string): (r: Result<MachineId, string>)
    ensures ':' !in s ==> r.Err?
    ensures r.Ok? ==> r.value.replica < UINT32_LIMIT && r.value.partition < UINT32_LIMIT
  {
    match Find(s, ':')
    case None => Err("Invalid machine id: " + s)
    case Some(split) => MachineIdOfParts(Stoul(s[..split]), Stoul(s[split + 1..]), s)
  }

  function MachineIdOfParts(replica: Result<nat, ParseError>, partition: Result<nat, ParseError>,
                            s: string): (r: Result<MachineId, string>)
    ensures r.Ok? <==> replica.Ok? && partition.Ok?
    ensures r.Ok? ==> r.value == MachineId(replica.value % UINT32_LIMIT, partition.value % UINT32_LIMIT)
  {
    if replica.Ok? && partition.Ok? then
      Ok(MachineId(replica.value % UINT32_LIMIT, partition.value % UINT32_LIMIT))
    else Err("Invalid machine id: " + s)
  }

  /** stoul reads back the decimal digits of any number below 2^64. */
  lemma {:induction false} StoulOfNatToString(n: nat)
    requires n < ULONG_LIMIT
    ensures Stoul(NatToString(n)) == Ok(n)
  {
    var s := NatToString(n);
    assert !IsSpace(s[0]) && s[0] != '-' && s[0] != '+';
    assert SkipSpaces(s, 0) == 0;
    assert DigitRunEnd(s, 0) == |s| by { DigitRunEndOfDigits(s, 0); }
    assert s[0..|s|] == s;
    DigitsValueOfNatToString(n);
  }

  lemma {:induction false} DigitRunEndOfDigits(s: string, i: nat)
    requires i <= |s|
    requires forall k :: 0 <= k < |s| ==> IsDigit(s[k])
    ensures DigitRunEnd(s, i) == |s|
    decreases |s| - i
  {
    if i < |s| { DigitRunEndOfDigits(s, i + 1); }
  }

  /** Find returns the first occurrence. */
  lemma {:induction false} FindFirst(s: string, c: char, i: nat)
    requires i < |s| && s[i] == c && c !in s[..i]
    ensures Find(s, c) == Some(i)
  {
    if i > 0 {
      assert s[0] == s[..i][0];
      assert s[1..][..i - 1] == s[..i][1..];
      FindFirst(s[1..], c, i - 1);
    }
  }

  /** MakeMachineId on a string with its first ':' at position i. */
  lemma {:induction false} MakeMachineIdAt(s: string, i: nat)
    requires i < |s| && s[i] == ':' && ':' !in s[..i]
    ensures MakeMachineId(s) == MachineIdOfParts(Stoul(s[..i]), Stoul(s[i + 1..]), s)
  {
    FindFirst(s, ':', i);
  }

  lemma SmallModulo(x: nat, m: nat)
    requires x < m
    ensures x % m == x
  {
  }

  /** Parsing the string form of a machine id gives the machine id back. */
  lemma {:induction false} MachineIdRoundTrip(replica: nat, partition: nat)
    requires replica < UINT32_LIMIT && partition < UINT32_LIMIT
    ensures MakeMachineId(MakeMachineIdAsString(replica, partition)) == Ok(MachineId(replica, partition))
  {
    var r, p := NatToString(replica), NatToString(partition);
    var s := r + ":" + p;
    assert s == MakeMachineIdAsString(replica, partition);
    assert s[..|r|] == r;
    assert s[|r| + 1..] == p;
    assert ':' !in r;
    MakeMachineIdAt(s, |r|);
    StoulOfNatToString(replica);
    StoulOfNatToString(partition);
    SmallModulo(replica, UINT32_LIMIT);
    SmallModulo(partition, UINT32_LIMIT);
    assert MakeMachineId(s) == MachineIdOfParts(Ok(replica), Ok(partition), s);
  }

  /** stoul reads the leading digits and ignores the rest. */
  lemma {:induction false} StoulLeadingDigit(s: string)
    requires |s| >= 1 && IsDigit(s[0]) && (|s| == 1 || !IsDigit(s[1]))
    ensures Stoul(s) == Ok(DigitValue(s[0]))
  {
    assert SkipSpaces(s, 0) == 0;
    assert DigitRunEnd(s, 1) == 1;
    assert DigitRunEnd(s, 0) == 1;
    assert s[0..1] == [s[0]];
    assert DigitsValue([s[0]]) == DigitValue(s[0]) by {
      assert [s[0]][..0] == [];
    }
  }

  /** The cases pinned by the unit test of MakeMachineId: well-formed ids. */
  lemma MakeMachineIdZero()
    ensures MakeMachineId("0:0") == Ok(MachineId(0, 0))
  {
    MachineIdRoundTrip(0, 0);
    assert MakeMachineIdAsString(0, 0) == "0:0";
  }

  lemma MakeMachineIdTwoDigits()
    ensures MakeMachineId("12:34") == Ok(MachineId(12, 34))
  {
    MachineIdString1234();
    MachineIdRoundTrip(12, 34);
  }

  lemma MachineIdString1234()
    ensures MakeMachineIdAsString(12, 34) == "12:34"
  {
    TwoDigitString(12);
    TwoDigitString(34);
    assert NatToString(12) == "12" && NatToString(34) == "34";
  }

  lemma TwoDigitString(n: nat)
    requires 10 <= n < 100
    ensures NatToString(n) == [DigitChar(n / 10), DigitChar(n % 10)]
  {
    assert NatToString(n) == NatToString(n / 10) + [DigitChar(n % 10)];
  }

  /** Trailing garbage after the digits of either half is ignored. */
  lemma MakeMachineIdTrailingGarbage()
    ensures MakeMachineId("5aa:6bb") == Ok(MachineId(5, 6))
  {
    var s := "5aa:6bb";
    assert s[..3] == "5aa" && s[4..] == "6bb";
    MakeMachineIdAt(s, 3);
    StoulLeadingDigit("5aa");
    StoulLeadingDigit("6bb");
    SmallModulo(5, UINT32_LIMIT);
    SmallModulo(6, UINT32_LIMIT);
  }

  /** Without a ':' the id is rejected. */
  lemma MakeMachineIdNoColon()
    ensures MakeMachineId("01234").Err?
  {
    assert ':' !in "01234";
  }

  /** A half that does not start with a digit is rejected. */
  lemma MakeMachineIdNoDigits()
    ensures MakeMachineId("ab12:cd34").Err?
  {
    var t := "ab12:cd34";
    assert t[..4] == "ab12";
    MakeMachineIdAt(t, 4);
    StoulNoDigit("ab12");
  }

  /** stoul finds no number in what starts with neither a space, a sign
    * nor a digit. */
  lemma StoulNoDigit(s: string)
    requires |s| >= 1 && !IsSpace(s[0]) && !IsDigit(s[0]) && s[0] != '-' && s[0] != '+'
    ensures Stoul(s) == Err(NoConversion)
  {
    assert SkipSpaces(s, 0) == 0;
    assert DigitRunEnd(s, 0) == 0;
  }

  /* ---------- Transactions ---------- */

  /** Every read and write key has master metadata. */
  predicate HasAllMetadata(txn: Transaction)
  {
    forall k :: k in AllKeys(txn) ==> k in txn.metadata
  }

  /** All metadata entries name the same master. */
  predicate SameMaster(md: map<Key, Metadata>)
  {
    forall k1, k2 :: k1 in md && k2 in md ==> md[k1].master == md[k2].master
  }

  /** Whether every metadata entry has the master of entry k0. */
  predicate AllMastersAre(md: map<Key, Metadata>, home: nat)
  {
    forall k :: k in md ==> md[k].master == home
  }

  /** SetTransactionType: UNKNOWN while some key lacks metadata; otherwise
    * SINGLE_HOME when every metadata entry has the master of the first one,
    * else MULTI_HOME. The source reads the first entry of an empty metadata
    * map; here an empty map gives SINGLE_HOME. */
  function TransactionTypeOf(txn: Transaction): (r: TransactionType)
    ensures r == UNKNOWN <==> !HasAllMetadata(txn)
    ensures r == SINGLE_HOME <==> HasAllMetadata(txn) && SameMaster(txn.metadata)
    ensures r == MULTI_HOME <==> HasAllMetadata(txn) && !SameMaster(txn.metadata)
  {
    if !HasAllMetadata(txn) then UNKNOWN
    else if txn.metadata == map[] then SINGLE_HOME
    else
      var first :| first in txn.metadata;
      SameMasterAsFirst(txn.metadata, first);
      if AllMastersAre(txn.metadata, txn.metadata[first].master) then SINGLE_HOME else MULTI_HOME
  }

  lemma SameMasterAsFirst(md: map<Key, Metadata>, first: Key)
    requires first in md
    ensures AllMastersAre(md, md[first].master) <==> SameMaster(md)
  {
  }

  /** SetTransactionType: the transaction with its type field set. */
  function SetTransactionType(txn: Transaction): (r: Transaction)
    ensures r == txn.(txnType := TransactionTypeOf(txn))
  {
    txn.(txnType := TransactionTypeOf(txn))
  }

  /** A map with the given keys, each holding the empty value. */
  method EmptyValues(keys: set<Key>) returns (m: map<Key, Value>)
    ensures m.Keys == keys
    ensures forall k :: k in m ==> m[k] == ""
  {
    m := map[];
    var rest := keys;
    while rest != {}
      invariant rest <= keys
      invariant m.Keys == keys - rest
      invariant forall k :: k in m ==> m[k] == ""
      decreases |rest|
    {
      var k :| k in rest;
      m := m[k := ""];
      rest := rest - {k};
    }
  }

  /** The metadata of the keys in `keys`, as MasterMetadata messages. */
  method KeptMetadata(masterMetadata: map<Key, (nat, nat)>, keys: set<Key>) returns (md: map<Key, Metadata>)
    ensures forall k :: k in md <==> k in masterMetadata && k in keys
    ensures forall k :: k in md ==> md[k] == Metadata(masterMetadata[k].0, masterMetadata[k].1)
  {
    md := map[];
    var rest := masterMetadata.Keys;
    while rest != {}
      invariant rest <= masterMetadata.Keys
      invariant forall k :: k in md <==> k in masterMetadata && k !in rest && k in keys
      invariant forall k :: k in md ==> md[k] == Metadata(masterMetadata[k].0, masterMetadata[k].1)
      decreases |rest|
    {
      var k :| k in rest;
      if k in keys {
        md := md[k := Metadata(masterMetadata[k].0, masterMetadata[k].1)];
      }
      rest := rest - {k};
    }
  }

  /** MakeTransaction: every read and write key gets an empty value, the
    * metadata is kept only for those keys, a non-negative new_master makes
    * a remaster transaction instead of one with code, the status is
    * NOT_STARTED and the type is classified. */
  method MakeTransaction(readKeys: set<Key>, writeKeys: set<Key>, code: string,
                         masterMetadata: map<Key, (nat, nat)>,
                         coordinatingServer: MachineId, newMaster: int)
    returns (txn: Transaction)
    ensures txn.readSet.Keys == readKeys && txn.writeSet.Keys == writeKeys
    ensures forall k :: k in txn.readSet ==> txn.readSet[k] == ""
    ensures forall k :: k in txn.writeSet ==> txn.writeSet[k] == ""
    ensures forall k :: k in txn.metadata <==> k in masterMetadata && (k in readKeys || k in writeKeys)
    ensures forall k :: k in txn.metadata ==>
              txn.metadata[k] == Metadata(masterMetadata[k].0, masterMetadata[k].1)
    ensures txn.procedure == if newMaster >= 0 then Remaster(newMaster) else Code(code)
    ensures txn.status == NOT_STARTED
    ensures txn.coordinatingServer == coordinatingServer
    ensures txn.txnType == TransactionTypeOf(txn)
    ensures txn.id == 0 && txn.deleteSet == [] && txn.abortReason == ""
    ensures txn.events == [] && txn.eventTimes == [] && txn.eventMachines == []
  {
    var readMap := EmptyValues(readKeys);
    var writes := EmptyValues(writeKeys);
    var procedure := if newMaster >= 0 then Remaster(newMaster) else Code(code);
    var md := KeptMetadata(masterMetadata, readKeys + writeKeys);
    txn := Transaction(0, UNKNOWN, NOT_STARTED, readMap, writes, [], md, procedure, "",
                       coordinatingServer, [], [], []);
    txn := SetTransactionType(txn);
  }

  /** A transaction made with metadata for all of its keys is never
    * UNKNOWN, and it is single-home exactly when those keys share a master. */
  lemma MadeTransactionType(txn: Transaction, masterMetadata: map<Key, (nat, nat)>)
    requires forall k :: k in txn.metadata <==> k in masterMetadata && k in AllKeys(txn)
    requires forall k :: k in txn.metadata ==>
               txn.metadata[k] == Metadata(masterMetadata[k].0, masterMetadata[k].1)
    requires AllKeys(txn) <= masterMetadata.Keys
    ensures TransactionTypeOf(txn) != UNKNOWN
    ensures TransactionTypeOf(txn) == SINGLE_HOME <==>
              forall k1, k2 :: k1 in AllKeys(txn) && k2 in AllKeys(txn) ==>
                masterMetadata[k1].0 == masterMetadata[k2].0
  {
  }

  datatype MergeError =
    | DifferentIds(id: nat, otherId: nat)
    | DifferentTypes(txnType: TransactionType, otherType: TransactionType)
    | ConflictingValue(key: Key, value: Value, otherValue: Value)

  /** No key is in both maps with different values. */
  predicate Compatible(a: map<Key, Value>, b: map<Key, Value>)
  {
    forall k :: k in a && k in b ==> a[k] == b[k]
  }

  /** MergeMap: inserts the other map's entries, failing on a key that is
    * already present with another value. */
  method MergeMap(a: map<Key, Value>, b: map<Key, Value>) returns (r: Result<map<Key, Value>, MergeError>)
    ensures r.Ok? <==> Compatible(a, b)
    ensures r.Ok? ==> forall k :: k in r.value <==> k in a || k in b
    ensures r.Ok? ==> forall k :: k in r.value ==> r.value[k] == if k in a then a[k] else b[k]
    ensures r.Err? ==> r.error.ConflictingValue? && r.error.key in a && r.error.key in b &&
                       r.error.value == a[r.error.key] && r.error.otherValue == b[r.error.key] &&
                       r.error.value != r.error.otherValue
  {
    var m := a;
    var rest := b.Keys;
    while rest != {}
      invariant rest <= b.Keys
      invariant forall k :: k in m <==> k in a || (k in b && k !in rest)
      invariant forall k :: k in m ==> m[k] == if k in a then a[k] else b[k]
      invariant forall k :: k in a && k in b && k !in rest ==> a[k] == b[k]
      decreases |rest|
    {
      var k :| k in rest;
      if k in m {
        if m[k] != b[k] {
          assert k in a;
          return Err(ConflictingValue(k, m[k], b[k]));
        }
      } else {
        m := m[k := b[k]];
      }
      rest := rest - {k};
    }
    r := Ok(m);
  }

  /** The transactions can be merged. */
  predicate Mergeable(txn: Transaction, other: Transaction)
  {
    txn.id == other.id && txn.txnType == other.txnType &&
    Compatible(txn.readSet, other.readSet) && Compatible(txn.writeSet, other.writeSet)
  }

  /** The result of a successful merge. */
  function Merged(txn: Transaction, other: Transaction): Transaction
  {
    txn.(readSet := txn.readSet + other.readSet,
         writeSet := txn.writeSet + other.writeSet,
         deleteSet := txn.deleteSet + other.deleteSet,
         status := if txn.status == ABORTED then ABORTED else other.status,
         abortReason := other.abortReason,
         events := txn.events + other.events,
         eventTimes := txn.eventTimes + other.eventTimes,
         eventMachines := txn.eventMachines + other.eventMachines)
  }

  /** MergeTransaction: rejects different ids, then different types, then a
    * conflicting read value, then a conflicting write value; otherwise
    * merges the other transaction into this one. */
  method MergeTransaction(txn: Transaction, other: Transaction) returns (r: Result<Transaction, MergeError>)
    ensures r.Ok? <==> Mergeable(txn, other)
    ensures r.Ok? ==> r.value == Merged(txn, other)
    ensures txn.id != other.id ==> r == Err(DifferentIds(txn.id, other.id))
    ensures txn.id == other.id && txn.txnType != other.txnType ==>
              r == Err(DifferentTypes(txn.txnType, other.txnType))
    ensures txn.id == other.id && txn.txnType == other.txnType && !Compatible(txn.readSet, other.readSet) ==>
              r.Err? && r.error.ConflictingValue? && r.error.key in txn.readSet && r.error.key in other.readSet
    ensures txn.id == other.id && txn.txnType == other.txnType && Compatible(txn.readSet, other.readSet) &&
            !Compatible(txn.writeSet, other.writeSet) ==>
              r.Err? && r.error.ConflictingValue? && r.error.key in txn.writeSet && r.error.key in other.writeSet
  {
    if txn.id != other.id {
      return Err(DifferentIds(txn.id, other.id));
    }
    if txn.txnType != other.txnType {
      return Err(DifferentTypes(txn.txnType, other.txnType));
    }
    var readMap := MergeMap(txn.readSet, other.readSet);
    if readMap.Err? {
      return Err(readMap.error);
    }
    var writes := MergeMap(txn.writeSet, other.writeSet);
    if writes.Err? {
      return Err(writes.error);
    }
    MergedUnion(txn.readSet, other.readSet, readMap.value);
    MergedUnion(txn.writeSet, other.writeSet, writes.value);
    var status := if txn.status != ABORTED then other.status else txn.status;
    r := Ok(txn.(readSet := readMap.value, writeSet := writes.value,
                 deleteSet := txn.deleteSet + other.deleteSet,
                 status := status, abortReason := other.abortReason,
                 events := txn.events + other.events,
                 eventTimes := txn.eventTimes + other.eventTimes,
                 eventMachines := txn.eventMachines + other.eventMachines));
  }

  /** For compatible maps, the entry-by-entry merge is the map union. */
  lemma MergedUnion(a: map<Key, Value>, b: map<Key, Value>, m: map<Key, Value>)
    requires Compatible(a, b)
    requires forall k :: k in m <==> k in a || k in b
    requires forall k :: k in m ==> m[k] == if k in a then a[k] else b[k]
    ensures m == a + b
  {
  }

  /** A merge keeps every key of both transactions and no other, keeps an
    * abort, and otherwise takes the other transaction's status. */
  lemma MergedProperties(txn: Transaction, other: Transaction)
    requires Mergeable(txn, other)
    ensures AllKeys(Merged(txn, other)) == AllKeys(txn) + AllKeys(other)
    ensures forall k :: k in txn.readSet ==> Merged(txn, other).readSet[k] == txn.readSet[k]
    ensures forall k :: k in other.readSet ==> Merged(txn, other).readSet[k] == other.readSet[k]
    ensures forall k :: k in txn.writeSet ==> Merged(txn, other).writeSet[k] == txn.writeSet[k]
    ensures forall k :: k in other.writeSet ==> Merged(txn, other).writeSet[k] == other.writeSet[k]
    ensures Merged(txn, other).status == ABORTED <==> txn.status == ABORTED || other.status == ABORTED
    ensures txn.status != ABORTED ==> Merged(txn, other).status == other.status
  {
  }

  /** Merging is symmetric in the read and write sets. */
  lemma MergeSymmetricSets(txn: Transaction, other: Transaction)
    requires Mergeable(txn, other)
    ensures Mergeable(other.(id := txn.id, txnType := txn.txnType), txn)
    ensures Merged(txn, other).readSet == Merged(other, txn).readSet
    ensures Merged(txn, other).writeSet == Merged(other, txn).writeSet
  {
  }

  function CodeOf(p: Procedure): string
  {
    if p.Code? then p.code else ""
  }

  /** The map comparison used by operator==: equal sizes and every entry of
    * the first map found with the same value in the second. */
  method MapsEqual<V(==)>(m1: map<Key, V>, m2: map<Key, V>) returns (r: bool)
    ensures r <==> m1 == m2
  {
    if |m1| != |m2| {
      return false;
    }
    var rest := m1.Keys;
    while rest != {}
      invariant rest <= m1.Keys
      invariant forall k :: k in m1 && k !in rest ==> k in m2 && m2[k] == m1[k]
      decreases |rest|
    {
      var k :| k in rest;
      if k !in m2 || m2[k] != m1[k] {
        return false;
      }
      rest := rest - {k};
    }
    SubsetOfSameSize(m1.Keys, m2.Keys);
    r := true;
  }

  /** A subset as large as the whole set is the whole set. */
  lemma SubsetOfSameSize<T>(a: set<T>, b: set<T>)
    requires a <= b && |a| == |b|
    ensures a == b
  {
    assert |b - a| == |b| - |a|;
  }

  /** operator== on transactions: status, read and write sets, code, abort
    * reason, id, metadata and type; events, the delete set, the coordinating
    * server and a remaster's new master are not compared. */
  predicate TxnEquals(t1: Transaction, t2: Transaction)
  {
    t1.status == t2.status && t1.readSet == t2.readSet && t1.writeSet == t2.writeSet &&
    CodeOf(t1.procedure) == CodeOf(t2.procedure) && t1.abortReason == t2.abortReason &&
    t1.id == t2.id && t1.metadata == t2.metadata && t1.txnType == t2.txnType
  }

  /** Merging a transaction with itself succeeds and gives a transaction
    * equal to it: only the bookkeeping lists grow. */
  lemma MergeWithSelf(txn: Transaction)
    ensures Mergeable(txn, txn)
    ensures TxnEquals(Merged(txn, txn), txn)
    ensures Merged(txn, txn).deleteSet == txn.deleteSet + txn.deleteSet
  {
    assert txn.readSet + txn.readSet == txn.readSet;
    assert txn.writeSet + txn.writeSet == txn.writeSet;
  }
}
