/** The value types shared by every component (common/types.h,
  * common/constants.h and the transaction message). */
module Types {
  type Key = string
  type Value = string

  /** One octet of a key: C++ strings hold bytes, so a key's characters
    * stand for its bytes and only their low eight bits are read. */
  type Byte = b: int | 0 <= b < 256

  function ByteOf(c: char): Byte { (c as int) % 256 }

  function KeyBytes(k: Key): (bs: seq<Byte>)
    ensures |bs| == |k|
    ensures forall i :: 0 <= i < |k| ==> bs[i] == ByteOf(k[i])
  {
    seq(|k|, i requires 0 <= i < |k| => ByteOf(k[i]))
  }

  const MAX_NUM_MACHINES: nat := 1000
  const DEFAULT_MASTER_REGION_OF_NEW_KEY: nat := 0
  const PAXOS_DEFAULT_LEADER_POSITION: nat := 0
  const LOCK_TABLE_SIZE_LIMIT: nat := 1000000
  /** 2^32: the source's ids, counters and hashes are uint32_t. */
  const UINT32_LIMIT: nat := 0x1_0000_0000

  datatype Metadata = Metadata(master: nat, counter: nat)

  datatype Record = Record(value: Value, metadata: Metadata)

  datatype LockMode = UNLOCKED | READ | WRITE

  datatype MachineId = MachineId(replica: nat, partition: nat)

  datatype TransactionType = UNKNOWN | SINGLE_HOME | MULTI_HOME | LOCK_ONLY

  datatype TransactionStatus = NOT_STARTED | COMMITTED | ABORTED

  /** The procedure of a transaction: key/value code or a remaster request. */
  datatype Procedure = Code(code: string) | Remaster(newMaster: nat) | NoProcedure

  /** A transaction message. The three event lists are the parallel
    * events/event_times/event_machines fields of the message. */
  datatype Transaction = Transaction(
    id: nat,
    txnType: TransactionType,
    status: TransactionStatus,
    readSet: map<Key, Value>,
    writeSet: map<Key, Value>,
    deleteSet: seq<Key>,
    metadata: map<Key, Metadata>,
    procedure: Procedure,
    abortReason: string,
    coordinatingServer: MachineId,
    events: seq<nat>,
    eventTimes: seq<int>,
    eventMachines: seq<nat>)

  /** Every key the transaction reads or writes. */
  function AllKeys(txn: Transaction): set<Key>
  {
    txn.readSet.Keys + txn.writeSet.Keys
  }

  /** A transaction with no keys, no procedure and default fields. */
  function EmptyTransaction(): Transaction
  {
    Transaction(0, UNKNOWN, NOT_STARTED, map[], map[], [], map[], NoProcedure, "",
                MachineId(0, 0), [], [], [])
  }

  /** A batch of transactions (internal::Batch). */
  datatype Batch = Batch(
    id: nat,
    transactions: seq<Transaction>,
    txnType: TransactionType)

  /** A remote read result: the reads one partition sends the others,
    * or only its abort flag. */
  datatype RemoteReadResult = RemoteReadResult(
    txnId: nat,
    partition: nat,
    willAbort: bool,
    readValues: map<Key, Value>)

  /** The key/value store: `Read` misses on an absent key. */
  type Storage = map<Key, Record>
}
