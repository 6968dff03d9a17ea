# SLOG: a Dafny model of its per-node bookkeeping

SLOG is a deterministic, geo-replicated transaction system. Each region
runs a replica of the database, and each replica is split into
partitions. A transaction is either:

- single-home: every key it touches is mastered at one region's replica;
- multi-home: its keys are mastered at several replicas, and it is split
  into lock-only parts, one per home.

What each machine does between its message-passing layers is sequential
bookkeeping. That bookkeeping is what this project models and proves
things about:

- ordered logs that release items by consecutive position (`AsyncLogs`,
  `BatchLogs`);
- deterministic reader/writer lock tables with FIFO wait queues
  (`LockManager`, and `LockManagerDeprecated`, the version the scheduler
  calls);
- the remaster check of master counters, with its per-log and per-key
  blocking queues (`RemasterManager`, `SimpleRemasterManager`,
  `PerKeyRemasterManager`);
- machine ids, transaction construction, classification and merging
  (`ProtoUtils`);
- key-to-partition hashing with 32-bit FNV-1 (`Fnv`, `Configurations`,
  `FnvHashTool`);
- local-key extraction and the holders of a transaction
  (`TransactionHolders`, `TransactionUtils`, `TxnHolders`);
- multi-part messages and their frames (`MMessages`);
- the Paxos leader and its quorum trackers (`PaxosLeader`,
  `QuorumTrackers`, `Consensus`);
- the modules every machine runs (`Servers`, `Forwarders`, `Sequencers`,
  `MultiHomeOrderers`, `Schedulers`, `Workers`, `DynamicRemasterers`);
- the scheduler's abort manager (`AbortManagers`);
- the key/value stored-procedure interpreter (`Commands`) and the TPC-C
  procedure check (`Tpcc`);
- the benchmark workload (`BasicWorkloads`);
- the Python tools: data generation (`GenData`) and the cluster admin
  tool (`Admin`).

There is one Dafny module per source file. The shared vocabulary lives in
`Types`, `Messages`, `Wrappers` and `Bits`.

**How the model is built**

- Components that update fields in place are classes. Their methods
  state the new state in terms of specification functions. Lemmas prove
  what the source promises about those functions.
- Protobuf maps are Dafny maps. Code that walks a map, or an unordered
  set, in an order the program does not fix is proved for every order.
- Every message a module sends is appended to an outbox sequence.
- A fatal `CHECK` becomes a precondition, or an `Err` result when the
  input comes from outside the module.
- The source's unsigned 32-bit arithmetic is written out modulo 2^32
  for these values:
  - the transaction and batch id counters;
  - the remaster counter;
  - a worker's count of awaited remote reads.

  Other `uint32` values are unbounded `nat`s. These include the Paxos slot
  ids and the log positions. "## Left out" lists them.

**Where the model follows the code rather than the design**

- The C++ FNV-1 hash XORs each key byte as a `char`. On the x86 targets
  that type is signed, so a byte of 0x80 or more is sign-extended. The
  model follows this (`Configurations.FnvHash`). The Python hash tool
  XORs bytes and agrees with it only on ASCII keys
  (`Configurations.AsciiKeyPartition`, `GenData.GeneratorAgreesWithServers`).
- The worker follows module/scheduler_components/worker.cpp, which keeps
  a phase per transaction. It does not follow the older worker.h.
- The lock manager's header declares `AcceptTransaction`, but its
  implementation defines `RegisterTxn`. The model follows the
  implementation.
- The scheduler calls the API of the deprecated lock manager, so its
  model does as well. The deprecated lock manager's read-lock code is the
  same as the current one's, so the model reuses `LockManager.AcquireReadLock`.

## Model

| member | source | states |
|---|---|---|
| `AbortManagers.Aborted` | module/scheduler_components/abort_manager.cpp:16-38 | fails exactly when the holder involves other than one partition; a single-home transaction becomes ABORTED, nothing else of it changes, and it alone can be aborted; any other type leaves the transaction as it was and names nobody |
| `AbortManagers.AbortTransaction` | module/scheduler_components/abort_manager.cpp:16-38 | the involved-partitions check fails first, then a holder without a transaction is an error; otherwise the held transaction and the returned ids are those of `Aborted` |
| `AbortManagers.AbortIdempotent` | module/scheduler_components/abort_manager.cpp:21-36 | aborting the result again changes nothing and names the same ids |
| `AbortManagers.AbortsAtMostItself` | module/scheduler_components/abort_manager.cpp:21-36 | at most one id is returned, and an id is returned exactly when the transaction is single-home and the id is its own |
| `AsyncLogs.AsyncLog.constructor` | common/async_log.h:11 | the log is empty, its cursor is at the start position, and it has no next item |
| `AsyncLogs.AsyncLog.Insert` | common/async_log.h:13-23 | a position behind the cursor is ignored; a position already taken is an error and changes nothing; otherwise the item is stored at its position; the cursor never moves |
| `AsyncLogs.AsyncLog.Peek` | common/async_log.h:25-31 | succeeds exactly when the cursor's position holds an item, and then returns that item |
| `AsyncLogs.AsyncLog.Next` | common/async_log.h:33-41 | without an item at the cursor it is an error that changes nothing; otherwise it returns that item, erases it and moves the cursor up by one |
| `AsyncLogs.Run` | common/async_log.h:25-41 | the number of positions from the cursor on that hold an item before the first gap |
| `AsyncLogs.DrainIsConsecutive` | common/async_log.h:25-41 | draining with repeated Next yields exactly the items at the consecutive positions from the cursor up to the first gap, in position order, whatever order they were inserted in |
| `BatchLogs.ReadyRun` | data_structure/batch_log.cpp:37-45 | every entry of the run is the next slot with its batch id and the batch has arrived; the run stops at the first slot that is missing or whose batch has not arrived |
| `BatchLogs.AfterRunRemovesRun` | data_structure/batch_log.cpp:37-45 | what is left of the slot log after the run is the log without exactly the run's positions |
| `BatchLogs.BatchLog.constructor` | data_structure/batch_log.cpp:7 | no slot, no batch and no ready batch, cursor at 0 |
| `BatchLogs.BatchLog.AddBatch` | data_structure/batch_log.cpp:9-12 | stores the batch under its id, then moves the ready run of slots onto the ready queue |
| `BatchLogs.BatchLog.AddSlot` | data_structure/batch_log.cpp:14-17 | a slot behind the cursor is ignored; a taken slot is an error; otherwise the slot is stored; then the ready run moves onto the ready queue |
| `BatchLogs.BatchLog.NextBatch` | data_structure/batch_log.cpp:23-35 | an error when no batch is ready; otherwise returns the first ready slot with its batch (none if that batch is gone), pops it, and forgets the batch |
| `BatchLogs.BatchLog.UpdateReadyBatches` | data_structure/batch_log.cpp:37-45 | appends the ready run to the ready queue, advances the cursor past it and removes it from the slot log |
| `Configurations.ConcatLength` | common/configuration.cpp:63-69 | when every replica lists one address per partition, the flattened address list has replicas × partitions entries |
| `Configurations.ConcatIndex` | common/configuration.cpp:63-69 | address p of replica r sits at position r × partitions + p of the flattened list |
| `Configurations.SignExtend64` | common/configuration.cpp:22 | a character widened to the 64-bit hash as a signed char stays below 2^64 |
| `Configurations.FnvHash` | common/configuration.cpp:17-25 | the 64-bit loop (multiply modulo 2^32, exclusive-or of the sign-extended character) returns the 32-bit FNV-1 hash over sign-extended octets, below 2^32 |
| `Configurations.StepIn64Bits` | common/configuration.cpp:20-23 | one step of the 64-bit loop stays below 2^64 and agrees on its low 32 bits with the 32-bit FNV step |
| `Configurations.TruncatedProduct` | common/configuration.cpp:21 | multiplying in 64 bits then keeping the low 32 bits equals multiplying the low 32 bits modulo 2^32 |
| `Configurations.SignExtendLow` | common/configuration.cpp:22 | the low 32 bits of the 64-bit sign extension are the 32-bit sign extension |
| `Configurations.PartitionOfKey` | common/configuration.cpp:151-156 | the partition of a key is below the partition count |
| `Configurations.SharedPrefixSamePartition` | common/configuration.cpp:151-156 | two keys that agree on their first partition-key octets land on the same partition |
| `Configurations.AsciiKeyPartition` | common/configuration.cpp:151-156 | for an ASCII key the partition is plain FNV-1 of the leading octets modulo the partition count, the value tools/fnv_hash.py computes |
| `Configurations.Configuration.constructor` | common/configuration.cpp:54-70 | requires one address per partition in every replica (the CHECK_EQ); stores the settings and the replica-major concatenation of all addresses |
| `Configurations.Configuration.GetNumWorkers` | common/configuration.cpp:92-94 | at least one, and the configured count when that is positive |
| `Configurations.Configuration.AllAddressesIndex` | common/configuration.cpp:76-82 | the address list has replicas × partitions entries and GetAddress(r, p) is entry r × partitions + p |
| `Configurations.Configuration.AddressCount` | common/configuration.cpp:84-90 | GetNumReplicas times GetNumPartitions is the number of addresses |
| `Configurations.Configuration.GetAllMachineIds` | common/configuration.cpp:108-119 | the nested loops produce the replica-major list of "r:p" strings |
| `Configurations.Configuration.AllMachineIdsProperties` | common/configuration.cpp:108-119 | the list has replicas × partitions ids, and the one at r × partitions + p parses back to machine (r, p) |
| `Configurations.Configuration.GetLocalMachineIdAsNumber` | common/configuration.cpp:137-139 | computed in 32-bit unsigned arithmetic, so below 2^32 |
| `Configurations.Configuration.LocalMachineIdNumberDecodes` | common/configuration.cpp:137-139 | without wrap-around, dividing the number by the partition count gives the local replica and the remainder the local partition |
| `Configurations.Configuration.LocalMachineIdsAgree` | common/configuration.cpp:129-143 | GetLocalMachineIdAsProto is the id of GetLocalReplica and GetLocalPartition, and GetLocalMachineIdAsString parses back to it |
| `Configurations.Configuration.LocalMachineIdPosition` | common/configuration.cpp:108-143 | without wrap-around, GetLocalMachineIdAsNumber is the position of GetLocalMachineIdAsString in GetAllMachineIds |
| `Configurations.Configuration.GetLeaderPartitionForMultiHomeOrdering` | common/configuration.cpp:145-149 | the last partition, never partition 0 once there are two; with zero partitions it is the unsigned wrap-around 2^32 − 1 |
| `Configurations.Configuration.GetPartitionOfKey` | common/configuration.cpp:151-156 | the key's partition as PartitionOfKey defines it, below the partition count |
| `Configurations.Configuration.KeyIsInLocalPartition` | common/configuration.cpp:158-160 | true exactly when the key's partition is the local partition |
| `Fnv.Fnv1` | tools/fnv_hash.py:10-20 | 32-bit FNV-1 of the octets: the hash stays below 2^32 |
| `Fnv.FnvSignedChars` | common/configuration.cpp:17-25 | the partitioner's variant with every octet sign-extended, below 2^32 |
| `Fnv.SignedCharsAgreeOnAscii` | common/configuration.cpp:17-25 | on octets below 0x80 the partitioner's hash is plain FNV-1 |
| `Fnv.SignedCharsDivergeAtFirstHighOctet` | common/configuration.cpp:22 | after an ASCII prefix, an octet from 0x80 up makes the partitioner's hash differ from FNV-1, because the char is signed |
| `FnvHashTool.FnvHash` | tools/fnv_hash.py:10-20 | the tool's loop on unbounded Python integers computes FNV-1 |
| `FnvHashTool.PyMod` | tools/fnv_hash.py:35-36 | Python's `%`: the remainder has the sign of the modulus, lies strictly within it, and completes floor division |
| `FnvHashTool.HashCommand` | tools/fnv_hash.py:34-37 | prints the FNV-1 hash of the encoded string; with `-m` it reduces it with Python's modulo, and `-m 0` is an error (ZeroDivisionError) |
| `FnvHashTool.ToolMatchesPartitioner` | tools/fnv_hash.py:10-20 | for an ASCII key hashed whole and a positive modulus, the tool prints the partition the C++ configuration computes |
| `Commands.NextToken` | module/scheduler_components/commands.cpp:69-72 | a found token is non-empty, holds no white space and ends after the start position; there is none exactly when only white space remains |
| `Commands.NextNTokens` | module/scheduler_components/commands.cpp:79-84 | when it succeeds it returns exactly the requested number of arguments and a position within the code |
| `Commands.NextNTokensAreTokens` | module/scheduler_components/commands.cpp:79-84 | succeeds exactly when that many tokens remain; then it returns the first n remaining tokens and leaves the rest |
| `Commands.Front` | module/scheduler_components/commands.cpp:68-87 | the first command of a token list: end of code exactly on no tokens; a command is a known name with exactly its arity of arguments; otherwise the name is unknown or too few arguments follow |
| `Commands.FrontIsNext` | module/scheduler_components/commands.cpp:68-87 | NextCommand's three outcomes on the code (end, "Invalid command: …", "Invalid number of arguments for command …") are those of Front on the code's tokens |
| `Commands.FrontOfSplit` | module/scheduler_components/commands.cpp:79-80 | a known name takes exactly its arity's worth of the following tokens as arguments |
| `Commands.StepFacts` | module/scheduler_components/commands.cpp:29-45 | one command never changes the read set or the keys of the write set, appends to the delete set only a key of the write set, aborts exactly for ABORT or an earlier abort, and only extends the reason |
| `Commands.RunFront` | module/scheduler_components/commands.cpp:28-46 | the loop runs the front command and continues on the rest; it stops at the end of the code, or at a bad command with the abort flag set and the message appended |
| `Commands.Executed` | module/scheduler_components/commands.cpp:48-53 | an executed transaction is ABORTED or COMMITTED |
| `Commands.ApplyCommand` | module/scheduler_components/commands.cpp:29-45 | the loop body on the three sets and the abort state is the step function |
| `Commands.KeyValueCommands.constructor` | module/scheduler_components/commands.cpp:56-61 | cursor at 0, not aborted, empty reason |
| `Commands.KeyValueCommands.Reset` | module/scheduler_components/commands.cpp:56-61 | cursor back to 0, abort flag and reason cleared, current command untouched |
| `Commands.KeyValueCommands.NextCommand` | module/scheduler_components/commands.cpp:68-87 | returns true exactly when the front of the remaining tokens is a command, and then holds its name and arguments with the cursor past them; a bad command aborts with its message appended; the end leaves the abort state alone |
| `Commands.KeyValueCommands.Execute` | module/scheduler_components/commands.cpp:22-54 | the transaction as Executed defines it, and the object's abort flag says whether it was aborted |
| `Commands.RunKeepsKeys` | module/scheduler_components/commands.cpp:28-46 | running any code leaves the read set and the keys of the write set unchanged |
| `Commands.RunDeletesWriteKeys` | module/scheduler_components/commands.cpp:33-36 | running code only appends to the delete set, and only keys of the write set |
| `Commands.RunAbortIsSticky` | module/scheduler_components/commands.cpp:63-66 | once aborted a run stays aborted, and the abort reason only grows |
| `Commands.RunAbortsIff` | module/scheduler_components/commands.cpp:43-46 | a run ends aborted exactly when it started aborted or its tokens reach an ABORT or a bad command |
| `Commands.AbortContinues` | module/scheduler_components/commands.cpp:43-45 | ABORT k sets the flag, appends "User abort (key: k)" and the loop goes on with the next command |
| `Commands.FrontCommand` | module/scheduler_components/commands.cpp:74-86 | a known name followed by its arguments is a command with those arguments and the rest after them |
| `Commands.UnknownCommandStops` | module/scheduler_components/commands.cpp:74-77 | an unknown name aborts with "Invalid command: name" and stops the run |
| `Commands.TooFewArgumentsStop` | module/scheduler_components/commands.cpp:80-84 | too few arguments abort with "Invalid number of arguments for command name" and stop the run |
| `Commands.ExecutedProperties` | module/scheduler_components/commands.cpp:22-54 | an executed transaction is ABORTED exactly when its code aborts; its read set and write-set keys are unchanged; its delete set extends the old one with write-set keys only |
| `Commands.SetOutsideWriteSetIgnored` | module/scheduler_components/commands.cpp:29-32 | SET on a key outside the write set does nothing |
| `Commands.DelOutsideWriteSetIgnored` | module/scheduler_components/commands.cpp:33-36 | DEL on a key outside the write set does nothing |
| `Commands.CopyCopies` | module/scheduler_components/commands.cpp:37-42 | COPY src dst with src read and dst written sets dst to src's read value |
| `CommandsExamples.NotEnoughArgumentsAborts` | test/module/scheduler_components/commands_test.cpp:31-40 | the code "SET key1" aborts with "Invalid number of arguments for command SET" and leaves the write and delete sets alone |
| `Consensus.GetGlobalMembers` | module/consensus.cpp:9-18 | the global Paxos group is the multi-home ordering leader partition of every replica, in replica order |
| `Consensus.GetLocalMembers` | module/consensus.cpp:39-47 | the local Paxos group is every partition of the local replica, in partition order |
| `Consensus.NewLeader` | module/consensus.cpp:20-29 | the group's leader is built over its member list and the local machine; it is a member exactly when the local id is listed, and starts elected exactly when it is the first member |
| `Consensus.MembershipByMachine` | module/consensus.cpp:9-58 | the local machine belongs to the global group exactly when its partition is the ordering leader partition, and to the local group exactly when its partition exists; it is first in the global group exactly as replica 0 of that partition, in the local group exactly as partition 0 |
| `Consensus.DeliverAll` | module/consensus.cpp:31-66 | every output of the leader becomes exactly one message, in order |
| `Consensus.CommitsBecomeOrders` | module/consensus.cpp:31-66 | a commit of the global group becomes a batch order (slot, batch id) to the multi-home orderer; one of the local group becomes a queue order (slot, queue id) to the interleaver; a Paxos request goes to the named member on the group's channel |
| `DynamicRemasterers.Access` | module/dynamic_remasterer.cpp:59-86 | one key's streak: a local coordinator erases the history and never remasters; a new or different remote replica starts a streak of one; the same replica counts up, wrapping at 2^32, and remasters exactly when the count reaches three |
| `DynamicRemasterers.AfterTxn` | module/dynamic_remasterer.cpp:44-89 | after a transaction every key's history is the one-key step applied if the key was touched and unchanged otherwise; repeat counts stay 32-bit |
| `DynamicRemasterers.TouchedKeys` | module/dynamic_remasterer.cpp:46-54 | the keys of the read set together with those of the write set |
| `DynamicRemasterers.Int32Of` | module/dynamic_remasterer.cpp:91-99 | the uint32 replica as the int32 master it is passed as: it keeps its low 32 bits and is negative exactly from 2^31 up |
| `DynamicRemasterers.DynamicRemasterer.constructor` | module/dynamic_remasterer.cpp:15-29 | no key history and nothing sent |
| `DynamicRemasterers.DynamicRemasterer.HandleInternalRequest` | module/dynamic_remasterer.cpp:31-42 | a request other than a forwarded transaction changes nothing; a forwarded transaction updates the histories as AfterTxn says and appends one remaster transaction for each key whose streak reaches three, each key once, and nothing else |
| `DynamicRemasterers.DynamicRemasterer.MaybeRemasterKeys` | module/dynamic_remasterer.cpp:44-89 | the histories become AfterTxn of the touched keys; one remaster transaction is appended for each key whose streak reaches three, each key once, and nothing else is sent |
| `DynamicRemasterers.DynamicRemasterer.AccessKey` | module/dynamic_remasterer.cpp:60-85 | one iteration of the key loop keeps the loop's progress invariant with that key done |
| `DynamicRemasterers.DynamicRemasterer.SendRemaster` | module/dynamic_remasterer.cpp:91-110 | appends one transaction to the server that writes only the key, reads nothing, remasters it to the new replica and comes from the local machine |
| `DynamicRemasterers.AfterTxnStep` | module/dynamic_remasterer.cpp:59-86 | handling one more key updates or erases only that key's history, and adds the key to the remastered set exactly when its step remasters |
| `DynamicRemasterers.AfterNoKeys` | module/dynamic_remasterer.cpp:59-86 | a transaction touching no key changes nothing and remasters nothing |
| `DynamicRemasterers.Streak` | module/dynamic_remasterer.cpp:71-85 | after n remote accesses by one replica the repeat count stays below 2^32 |
| `DynamicRemasterers.StreakRemastersOnce` | module/dynamic_remasterer.cpp:73-85 | n accesses in a row by a new replica leave a streak of n and send exactly one remaster once n reaches three, none before |
| `DynamicRemasterers.LocalAccessRestarts` | module/dynamic_remasterer.cpp:62-78 | a local access between two remote ones breaks the streak: the next remote access starts again at one |
| `DynamicRemasterers.UntouchedKeysKept` | module/dynamic_remasterer.cpp:59 | a key the transaction does not touch keeps its history and is not remastered |
| `DynamicRemasterers.ThreeRemoteTransactions` | module/dynamic_remasterer.cpp:59-86 | three transactions over keys A, B and C from remote replica 1 remaster nothing the first two times and all three keys the third |
| `Forwarders.ListMissing` | module/forwarder.cpp:24-33 | one loop of MakeLookupMasterRequest lists, once each, exactly the keys of the set that lack metadata |
| `Forwarders.MakeLookupMasterRequest` | module/forwarder.cpp:19-35 | a lookup request for the transaction's id whose keys are the read keys lacking metadata followed by the write keys lacking metadata |
| `Forwarders.LookupListsExactlyMissing` | module/forwarder.cpp:19-35 | a key is asked for exactly when the transaction accesses it and has no metadata for it |
| `Forwarders.MergedMetadataIs` | module/forwarder.cpp:97-112 | the merge adds metadata only for accessed keys; an accessed new key gets the default master with counter 0; existing entries of keys that are not new stay; every accessed key found or new gets an entry; the others come from the lookup result |
| `Forwarders.MergeLookup` | module/forwarder.cpp:97-112 | the two loops replace the transaction's metadata by the merge |
| `Forwarders.InsertFound` | module/forwarder.cpp:100-104 | the first loop inserts the found metadata of accessed keys without overwriting |
| `Forwarders.SetNewKeys` | module/forwarder.cpp:106-112 | the second loop sets every accessed new key to the default master |
| `Forwarders.CoveringResultSettlesType` | module/forwarder.cpp:114-120 | once the lookup results cover every key that was asked for, the transaction's type is no longer UNKNOWN |
| `Forwarders.RoutedToHome` | module/forwarder.cpp:123-176 | a single-home transaction goes alone to a sequencer: on this machine exactly when its home is the local replica, else on machine (home, drawn partition); a multi-home one goes to the orderer at the local replica's leader partition; an UNKNOWN one nowhere |
| `Forwarders.Forwarder.constructor` | module/forwarder.cpp:39-42 | nothing parked, nothing sent |
| `Forwarders.Forwarder.Forward` | module/forwarder.cpp:123-176 | appends exactly the messages Routed names; the drawn partition is a parameter |
| `Forwarders.Forwarder.HandleInternalRequest` | module/forwarder.cpp:44-79 | other requests change nothing; a transaction whose type is known is forwarded; an UNKNOWN one is parked under its id and one lookup request goes to each partition of the local replica |
| `Forwarders.Forwarder.HandleInternalResponse` | module/forwarder.cpp:81-121 | other responses and unknown ids change nothing; otherwise the metadata is merged, and the transaction is forwarded and unparked once its type is known, else parked again with the merged metadata |
| `Forwarders.SendToPartitions` | module/forwarder.cpp:69-78 | one copy of the lookup request on the server channel to each partition of the replica, in partition order |
| `Forwarders.TypedIsRoutable` | module/forwarder.cpp:60-65 | a transaction with at least one key, once typed, can be routed: a single-home one has a metadata entry naming its home |
| `GenData.DecodeChar` | tools/gen_data.py:47-49 | a base64 character decodes to a 6-bit value that encodes back to the same character |
| `GenData.DecodeEncodeChar` | tools/gen_data.py:47-49 | decoding the character of a 6-bit value gives the value back |
| `GenData.Base64Encode` | tools/gen_data.py:47-49 | base64 of n octets has 4 × ⌈n / 3⌉ characters |
| `GenData.QuadRoundTrip` | tools/gen_data.py:47-49 | a full group of three octets decodes back from its four characters |
| `GenData.QuadRoundTripTwo` | tools/gen_data.py:47-49 | a final group of two octets, padded with one '=', decodes back |
| `GenData.QuadRoundTripOne` | tools/gen_data.py:47-49 | a final single octet, padded with "==", decodes back |
| `GenData.Base64RoundTrip` | tools/gen_data.py:47-49 | decoding the base64 encoding of any octet string gives it back |
| `GenData.Base64Alphabet` | tools/gen_data.py:47-49 | an encoding uses only the base64 alphabet and '=' |
| `GenData.ToBytesLittle` | tools/gen_data.py:48 | `to_bytes(n, 'little')` yields exactly n octets |
| `GenData.LittleEndianRoundTrip` | tools/gen_data.py:48 | a value that fits in n octets is read back from its little-endian octets |
| `GenData.EncodeKey` | tools/gen_data.py:32-49 | an encoded key has KEY_SIZE = 12 characters, all base64 characters or padding |
| `GenData.EncodeKeyInjective` | tools/gen_data.py:43-49 | the encoded key decodes to the key's eight little-endian octets, so distinct keys have distinct encodings |
| `GenData.GenPartitionOfKey` | tools/gen_data.py:76-77 | the partition of a key is below the partition count |
| `GenData.PartitionOfKey` | tools/gen_data.py:76-77 | fnv_hash of the encoded key modulo the partition count |
| `GenData.GeneratorAgreesWithServers` | tools/gen_data.py:76-77 | when the configuration hashes at least the twelve characters of an encoded key, the C++ partitioner puts the key on the partition the generator wrote it to |
| `GenData.KeysOfPartitionMembers` | tools/gen_data.py:87-90 | a key is in partition p's list exactly when it is below the record count and belongs to p |
| `GenData.KeysOfPartitionIncreasing` | tools/gen_data.py:87-90 | every partition's list is strictly increasing and below the record count |
| `GenData.AppendKey` | tools/gen_data.py:90 | appending a key of partition p to p's list extends the distribution by that key |
| `GenData.DistributeKey` | tools/gen_data.py:88-90 | one iteration computes the key's partition and appends the key to its list |
| `GenData.DistributeKeysBy` | tools/gen_data.py:86-90 | the loop leaves, for every partition that received a key, the increasing list of the keys below the record count that belong to it |
| `GenData.DistributeKeys` | tools/gen_data.py:86-90 | the same with the generator's own partitioning |
| `GenData.NumJobs` | tools/gen_data.py:93-96 | min(partitions, max_jobs) when max_jobs is positive, one per partition otherwise |
| `GenData.NumRecords` | tools/gen_data.py:70-72 | a zero record width is an error (ZeroDivisionError); otherwise the total size over the record width, truncated towards zero |
| `GenData.TruncDiv` | tools/gen_data.py:71-72 | `int(a / d)`: the magnitude is the quotient of the magnitudes and the sign the product of the signs |
| `GenData.NumRecordsFit` | tools/gen_data.py:70-72 | for non-negative sizes the record count is the largest number of records that fits in the total size |
| `GenData.TextDatumRoundTrip` | tools/gen_data.py:165-177 | a text datum "key,record,master" reads back as the encoded key, the record and key mod the replica count |
| `PaxosLeader.FirstIndex` | paxos/leader.cpp:21-24 | `std::find`: the first position holding the value, and none exactly when it is absent |
| `PaxosLeader.ToAll` | paxos/leader.cpp:162-166 | one copy of the request to each member, in member order |
| `PaxosLeader.ErasedIsCommittedRun` | paxos/leader.cpp:83-87 | the erase loop removes exactly the run of consecutive committed slots from the smallest uncommitted one, and stops at a slot that is missing or uncommitted |
| `PaxosLeader.RunBelowBound` | paxos/leader.cpp:83-87 | the loop never moves past the slots that exist |
| `PaxosLeader.EraseCommittedPrefix` | paxos/leader.cpp:83-87 | the loop leaves the proposals without that run and the smallest uncommitted slot at its end |
| `PaxosLeader.VisitGrows` | paxos/leader.cpp:96-109 | visiting one tracker only adds trackers and only appends to what is sent |
| `PaxosLeader.UnfinishedKeeps` | paxos/leader.cpp:110-117 | the clean-up keeps exactly the trackers that are neither COMPLETE nor ABORTED |
| `PaxosLeader.VisitFromKeeps` | paxos/leader.cpp:96-109 | the tracker loop keeps every slot below the next empty slot and leaves the smallest uncommitted slot uncommitted |
| `PaxosLeader.VisitFromSendsCommits` | paxos/leader.cpp:135-156 | the tracker loop only appends commit requests addressed to members |
| `PaxosLeader.Leader.constructor` | paxos/leader.cpp:12-35 | a member exactly when listed; elected exactly when first; the ballot is its first position; the elected leader is the first member; no slot used |
| `PaxosLeader.Leader.SendToAllMembers` | paxos/leader.cpp:162-166 | appends the request once per member, in order |
| `PaxosLeader.Leader.StartNewAcceptance` | paxos/leader.cpp:120-133 | proposes the value at the next empty slot under the leader's ballot, adds an acceptance tracker, asks every member to accept and moves the next empty slot on by one |
| `PaxosLeader.Leader.ProcessCommitRequest` | paxos/leader.cpp:55-88 | requires the CHECK_EQs (a committed slot is never committed with another value or ballot); a slot below the smallest uncommitted one is ignored; otherwise the slot is committed, reported once, the next empty slot covers it and the committed run is erased |
| `PaxosLeader.Leader.HandleRequest` | paxos/leader.cpp:37-53 | a proposal to a leader that is not elected is forwarded to the elected one and nothing else changes; an elected leader proposes the value at the next empty slot under its ballot, with an acceptance tracker and an accept request to every member; a commit below the smallest uncommitted slot changes nothing, any other commit is reported, commits its slot, moves the next empty slot past it and erases the committed run; anything else changes nothing |
| `PaxosLeader.Leader.StartNewCommit` | paxos/leader.cpp:146-156 | adds a commit tracker and sends the slot's proposal value to all members |
| `PaxosLeader.Leader.HandleResponse` | paxos/leader.cpp:90-118 | the trackers present at the start each see the response in turn, then every finished tracker is removed; no slot counter moves |
| `LockManager.AcquireReadLock` | module/scheduler_components/deterministic_lock_manager.cpp:9-31 | granted exactly when the lock is free, or read-held with nobody waiting; a grant adds a holder in READ mode, otherwise the transaction joins the waiters and the queue with a READ entry |
| `LockManager.AcquireWriteLock` | module/scheduler_components/deterministic_lock_manager.cpp:33-47 | as written: granted exactly when the lock is free, in WRITE mode; otherwise the writer is queued with a READ entry (line 42) |
| `LockManager.RemoveTxn` | module/scheduler_components/deterministic_lock_manager.cpp:57-62 | `remove_if` keeps exactly the queue entries of other transactions, and keeps them distinct |
| `LockManager.ReadRunLength` | module/scheduler_components/deterministic_lock_manager.cpp:87-92 | the length of the run of READ entries at the head of the queue: all READ, and the next entry, if any, is not |
| `LockManager.Release` | module/scheduler_components/deterministic_lock_manager.cpp:53-104 | the release, with its do-while over the READ run, computes the released lock and the new holders of ReleaseSpec |
| `LockManager.ReleaseByNonHolder` | module/scheduler_components/deterministic_lock_manager.cpp:56-66 | a non-holder's release grants nothing, keeps the mode and the holders, and takes the transaction off the queue |
| `LockManager.ReleaseByHolder` | module/scheduler_components/deterministic_lock_manager.cpp:68-104 | a holder that is not the last grants nothing; the last holder with nobody waiting leaves the lock UNLOCKED; otherwise some waiters, and only those, become the holders and stop waiting |
| `LockManager.AcquireReadLockKeepsInv` | module/scheduler_components/deterministic_lock_manager.cpp:9-31 | acquiring for a transaction not yet queued keeps the lock invariant (holders and waiters disjoint, the queue lists exactly the waiters once each, the mode matches the holders) |
| `LockManager.AcquireWriteLockKeepsInv` | module/scheduler_components/deterministic_lock_manager.cpp:33-47 | the same for a write request |
| `LockManager.ReleaseKeepsInv` | module/scheduler_components/deterministic_lock_manager.cpp:53-104 | every release keeps the lock invariant |
| `LockManager.GrantReadRunKeepsInv` | module/scheduler_components/deterministic_lock_manager.cpp:84-94 | granting the READ run to the head of the queue keeps the invariant |
| `LockManager.GrantWriterKeepsInv` | module/scheduler_components/deterministic_lock_manager.cpp:96-102 | granting the single WRITE entry at the head keeps the invariant |
| `LockManager.QueueStaysRead` | module/scheduler_components/deterministic_lock_manager.cpp:21-42 | since both acquisitions queue READ entries, a queue of READ entries stays one through every operation |
| `LockManager.LastReleaseGrantsEveryWaiter` | module/scheduler_components/deterministic_lock_manager.cpp:84-94 | with only READ entries queued, the last holder's release hands the lock in READ mode to every waiter at once |
| `LockManager.WriterSharesLockAsWritten` | module/scheduler_components/deterministic_lock_manager.cpp:33-47 | as written: reader 1 holds, writer 2 and reader 3 queue; releasing 1 grants 2 and 3 together in READ mode, so the writer shares the lock |
| `LockManager.AcquireOneKeepsInv` | module/scheduler_components/deterministic_lock_manager.cpp:135-151 | one request of AcquireLocks (skipped when already queued) keeps the invariant |
| `LockManager.ReleaseKey` | module/scheduler_components/deterministic_lock_manager.cpp:172-192 | releasing one key keeps the table invariant |
| `LockManager.ReleaseAll` | module/scheduler_components/deterministic_lock_manager.cpp:172-192 | releasing a list of keys keeps the table invariant |
| `LockManager.ReleaseKeyReady` | module/scheduler_components/deterministic_lock_manager.cpp:178-185 | a transaction becomes ready exactly when it is newly granted with one lock left to wait for, and is then no longer counted; other new holders wait for one less; everyone else is untouched |
| `LockManager.ReleaseKeyEvicts` | module/scheduler_components/deterministic_lock_manager.cpp:187-191 | other keys' locks are unchanged; the released key stays in the table with its new state unless it is now UNLOCKED and the table is over LOCK_TABLE_SIZE_LIMIT |
| `LockManager.Settle` | module/scheduler_components/deterministic_lock_manager.cpp:117-157 | setting a counter and erasing it at 0: the counter reads c, is present exactly when c is not 0, and no other counter changes |
| `LockManager.RegisterAcquireCommute` | module/scheduler_components/deterministic_lock_manager.cpp:161-164 | registering n locks and granting g, in either order, settle the counter at its old value + n − g |
| `LockManager.Acquired` | module/scheduler_components/deterministic_lock_manager.cpp:132-152 | after acquiring, the table covers its old keys and every requested key |
| `LockManager.AcquiredKeepsInv` | module/scheduler_components/deterministic_lock_manager.cpp:132-152 | acquiring keeps the table invariant |
| `LockManager.AcquiredStep` | module/scheduler_components/deterministic_lock_manager.cpp:132-152 | one more request changes only its own key's lock, by one acquisition |
| `LockManager.GrantedStep` | module/scheduler_components/deterministic_lock_manager.cpp:132-152 | one more request adds one grant exactly when its acquisition succeeds |
| `LockManager.GrantedMembers` | module/scheduler_components/deterministic_lock_manager.cpp:132-152 | the granted keys of one more request are the old ones plus that key exactly when it is granted |
| `LockManager.ModesOfListed` | module/scheduler_components/deterministic_lock_manager.cpp:199-215 | the key list ExtractKeys returns, read as a map, is the requested lock mode of each key |
| `LockManager.FoldIsAcquired` | module/scheduler_components/deterministic_lock_manager.cpp:132-152 | over distinct keys the order of the loop does not matter: it leaves the table of Acquired and makes one grant per granted key |
| `LockManager.CountedSettles` | module/scheduler_components/deterministic_lock_manager.cpp:139-157 | lowering the counter once per grant and erasing it at 0 is Settle at the old value minus the grants |
| `LockManager.AccountGrants` | module/scheduler_components/deterministic_lock_manager.cpp:179-185 | the loop over the new holders lowers each one's counter, erases those reaching 0 and adds them to the ready set |
| `LockManager.AccountOne` | module/scheduler_components/deterministic_lock_manager.cpp:180-184 | one iteration of that loop accounts for one more holder |
| `LockManager.DeterministicLockManager.constructor` | module/scheduler_components/deterministic_lock_manager.cpp:106-107 | empty lock table and counters |
| `LockManager.DeterministicLockManager.LocalRequests` | module/scheduler_components/deterministic_lock_manager.cpp:199-215 | ExtractKeys lists each local key once with its mode (WRITE when also written), and is empty exactly when the transaction has no local key |
| `LockManager.DeterministicLockManager.RegisterTxn` | module/scheduler_components/deterministic_lock_manager.cpp:109-123 | a transaction without local keys is not ready and changes nothing; otherwise its counter grows by the number of locks, and it is ready exactly when that makes it 0 (which erases it); the table is untouched |
| `LockManager.DeterministicLockManager.AcquireLocks` | module/scheduler_components/deterministic_lock_manager.cpp:125-159 | no local key: nothing changes, not ready; otherwise every request is made, the counter drops by the grants, and the transaction is ready (and uncounted) exactly when it reaches 0 |
| `LockManager.DeterministicLockManager.AcquireListed` | module/scheduler_components/deterministic_lock_manager.cpp:132-158 | the loop over the listed keys has the outcome AcquireLocks promises |
| `LockManager.DeterministicLockManager.AcquireEach` | module/scheduler_components/deterministic_lock_manager.cpp:132-152 | the loop leaves the table of the key-by-key fold and lowers the counter once per grant |
| `LockManager.DeterministicLockManager.ReleaseStep` | module/scheduler_components/deterministic_lock_manager.cpp:173-191 | one key of the release loop is ReleaseKey |
| `LockManager.DeterministicLockManager.ReleaseLocks` | module/scheduler_components/deterministic_lock_manager.cpp:166-197 | releases every local key of the transaction, in ExtractKeys order, returns the transactions made ready and erases the transaction's own counter |
| `LockManager.DeterministicLockManager.ReleaseListed` | module/scheduler_components/deterministic_lock_manager.cpp:172-192 | the loop over the listed keys is ReleaseAll |
| `LockManagerDeprecated.AcquireWriteLock` | module/scheduler_components/deterministic_lock_manager_deprecated.cpp:34-48 | granted exactly when the lock is free, in WRITE mode; otherwise the writer waits with a WRITE entry in the queue |
| `LockManagerDeprecated.AcquireWriteLockKeepsInv` | module/scheduler_components/deterministic_lock_manager_deprecated.cpp:34-48 | for a transaction not yet queued the write request keeps the lock invariant |
| `LockManagerDeprecated.AcquireOneKeepsInv` | module/scheduler_components/deterministic_lock_manager_deprecated.cpp:131-148 | one request of AcquireLocks, for a transaction the CHECK lets through, keeps the invariant |
| `LockManagerDeprecated.AcquireOneLocks` | module/scheduler_components/deterministic_lock_manager_deprecated.cpp:133-151 | after a request the lock is never UNLOCKED, and a free lock is always granted |
| `LockManagerDeprecated.WriterHeadGrantedAlone` | module/scheduler_components/deterministic_lock_manager_deprecated.cpp:97-103 | when a WRITE entry heads the queue the last holder's release grants the writer alone, in WRITE mode |
| `LockManagerDeprecated.WriterExclusive` | module/scheduler_components/deterministic_lock_manager_deprecated.cpp:34-48 | reader 1 holds, writer 2 and reader 3 queue: releasing 1 grants the writer alone in WRITE mode, and releasing 2 then grants reader 3 |
| `LockManagerDeprecated.WriterQueuesBehindReader` | module/scheduler_components/deterministic_lock_manager_deprecated.cpp:10-48 | the exact lock states of that scenario: the writer queues behind the reader, and the later reader queues behind the writer |
| `LockManagerDeprecated.ReaderReleaseGrantsWriter` | module/scheduler_components/deterministic_lock_manager_deprecated.cpp:54-105 | the exact state and grant of the reader's release there |
| `LockManagerDeprecated.WriterReleaseGrantsReader` | module/scheduler_components/deterministic_lock_manager_deprecated.cpp:54-105 | the writer's release then hands the lock to the waiting reader in READ mode |
| `LockManagerDeprecated.LockedKeysUpdate` | module/scheduler_components/deterministic_lock_manager_deprecated.cpp:149-151 | replacing one key's lock changes the number of locked keys by its change of state |
| `LockManagerDeprecated.LockedKeysEvict` | module/scheduler_components/deterministic_lock_manager_deprecated.cpp:183-185 | evicting an UNLOCKED key leaves the locked keys unchanged |
| `LockManagerDeprecated.ReleaseKeyLockedCount` | module/scheduler_components/deterministic_lock_manager_deprecated.cpp:176-186 | one key of the release loop keeps the table invariant and lowers the locked-key count exactly when the key goes from locked to UNLOCKED |
| `LockManagerDeprecated.FoldUntouched` | module/scheduler_components/deterministic_lock_manager_deprecated.cpp:128-152 | the acquisition loop leaves the lock of a key it does not request alone |
| `LockManagerDeprecated.FoldKeepsInv` | module/scheduler_components/deterministic_lock_manager_deprecated.cpp:128-152 | requests the CHECK at line 131 lets through keep the table invariant |
| `LockManagerDeprecated.DeterministicLockManagerDeprecated.constructor` | module/scheduler_components/deterministic_lock_manager_deprecated.cpp:107-119 | empty table, no counters, no locked key |
| `LockManagerDeprecated.DeterministicLockManagerDeprecated.AcceptTransaction` | module/scheduler_components/deterministic_lock_manager_deprecated.cpp:107-119 | a holder without local keys is not ready and changes nothing; otherwise the counter grows by the number of keys, ready and erased exactly when it becomes 0; no lock changes |
| `LockManagerDeprecated.DeterministicLockManagerDeprecated.AcquireLocks` | module/scheduler_components/deterministic_lock_manager_deprecated.cpp:121-162 | requires the CHECK (no key requested twice); the table becomes the fold of the requests; ready exactly when some lock was granted and the counter reaches 0; the counter moves only when something was granted |
| `LockManagerDeprecated.DeterministicLockManagerDeprecated.AcceptTransactionAndAcquireLocks` | module/scheduler_components/deterministic_lock_manager_deprecated.cpp:164-167 | the counter ends at its old value + keys − grants, and ready exactly when some grant brought it to 0 |
| `LockManagerDeprecated.DeterministicLockManagerDeprecated.AcquireEach` | module/scheduler_components/deterministic_lock_manager_deprecated.cpp:128-152 | the loop leaves the fold's table, counts its grants and keeps the locked-key count exact |
| `LockManagerDeprecated.DeterministicLockManagerDeprecated.AcquireStep` | module/scheduler_components/deterministic_lock_manager_deprecated.cpp:129-151 | one request changes only its key's lock, says whether it was granted and keeps the locked-key count exact |
| `LockManagerDeprecated.DeterministicLockManagerDeprecated.ReleaseLocks` | module/scheduler_components/deterministic_lock_manager_deprecated.cpp:169-200 | releases every key of the holder in order, returns the transactions made ready and erases the transaction's own counter |
| `LockManagerDeprecated.DeterministicLockManagerDeprecated.ReleaseListed` | module/scheduler_components/deterministic_lock_manager_deprecated.cpp:174-195 | the loop is ReleaseAll over the holder's keys |
| `LockManagerDeprecated.DeterministicLockManagerDeprecated.ReleaseStep` | module/scheduler_components/deterministic_lock_manager_deprecated.cpp:175-194 | one key of the loop is ReleaseKey, and the invariant (with the locked-key count) holds after it |
| `LockManagerDeprecated.ReleaseEntry` | module/scheduler_components/deterministic_lock_manager_deprecated.cpp:176-186 | one key's release and eviction on the table, with the new locked-key count and the new holders |
| `Messages.ToMachines` | module/base/networked_module.cpp:104-115 | one envelope per listed machine, in order, each with the same channel and request |
| `Messages.ToMachinesConcat` | module/sequencer.cpp:74-78 | sending to two lists of machines in turn is sending to their concatenation |
| `Messages.PartitionsOf` | module/forwarder.cpp:71-78 | the machine ids "r:p" of every partition of replica r, in partition order |
| `Messages.ReplicasOf` | module/multi_home_orderer.cpp:81-89 | the machine ids "r:p" of every replica of partition p, in replica order |
| `Messages.MachineIdsDistinct` | common/proto_utils.cpp:64-66 | distinct (replica, partition) pairs below 2^32 give distinct machine id strings |
| `Messages.StampedId` | module/sequencer.cpp:137-140 | counter × MAX_NUM_MACHINES + machine number in 32-bit unsigned arithmetic, so below 2^32 |
| `Messages.NextCounter` | module/sequencer.cpp:138 | the incremented 32-bit counter stays below 2^32 |
| `Messages.StampedIdsDistinct` | module/sequencer.cpp:137-140 | before wrap-around, two machines below MAX_NUM_MACHINES = 1000 stamp the same id only with the same counter and machine, and one machine's ids grow with its counter |
| `Messages.SendToReplicas` | module/multi_home_orderer.cpp:81-89 | the loop over replicas sends one copy to each replica of the partition, in replica order |
| `MMessages.Sent` | common/mmessage.cpp:111-121 | SendTo emits the identity frame only when it is set, then the delimiter and every part; every frame but the last has "more" set |
| `MMessages.ReadPartsOfSent` | common/mmessage.cpp:138-142 | the do-while reads back every remaining body frame of a sent message |
| `MMessages.RoundTrip` | common/mmessage.cpp:111-143 | receiving the frames SendTo sent restores the identity and the body |
| `MMessages.MMessage.constructor` | common/mmessage.cpp:36-38 | no identity, empty body |
| `MMessages.MMessage.SetIdentity` | common/mmessage.cpp:49-63 | sets the identity and leaves the body; GetIdentity then returns it, and HasIdentity holds exactly when it is not empty |
| `MMessages.MMessage.Push` | common/mmessage.cpp:69-77 | appends one part: the size grows by one and GetString of the last index returns it |
| `MMessages.MMessage.Pop` | common/mmessage.cpp:79-83 | removes and returns the last part |
| `MMessages.MMessage.EnsureBodySize` | common/mmessage.cpp:151-155 | pads the body with empty parts up to the size and keeps the existing parts |
| `MMessages.MMessage.Set` | common/mmessage.cpp:93-110 | writes the part at the index, padding with empty parts first, so that GetString of the index returns it; no other part changes |
| `MMessages.MMessage.Clear` | common/mmessage.cpp:145-149 | no identity, empty body |
| `MMessages.MMessage.SendTo` | common/mmessage.cpp:111-121 | the frames sent are those of Sent |
| `MMessages.MMessage.ReceiveFrom` | common/mmessage.cpp:123-143 | on well-formed frames the message holds the received identity and body; a missing frame is an error (the runtime_error) |
| `MultiHomeOrderers.Drained` | module/multi_home_orderer.cpp:117-137 | draining sends at most one batch per ready slot; when it stops at a slot whose batch is gone, fewer slots are left queued than were ready |
| `MultiHomeOrderers.DrainCompletesIff` | module/multi_home_orderer.cpp:117-137 | the drain goes through exactly when every ready slot's batch is buffered and no two ready slots name the same batch; otherwise it stops at some slot k (the null batch that line 124 dereferences), after one batch for each earlier slot, with the slots behind k still queued |
| `MultiHomeOrderers.DrainedForwardsSlots` | module/multi_home_orderer.cpp:117-137 | every batch drained goes to the local sequencer carrying one of the ready slots as its id; a drain that goes through forgets the batches of all ready slots; no drain touches a batch no ready slot names, and none is invented |
| `MultiHomeOrderers.DrainedInSlotOrder` | module/multi_home_orderer.cpp:117-137 | with the slots ready in increasing order the batches leave in increasing slot order, none below the first ready slot |
| `MultiHomeOrderers.MultiHomeOrderer.constructor` | module/multi_home_orderer.cpp:13-20 | an empty multi-home batch, counter 0, an empty batch log, nothing sent |
| `MultiHomeOrderers.MultiHomeOrderer.NextBatchId` | module/multi_home_orderer.cpp:140-143 | the counter moves up by one (wrapping at 2^32) and the id is the counter stamped with the local machine number |
| `MultiHomeOrderers.MultiHomeOrderer.HandleTick` | module/multi_home_orderer.cpp:58-93 | an empty batch is not sent and changes nothing; otherwise the batch gets the next id, that id is proposed to the global Paxos group, the batch goes to the orderer of the leader partition of every replica, and a new empty batch starts |
| `MultiHomeOrderers.MultiHomeOrderer.HandleInternalRequest` | module/multi_home_orderer.cpp:33-56 | a forwarded transaction is appended to the current batch and nothing is sent; forwarded batch data or orders leave the log, the outbox and the result as Forwarded says (a taken slot changes nothing; otherwise the log after the request and the drain, the drained batches appended, and an error if the drain met a slot whose batch was gone); other requests change nothing |
| `MultiHomeOrderers.MultiHomeOrderer.ProcessForwardBatch` | module/multi_home_orderer.cpp:95-138 | the log, the outbox and the result are those of Forwarded: batch data is added to the log, a batch order places its slot (a taken slot is an error that changes nothing), then every ready batch goes to the local sequencer in slot order with its slot as id, until a slot whose batch an earlier slot already took ends the handling with an error, what was sent before it staying sent |
| `MultiHomeOrderers.MultiHomeOrderer.DrainReady` | module/multi_home_orderer.cpp:117-137 | the loop sends the batches of Drained and leaves the buffer Drained leaves; it empties the ready queue, or at a null batch returns the error for that slot with the slots behind it still queued |
| `MultiHomeOrderers.AddedValid` | data_structure/batch_log.cpp:9-45 | adding batch data or a batch order keeps the log consistent, and its ready queue lists increasing slots |
| `MultiHomeOrderers.ForwardedInSlotOrder` | module/multi_home_orderer.cpp:117-137 | what ProcessForwardBatch adds to the outbox, whether or not the drain goes through, only goes to the local sequencer, in strictly increasing slot order, after what was already sent |
| `MultiHomeOrderers.ForwardFailsIff` | module/multi_home_orderer.cpp:95-137 | a forward-batch request fails exactly when its order names a taken slot, or when the slots it makes ready miss a batch or name one batch twice; a taken slot leaves log and outbox as they were |
| `MultiHomeOrderers.RepeatedOrderStops` | module/multi_home_orderer.cpp:117-124 | two orders naming one batch, at slots 0 and 1, then its data: the batch goes out once, renumbered 0, and slot 1 ends the handling with the missing-batch error |
| `MultiHomeOrderers.FirstOrderPlaced` | module/multi_home_orderer.cpp:107-116 | on a fresh log, the order for slot 0 only places the batch id, sending nothing |
| `MultiHomeOrderers.SecondOrderPlaced` | module/multi_home_orderer.cpp:107-116 | a second order for the same batch id at slot 1 only places it too |
| `MultiHomeOrderers.DataMeetsRepeatedOrder` | module/multi_home_orderer.cpp:98-124 | the batch's data readies both slots: the batch goes out for slot 0 and slot 1 finds it gone, leaving the cursor at 2 and nothing buffered |
| `MultiHomeOrderers.DataWaitsForOrder` | module/multi_home_orderer.cpp:95-116 | batch data whose slot is not yet ordered at the cursor is only buffered under its id, and nothing is sent |
| `MultiHomeOrderers.OrderWaitsForData` | module/multi_home_orderer.cpp:95-116 | an order for a slot whose batch has not arrived only places the batch id at the slot, and nothing is sent |
| `MultiHomeOrderers.OrderReleasesBatch` | module/multi_home_orderer.cpp:95-137 | the order for the slot at the cursor, once its batch has arrived, sends that batch first, renumbered with the slot, forgets it and moves the cursor on |
| `MultiHomeOrderers.DataReleasesBatch` | module/multi_home_orderer.cpp:95-137 | the data of the batch ordered at the cursor sends that batch first, renumbered with the slot, keeps no copy and moves the cursor on |
| `MultiHomeOrderers.ReleasesFirst` | module/multi_home_orderer.cpp:117-137 | a drain whose first ready slot has its batch sends that batch first, renumbered with the slot, and forgets it |
| `PerKeyRemasterManager.PerKeyRemasterManager.constructor` | module/scheduler_components/per_key_remaster_manager.cpp:9-10 | a new manager has no blocked queues |
| `PerKeyRemasterManager.PerKeyRemasterManager.VerifyMaster` | module/scheduler_components/per_key_remaster_manager.cpp:12-63 | no local keys or no metadata gives VALID; a counter behind storage gives ABORT; counters that agree and no queue of a key fronted by a counter no larger than the transaction's give VALID; otherwise WAITING, the transaction is inserted into the queue of each of its keys and is then queued; the queue invariant is kept |
| `PerKeyRemasterManager.PerKeyRemasterManager.ReleaseTransaction` | module/scheduler_components/per_key_remaster_manager.cpp:65-90 | the released transaction leaves every queue and is never reported; of the others, exactly those that leave the queues are reported, once each, as unblocked when their check is VALID and as to abort when it is ABORT; the queue invariant is kept |
| `PerKeyRemasterManager.PerKeyRemasterManager.RemasterOccured` | module/scheduler_components/per_key_remaster_manager.cpp:103-114 | the transactions that leave the queues are exactly the reported ones, with their checks; without a queue for the key, or a front that must wait, nothing changes; an ABORT front is the first to abort, a VALID front of all its queues the first unblocked |
| `PerKeyRemasterManager.TryToUnblock` | module/scheduler_components/per_key_remaster_manager.cpp:116-164 | the front of the key's queue is unblocked or aborted as RemasterOccured states, then the keys it held are retried; the queues only shrink and the invariant is kept |
| `PerKeyRemasterManager.RetryKeys` | module/scheduler_components/per_key_remaster_manager.cpp:85-88 | retrying each key of a released transaction reports exactly the transactions that leave the queues |
| `PerKeyRemasterManager.Release` | module/scheduler_components/per_key_remaster_manager.cpp:65-90 | a transaction is taken off all its queues and the freed keys retried; it is itself never reported |
| `PerKeyRemasterManager.RemoveEntry` | module/scheduler_components/per_key_remaster_manager.cpp:72-77 | the loop removes the transaction's first entry from a queue |
| `PerKeyRemasterManager.WithoutProps` | module/scheduler_components/per_key_remaster_manager.cpp:72-77 | removal takes exactly that id out, keeps the queue sorted by counter and without duplicates, adds nothing, and shortens it by one when the id was there |
| `PerKeyRemasterManager.RemoveFromQueues` | module/scheduler_components/per_key_remaster_manager.cpp:68-82 | each local key's queue loses the transaction, and a queue left empty is erased |
| `PerKeyRemasterManager.DroppedValid` | module/scheduler_components/per_key_remaster_manager.cpp:68-82 | dropping a transaction from its queues keeps the queue invariant |
| `PerKeyRemasterManager.DroppedQueued` | module/scheduler_components/per_key_remaster_manager.cpp:68-82 | after the drop the queued transactions are the old ones less the dropped one |
| `PerKeyRemasterManager.FrontsEvery` | module/scheduler_components/per_key_remaster_manager.cpp:137-144 | true exactly when the transaction fronts the queue of every one of its keys |
| `PerKeyRemasterManager.PopFronts` | module/scheduler_components/per_key_remaster_manager.cpp:148-154 | popping the fronts removes the transaction from each of its queues, erasing emptied ones |
| `PerKeyRemasterManager.ReportsJoin` | module/scheduler_components/per_key_remaster_manager.cpp:129-130 | two successive reporting steps joined report exactly what left the queues over both |
| `PerKeyRemasterManager.ReportsFirst` | module/scheduler_components/per_key_remaster_manager.cpp:125-131 | a front reported first, followed by a correct report of the rest, is a correct report |
| `PerKeyRemasterManager.InsertionPoint` | module/scheduler_components/per_key_remaster_manager.cpp:95-99 | the insertion point follows every entry with a counter no larger and precedes the first with a larger counter |
| `PerKeyRemasterManager.InsertIntoBlockedQueue` | module/scheduler_components/per_key_remaster_manager.cpp:92-101 | the loop puts the entry at the insertion point |
| `PerKeyRemasterManager.InsertedProps` | module/scheduler_components/per_key_remaster_manager.cpp:92-101 | insertion keeps the queue sorted by counter, adds exactly the one id, and keeps ids distinct |
| `PerKeyRemasterManager.InsertedAdds` | module/scheduler_components/per_key_remaster_manager.cpp:92-101 | insertion adds exactly one entry, as a multiset |
| `PerKeyRemasterManager.EnqueueOnKeys` | module/scheduler_components/per_key_remaster_manager.cpp:57-61 | the transaction is inserted, with its counter for that key, into the queue of each local key |
| `PerKeyRemasterManager.EnqueuedValid` | module/scheduler_components/per_key_remaster_manager.cpp:57-61 | enqueueing a transaction not yet queued keeps the invariant and adds exactly it to the queued ones |
| `PerKeyRemasterManager.IndirectlyBlocked` | module/scheduler_components/per_key_remaster_manager.cpp:34-45 | true exactly when some key's queue is fronted by a counter no larger than the transaction's for that key |
| `PerKeyRemasterManager.NotBlockedGoesFirst` | module/scheduler_components/per_key_remaster_manager.cpp:34-45 | a transaction not blocked behind has a smaller counter than every entry in the queues of its keys |
| `PerKeyRemasterManager.ValidCheckHasMetadata` | module/scheduler_components/remaster_manager.h:79-82 | a VALID check means each local key has metadata |
| `RemasterManager.CheckCounters` | module/scheduler_components/remaster_manager.h:69-104 | without metadata the verdict is VALID; otherwise it is the scan of the local keys below |
| `RemasterManager.CheckKeysAbort` | module/scheduler_components/remaster_manager.h:79-103 | the verdict is ABORT exactly when some key is behind storage and every key before it agrees with storage |
| `RemasterManager.CheckKeysWaiting` | module/scheduler_components/remaster_manager.h:79-103 | the verdict is WAITING exactly when some key is ahead of storage and every key before it agrees |
| `RemasterManager.CheckKeysValid` | module/scheduler_components/remaster_manager.h:79-103 | the verdict is VALID exactly when every key agrees with storage |
| `RemasterManager.AbsentKeyIsCounterZero` | module/scheduler_components/remaster_manager.h:85-90 | a key not yet stored counts as counter 0: storing it with counter 0 changes no verdict |
| `SimpleRemasterManager.SimpleCheckIsShared` | module/scheduler_components/simple_remaster_manager.cpp:46-71 | when every stored key agrees on its master, this manager's counter check gives the same verdict as the shared CheckCounters |
| `SimpleRemasterManager.MasterMismatchIsFatal` | module/scheduler_components/simple_remaster_manager.cpp:58-62 | a stored key with another master fails here even when its counter is behind, where the shared check says ABORT |
| `SimpleRemasterManager.Unblock` | module/scheduler_components/simple_remaster_manager.cpp:95-120 | what stays of a queue is a suffix of it, and every transaction in it can still be checked |
| `SimpleRemasterManager.UnblockWaits` | module/scheduler_components/simple_remaster_manager.cpp:106-108 | a WAITING head stops the unblocking and nothing changes |
| `SimpleRemasterManager.UnblockPops` | module/scheduler_components/simple_remaster_manager.cpp:109-119 | a VALID head is unblocked first, an ABORT head aborted first, and the rest of the queue is unblocked after it |
| `SimpleRemasterManager.UnblockStopsAtWaiting` | module/scheduler_components/simple_remaster_manager.cpp:95-120 | the transactions that leave are the longest prefix without a WAITING verdict; the head that stays is WAITING |
| `SimpleRemasterManager.UnblockReports` | module/scheduler_components/simple_remaster_manager.cpp:109-113 | of the transactions that leave, the VALID ones are reported unblocked and the ABORT ones to abort, each list in queue order |
| `SimpleRemasterManager.UnblockQueue` | module/scheduler_components/simple_remaster_manager.cpp:95-120 | the recursion leaves the queue as Unblock does and appends what left to the result |
| `SimpleRemasterManager.ContainsKey` | module/scheduler_components/simple_remaster_manager.cpp:82-89 | true exactly when the remastered key is among the transaction's local keys |
| `SimpleRemasterManager.RemasterFold` | module/scheduler_components/simple_remaster_manager.cpp:78-91 | the remaster keeps the set of queues and every queue can still be checked |
| `SimpleRemasterManager.RemasterFoldStep` | module/scheduler_components/simple_remaster_manager.cpp:79-90 | one more queue is unblocked when its head touches the key and left alone otherwise |
| `SimpleRemasterManager.RemasterQueues` | module/scheduler_components/simple_remaster_manager.cpp:78-91 | the loop visits every queue once, in some order, and gives the fold in that order |
| `SimpleRemasterManager.RemasterFoldQueues` | module/scheduler_components/simple_remaster_manager.cpp:76-91 | whatever the order, each queue ends as its own unblocking alone leaves it, and only a queue whose head touches the key changes |
| `SimpleRemasterManager.SimpleRemasterManager.constructor` | module/scheduler_components/simple_remaster_manager.cpp:7-10 | a new manager has no blocked queues |
| `SimpleRemasterManager.SimpleRemasterManager.VerifyMaster` | module/scheduler_components/simple_remaster_manager.cpp:12-44 | no local keys or no metadata gives VALID with nothing queued; otherwise, for the log of one master of the metadata, behind a non-empty queue the transaction joins it as WAITING, else the check decides and only WAITING starts the queue |
| `SimpleRemasterManager.SimpleRemasterManager.TryToUnblock` | module/scheduler_components/simple_remaster_manager.cpp:95-120 | the log's queue becomes what Unblock leaves, and what left is appended to the result |
| `SimpleRemasterManager.SimpleRemasterManager.RemasterOccured` | module/scheduler_components/simple_remaster_manager.cpp:73-93 | the queues become the remaster fold over some enumeration of the logs, and the result is the fold's |
| `ProtoUtils.NatToString` | common/proto_utils.cpp:65 | std::to_string of a number is a non-empty string of decimal digits |
| `ProtoUtils.DigitsValueOfNatToString` | common/proto_utils.cpp:65 | reading back the decimal digits of a number gives the number |
| `ProtoUtils.MakeMachineIdAsString` | common/proto_utils.cpp:64-66 | the string is the replica's digits, one ':' and the partition's digits |
| `ProtoUtils.SkipSpaces` | common/proto_utils.cpp:56-57 | stoul first skips exactly the leading white space |
| `ProtoUtils.DigitRunEnd` | common/proto_utils.cpp:56-57 | stoul reads exactly the run of digits that follows |
| `ProtoUtils.Stoul` | common/proto_utils.cpp:56-57 | a number stoul accepts fits an unsigned long |
| `ProtoUtils.Find` | common/proto_utils.cpp:47 | find returns the first position of the character, and none exactly when it does not occur |
| `ProtoUtils.MakeMachineId` | common/proto_utils.cpp:46-62 | a string without ':' is rejected; an accepted id has 32-bit replica and partition |
| `ProtoUtils.MachineIdOfParts` | common/proto_utils.cpp:51-61 | the id is made exactly when both halves parse, with the low 32 bits of each, and any failure is an invalid argument |
| `ProtoUtils.StoulOfNatToString` | common/proto_utils.cpp:56-57 | stoul reads back the decimal digits of any number below 2^64 |
| `ProtoUtils.FindFirst` | common/proto_utils.cpp:47 | find returns the first occurrence of the character |
| `ProtoUtils.MakeMachineIdAt` | common/proto_utils.cpp:46-57 | the id is split at the first ':' and both halves are parsed |
| `ProtoUtils.MachineIdRoundTrip` | common/proto_utils.cpp:46-66 | parsing the string form of a machine id gives the machine id back |
| `ProtoUtils.StoulLeadingDigit` | common/proto_utils.cpp:56-57 | stoul reads the leading digit and ignores what follows |
| `ProtoUtils.StoulNoDigit` | common/proto_utils.cpp:56-57 | a string starting with neither a space, a sign nor a digit is no number |
| `ProtoUtils.MakeMachineIdZero` | test/common/proto_utils_test.cpp:16-18 | "0:0" is replica 0, partition 0 |
| `ProtoUtils.MakeMachineIdTwoDigits` | test/common/proto_utils_test.cpp:20-22 | "12:34" is replica 12, partition 34 |
| `ProtoUtils.MachineIdString1234` | common/proto_utils.cpp:64-66 | replica 12, partition 34 is written "12:34" |
| `ProtoUtils.MakeMachineIdTrailingGarbage` | test/common/proto_utils_test.cpp:24-26 | "5aa:6bb" is replica 5, partition 6 |
| `ProtoUtils.MakeMachineIdNoColon` | test/common/proto_utils_test.cpp:28 | "01234" is rejected |
| `ProtoUtils.MakeMachineIdNoDigits` | test/common/proto_utils_test.cpp:29 | "ab12:cd34" is rejected |
| `ProtoUtils.TransactionTypeOf` | common/proto_utils.cpp:112-149 | UNKNOWN exactly when some read or write key lacks metadata; otherwise SINGLE_HOME exactly when all metadata names one master, else MULTI_HOME |
| `ProtoUtils.SameMasterAsFirst` | common/proto_utils.cpp:135-145 | comparing every master with the first one's decides whether all masters agree |
| `ProtoUtils.SetTransactionType` | common/proto_utils.cpp:112-149 | only the type field changes, and it becomes the classification |
| `ProtoUtils.EmptyValues` | common/proto_utils.cpp:80-85 | each key gets the empty value, and there are no other keys |
| `ProtoUtils.KeptMetadata` | common/proto_utils.cpp:93-103 | the metadata is kept exactly for the read and write keys, with its master and counter |
| `ProtoUtils.MakeTransaction` | common/proto_utils.cpp:72-110 | every read and write key has an empty value, metadata only for those keys, a remaster procedure exactly when new_master is non-negative, status NOT_STARTED, the given coordinating server and the classified type; nothing else is set |
| `ProtoUtils.MadeTransactionType` | common/proto_utils.cpp:93-108 | a transaction made with metadata for all its keys is never UNKNOWN, and is single-home exactly when those keys share a master |
| `ProtoUtils.MergeMap` | common/proto_utils.cpp:165-180 | the merge succeeds exactly when no key holds two different values; it then holds every key of both with its value, and otherwise names a conflicting key and both of its values |
| `ProtoUtils.MergeTransaction` | common/proto_utils.cpp:151-199 | different ids, then different types, then a conflicting read value, then a conflicting write value are rejected, in that order; otherwise the result is the merge |
| `ProtoUtils.MergedUnion` | common/proto_utils.cpp:165-180 | for compatible maps the entry-by-entry merge is the map union |
| `ProtoUtils.MergedProperties` | common/proto_utils.cpp:181-188 | a merge keeps every key and value of both transactions and no other key, stays aborted once either side is aborted, and otherwise takes the other's status |
| `ProtoUtils.MergeSymmetricSets` | common/proto_utils.cpp:165-182 | merged read and write sets do not depend on the order of the two transactions |
| `ProtoUtils.MapsEqual` | common/proto_utils.cpp:21-34 | equal sizes and every entry found with the same value means the maps are equal, and conversely |
| `ProtoUtils.MergeWithSelf` | common/proto_utils.cpp:151-229 | merging a transaction with itself succeeds and gives a transaction equal to it under operator==; only the delete set and event lists grow |
| `QuorumTrackers.NewTrackerCounts` | paxos/quorum_tracker.cpp:7-9 | a new tracker is INCOMPLETE with no responders, which agrees with its count |
| `QuorumTrackers.HandleKeepsCount` | paxos/quorum_tracker.cpp:11-35 | every response keeps the state in step with the number of distinct responders: at most half before a quorum, more than half after it, all once complete |
| `QuorumTrackers.FinishedOrInvalidIgnored` | paxos/quorum_tracker.cpp:14-19 | a COMPLETE or ABORTED tracker, or a response of the wrong type, ballot or slot, changes nothing and reports nothing |
| `QuorumTrackers.ResponderRecorded` | paxos/quorum_tracker.cpp:21 | a valid response records its sender once, so a repeated sender does not count twice |
| `QuorumTrackers.ReportedChanges` | paxos/quorum_tracker.cpp:23-34 | a change is reported exactly when the state changes, only to COMPLETE or QUORUM_REACHED, the quorum only once and from INCOMPLETE, and COMPLETE exactly when every member has responded |
| `QuorumTrackers.Aborted` | paxos/quorum_tracker.cpp:37-39 | an aborted tracker is finished and ignores further responses |
| `QuorumTrackers.QuorumTracker.constructor` | paxos/quorum_tracker.cpp:7-9 | the tracker starts as NewTracker of its kind and member count |
| `QuorumTrackers.QuorumTracker.HandleResponse` | paxos/quorum_tracker.cpp:11-73 | the tracker's fields and the answer are those of Handle on the old tracker, with the validity test of its kind |
| `QuorumTrackers.QuorumTracker.Abort` | paxos/quorum_tracker.cpp:37-39 | the tracker becomes its aborted value |
| `Sequencers.PartMajorCoversAll` | module/sequencer.cpp:74-79 | the wake-up loops name R times P machines, every replica of every partition among them |
| `Sequencers.SendToAllSchedulers` | module/sequencer.cpp:74-79 | the batch goes to the scheduler of every machine, partition by partition and replica by replica |
| `Sequencers.LockOnlyPartsSplitKeys` | module/sequencer.cpp:94-116 | a lock-only part keeps the id, has type LOCK_ONLY, no metadata and no code, and holds exactly the read and write keys this replica masters, with their values; the parts of two replicas share no key |
| `Sequencers.ProjectEntries` | module/sequencer.cpp:105-116 | the loop keeps exactly the entries whose key this replica masters |
| `Sequencers.MakeLockOnly` | module/sequencer.cpp:95-116 | the lock-only transaction built is the projection of the multi-home one onto this replica |
| `Sequencers.LockOnlyParts` | module/sequencer.cpp:94-119 | one lock-only part per multi-home transaction, in batch order |
| `Sequencers.Sequencer.constructor` | module/sequencer.cpp:12-26 | a new sequencer has an empty SINGLE_HOME batch, counter 0 and nothing sent |
| `Sequencers.Sequencer.NextBatchId` | module/sequencer.cpp:137-140 | the counter is incremented in 32 bits and the id is the counter times MAX_NUM_MACHINES plus the local machine number |
| `Sequencers.Sequencer.PutSingleHomeTransactionIntoBatch` | module/sequencer.cpp:128-135 | a single-home or lock-only transaction is appended to the batch, and the batch holds only such transactions |
| `Sequencers.Sequencer.HandleInternalRequest` | module/sequencer.cpp:28-50 | a forwarded transaction joins the batch; a multi-home batch adds its lock-only parts and is sent to every partition of this replica; any other request changes nothing |
| `Sequencers.Sequencer.ProcessMultiHomeBatch` | module/sequencer.cpp:84-126 | a batch that is not multi-home is ignored; otherwise each of its transactions adds its lock-only part to the batch, in order, and the batch is sent to the schedulers of this replica's partitions |
| `Sequencers.Sequencer.HandlePeriodicWakeUp` | module/sequencer.cpp:52-82 | an empty batch sends nothing; otherwise the batch gets the next id and, as position, the previous counter, the local partition is proposed to Paxos, the batch goes to every scheduler, and a new batch starts |
| `Sequencers.PreviousCounter` | module/sequencer.cpp:66-67 | counter minus one in 32-bit arithmetic: the counter it precedes |
| `Sequencers.SendToPartitions` | module/sequencer.cpp:122-125 | the request goes to the scheduler of every partition of one replica, in partition order |
| `Sequencers.PositionsCountFromZero` | module/sequencer.cpp:66-67 | successive batches have positions 0, 1, 2, … and growing ids, until the counter wraps |
| `Servers.ValidatedIff` | module/server.cpp:12-29 | validation leaves a transaction NOT_STARTED exactly when it touches a key and, if a remaster, reads nothing and writes one key, and ABORTED otherwise; it changes only the status and, on rejection, the reason, which is "Txn accesses no key" for one without keys |
| `Servers.Entered` | module/server.cpp:74-75 | the id gets a pending entry, and one already under it is kept; no other id's entry changes |
| `Servers.Stamped` | module/server.cpp:79-85 | the transaction gets its id and this server as coordinator, is ABORTED exactly when it is not well formed, and keeps its keys and procedure |
| `Servers.Server.constructor` | module/server.cpp:31-32 | a new server has counter 0, nobody pending, no partial transaction and nothing sent |
| `Servers.Server.NextTxnId` | module/server.cpp:236-239 | the counter is incremented in 32 bits, then stamped with the local machine number |
| `Servers.Server.SendResponseToClient` | module/server.cpp:219-234 | an id nobody waits for is dropped; otherwise the client gets the response with its stream id and its entry is removed |
| `Servers.Server.Register` | module/server.cpp:72-75 | every request gets the next id and a pending entry under it |
| `Servers.Server.AcceptTxn` | module/server.cpp:78-97 | an invalid transaction is answered to its client at once, a valid one is forwarded to the forwarder and its client keeps waiting |
| `Servers.Server.HandleCustomSocket` | module/server.cpp:57-124 | nothing happens without a readable request; otherwise the request is registered, a transaction is accepted, a scheduler statistics request is passed to the scheduler, and a request of unknown type loses its entry again |
| `Servers.Server.ProcessStatsRequest` | module/server.cpp:156-189 | the client is answered with the id counter, the number of pending requests and of partial transactions |
| `Servers.Server.HandleInternalResponse` | module/server.cpp:195-204 | a statistics response goes to the client waiting under its id; any other response is handled as statistics with id 0 and no text |
| `Servers.Server.ProcessCompletedSubtxn` | module/server.cpp:139-154 | a sub-transaction nobody waits for is dropped; otherwise it joins those of its transaction, the first fixing the partition count, and once all have arrived the merged transaction is answered and forgotten |
| `Servers.SuccessiveIdsGrow` | module/server.cpp:236-239 | two requests one after the other get growing ids, until the counter wraps |
| `Servers.MachinesNeverShareIds` | module/server.cpp:236-239 | servers on different machines never hand out the same id |
| `TransactionHolders.ParticipantsAdd` | common/transaction_holder.cpp:21 | one more key adds exactly its partition to the participants |
| `TransactionHolders.ParticipantsBounded` | common/transaction_holder.cpp:21-29 | every participant is a partition below the partition count |
| `TransactionHolders.LocalParticipates` | common/transaction_holder.cpp:20-33 | the local partition participates exactly when the transaction has a local key |
| `TransactionHolders.ReadKeyPartitions` | common/transaction_holder.cpp:20-27 | the read loop lists, once each and as READ, exactly the local keys that are read and not written, and collects the partitions of all read keys |
| `TransactionHolders.ReadOne` | common/transaction_holder.cpp:21-26 | one read key keeps the read loop's invariant |
| `TransactionHolders.WriteKeyPartitions` | common/transaction_holder.cpp:28-33 | the write loop lists, once each and as WRITE, exactly the local written keys, and collects the partitions of all written keys |
| `TransactionHolders.WriteOne` | common/transaction_holder.cpp:29-32 | one written key keeps the write loop's invariant |
| `TransactionHolders.ExtractKeyPartitions` | common/transaction_holder.cpp:15-34 | the old keys stay as they were, followed by every local key once with WRITE when written and READ when only read; the participants gain the partitions of every key |
| `TransactionHolders.GetReplicaIdOf` | common/transaction_holder.cpp:87-98 | 0 for empty metadata, otherwise the master of one of the metadata entries (the map's first) |
| `TransactionHolders.OneMasterReplicaId` | common/transaction_holder.cpp:95-97 | when all metadata names one master, the replica id is that master |
| `TransactionHolders.TransactionHolder.constructor` | common/transaction_holder.cpp:38 | a default holder has no transaction, no worker, no keys and no participants |
| `TransactionHolders.TransactionHolder.WithTransaction` | common/transaction_holder.cpp:39-41 | a holder of a transaction lists its local keys with their locks and knows the partitions of all its keys |
| `TransactionHolders.TransactionHolder.SetTransaction` | common/transaction_holder.cpp:47-51 | the transaction is held; its local keys are appended after the ones already held, which are not cleared, and its partitions join the participants |
| `TransactionHolders.TransactionHolder.ReleaseTransaction` | common/transaction_holder.cpp:57-61 | the held transaction is handed out and the holder holds none; nothing else changes |
| `TransactionHolders.TransactionHolder.SetWorker` | common/transaction_holder.cpp:63-69 | the worker read back is the one set; nothing else changes |
| `TransactionHolders.TransactionHolder.GetReplicaId` | common/transaction_holder.cpp:83-85 | the replica id of the held transaction, as GetReplicaIdOf states |
| `TransactionHolders.TransactionHolder.GetTransactionIdReplicaIdPair` | common/transaction_holder.cpp:100-108 | the held transaction's id paired with its replica id |
| `TransactionHolders.TransactionHolder.HeldParticipants` | common/transaction_holder.cpp:20-33 | for a holder of one transaction, PartitionParticipants lists partitions below the partition count, and holds the local partition exactly when KeysInPartition is not empty |
| `TransactionUtils.ListedSize` | common/transaction_utils.cpp:11-27 | a key list naming each local key once has one entry per key, so it is empty exactly when no key is local |
| `TransactionUtils.DistinctKeysSize` | common/transaction_utils.cpp:11-27 | a list without repeated keys has as many keys as entries |
| `TransactionUtils.ExtractKeysInPartition` | common/transaction_utils.cpp:11-27 | the old keys stay as they were, followed by every local key once, WRITE when written (even when also read) and READ when only read, every READ entry before every WRITE entry |
| `TransactionUtils.LocalReadKeys` | common/transaction_utils.cpp:15-21 | the read loop lists, once each and as READ, exactly the local keys read and not written |
| `TransactionUtils.LocalWriteKeys` | common/transaction_utils.cpp:22-26 | the write loop lists, once each and as WRITE, exactly the local written keys |
| `TransactionUtils.LocalListsJoin` | common/transaction_utils.cpp:11-27 | the two loops' lists together name every local key once with its lock |
| `TransactionUtils.TransactionHolder.constructor` | common/transaction_utils.cpp:31 | a default holder has no transaction, no worker and no keys |
| `TransactionUtils.TransactionHolder.WithTransaction` | common/transaction_utils.cpp:32-34 | a holder of a transaction lists its local keys with their locks |
| `TransactionUtils.TransactionHolder.SetTransaction` | common/transaction_utils.cpp:40-43 | the transaction is held and its local keys are appended after the ones already held |
| `TransactionUtils.TransactionHolder.ReleaseTransaction` | common/transaction_utils.cpp:49-53 | the held transaction is handed out and the holder holds none; nothing else changes |
| `TransactionUtils.TransactionHolder.SetWorker` | common/transaction_utils.cpp:55-61 | the worker read back is the one set; nothing else changes |
| `TxnHolders.FilledAtMostSlots` | common/txn_holder.h:28-46 | no more slots are filled than there are slots, and none when all are empty |
| `TxnHolders.FillAddsOne` | common/txn_holder.h:41-43 | filling an empty slot adds exactly one to the filled count |
| `TxnHolders.TxnHolder.constructor` | common/txn_holder.h:19-31 | one slot per replica, the transaction in the slot of its home and the others empty, count 1, the expected count the number of involved replicas, no remaster result, no flag set and no dispatch |
| `TxnHolders.TxnHolder.AddLockOnlyTxn` | common/txn_holder.h:33-46 | a lock-only transaction is added exactly when the slot of its home is empty, filling it and counting one more; otherwise nothing changes; the count stays the number of filled slots |
| `TxnHolders.TxnHolder.Release` | common/txn_holder.h:48-55 | the main transaction is handed out and every slot is emptied, the number of slots unchanged |
| `TxnHolders.TxnHolder.SetRemasterResult` | common/txn_holder.h:64 | the remaster result becomes the key and counter |
| `TxnHolders.TxnHolder.SetDone` | common/txn_holder.h:67 | the done flag is set |
| `TxnHolders.TxnHolder.SetAborting` | common/txn_holder.h:70 | the aborting flag is set |
| `TxnHolders.TxnHolder.IncNumDispatches` | common/txn_holder.h:73 | the dispatch count grows by one |
| `TxnHolders.CountAtMostSlots` | common/txn_holder.h:28-46 | the lock-only count never exceeds the number of slots |
| `TxnHolders.ReadyForGcIff` | common/txn_holder.h:76 | IsReadyForGc holds exactly when the holder is done and as many slots are filled as lock-only transactions are expected, so never when more are expected than there are slots |
| `Tpcc.CheckArgumentsIsWellFormed` | execution/tpcc.cpp:17-132 | the argument checks pass exactly on a well-formed code (a known first name with the argument and procedure counts its kind needs), and then give the kind the first argument names |
| `Tpcc.ValidateArguments` | execution/tpcc.cpp:17-132 | the checks, with the loop over the ten order lines of a new_order, give the result of the check function |
| `Tpcc.InvalidCodeReasons` | execution/tpcc.cpp:17-131 | a code without procedures or with an empty first procedure is "Invalid code", an unrecognised name is "Unknown procedure name" |
| `Tpcc.Execute` | execution/tpcc.cpp:14-140 | with the missing else restored: the checked kind's run decides the outcome, and a failed check gives the abort of that check |
| `Tpcc.ExecutedAsWritten` | execution/tpcc.cpp:133-139 | as written, every transaction ends ABORTED with its code unchanged, and writes are applied only after a successful run |
| `Tpcc.Executed` | execution/tpcc.cpp:133-139 | as intended, a transaction ends COMMITTED or ABORTED with its code unchanged, its writes are applied exactly when it commits, and only after a successful run |
| `Tpcc.ExecutedCommitsIff` | execution/tpcc.cpp:133-139 | as intended, a transaction commits exactly when its code is well formed and its run succeeds, its writes are applied exactly when it commits, and an abort carries the reason of the first failed check or "Aborted by a TPC-C txn"; the code is never changed |
| `Tpcc.AsWrittenNeverCommits` | execution/tpcc.cpp:133-139 | as written, every transaction ends ABORTED, and a successful one after its writes were applied |
| `Tpcc.PaymentShowsMissingElse` | execution/tpcc.cpp:57-139 | a payment whose run succeeds ends ABORTED with its writes applied as written, and COMMITTED as intended |
| `Schedulers.EarlyReadsBack` | module/scheduler.cpp:422-427 | one message per buffered read, all to the transaction's worker, from the last read to the first |
| `Schedulers.RemoteReadArrived` | module/scheduler.cpp:205-225 | a read for a held transaction that has a worker goes straight to that worker; otherwise it is buffered in the transaction's holder (made if absent) and nothing is sent; the ready queues do not change |
| `Schedulers.ReadsDispatchNothing` | module/scheduler.cpp:422-427 | forwarding buffered reads dispatches no transaction |
| `Schedulers.ConservesTrans` | module/scheduler.cpp:391-428 | two steps that each keep the ready queues FIFO (what was dispatched plus what is left is what was queued plus what arrived) keep them FIFO together |
| `Schedulers.DispatchPairsHeads` | module/scheduler.cpp:397-411 | a dispatch hands ready transactions to ready workers in FIFO order on both queues; it changes nothing exactly when no transaction or no worker is ready; from a state with at most one free worker it leaves no transaction waiting beside a free worker |
| `Schedulers.DispatchSendsTxnThenReads` | module/scheduler.cpp:406-427 | the transaction goes to the worker before every read buffered for it, and the holder is left with that worker and no buffered read |
| `Schedulers.EnqueueAppends` | module/scheduler.cpp:391-395 | an enqueued id joins the ready queue behind those already there, and from a state with at most one free worker nothing is left waiting beside a free worker |
| `Schedulers.BufferedReadDelivered` | module/scheduler.cpp:205-427 | a read that arrives before its transaction has a worker reaches the worker once the transaction is dispatched |
| `Schedulers.ReversedIdsReverse` | module/scheduler.cpp:332-333 | the transactions of a batch are taken from the last to the first |
| `Schedulers.TakenFromSome` | module/scheduler.cpp:328-331 | the run of one log is taken in full exactly when every ready slot names a stored batch and no two slots name the same batch; otherwise the middle loop meets a null batch |
| `Schedulers.TakenFromHolds` | module/scheduler.cpp:328-331 | every transaction of every ready batch of a run taken in full is among the ids taken |
| `Schedulers.GatheredHolds` | module/scheduler.cpp:325-329 | every id of the run of every log the outer loop visits is among the ids taken |
| `Schedulers.TakingStep` | module/scheduler.cpp:325-372 | draining the next log of the visiting order, not yet visited, and taking its run marks that log drained, leaves every unvisited log holding its run, and appends the run to what was taken |
| `Schedulers.TakingDone` | module/scheduler.cpp:325-372 | once the outer loop has visited every log of the order, every log is drained and the ids taken are the runs in that order |
| `Schedulers.SendEarlyReads` | module/scheduler.cpp:422-427 | the loop appends the buffered reads, from the back, to the messages sent |
| `Schedulers.OrderSendsReachEveryReplica` | module/scheduler.cpp:306-322 | every order the local interleaver hands out reaches the local partition of every replica |
| `Schedulers.SendOrders` | module/scheduler.cpp:308-321 | the two loops send exactly those orders |
| `Schedulers.RunKeepsPlaced` | data_structure/batch_log.cpp:37-45 | a slot that is placed and not yet reached stays in the log or moves to the ready queue |
| `Schedulers.Scheduler.constructor` | module/scheduler.cpp:20-42 | a new scheduler is consistent, its logs hold no batch and nothing ready, and it has no ready transaction or worker, no holder and nothing sent |
| `Schedulers.Scheduler.MaybeDispatchNextTransaction` | module/scheduler.cpp:397-428 | the state becomes the dispatch of the old state |
| `Schedulers.Scheduler.EnqueueTransactionForDispatching` | module/scheduler.cpp:391-395 | the id joins the ready queue and a dispatch is tried, after which no transaction waits beside a free worker |
| `Schedulers.Scheduler.ProcessRemoteReadResult` | module/scheduler.cpp:205-225 | the state becomes what RemoteReadArrived gives |
| `Schedulers.Scheduler.AcceptTransaction` | module/scheduler.cpp:375-385 | the holder keeps the transaction exactly when it then has some local key, its key list gaining the transaction's local keys; otherwise the holder is erased; no other holder changes |
| `Schedulers.Scheduler.TakeSingleHome` | module/scheduler.cpp:337-345 | a transaction that is not accepted (no local key) is dropped and the lock manager is untouched; the ready queue gains this transaction alone when it is reported ready, and nothing otherwise |
| `Schedulers.Scheduler.TakeMultiHome` | module/scheduler.cpp:346-354 | never fails; a transaction that is not accepted is dropped and the lock manager is untouched; the ready queue gains this transaction alone when it is reported ready, and nothing otherwise |
| `Schedulers.Scheduler.TakeLockOnly` | module/scheduler.cpp:355-365 | a lock-only part that completes its transaction's locks enqueues a transaction that must already be held; one without local keys enqueues nothing |
| `Schedulers.Scheduler.TakeTransaction` | module/scheduler.cpp:333-369 | each released transaction is handled by its type, and a transaction of another type changes nothing |
| `Schedulers.Scheduler.TakeBatch` | module/scheduler.cpp:332-370 | the transactions of a batch are taken from the last to the first, and only transactions of the batch are enqueued, each through the FIFO ready queue |
| `Schedulers.Scheduler.TakeLog` | module/scheduler.cpp:328-371 | the middle loop over one log takes exactly the ids of TakenFrom of its ready queue and batches (batch after batch in slot order, each from the last transaction to the first) and leaves its ready queue empty; a null batch on the way is an error; the ready queues conserve what was enqueued and the scheduler stays consistent and idle |
| `Schedulers.Scheduler.TakeNextBatch` | module/scheduler.cpp:329-370 | one pass of the middle loop: the next ready batch leaves the log; a batch that is gone is the null-batch error for its slot; otherwise its ids join those taken, followed by what is left of the log's run |
| `Schedulers.Scheduler.TakeLogKeeping` | module/scheduler.cpp:328-371 | the middle loop on one log as TakeLog states it, and every other log keeps its ready queue and its batches |
| `Schedulers.Scheduler.TakeRun` | module/scheduler.cpp:325-372 | one pass of the outer loop: the next log of the visiting order is drained and its run is appended to the ids taken, the ready queues conserving what was enqueued |
| `Schedulers.Scheduler.IterationOrder` | module/scheduler.cpp:325 | the order of an unordered map over the logs: every log index once |
| `Schedulers.Scheduler.NextOf` | module/scheduler.cpp:329 | the first ready slot is taken with its batch, when that batch is stored, and the ready queue shrinks |
| `Schedulers.Scheduler.ProcessGlobalLogs` | module/scheduler.cpp:324-373 | every log is visited once, in some order of the unordered map; on success every ready queue is empty and the ids taken are, in that order, the runs the logs held on entry; a null batch is an error; the ready queues conserve what was enqueued and the scheduler stays consistent and idle |
| `Schedulers.Scheduler.ProcessForwardBatch` | module/scheduler.cpp:134-196 | a malformed sender is an invalid argument; a single-home batch joins the sender replica's log and, from the local replica, the local interleaver; a multi-home batch takes the slot named by its id in the multi-home log; an order places its slot in the sender replica's log |
| `Schedulers.Scheduler.AddSlotTo` | module/scheduler.cpp:182-192 | an order for a slot not yet reached places that slot in the log; the stored batches do not change |
| `Schedulers.Scheduler.AddBatchTo` | module/scheduler.cpp:159 | the batch is stored under its id, and every placed slot stays placed |
| `Schedulers.Scheduler.HandleResponseFromWorker` | module/scheduler.cpp:266-300 | a response that is not a finished transaction changes nothing; a finished one without a held transaction is an error; otherwise its locks are released as the lock manager's ReleaseAll says, exactly the transactions it reports ready are enqueued, once each, the holder is erased, and a participating partition sends the transaction as the worker returned it to the coordinating server |
| `Schedulers.Scheduler.FinishTransaction` | module/scheduler.cpp:271-299 | the lock table becomes the one ReleaseAll gives, the transactions that got their last lock are enqueued once each, the holder is erased, and the server gets the transaction as executed when this partition took part |
| `Schedulers.Scheduler.SendCompleted` | module/scheduler.cpp:283-298 | the coordinating server of the transaction gets it, with the local partition and the participants, exactly when the local partition is a participant |
| `Schedulers.Scheduler.EnqueueAll` | module/scheduler.cpp:276-278 | each released transaction is enqueued exactly once |
| `Schedulers.Scheduler.HandleWorkerResponse` | module/scheduler.cpp:81-92 | the returning worker joins the ready workers; the state is that of HandleResponseFromWorker followed by a dispatch, with the queues FIFO over the enqueued transactions and the worker, and no transaction waits beside a free worker; the server is told of a finished transaction as HandleResponseFromWorker says; a finished transaction that is not held is an error |
| `Schedulers.Scheduler.ForwardWorkerRequest` | module/scheduler.cpp:70-80 | a worker's request goes to the scheduler of the named machine |
| `Schedulers.Scheduler.MaybeUpdateLocalLog` | module/scheduler.cpp:306-322 | the orders handed out by the interleaver are sent to every replica's copy of the local partition |
| `Schedulers.Scheduler.HandleInternalRequest` | module/scheduler.cpp:108-132 | a remote read is delivered or buffered as RemoteReadArrived says, and any other request leaves the queues as they were, up to what the global logs enqueue; forwarded batches change the logs and, for a single-home batch from the local replica, the interleaver's batch ids, and a malformed sender is an error; a local queue order joins the interleaver's slots; then the local orders go to every replica and every log is drained, the ids taken being the logs' runs after the request in the visiting order |
| `Schedulers.Scheduler.UpdateLogs` | module/scheduler.cpp:130-131 | MaybeUpdateLocalLog then MaybeProcessNextBatchesFromGlobalLog: the orders go to every replica's copy of the local partition, and the logs are drained as ProcessGlobalLogs says |
| `Schedulers.Scheduler.HandleRequestByType` | module/scheduler.cpp:111-129 | forwarded batches go to ProcessForwardBatch, a malformed sender being an error; a local queue order joins the interleaver's slots; a remote read is delivered or buffered as RemoteReadArrived says; no other request changes the queues, the holders or the logs' runs |
| `Schedulers.Scheduler.BatchIdsAfter` | module/scheduler.cpp:152-158 | the interleaver gains one batch id exactly for a single-home batch whose sender is well formed and on the local replica; the ids already there stay |
| `Schedulers.Scheduler.SlotsAfter` | module/scheduler.cpp:116-118 | the interleaver gains one slot exactly for a local queue order; the slots already there stay |
| `Workers.Dec32` | module/scheduler_components/worker.cpp:151 | the decrement of a uint32 counter: one more than the result is the counter again, modulo 2^32, so 0 wraps to the largest value |
| `Workers.WaitCount` | module/scheduler_components/worker.cpp:276-280 | a passive partition waits for no read; an active one waits for the number of involved partitions less one, modulo 2^32 |
| `Workers.ActiveWaitsForOthers` | module/scheduler_components/worker.cpp:277-280 | an active partition that is involved waits for exactly one read from each other involved partition |
| `Workers.KeepLocal` | module/scheduler_components/worker.cpp:96-115 | the erase-while-iterating loop leaves exactly the entries of the local partition |
| `Workers.LocalPartKeeps` | module/scheduler_components/worker.cpp:96-115 | a key survives exactly when it was there and is local, with its value unchanged |
| `Workers.CheckMasters` | module/scheduler_components/worker.cpp:225-237 | the transaction aborts exactly when some key of its master metadata is stored with another master |
| `Workers.Fill` | module/scheduler_components/worker.cpp:244-253 | the loop gives every key of the set the value it would read from storage |
| `Workers.FilledReadsStorage` | module/scheduler_components/worker.cpp:244-253 | every key of a filled set is kept; it holds the stored value, or the empty string when the key is not stored |
| `Workers.SendsTo` | module/scheduler_components/worker.cpp:389-394 | one copy of the payload per listed partition, addressed to that partition on the given replica, in order |
| `Workers.ListsOnceLength` | module/scheduler_components/worker.cpp:389-394 | a list naming every partition of a set exactly once is as long as the set |
| `Workers.BroadcastReachesEach` | module/scheduler_components/worker.cpp:384-395 | a broadcast sends one message per destination, each carries the payload, and every destination is reached |
| `Workers.SendToOtherPartitions` | module/scheduler_components/worker.cpp:384-395 | the request reaches every partition of the set but the local one, once each, on the local replica |
| `Workers.SendsToSnoc` | module/scheduler_components/worker.cpp:389-394 | one more partition adds one message at the end |
| `Workers.AfterLocalRead` | module/scheduler_components/worker.cpp:240-254 | the local read keeps the transaction's id, procedure, metadata and keys; a stale master makes it ABORTED and changes nothing else; otherwise the status stays and every read and write value is the stored one |
| `Workers.LocalReadState` | module/scheduler_components/worker.cpp:276-287 | after the local read the state waits for remote reads exactly when it awaits some, and is otherwise in EXECUTE |
| `Workers.ReadLocal` | module/scheduler_components/worker.cpp:196-288 | the new state is the local read's, and the abort flag with the reads, when not aborting, goes to every other active partition once |
| `Workers.AfterRemoteRead` | module/scheduler_components/worker.cpp:139-149 | an aborting sender makes the transaction ABORTED and changes nothing else; otherwise the sender's reads overwrite or join the read set and the other reads stay |
| `Workers.Executed` | module/scheduler_components/worker.cpp:290-310 | no procedure is an error; an aborted code transaction stays as it is; a remaster commits; the result is ABORTED or COMMITTED, with id, procedure and metadata kept |
| `Workers.CommitEffects` | module/scheduler_components/worker.cpp:316-342 | after a committed code transaction a local written key that is not deleted holds its new value, with the stored metadata or, for a new key, the transaction's; a deleted local key is gone; every other key is untouched |
| `Workers.WroteAll` | module/scheduler_components/worker.cpp:322-336 | once every written key is processed, the metadata covered every new local key and the storage is the written one |
| `Workers.WroteOne` | module/scheduler_components/worker.cpp:324-335 | writing one local key extends the written part by that key |
| `Workers.SkippedOne` | module/scheduler_components/worker.cpp:324 | a key of another partition is passed over |
| `Workers.WriteOne` | module/scheduler_components/worker.cpp:323-335 | a local key is written; the only failure is a new local key without master metadata |
| `Workers.WriteAll` | module/scheduler_components/worker.cpp:322-336 | the writes succeed exactly when every new local key has master metadata, and then give the written storage; a failure names such a key |
| `Workers.DeleteAll` | module/scheduler_components/worker.cpp:337-341 | the storage loses exactly the local keys of the delete set |
| `Workers.Remastered` | module/scheduler_components/worker.cpp:344-357 | a key of another partition leaves storage alone; a local key without metadata or not stored is an error; otherwise only that key changes, keeping its value, with the new master and the counter plus one modulo 2^32 |
| `Workers.AbortedWritesNothing` | module/scheduler_components/worker.cpp:318-320 | an aborted code transaction leaves storage as it is |
| `Workers.CommitStorage` | module/scheduler_components/worker.cpp:312-361 | the storage changes as the transaction's procedure calls for |
| `Workers.CommitErrors` | module/scheduler_components/worker.cpp:329-360 | a commit fails only with one of the fatal errors of its phase |
| `Workers.ReadsDoNotFinish` | module/scheduler_components/worker.cpp:365-382 | messages that are all remote reads never report a finished transaction |
| `Workers.RunsToEndCommitted` | module/scheduler_components/worker.cpp:290-361 | from EXECUTE, a committed code transaction whose new local keys have master metadata ends with its writes and then its deletes applied, and only so |
| `Workers.RunsToEndAborted` | module/scheduler_components/worker.cpp:290-320 | from EXECUTE, a code transaction that ends ABORTED leaves the storage as it is |
| `Workers.RunsToEndWithoutProcedure` | module/scheduler_components/worker.cpp:290-310 | from EXECUTE, a transaction without a procedure fails with ProcedureNotSet |
| `Workers.RunsToEndOutcome` | module/scheduler_components/worker.cpp:290-382 | from EXECUTE, a run that ends keeps the transaction id and leaves it ABORTED or COMMITTED; a run that fails fails with a fatal error of its phase |
| `Workers.Worker.constructor` | module/scheduler_components/worker.cpp:23-42 | a new worker holds no transaction state and has sent nothing |
| `Workers.Worker.SetUp` | module/scheduler_components/worker.cpp:44-49 | an empty response tells the scheduler that the worker is alive |
| `Workers.Worker.ProcessWorkerRequest` | module/scheduler_components/worker.cpp:82-128 | a null transaction and one already held are errors that change nothing; otherwise the transaction, keeping only its local read and write keys, gets a state in READ_LOCAL_STORAGE |
| `Workers.Worker.ProcessRemoteReadResult` | module/scheduler_components/worker.cpp:130-165 | a read for an unknown transaction is an error; otherwise the read is applied and the wait count drops by one (as a uint32); the last awaited read moves WAIT_REMOTE_READ to EXECUTE, and in any other phase it is an error |
| `Workers.Worker.ReadLocalStorage` | module/scheduler_components/worker.cpp:196-288 | the state becomes the local read's, and only remote read results are sent, one to each other active partition |
| `Workers.Worker.Execute` | module/scheduler_components/worker.cpp:290-310 | the transaction becomes the executed one and moves to COMMIT; no procedure is an error that changes nothing |
| `Workers.Worker.Commit` | module/scheduler_components/worker.cpp:312-363 | the storage changes as the procedure calls for and the state moves to FINISH; a failure is a fatal error of the phase and changes nothing |
| `Workers.Worker.Finish` | module/scheduler_components/worker.cpp:365-382 | the scheduler is told the transaction is done and its state is erased |
| `Workers.Worker.AdvanceTransaction` | module/scheduler_components/worker.cpp:167-194 | a waiting transaction is left alone; from the local read the local reads go to every other active partition, then it either waits for remote reads or runs to the end as RunsToEnd says; from EXECUTE, COMMIT or FINISH it runs to the end; it ends exactly when the scheduler is told so; no other transaction changes |
| `Workers.Worker.AdvanceFromExecute` | module/scheduler_components/worker.cpp:179-193 | from EXECUTE, COMMIT or FINISH the transaction runs as RunsToEnd says: executed, committed into the storage and finished, with the scheduler told the final transaction and its state erased, or a fatal error of its phase leaves it held, the storage and the outbox unchanged; no other transaction changes |
| `Workers.Worker.CommitAndFinish` | module/scheduler_components/worker.cpp:184-193 | the COMMIT and FINISH phases from where EXECUTE leaves the transaction, as RunsToEnd says |
| `Workers.Worker.HandleRequest` | module/scheduler_components/worker.cpp:51-78 | any other request is an error that changes nothing; a dispatched transaction is handled as HandleDispatched says and a remote read as HandleRemoteRead says, including the storage after the commit and the transaction the scheduler is told of; between requests every held transaction waits for a remote read |
| `Workers.Worker.HandleDispatched` | module/scheduler_components/worker.cpp:61-75 | a null transaction or one already held is an error that changes nothing; otherwise the transaction, cut to its local keys, reads the local storage, tells the other active partitions, and waits or runs to the end as RunsToEnd says; it ends exactly when the scheduler is told |
| `Workers.Worker.HandleRemoteRead` | module/scheduler_components/worker.cpp:65-75 | a read for an unknown transaction is an error that changes nothing; otherwise the read is applied and the wait count drops by one as a uint32; while reads are still awaited nothing else changes; after the last one the transaction runs to the end as RunsToEnd says; the wrong-phase error never arises |
| `Workers.Worker.QuiescentAfter` | module/scheduler_components/worker.cpp:167-194 | when the one transaction AdvanceTransaction touched has ended or waits, every held transaction waits for a remote read |
| `BasicWorkloads.SwapKeepsPermutation` | benchmark/basic_workload.cpp:43 | swapping two positions of a permutation of [0, n) gives a permutation of [0, n): each shuffle step keeps one |
| `BasicWorkloads.Choose` | benchmark/basic_workload.cpp:31-45 | none for n = 0; otherwise min(n, k) distinct numbers, each below n |
| `BasicWorkloads.PickOne` | benchmark/basic_workload.cpp:50-54 | the pick is an element of the vector |
| `BasicWorkloads.RandomString` | benchmark/basic_workload.cpp:61-68 | a string of length n drawn from the 62 alphanumeric characters |
| `BasicWorkloads.KeyList.constructor` | benchmark/basic_workload.cpp:72 | a new key list has the given number of hot slots and no key |
| `BasicWorkloads.KeyList.AddKey` | benchmark/basic_workload.cpp:74-80 | the key is appended to the hot keys while they are fewer than the hot slots, and to the cold keys otherwise; the keys in order of addition are the old ones plus this one |
| `BasicWorkloads.KeyList.GetRandomHotKey` | benchmark/basic_workload.cpp:82-87 | an error exactly when there is no hot key; otherwise one of the hot keys |
| `BasicWorkloads.KeyList.GetRandomColdKey` | benchmark/basic_workload.cpp:89-94 | an error exactly when there is no cold key; otherwise one of the cold keys |
| `BasicWorkloads.HotKeysComeFirst` | benchmark/basic_workload.cpp:74-80 | of the keys in order of addition, the first ones up to the number of hot slots are hot and the rest cold |
| `BasicWorkloads.AsSet` | benchmark/basic_workload.cpp:159-160 | the set of keys holds exactly the keys of the list |
| `BasicWorkloads.BasicWorkload.constructor` | benchmark/basic_workload.cpp:96-111 | one fresh, empty key list for every partition and replica |
| `BasicWorkloads.BasicWorkload.IndexDatum` | benchmark/basic_workload.cpp:123-130 | a datum mastered at a replica that does not exist is an error; otherwise its key is added to the list of its partition and master |
| `BasicWorkloads.BasicWorkload.PickKey` | benchmark/basic_workload.cpp:168-171 | the key is a cold key of a candidate partition and a candidate home, or an error when that list has no cold key |
| `BasicWorkloads.BasicWorkload.PickReads` | benchmark/basic_workload.cpp:167-176 | the requested number of keys, each a cold key of a candidate partition and home, and the code that GETs them in order |
| `BasicWorkloads.BasicWorkload.PickWrites` | benchmark/basic_workload.cpp:179-188 | the requested number of keys, each a cold key of a candidate partition and home, and the code that SETs each to a random value of the value size |
| `BasicWorkloads.BasicWorkload.PickedFromConcat` | benchmark/basic_workload.cpp:164-188 | keys picked from the candidates in two runs are picked from them together |
| `BasicWorkloads.BasicWorkload.NextTransaction` | benchmark/basic_workload.cpp:135-203 | more writes than records is an error; otherwise the transaction reads and writes the picked keys, its code GETs the reads then SETs the writes, it has no metadata and has not started; every key comes from the distinct candidate partitions and homes, one partition unless multi-partition and one home unless multi-home |
| `BasicWorkloads.GetsTextSnoc` | benchmark/basic_workload.cpp:172 | one more read adds its GET at the end of the code |
| `BasicWorkloads.SetsTextSnoc` | benchmark/basic_workload.cpp:184 | one more write adds its SET at the end of the code |
| `Admin.IndexOf` | tools/admin.py:94 | the position of the first occurrence of the character |
| `Admin.Split` | tools/admin.py:94 | str.split always gives at least one piece, and more than one exactly when the separator occurs |
| `Admin.SplitJoin` | tools/admin.py:94 | the pieces of a split hold no separator and join back to the string |
| `Admin.JoinSplit` | tools/admin.py:94 | pieces without the separator split back out of their join |
| `Admin.FirstOccurrence` | tools/admin.py:94 | any position holding the first occurrence is the one found |
| `Admin.ParseEnvs` | tools/admin.py:82-95 | no list gives no variables; a list gives the pairs its items define |
| `Admin.EnvPairsError` | tools/admin.py:94-95 | parsing fails exactly when some item has no '=' (env[1] does not exist), and the error names the first such item |
| `Admin.EnvPairsLastWins` | tools/admin.py:95 | on success a name is defined exactly when some item names it, and it takes the value of the last such item |
| `Admin.SplitAfter` | tools/admin.py:94 | a string starting with a piece free of the separator splits into that piece and the split of the rest |
| `Admin.SecondEqualsDropped` | tools/admin.py:94-95 | an item "K=V=W" sets K to V: what follows a second '=' is lost |
| `Admin.ContainerStatus` | tools/admin.py:68-79 | no client reports "network unavailable"; a found container its status; a missing one "container not started"; any other failure "unknown" |
| `Admin.Row` | tools/admin.py:163-179 | one entry per address, in order, with a client exactly when connecting to that address succeeds |
| `Admin.RowClientsMembers` | tools/admin.py:228-230 | a row lists a client and address exactly when some entry of the row has them |
| `Admin.AvailableMembers` | tools/admin.py:223-230 | clients() yields exactly the entries of the table that have a client |
| `Admin.Command.constructor` | tools/admin.py:113-116 | a new command has the configured replicas and no client |
| `Admin.Command.InitClients` | tools/admin.py:157-181 | one row of entries per replica, each row as Row gives it, and the client count matches the table |
| `Admin.Command.ConnectRow` | tools/admin.py:162-179 | the loop over one replica's addresses builds its row |
| `Admin.Command.Clients` | tools/admin.py:223-230 | the generator yields the available clients, replica by replica |
| `Admin.Command.PullSlogImage` | tools/admin.py:183-207 | nothing is pulled when there is no client or pulling is off; otherwise the image is pulled once on every available client, in order |
| `Admin.Command.Start` | tools/admin.py:309-356 | every configured machine is cleaned up first; then, when some client exists, a server is run on each machine with a client; an item without '=' is an error raised at the first run, after the cleanups |
| `Admin.Command.RunTable` | tools/admin.py:322-356 | the runs of the second loop, one per machine with a client |
| `Admin.CleanupAllShape` | tools/admin.py:318-320 | the first loop of start only cleans up |
| `Admin.CleanupRowShape` | tools/admin.py:319-320 | one cleanup per configured machine of a replica, with its client and address |
| `Admin.RunRowMatchesClients` | tools/admin.py:323-351 | the runs of a replica match its clients one to one, in order, each with its replica and its partition index |
| `Admin.RunAllMatchesClients` | tools/admin.py:322-351 | the servers started are exactly the machines clients() yields, in the same order, each on an existing replica |
| `Admin.StartOrder` | tools/admin.py:316-351 | in a start every cleanup comes before every run |
| `Admin.PyIndex` | tools/admin.py:449 | Python indexing: an index in range from either end gives that element, a negative one counting from the end, and any other is an IndexError |
| `Admin.LogsCommand.constructor` | tools/admin.py:427-432 | a new logs command has no client and no address |
| `Admin.LogsCommand.InitClients` | tools/admin.py:427-458 | an address given with -a is used only when some replica lists it, and otherwise leaves no client; without -a, -rp picks the address by Python indexing and an index out of range is an error; a client exists only on a successful connection to the chosen address |
| `Admin.HostAddressInjective` | tools/admin.py:529-534 | different hosts of 172.28.5.0/24 have different addresses |
| `Admin.LocalAddresses` | tools/admin.py:526-534 | the hosts run out exactly when the replicas need more of them than the range has; otherwise replica r gets num_partitions hosts starting at host r times num_partitions |
| `Admin.HostRow` | tools/admin.py:532-534 | the next hosts of the range in order, or running out exactly when there are too few |
| `Admin.LocalAddressesDistinct` | tools/admin.py:529-534 | no two slots of a local cluster share an address |
| `Admin.SlotBefore` | tools/admin.py:530-534 | the hosts of an earlier replica come before those of a later one |
| `Admin.RowNames` | tools/admin.py:645-647 | the container names slog_r_p of one replica's partitions, in order |
| `Admin.StartNames` | tools/admin.py:600-603 | start (and status) name one container per configured address, replica by replica |
| `Admin.StopNames` | tools/admin.py:644-658 | stop (and remove) name one container per replica and partition of the grid |
| `Admin.LocalNamesAgree` | tools/admin.py:526-647 | once every replica has num_partitions addresses, start, status, stop and remove name the same containers in the same order |

## Left out

**Not part of the model**

- Messaging:
  - ZeroMQ sockets, brokers, pollers, threads and the modules' poll loops.
  - Every send is an append to an outbox sequence.
  - The scheduler's `Loop` and `SetUp` are modelled only through the handlers they call.
  - The worker's `Loop` is modelled as `Workers.Worker.HandleRequest` on one decoded request.
- Interleaving:
  - Messages are not interleaved across machines. The point there is concurrency, not per-node logic.
  - Paxos acceptors are not modelled. paxos/simple_multi_paxos.cpp is not part of this model.
- Statistics and events:
  - The JSON statistics requests: module/scheduler.cpp:227-260, module/server.cpp:156-189 and the deprecated lock manager's `GetStats`.
  - `RecordTxnEvent` timestamps and all logging.
- Code whose bodies are not shown:
  - The batch interleaver and the local log (module/scheduler_components/batch_interleaver.h, module/interleaver.h). The scheduler keeps the requests it hands to them, and the orders they release are a parameter of `Schedulers.Scheduler.MaybeUpdateLocalLog`.
  - The `tpcc::*Txn` classes. Their outcome is the parameter `run` of `Tpcc.Execute`.
  - The size of the TPC-C item table (`kTotalItems`) is a parameter.
  - Server's `CompletedTransaction::AddSubTxn` and the merge of the sub-transactions. `Servers.Server.ProcessCompletedSubtxn` takes both as function parameters: whether all parts arrived, and the merged transaction.
- Storage is a Dafny map. storage/mem_only_storage.h is not part of this model.
- Files:
  - `Configuration::FromFile` and config text serialisation.
  - The data-file loading of the workload constructor. Its per-datum step is `BasicWorkloads.BasicWorkload.IndexDatum`.
- Randomness is nondeterministic choice:
  - the `mt19937` engine and `shuffle` in benchmark/basic_workload.cpp;
  - the forwarder's random partition, which is a parameter;
  - the random text of gen_data.py.
- Floating point:
  - The `discrete_distribution` draws of `NextTransaction` are the boolean parameters `isMultiPartition` and `isMultiHome`.
  - The workload's constants (records, writes, value size, candidate partitions and homes) are parameters.
  - The float division in gen_data.py's record count, `int(a / d)`, is modelled as integer division. For nonnegative operands the two agree while the quotient is exactly representable as a double (below about 2^53). Beyond that the float result can differ.
- gen_data.py:
  - multiprocessing;
  - the numpy record layout;
  - file writes;
  - the protobuf varint framing of the binary format.
- MMessage: protobuf `Any` packing (`GetProto`, `SetProto`). Body parts are opaque strings.
- admin.py:
  - Docker and SSH calls, the threaded image pulls (tools/admin.py:195-207), container waits and log streaming. Connection and lookup outcomes are inputs.
  - The config echo in the server command.
  - The GenData, Stop and Status commands of a remote cluster, which only print.
  - The LocalCommand's Docker network and single client.
  - Exceptions other than `PasswordRequiredException` when connecting, which are treated as a failed connection.
- Worker: the `REMASTER_PROTOCOL_SIMPLE`/`PER_KEY` branch of `ReadLocalStorage` (module/scheduler_components/worker.cpp:203-219). The model takes the default master check.
- Server: the dispatch of `Server::HandleInternalRequest` (module/server.cpp:130-137), and the per-event bookkeeping of `SendTxnToClient`.
- TPC-C: the `stoi`/`stoll` exceptions on non-numeric arguments are not modelled. The model takes every argument as convertible; in the source a bad one throws out of `Execute`.
- `TPCCCommands::Execute` (module/scheduler_components/commands.cpp:89-91) has an empty body and is not modelled.
- Dynamic remasterer: waiting for the remaster reply, and the FATAL on a malformed reply (module/dynamic_remasterer.cpp:112-122).
- MergeTransaction: the partial in-place updates that precede the throw. The model returns `Err` and leaves the inputs unchanged.
- FNV on bytes of 0x80 or more is stated only for the C++ hash. Agreement with the Python tool is proved for ASCII keys.
- AsyncLog and BatchLog positions are `nat`, so the wrap-around of a `uint32` position after 2^32 items is not modelled.
- The Paxos leader's `SlotId`s are `uint32` in the source but `nat` in the model (paxos/leader.cpp:80-86). The wrap-around of `next_empty_slot_` and `min_uncommitted_slot_` after 2^32 slots is not modelled.
- `TransactionHolder::ActivePartitions()` and `InvolvedPartitions()` are declared in common/transaction_holder.h but their bodies are not part of this model. The worker takes both sets as inputs, the fields `active` and `involved` of the dispatched request (module/scheduler_components/worker.cpp:269, 277-279), so nothing relates them to the transaction's keys.
- `NextToken` and `NextNTokens` of common/string_utils are not part of this model. `Commands.NextToken` and `Commands.NextNTokens` re-implement them as splitting at runs of " \t\n\v\f\r" (module/scheduler_components/commands.cpp:69, 80), so that tokenisation is the model's own reading of their names.
- The transaction the worker reports in `Done` is the one the scheduler's holder points to in the source, shared by address. The model passes it by value: the scheduler forwards the transaction carried in the worker's response.

**Weaker contracts and stronger preconditions** (each line starts with the member)

- DynamicRemasterers.DynamicRemasterer.MaybeRemasterKeys: `SentFor` is stated only when the coordinating replica is below 2^31. Above that, the replica passes through the `int32` parameter of `MakeTransaction` as a negative number.
- Forwarders.Forwarder.HandleInternalRequest: requires a forwarded transaction to have some key. For a transaction without keys, the source's type classification reads `begin()` of an empty metadata map (common/proto_utils.cpp:138-139).
- ProtoUtils.TransactionTypeOf: gives SINGLE_HOME for an empty metadata map. The source reads `begin()` of an empty map there (common/proto_utils.cpp:139).
- TransactionHolders.GetReplicaIdOf: returns the master of some metadata entry. Map order is not modelled, so it is exact only when all masters agree.
- SimpleRemasterManager.SimpleRemasterManager.VerifyMaster: uses some master of the transaction, for the same reason.
- SimpleRemasterManager.SimpleRemasterManager.RemasterOccured: does not read its `remaster_counter` argument, as in the source.
- RemasterManager.CheckCounters: does not compare masters for a key absent from storage. The source compares against an uninitialised record there (module/scheduler_components/remaster_manager.h:85-101).
- PerKeyRemasterManager.PerKeyRemasterManager.VerifyMaster: requires that the transaction is not already queued and that its counter check is defined. A transaction verified twice would be queued twice in the source.
- TxnHolders.TxnHolder.constructor: requires the main transaction's home to be below the number of replicas, which the source's vector index assumes.
- Schedulers.Scheduler.HandleInternalRequest: requires the scheduler to be idle (no ready transaction beside a free worker). This is the invariant every handler re-establishes by dispatching, so it holds between two events of the loop.
- Schedulers.Scheduler.HandleWorkerResponse: states the new state only for an `Ok` result. The error is a finished transaction without a held transaction, where the source reads a default `all_txns_` entry (module/scheduler.cpp:275).
- Sequencers.Sequencer.PutSingleHomeTransactionIntoBatch: requires a single-home or lock-only transaction. This is the source's fatal `CHECK` (module/sequencer.cpp:129-133).
- PaxosLeader.Leader.ProcessCommitRequest: requires a commit for a committed slot to carry the same value and ballot. These are the source's fatal `CHECK_EQ`s (paxos/leader.cpp:67-72).
- GenData.PartitionOfKey: requires `numPartitions >= 1`. With zero partitions, gen_data.py raises ZeroDivisionError at the modulo (tools/gen_data.py:77), and that error path is not modelled. The same holds for `GenData.GenPartitionOfKey` and `GenData.DistributeKeys`.
- GenData.TextDatum: requires `numReplicas >= 1`. With zero replicas, gen_data.py raises ZeroDivisionError at `key % self.num_replicas` (tools/gen_data.py:173), and that error path is not modelled.
- Schedulers.Scheduler.HandleInternalRequest: states the effect of a forwarded batch on the logs only through `runs`, the logs' runs after the request, which ProcessGlobalLogs then takes. ProcessForwardBatch states the batch and slot updates themselves.
- Workers.Worker.HandleRequest: requires every held transaction to be waiting for remote reads. This is the invariant it re-establishes (`Workers.Worker.QuiescentAfter`).

## Findings

| source | as written | input that shows it | evidently intended | confidence | as-written member | corrected member |
|---|---|---|---|---|---|---|
| module/scheduler_components/deterministic_lock_manager.cpp:42 | a writer that has to wait is queued with mode READ | reader 1 holds key A, then writer 2 and reader 3 ask for A; when 1 releases, 2 and 3 are granted together in READ mode | the waiting writer is queued with mode WRITE, as in deterministic_lock_manager_deprecated.cpp:43, so it is granted alone | high (not executed) | `LockManager.AcquireWriteLock`, `LockManager.WriterSharesLockAsWritten` | `LockManagerDeprecated.AcquireWriteLock`, `LockManagerDeprecated.WriterExclusive` |
| execution/tpcc.cpp:133-139 | the block after `if (result) { ... }` has no `else`, so it always runs | a well-formed payment whose run succeeds ends ABORTED with "Aborted by a TPC-C txn", its writes already applied | `} else {`: a successful run commits, a failed one aborts | high (not executed) | `Tpcc.ExecutedAsWritten`, `Tpcc.AsWrittenNeverCommits`, `Tpcc.PaymentShowsMissingElse` | `Tpcc.Executed`, `Tpcc.Execute`, `Tpcc.ExecutedCommitsIff` |
