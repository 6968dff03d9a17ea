/** The internal messages the modules send each other through the broker.
  * A send is an envelope appended to the sender's outbox: the channel of
  * the receiving module, and the receiving machine ("r:p"), or none for the
  * sender's own machine. */
module Messages {
  import opened Wrappers
  import opened Types
  import PaxosLeader
  import ProtoUtils

  /** The module channels of a machine. */
  datatype Channel =
    | ServerChannel
    | ForwarderChannel
    | SequencerChannel
    | MultiHomeOrdererChannel
    | SchedulerChannel
    | InterleaverChannel
    | LocalPaxosChannel
    | GlobalPaxosChannel

  /** The internal requests (internal::Request) the modelled modules send. */
  datatype Request =
    | ForwardTxn(txn: Transaction)
    | LookupMaster(txnId: nat, keys: seq<Key>)
    | ForwardBatchData(batch: Batch, sameOriginPosition: nat)
    | ForwardBatchOrder(slot: nat, batchId: nat)
    | LocalQueueOrder(queueId: nat, slot: nat)
    | Paxos(paxos: PaxosLeader.Request)
    | Stats(id: nat, level: int)
    | CompletedSubtxn(txn: Transaction, partition: nat, involvedPartitions: seq<nat>)
    | RemoteRead(result: RemoteReadResult)

  datatype Envelope = Envelope(channel: Channel, to: Option<string>, req: Request)

  /** The same request to the given channel of every listed machine, in
    * list order. */
  function ToMachines(channel: Channel, machines: seq<string>, req: Request): (out: seq<Envelope>)
    ensures |out| == |machines|
    ensures forall i :: 0 <= i < |machines| ==> out[i] == Envelope(channel, Some(machines[i]), req)
  {
    seq(|machines|, i requires 0 <= i < |machines| => Envelope(channel, Some(machines[i]), req))
  }

  /** Sending to two lists of machines is sending to the first, then to
    * the second. */
  lemma ToMachinesConcat(channel: Channel, a: seq<string>, b: seq<string>, req: Request)
    ensures ToMachines(channel, a + b, req) == ToMachines(channel, a, req) + ToMachines(channel, b, req)
  {
    var whole, left, right := ToMachines(channel, a + b, req), ToMachines(channel, a, req), ToMachines(channel, b, req);
    forall i | 0 <= i < |whole| ensures whole[i] == (left + right)[i] {
      if i >= |a| {
        assert (a + b)[i] == b[i - |a|];
      }
    }
  }

  /** The machines "r:p" of one replica r, for partitions 0..n-1. */
  function PartitionsOf(replica: nat, n: nat): (ms: seq<string>)
    ensures |ms| == n
    ensures forall p :: 0 <= p < n ==> ms[p] == ProtoUtils.MakeMachineIdAsString(replica, p)
  {
    seq(n, p requires 0 <= p < n => ProtoUtils.MakeMachineIdAsString(replica, p))
  }

  /** The machines "r:p" of one partition p, for replicas 0..n-1. */
  function ReplicasOf(partition: nat, n: nat): (ms: seq<string>)
    ensures |ms| == n
    ensures forall r :: 0 <= r < n ==> ms[r] == ProtoUtils.MakeMachineIdAsString(r, partition)
  {
    seq(n, r requires 0 <= r < n => ProtoUtils.MakeMachineIdAsString(r, partition))
  }

  /** Different (replica, partition) pairs below 2^32 are different
    * machines. */
  lemma MachineIdsDistinct(r1: nat, p1: nat, r2: nat, p2: nat)
    requires r1 < UINT32_LIMIT && p1 < UINT32_LIMIT && r2 < UINT32_LIMIT && p2 < UINT32_LIMIT
    requires (r1, p1) != (r2, p2)
    ensures ProtoUtils.MakeMachineIdAsString(r1, p1) != ProtoUtils.MakeMachineIdAsString(r2, p2)
  {
    ProtoUtils.MachineIdRoundTrip(r1, p1);
    ProtoUtils.MachineIdRoundTrip(r2, p2);
  }

  /** The ids the server and the batching modules hand out: a per-module
    * counter times MAX_NUM_MACHINES plus the machine's number, in 32-bit
    * unsigned arithmetic. */
  function StampedId(counter: nat, machine: nat): (id: nat)
    ensures id < UINT32_LIMIT
  {
    (counter * MAX_NUM_MACHINES + machine) % UINT32_LIMIT
  }

  /** The counter advanced by one, wrapping at 2^32. */
  function NextCounter(counter: nat): (c: nat)
    ensures c < UINT32_LIMIT
  {
    (counter + 1) % UINT32_LIMIT
  }

  /** Before the ids wrap, machines below MAX_NUM_MACHINES stamp different
    * ids unless counter and machine agree, and a machine's ids grow with its
    * counter. */
  lemma StampedIdsDistinct(c1: nat, m1: nat, c2: nat, m2: nat)
    requires m1 < MAX_NUM_MACHINES && m2 < MAX_NUM_MACHINES
    requires c1 * MAX_NUM_MACHINES + m1 < UINT32_LIMIT && c2 * MAX_NUM_MACHINES + m2 < UINT32_LIMIT
    ensures StampedId(c1, m1) == StampedId(c2, m2) <==> c1 == c2 && m1 == m2
    ensures m1 == m2 && c1 < c2 ==> StampedId(c1, m1) < StampedId(c2, m2)
  {
    var a, b := c1 * MAX_NUM_MACHINES + m1, c2 * MAX_NUM_MACHINES + m2;
    assert StampedId(c1, m1) == a && StampedId(c2, m2) == b;
    if a == b {
      assert a / MAX_NUM_MACHINES == c1 && a % MAX_NUM_MACHINES == m1;
      assert b / MAX_NUM_MACHINES == c2 && b % MAX_NUM_MACHINES == m2;
    }
  }

  /** One message to every replica of a partition, replica by replica. */
  method SendToReplicas(channel: Channel, req: Request, partition: nat, numReplicas: nat) returns (out: seq<Envelope>)
    ensures out == ToMachines(channel, ReplicasOf(partition, numReplicas), req)
  {
    out := [];
    for rep := 0 to numReplicas
      invariant |out| == rep
      invariant forall j :: 0 <= j < rep ==> out[j] == Envelope(channel, Some(ProtoUtils.MakeMachineIdAsString(j, partition)), req)
    {
      out := out + [Envelope(channel, Some(ProtoUtils.MakeMachineIdAsString(rep, partition)), req)];
    }
  }
}
