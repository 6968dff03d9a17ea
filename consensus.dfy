/** The two Paxos groups (module/consensus.cpp): the global group orders
  * multi-home batches among one machine per replica, the local group orders
  * the partitions' batch queues within a replica. Each group runs a Paxos
  * leader over its members and turns a commit into an order message. */
module Consensus {
  import opened Wrappers
  import opened Types
  import opened Messages
  import PaxosLeader
  import ProtoUtils
  import Configurations

  datatype Group = GlobalPaxos | LocalPaxos

  /** GlobalPaxos::GetMembers: the multi-home leader partition of every
    * replica, in replica order. */
  method GetGlobalMembers(config: Configurations.Configuration) returns (members: seq<string>)
    ensures members == ReplicasOf(config.GetLeaderPartitionForMultiHomeOrdering(), config.GetNumReplicas())
  {
    var part := config.GetLeaderPartitionForMultiHomeOrdering();
    members := [];
    for rep := 0 to config.GetNumReplicas()
      invariant members == ReplicasOf(part, rep)
    {
      members := members + [ProtoUtils.MakeMachineIdAsString(rep, part)];
    }
  }

  /** LocalPaxos::GetMembers: every partition of the local replica, in
    * partition order. */
  method GetLocalMembers(config: Configurations.Configuration) returns (members: seq<string>)
    ensures members == PartitionsOf(config.GetLocalReplica(), config.GetNumPartitions())
  {
    var localRep := config.GetLocalReplica();
    members := [];
    for part := 0 to config.GetNumPartitions()
      invariant members == PartitionsOf(localRep, part)
    {
      members := members + [ProtoUtils.MakeMachineIdAsString(localRep, part)];
    }
  }

  /** The members of a group on a machine with this configuration. */
  function Members(g: Group, config: Configurations.Configuration): seq<string>
  {
    match g
    case GlobalPaxos => ReplicasOf(config.GetLeaderPartitionForMultiHomeOrdering(), config.GetNumReplicas())
    case LocalPaxos => PartitionsOf(config.GetLocalReplica(), config.GetNumPartitions())
  }

  /** The group constructors: a leader over the group's members, on the
    * local machine. A group needs a member (the leader reads members[0]). */
  method NewLeader(g: Group, config: Configurations.Configuration) returns (leader: PaxosLeader.Leader)
    requires |Members(g, config)| > 0
    ensures fresh(leader) && leader.Valid()
    ensures leader.members == Members(g, config) && leader.me == config.GetLocalMachineIdAsString()
    ensures leader.isMember <==> config.GetLocalMachineIdAsString() in Members(g, config)
    ensures leader.isElected <==> Members(g, config)[0] == config.GetLocalMachineIdAsString()
  {
    var members;
    if g == GlobalPaxos {
      members := GetGlobalMembers(config);
    } else {
      members := GetLocalMembers(config);
    }
    leader := new PaxosLeader.Leader(members, config.GetLocalMachineIdAsString());
  }

  /** Membership decided by machine ids: a machine of the global group is
    * the leader partition of its replica, and one of the local group is a
    * partition of the local replica. In the global group the elected leader
    * is replica 0's; in the local group, partition 0. */
  lemma MembershipByMachine(g: Group, config: Configurations.Configuration)
    requires config.GetNumReplicas() <= UINT32_LIMIT && config.GetNumPartitions() <= UINT32_LIMIT
    requires config.GetLeaderPartitionForMultiHomeOrdering() < UINT32_LIMIT
    requires config.localReplica < UINT32_LIMIT && config.localPartition < UINT32_LIMIT
    ensures g == GlobalPaxos ==>
      (config.GetLocalMachineIdAsString() in Members(g, config) <==>
        config.localReplica < config.GetNumReplicas() &&
        config.localPartition == config.GetLeaderPartitionForMultiHomeOrdering())
    ensures g == LocalPaxos ==>
      (config.GetLocalMachineIdAsString() in Members(g, config) <==>
        config.localPartition < config.GetNumPartitions())
    ensures g == GlobalPaxos && |Members(g, config)| > 0 ==>
      (Members(g, config)[0] == config.GetLocalMachineIdAsString() <==>
        config.localReplica == 0 && config.localPartition == config.GetLeaderPartitionForMultiHomeOrdering())
    ensures g == LocalPaxos && |Members(g, config)| > 0 ==>
      (Members(g, config)[0] == config.GetLocalMachineIdAsString() <==> config.localPartition == 0)
  {
    var me := config.GetLocalMachineIdAsString();
    var lp := config.GetLeaderPartitionForMultiHomeOrdering();
    var members := Members(g, config);
    forall i | 0 <= i < |members|
      ensures members[i] == me <==>
        (if g == GlobalPaxos then (i, lp) else (config.localReplica, i)) == (config.localReplica, config.localPartition)
    {
      var (r, p) := if g == GlobalPaxos then (i, lp) else (config.localReplica, i);
      assert members[i] == ProtoUtils.MakeMachineIdAsString(r, p);
      if (r, p) != (config.localReplica, config.localPartition) {
        MachineIdsDistinct(r, p, config.localReplica, config.localPartition);
      }
    }
    if g == GlobalPaxos && config.localReplica < config.GetNumReplicas() && config.localPartition == lp {
      assert members[config.localReplica] == me;
    }
    if g == LocalPaxos && config.localPartition < config.GetNumPartitions() {
      assert members[config.localPartition] == me;
    }
  }

  function GroupChannel(g: Group): Channel
  {
    match g
    case GlobalPaxos => GlobalPaxosChannel
    case LocalPaxos => LocalPaxosChannel
  }

  /** OnCommit of each group: the global group orders a multi-home batch
    * (its value is the batch id) at the orderer of the same machine; the
    * local group orders a partition's batch queue (its value is the queue
    * id) at the interleaver. */
  function OnCommit(g: Group, slot: nat, value: nat): Envelope
  {
    match g
    case GlobalPaxos => Envelope(MultiHomeOrdererChannel, None, ForwardBatchOrder(slot, value))
    case LocalPaxos => Envelope(InterleaverChannel, None, LocalQueueOrder(value, slot))
  }

  /** What the broker carries for one thing the leader does: a Paxos request
    * on the group's channel to the named member, or the commit message. */
  function Deliver(g: Group, o: PaxosLeader.Output): Envelope
  {
    match o
    case SendRequest(to, req) => Envelope(GroupChannel(g), Some(to), Paxos(req))
    case Committed(slot, value) => OnCommit(g, slot, value)
  }

  function DeliverAll(g: Group, outs: seq<PaxosLeader.Output>): (es: seq<Envelope>)
    ensures |es| == |outs|
    ensures forall i :: 0 <= i < |outs| ==> es[i] == Deliver(g, outs[i])
  {
    seq(|outs|, i requires 0 <= i < |outs| => Deliver(g, outs[i]))
  }

  /** A commit the leader reports becomes, in the same position, an order
    * for the same slot carrying the committed value; Paxos traffic stays on
    * the group's channel and never reaches the orderer or the interleaver. */
  lemma CommitsBecomeOrders(g: Group, outs: seq<PaxosLeader.Output>, i: nat)
    requires i < |outs|
    ensures outs[i].Committed? ==>
      var e := DeliverAll(g, outs)[i];
      e.to.None? &&
      (g == GlobalPaxos ==> e.channel == MultiHomeOrdererChannel && e.req.ForwardBatchOrder? &&
                            e.req.slot == outs[i].slot && e.req.batchId == outs[i].value) &&
      (g == LocalPaxos ==> e.channel == InterleaverChannel && e.req.LocalQueueOrder? &&
                           e.req.slot == outs[i].slot && e.req.queueId == outs[i].value)
    ensures outs[i].SendRequest? ==>
      var e := DeliverAll(g, outs)[i];
      e.channel == GroupChannel(g) && e.to == Some(outs[i].to) && e.req == Paxos(outs[i].req)
  {
  }
}
