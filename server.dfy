/** The server (module/server.cpp): it gives every client request an id,
  * validates transactions and forwards them, keeps the client to answer
  * per id, and answers once the sub-transactions of every involved
  * partition are back. The client socket is modelled by the request read
  * from it and the replies appended to a queue. */
module Servers {
  import opened Wrappers
  import opened Types
  import opened Messages
  import Configurations

  /** ValidateTransaction: a transaction must touch a key, and a remaster
    * must write exactly one key and read none; otherwise it is ABORTED with
    * the reason of the first failed check. */
  function Validated(txn: Transaction): Transaction
  {
    if |txn.readSet| + |txn.writeSet| == 0 then txn.(status := ABORTED, abortReason := "Txn accesses no key")
    else if txn.procedure.Remaster? && |txn.readSet| > 0 then
      txn.(status := ABORTED, abortReason := "Remaster txns should not read anything")
    else if txn.procedure.Remaster? && |txn.writeSet| != 1 then
      txn.(status := ABORTED, abortReason := "Remaster txns should write to 1 key")
    else txn.(status := NOT_STARTED)
  }

  /** Independent statement of a valid transaction. */
  predicate WellFormed(txn: Transaction)
  {
    (txn.readSet != map[] || txn.writeSet != map[]) &&
    (txn.procedure.Remaster? ==> txn.readSet == map[] && |txn.writeSet| == 1)
  }

  /** Validation accepts exactly the well-formed transactions, sets only
    * the status and, on rejection, the reason. */
  lemma ValidatedIff(txn: Transaction)
    ensures Validated(txn).status == NOT_STARTED <==> WellFormed(txn)
    ensures Validated(txn).status == ABORTED <==> !WellFormed(txn)
    ensures Validated(txn).status == NOT_STARTED ==> Validated(txn) == txn.(status := NOT_STARTED)
    ensures Validated(txn).status == ABORTED ==> Validated(txn) == txn.(status := ABORTED, abortReason := Validated(txn).abortReason)
    ensures txn.readSet == map[] && txn.writeSet == map[] ==> Validated(txn).abortReason == "Txn accesses no key"
  {
    if txn.readSet != map[] {
      var k :| k in txn.readSet;
      assert |txn.readSet| > 0;
    }
    if txn.writeSet != map[] {
      var k :| k in txn.writeSet;
      assert |txn.writeSet| > 0;
    }
  }

  /** The requests a client sends (api::Request). */
  datatype StatsModule = SERVER | SCHEDULER | OtherModule
  datatype ApiRequest =
    | TxnRequest(txn: Transaction, streamId: nat)
    | StatsRequest(target: StatsModule, level: int, streamId: nat)
    | OtherApiRequest(streamId: nat)

  /** The responses to a client (api::Response). The server's own
    * statistics are carried as their three counts, not rendered to JSON. */
  datatype ApiResponse =
    | TxnResponse(txn: Transaction)
    | StatsResponse(json: string)
    | ServerStatsResponse(txnIdCounter: nat, numPendingResponses: nat, numPartiallyCompletedTxns: nat)

  /** A reply on the client socket: the client's identity, then the
    * response with the request's stream id. */
  datatype ClientReply = ClientReply(identity: string, streamId: nat, response: ApiResponse)

  /** Who to answer for an id. */
  datatype PendingResponse = PendingResponse(identity: string, streamId: nat)

  /** The sub-transactions collected for a transaction, with the number of
    * involved partitions the first one announced. */
  datatype CompletedTransaction = CompletedTransaction(numInvolvedPartitions: nat, subtxns: seq<Transaction>)

  /** The internal responses the server receives. */
  datatype InternalResponse = InternalStats(id: nat, json: string) | OtherInternalResponse

  /** try_emplace of a pending entry: an entry already under the id stays. */
  function Entered(pending: map<nat, PendingResponse>, id: nat, identity: string, streamId: nat): (r: map<nat, PendingResponse>)
    ensures id in r && (id !in pending ==> r[id] == PendingResponse(identity, streamId))
    ensures forall other :: other != id ==> (other in r <==> other in pending)
  {
    if id in pending then pending else pending[id := PendingResponse(identity, streamId)]
  }

  /** A client's transaction as the server passes it on: its id, this
    * server as coordinator, and the validation's status. */
  function Stamped(t: Transaction, id: nat, server: MachineId): (txn: Transaction)
    ensures txn.id == id && txn.coordinatingServer == server
    ensures txn.status == ABORTED <==> !WellFormed(t)
    ensures txn.readSet == t.readSet && txn.writeSet == t.writeSet && txn.procedure == t.procedure
  {
    ValidatedIff(t.(id := id, coordinatingServer := server));
    Validated(t.(id := id, coordinatingServer := server))
  }

  class Server {
    const config: Configurations.Configuration
    var txnIdCounter: nat
    var pendingResponses: map<nat, PendingResponse>
    var completedTxns: map<nat, CompletedTransaction>
    var outbox: seq<Envelope>
    var replies: seq<ClientReply>

    constructor(config: Configurations.Configuration)
      ensures this.config == config
      ensures txnIdCounter == 0 && pendingResponses == map[] && completedTxns == map[]
      ensures outbox == [] && replies == []
    {
      this.config := config;
      txnIdCounter := 0;
      pendingResponses := map[];
      completedTxns := map[];
      outbox := [];
      replies := [];
    }

    /** NextTxnId: the counter is incremented first, then stamped with the
      * local machine's number. */
    method NextTxnId() returns (id: nat)
      modifies this`txnIdCounter
      ensures txnIdCounter == NextCounter(old(txnIdCounter))
      ensures id == StampedId(txnIdCounter, config.GetLocalMachineIdAsNumber())
    {
      txnIdCounter := NextCounter(txnIdCounter);
      id := StampedId(txnIdCounter, config.GetLocalMachineIdAsNumber());
    }

    /** SendResponseToClient: an id nobody waits for is dropped; otherwise
      * the client is answered with its stream id and forgotten. */
    method SendResponseToClient(id: nat, response: ApiResponse)
      modifies this`pendingResponses, this`replies
      ensures id !in old(pendingResponses) ==> pendingResponses == old(pendingResponses) && replies == old(replies)
      ensures id in old(pendingResponses) ==>
        var p := old(pendingResponses)[id];
        replies == old(replies) + [ClientReply(p.identity, p.streamId, response)] &&
        pendingResponses == old(pendingResponses) - {id}
    {
      if id !in pendingResponses {
        return;
      }
      var p := pendingResponses[id];
      replies := replies + [ClientReply(p.identity, p.streamId, response)];
      pendingResponses := pendingResponses - {id};
    }

    /** The start of every well-formed client request: a new id, and a
      * pending entry under it unless one is already there. */
    method Register(identity: string, streamId: nat) returns (id: nat)
      modifies this`txnIdCounter, this`pendingResponses
      ensures txnIdCounter == NextCounter(old(txnIdCounter))
      ensures id == StampedId(txnIdCounter, config.GetLocalMachineIdAsNumber())
      ensures pendingResponses == Entered(old(pendingResponses), id, identity, streamId)
      ensures id in pendingResponses
    {
      id := NextTxnId();
      if id !in pendingResponses {
        pendingResponses := pendingResponses[id := PendingResponse(identity, streamId)];
      }
    }

    /** A transaction request under id: stamped with the id and this
      * server, then answered at once if invalid and forwarded otherwise. */
    method AcceptTxn(id: nat, t: Transaction)
      requires id in pendingResponses
      modifies this`pendingResponses, this`replies, this`outbox
      ensures var txn := Stamped(t, id, config.GetLocalMachineIdAsProto());
        if txn.status == ABORTED then
          outbox == old(outbox) &&
          replies == old(replies) + [ClientReply(old(pendingResponses)[id].identity, old(pendingResponses)[id].streamId, TxnResponse(txn))] &&
          pendingResponses == old(pendingResponses) - {id}
        else
          outbox == old(outbox) + [Envelope(ForwarderChannel, None, ForwardTxn(txn))] &&
          replies == old(replies) && pendingResponses == old(pendingResponses)
    {
      var txn := t.(id := id, coordinatingServer := config.GetLocalMachineIdAsProto());
      txn := Validated(txn);
      if txn.status == ABORTED {
        SendResponseToClient(txn.id, TxnResponse(txn));
      } else {
        outbox := outbox + [Envelope(ForwarderChannel, None, ForwardTxn(txn))];
      }
    }

    /** HandleCustomSocket: a request from a client. Nothing happens when no
      * well-formed message could be read (None). Otherwise the request is
      * registered; a transaction is accepted; a statistics request is
      * answered here or passed to the scheduler; an unknown request loses
      * its entry again. */
    method HandleCustomSocket(received: Option<(string, ApiRequest)>) returns (id: Option<nat>)
      modifies this
      ensures received.None? ==>
        id.None? && txnIdCounter == old(txnIdCounter) && pendingResponses == old(pendingResponses) &&
        outbox == old(outbox) && replies == old(replies)
      ensures received.Some? ==>
        id.Some? && txnIdCounter == NextCounter(old(txnIdCounter)) &&
        id.value == StampedId(txnIdCounter, config.GetLocalMachineIdAsNumber())
      ensures completedTxns == old(completedTxns)
      ensures received.Some? && received.value.1.TxnRequest? ==>
        var entered := Entered(old(pendingResponses), id.value, received.value.0, received.value.1.streamId);
        var txn := Stamped(received.value.1.txn, id.value, config.GetLocalMachineIdAsProto());
        if txn.status == ABORTED then
          outbox == old(outbox) &&
          replies == old(replies) + [ClientReply(entered[id.value].identity, entered[id.value].streamId, TxnResponse(txn))] &&
          pendingResponses == entered - {id.value}
        else
          outbox == old(outbox) + [Envelope(ForwarderChannel, None, ForwardTxn(txn))] &&
          replies == old(replies) && pendingResponses == entered
      ensures received.Some? && received.value.1.OtherApiRequest? ==>
        pendingResponses == old(pendingResponses) - {id.value} && outbox == old(outbox) && replies == old(replies)
      ensures received.Some? && received.value.1.StatsRequest? && received.value.1.target == SCHEDULER ==>
        outbox == old(outbox) + [Envelope(SchedulerChannel, None, Stats(id.value, received.value.1.level))] &&
        replies == old(replies) && id.value in pendingResponses
    {
      if received.None? {
        return None;
      }
      var (identity, req) := received.value;
      var txnId := Register(identity, req.streamId);
      id := Some(txnId);
      match req
      case TxnRequest(t, _) =>
        AcceptTxn(txnId, t);
      case StatsRequest(target, level, _) =>
        if target == SERVER {
          ProcessStatsRequest(txnId);
        } else if target == SCHEDULER {
          outbox := outbox + [Envelope(SchedulerChannel, None, Stats(txnId, level))];
        }
      case OtherApiRequest(_) =>
        pendingResponses := pendingResponses - {txnId};
    }

    /** ProcessStatsRequest: the server's counts go back to the client. */
    method ProcessStatsRequest(id: nat)
      modifies this`pendingResponses, this`replies
      ensures id !in old(pendingResponses) ==> pendingResponses == old(pendingResponses) && replies == old(replies)
      ensures id in old(pendingResponses) ==>
        var p := old(pendingResponses)[id];
        replies == old(replies) +
          [ClientReply(p.identity, p.streamId, ServerStatsResponse(txnIdCounter, |old(pendingResponses)|, |completedTxns|))] &&
        pendingResponses == old(pendingResponses) - {id}
    {
      SendResponseToClient(id, ServerStatsResponse(txnIdCounter, |pendingResponses|, |completedTxns|));
    }

    /** HandleInternalResponse: a statistics response goes to the client
      * waiting under its id. Any other response is logged as unexpected but
      * still handled as statistics, with the default id 0 and no text. */
    method HandleInternalResponse(res: InternalResponse)
      modifies this`pendingResponses, this`replies
      ensures var (id, json) := if res.InternalStats? then (res.id, res.json) else (0, "");
        (id !in old(pendingResponses) ==> pendingResponses == old(pendingResponses) && replies == old(replies)) &&
        (id in old(pendingResponses) ==>
          replies == old(replies) + [ClientReply(old(pendingResponses)[id].identity, old(pendingResponses)[id].streamId, StatsResponse(json))] &&
          pendingResponses == old(pendingResponses) - {id})
    {
      var id, json := 0, "";
      if res.InternalStats? {
        id, json := res.id, res.json;
      }
      SendResponseToClient(id, StatsResponse(json));
    }

    /** ProcessCompletedSubtxn: a sub-transaction for an id nobody waits for
      * is dropped. Otherwise it joins the others of its transaction (the
      * first one fixes the number of involved partitions); `allArrived`
      * stands for CompletedTransaction::AddSubTxn and `merge` for
      * ReleaseTxn. Once all have arrived the merged transaction is answered
      * and the collection forgotten. */
    method ProcessCompletedSubtxn(subtxn: Transaction, numInvolvedPartitions: nat,
                                  allArrived: CompletedTransaction -> bool,
                                  merge: CompletedTransaction -> Transaction)
      modifies this`completedTxns, this`pendingResponses, this`replies
      ensures subtxn.id !in old(pendingResponses) ==>
        completedTxns == old(completedTxns) && pendingResponses == old(pendingResponses) && replies == old(replies)
      ensures subtxn.id in old(pendingResponses) ==>
        var before := if subtxn.id in old(completedTxns) then old(completedTxns)[subtxn.id]
                      else CompletedTransaction(numInvolvedPartitions, []);
        var c := before.(subtxns := before.subtxns + [subtxn]);
        if allArrived(c) then
          completedTxns == old(completedTxns) - {subtxn.id} &&
          var merged := merge(c);
          (merged.id in old(pendingResponses) ==>
            replies == old(replies) + [ClientReply(old(pendingResponses)[merged.id].identity,
                                                   old(pendingResponses)[merged.id].streamId, TxnResponse(merged))] &&
            pendingResponses == old(pendingResponses) - {merged.id}) &&
          (merged.id !in old(pendingResponses) ==> replies == old(replies) && pendingResponses == old(pendingResponses))
        else
          completedTxns == old(completedTxns)[subtxn.id := c] &&
          pendingResponses == old(pendingResponses) && replies == old(replies)
    {
      var id := subtxn.id;
      if id !in pendingResponses {
        return;
      }
      var c := if id in completedTxns then completedTxns[id] else CompletedTransaction(numInvolvedPartitions, []);
      c := c.(subtxns := c.subtxns + [subtxn]);
      if allArrived(c) {
        completedTxns := completedTxns - {id};
        var merged := merge(c);
        SendResponseToClient(merged.id, TxnResponse(merged));
      } else {
        completedTxns := completedTxns[id := c];
      }
    }
  }

  /** Two requests taken one after the other, before the counter passes
    * the no-wrap bound, get different, growing ids; and servers on
    * different machines never hand out the same id. */
  lemma SuccessiveIdsGrow(counter: nat, machine: nat)
    requires machine < MAX_NUM_MACHINES
    requires (counter + 2) * MAX_NUM_MACHINES + machine < UINT32_LIMIT
    ensures StampedId(NextCounter(counter), machine) < StampedId(NextCounter(NextCounter(counter)), machine)
  {
    assert NextCounter(counter) == counter + 1;
    assert NextCounter(counter + 1) == counter + 2;
    StampedIdsDistinct(counter + 1, machine, counter + 2, machine);
  }

  lemma MachinesNeverShareIds(c1: nat, m1: nat, c2: nat, m2: nat)
    requires m1 < MAX_NUM_MACHINES && m2 < MAX_NUM_MACHINES && m1 != m2
    requires c1 * MAX_NUM_MACHINES + m1 < UINT32_LIMIT && c2 * MAX_NUM_MACHINES + m2 < UINT32_LIMIT
    ensures StampedId(c1, m1) != StampedId(c2, m2)
  {
    StampedIdsDistinct(c1, m1, c2, m2);
  }
}
