/** The scheduler (module/scheduler.cpp). Batches and their global order
  * meet in one BatchLog per replica plus one for multi-home batches; the
  * transactions of every ready batch go, from the last to the first,
  * through the deterministic lock manager, and the ones holding all their
  * locks wait in a FIFO queue for a free worker. Remote reads that arrive
  * before their transaction has a worker are buffered in its holder. */
module Schedulers {
  import opened Wrappers
  import opened Types
  import opened Messages
  import opened BatchLogs
  import ProtoUtils
  import Configurations
  import TransactionUtils
  import LM = LockManager
  import LockManagerDeprecated

  /** A transaction holder as the scheduler keeps it in `all_txns_`
    * (the fields of TransactionHolder, common/transaction_utils.h). */
  datatype Holder = Holder(
    txn: Option<Transaction>,
    worker: string,
    earlyRemoteReads: seq<RemoteReadResult>,
    keysInPartition: seq<(Key, LockMode)>)

  /** What `all_txns_[id]` yields for an id it does not hold: a default
    * holder, with no transaction and no worker. */
  function HolderOf(txns: map<nat, Holder>, id: nat): Holder
  {
    if id in txns then txns[id] else Holder(None, "", [], [])
  }

  /** A message to a worker: the transaction to process (the holder address of
    * the source, here the transaction the holder of `txnId` holds), or a
    * remote read result for it. */
  datatype WorkerMessage =
    | ProcessTxn(txnId: nat, txn: Option<Transaction>)
    | ForwardedRemoteRead(result: RemoteReadResult)

  datatype WorkerSend = WorkerSend(worker: string, msg: WorkerMessage)

  /** A worker's response: a finished transaction with its participants,
    * or anything else (the empty response a worker sends when it starts).
    * The holder hands its transaction to the worker by address, so once the
    * worker is done the holder's transaction is the one the worker
    * executed and committed; `txn` is that transaction. */
  datatype WorkerResponse =
    | ProcessTxnDone(txnId: nat, participants: seq<nat>, txn: Transaction)
    | OtherResponse

  /** What a finished transaction sends: to its coordinating server, the
    * sub-transaction of partition `local`, when it took part. */
  function CompletedSends(local: nat, participants: seq<nat>, txn: Transaction): (sends: seq<Envelope>)
    ensures |sends| == (if local in participants then 1 else 0)
    ensures forall e :: e in sends ==>
      && e.channel == ServerChannel
      && e.to == Some(ProtoUtils.MakeMachineIdAsString(txn.coordinatingServer.replica, txn.coordinatingServer.partition))
      && e.req == CompletedSubtxn(txn, local, participants)
  {
    if local in participants
    then [Envelope(ServerChannel,
                   Some(ProtoUtils.MakeMachineIdAsString(txn.coordinatingServer.replica, txn.coordinatingServer.partition)),
                   CompletedSubtxn(txn, local, participants))]
    else []
  }

  datatype SchedulerError =
    | BadSender(from: string)              // MakeMachineId fails on the sender
    | NoSuchLog(replica: nat)              // a replica beyond the configured ones
    | LogFailure(e: BatchLogError)         // a slot of BatchLog that is taken
    | NullBatch(slot: nat)                 // a slot whose batch was already handed out
    | LocksAlreadyRequested(txnId: nat)    // the CHECK of AcquireLocks
    | NotFoundForDispatching(txnId: nat)   // the CHECK of the lock-only case
    | NullTransaction(txnId: nat)          // a finished transaction without a holder

  /** The dispatch state: both ready queues, the holders and the messages
    * sent to workers so far. */
  datatype Queues = Queues(
    readyTxns: seq<nat>,
    readyWorkers: seq<string>,
    txns: map<nat, Holder>,
    sent: seq<WorkerSend>)

  /** No ready transaction waits while a worker is free. */
  predicate Idle(q: Queues)
  {
    q.readyTxns == [] || q.readyWorkers == []
  }

  /** At most one worker is free, or nothing could be dispatched anyway:
    * the state between a worker's return and the next dispatch. */
  predicate NearlyIdle(q: Queues)
  {
    Idle(q) || |q.readyWorkers| <= 1
  }

  /** The buffered reads, from the last to the first, each to worker w. */
  function EarlyReadsBack(w: string, buffered: seq<RemoteReadResult>): (out: seq<WorkerSend>)
    ensures |out| == |buffered|
    ensures forall i :: 0 <= i < |out| ==> out[i] == WorkerSend(w, ForwardedRemoteRead(buffered[|buffered| - 1 - i]))
  {
    if buffered == [] then []
    else [WorkerSend(w, ForwardedRemoteRead(buffered[|buffered| - 1]))] + EarlyReadsBack(w, buffered[..|buffered| - 1])
  }

  /** MaybeDispatchNextTransaction on values. */
  function Dispatch(q: Queues): Queues
  {
    if Idle(q) then q
    else
      var id := q.readyTxns[0];
      var w := q.readyWorkers[0];
      var h := HolderOf(q.txns, id);
      Queues(q.readyTxns[1..], q.readyWorkers[1..],
             q.txns[id := h.(worker := w, earlyRemoteReads := [])],
             q.sent + [WorkerSend(w, ProcessTxn(id, h.txn))] + EarlyReadsBack(w, h.earlyRemoteReads))
  }

  /** EnqueueTransactionForDispatching on values. */
  function Enqueue(q: Queues, id: nat): Queues
  {
    Dispatch(q.(readyTxns := q.readyTxns + [id]))
  }

  /** ProcessRemoteReadResult on values: straight to the worker of a
    * dispatched transaction, otherwise into its holder's buffer. */
  function RemoteReadArrived(q: Queues, res: RemoteReadResult): (r: Queues)
    ensures r.readyTxns == q.readyTxns && r.readyWorkers == q.readyWorkers
    ensures var h := HolderOf(q.txns, res.txnId);
      h.txn.Some? && h.worker != "" ==>
        r.txns == q.txns && r.sent == q.sent + [WorkerSend(h.worker, ForwardedRemoteRead(res))]
    ensures var h := HolderOf(q.txns, res.txnId);
      !(h.txn.Some? && h.worker != "") ==>
        && r.sent == q.sent
        && res.txnId in r.txns
        && r.txns[res.txnId] == h.(earlyRemoteReads := h.earlyRemoteReads + [res])
        && r.txns - {res.txnId} == q.txns - {res.txnId}
  {
    var h := HolderOf(q.txns, res.txnId);
    if h.txn.Some? && h.worker != "" then
      q.(sent := q.sent + [WorkerSend(h.worker, ForwardedRemoteRead(res))])
    else
      q.(txns := q.txns[res.txnId := h.(earlyRemoteReads := h.earlyRemoteReads + [res])])
  }

  /** The transactions handed to workers by a run of messages, in order. */
  function DispatchedIds(sent: seq<WorkerSend>): seq<nat>
  {
    if sent == [] then []
    else (if sent[0].msg.ProcessTxn? then [sent[0].msg.txnId] else []) + DispatchedIds(sent[1..])
  }

  /** The workers handed a transaction by a run of messages, in order. */
  function DispatchedWorkers(sent: seq<WorkerSend>): seq<string>
  {
    if sent == [] then []
    else (if sent[0].msg.ProcessTxn? then [sent[0].worker] else []) + DispatchedWorkers(sent[1..])
  }

  lemma DispatchedConcat(a: seq<WorkerSend>, b: seq<WorkerSend>)
    ensures DispatchedIds(a + b) == DispatchedIds(a) + DispatchedIds(b)
    ensures DispatchedWorkers(a + b) == DispatchedWorkers(a) + DispatchedWorkers(b)
  {
    DispatchedIdsConcat(a, b);
    DispatchedWorkersConcat(a, b);
  }

  lemma {:induction false} DispatchedIdsConcat(a: seq<WorkerSend>, b: seq<WorkerSend>)
    ensures DispatchedIds(a + b) == DispatchedIds(a) + DispatchedIds(b)
  {
    if a == [] {
      assert a + b == b;
    } else {
      DispatchedIdsConcat(a[1..], b);
      assert a + b == [a[0]] + (a[1..] + b);
      assert a == [a[0]] + a[1..];
      DispatchedIdsCons(a[0], a[1..] + b);
      DispatchedIdsCons(a[0], a[1..]);
    }
  }

  lemma DispatchedIdsCons(x: WorkerSend, rest: seq<WorkerSend>)
    ensures DispatchedIds([x] + rest) == DispatchedIds([x]) + DispatchedIds(rest)
  {
    assert ([x] + rest)[1..] == rest;
  }

  lemma {:induction false} DispatchedWorkersConcat(a: seq<WorkerSend>, b: seq<WorkerSend>)
    ensures DispatchedWorkers(a + b) == DispatchedWorkers(a) + DispatchedWorkers(b)
  {
    if a == [] {
      assert a + b == b;
    } else {
      DispatchedWorkersConcat(a[1..], b);
      assert a + b == [a[0]] + (a[1..] + b);
      assert a == [a[0]] + a[1..];
      DispatchedWorkersCons(a[0], a[1..] + b);
      DispatchedWorkersCons(a[0], a[1..]);
    }
  }

  lemma DispatchedWorkersCons(x: WorkerSend, rest: seq<WorkerSend>)
    ensures DispatchedWorkers([x] + rest) == DispatchedWorkers([x]) + DispatchedWorkers(rest)
  {
    assert ([x] + rest)[1..] == rest;
  }

  lemma {:induction false} ReadsDispatchNothing(w: string, buffered: seq<RemoteReadResult>)
    ensures DispatchedIds(EarlyReadsBack(w, buffered)) == []
    ensures DispatchedWorkers(EarlyReadsBack(w, buffered)) == []
  {
    if buffered != [] {
      ReadsDispatchNothing(w, buffered[..|buffered| - 1]);
      var out := EarlyReadsBack(w, buffered);
      assert out[1..] == EarlyReadsBack(w, buffered[..|buffered| - 1]);
    }
  }

  /** From q to q', the ready queues behave as FIFO queues that received
    * txnsIn and workersIn: what left them is exactly what the new
    * messages dispatched, in queue order, and earlier messages stay. */
  predicate Conserves(q: Queues, q': Queues, txnsIn: seq<nat>, workersIn: seq<string>)
  {
    && |q.sent| <= |q'.sent| && q'.sent[..|q.sent|] == q.sent
    && DispatchedIds(q'.sent[|q.sent|..]) + q'.readyTxns == q.readyTxns + txnsIn
    && DispatchedWorkers(q'.sent[|q.sent|..]) + q'.readyWorkers == q.readyWorkers + workersIn
  }

  lemma ConservesNothing(q: Queues, q': Queues)
    requires q'.sent == q.sent && q'.readyTxns == q.readyTxns && q'.readyWorkers == q.readyWorkers
    ensures Conserves(q, q', [], [])
  {
    assert q'.sent[|q.sent|..] == [];
  }

  lemma WorkerArrives(q: Queues, w: string)
    ensures Conserves(q, q.(readyWorkers := q.readyWorkers + [w]), [], [w])
  {
    assert q.sent[|q.sent|..] == [];
  }

  /** Two steps, one that only adds workers and one that only adds
    * transactions, in either order. */
  lemma ConservesThen(q1: Queues, q2: Queues, q3: Queues, t: seq<nat>, w: seq<string>)
    requires (Conserves(q1, q2, [], w) && Conserves(q2, q3, t, [])) ||
             (Conserves(q1, q2, t, w) && Conserves(q2, q3, [], []))
    ensures Conserves(q1, q3, t, w)
  {
    assert [] + t == t && t + [] == t;
    assert w + [] == w;
    if Conserves(q1, q2, [], w) && Conserves(q2, q3, t, []) {
      ConservesTrans(q1, q2, q3, [], w, t, []);
    } else {
      ConservesTrans(q1, q2, q3, t, w, [], []);
    }
  }

  lemma ConservesTrans(q1: Queues, q2: Queues, q3: Queues, t1: seq<nat>, w1: seq<string>, t2: seq<nat>, w2: seq<string>)
    requires Conserves(q1, q2, t1, w1) && Conserves(q2, q3, t2, w2)
    ensures Conserves(q1, q3, t1 + t2, w1 + w2)
  {
    var a, b := q2.sent[|q1.sent|..], q3.sent[|q2.sent|..];
    SentTrans(q1.sent, q2.sent, q3.sent);
    IdsTrans(a, b, q1.readyTxns, q2.readyTxns, q3.readyTxns, t1, t2);
    WorkersTrans(a, b, q1.readyWorkers, q2.readyWorkers, q3.readyWorkers, w1, w2);
  }

  /** Extending a log twice extends it by both runs. */
  lemma SentTrans(s1: seq<WorkerSend>, s2: seq<WorkerSend>, s3: seq<WorkerSend>)
    requires |s1| <= |s2| && s2[..|s1|] == s1 && |s2| <= |s3| && s3[..|s2|] == s2
    ensures |s1| <= |s3| && s3[..|s1|] == s1 && s3[|s1|..] == s2[|s1|..] + s3[|s2|..]
  {
    assert s2 == s1 + s2[|s1|..];
    assert s3 == s2 + s3[|s2|..];
  }

  lemma IdsTrans(a: seq<WorkerSend>, b: seq<WorkerSend>, r1: seq<nat>, r2: seq<nat>, r3: seq<nat>, t1: seq<nat>, t2: seq<nat>)
    requires DispatchedIds(a) + r2 == r1 + t1 && DispatchedIds(b) + r3 == r2 + t2
    ensures DispatchedIds(a + b) + r3 == r1 + (t1 + t2)
  {
    DispatchedIdsConcat(a, b);
    calc {
      DispatchedIds(a + b) + r3;
      DispatchedIds(a) + (DispatchedIds(b) + r3);
      DispatchedIds(a) + (r2 + t2);
      (DispatchedIds(a) + r2) + t2;
      r1 + (t1 + t2);
    }
  }

  lemma WorkersTrans(a: seq<WorkerSend>, b: seq<WorkerSend>, r1: seq<string>, r2: seq<string>, r3: seq<string>,
                     w1: seq<string>, w2: seq<string>)
    requires DispatchedWorkers(a) + r2 == r1 + w1 && DispatchedWorkers(b) + r3 == r2 + w2
    ensures DispatchedWorkers(a + b) + r3 == r1 + (w1 + w2)
  {
    DispatchedWorkersConcat(a, b);
    calc {
      DispatchedWorkers(a + b) + r3;
      DispatchedWorkers(a) + (DispatchedWorkers(b) + r3);
      DispatchedWorkers(a) + (r2 + w2);
      (DispatchedWorkers(a) + r2) + w2;
      r1 + (w1 + w2);
    }
  }

  /** Dispatch pairs the heads of both queues, and does so exactly when
    * both are non-empty. */
  lemma DispatchPairsHeads(q: Queues)
    ensures Conserves(q, Dispatch(q), [], [])
    ensures Dispatch(q) == q <==> Idle(q)
    ensures NearlyIdle(q) ==> Idle(Dispatch(q))
  {
    if !Idle(q) {
      var id, w := q.readyTxns[0], q.readyWorkers[0];
      var h := HolderOf(q.txns, id);
      var r := Dispatch(q);
      var first := [WorkerSend(w, ProcessTxn(id, h.txn))];
      var back := EarlyReadsBack(w, h.earlyRemoteReads);
      assert r.sent == q.sent + (first + back);
      assert r.sent[|q.sent|..] == first + back;
      DispatchedConcat(first, back);
      ReadsDispatchNothing(w, h.earlyRemoteReads);
      assert DispatchedIds(first) == [id];
      assert DispatchedWorkers(first) == [w];
      assert [id] + r.readyTxns == q.readyTxns;
      assert [w] + r.readyWorkers == q.readyWorkers;
    } else {
      assert q.sent[|q.sent|..] == [];
    }
  }

  /** A dispatch hands the transaction to the worker first and then every
    * buffered read, and leaves the holder with that worker and an empty
    * buffer. */
  lemma DispatchSendsTxnThenReads(q: Queues)
    requires !Idle(q)
    ensures var id, w := q.readyTxns[0], q.readyWorkers[0];
      var h := HolderOf(q.txns, id);
      var out := Dispatch(q).sent[|q.sent|..];
      && out[0] == WorkerSend(w, ProcessTxn(id, h.txn))
      && (forall res :: res in h.earlyRemoteReads ==>
            exists i :: 0 < i < |out| && out[i] == WorkerSend(w, ForwardedRemoteRead(res)))
      && Dispatch(q).txns[id].worker == w && Dispatch(q).txns[id].earlyRemoteReads == []
  {
    var id, w := q.readyTxns[0], q.readyWorkers[0];
    var h := HolderOf(q.txns, id);
    var back := EarlyReadsBack(w, h.earlyRemoteReads);
    var out := Dispatch(q).sent[|q.sent|..];
    assert Dispatch(q).sent == q.sent + ([WorkerSend(w, ProcessTxn(id, h.txn))] + back);
    assert out == [WorkerSend(w, ProcessTxn(id, h.txn))] + back;
    forall res | res in h.earlyRemoteReads
      ensures exists i :: 0 < i < |out| && out[i] == WorkerSend(w, ForwardedRemoteRead(res))
    {
      var n := |h.earlyRemoteReads|;
      var j :| 0 <= j < n && h.earlyRemoteReads[j] == res;
      assert out[1 + (n - 1 - j)] == back[n - 1 - j];
    }
  }

  lemma EnqueueAppends(q: Queues, id: nat)
    ensures Conserves(q, Enqueue(q, id), [id], [])
    ensures NearlyIdle(q) ==> Idle(Enqueue(q, id))
  {
    var q0 := q.(readyTxns := q.readyTxns + [id]);
    assert q.sent[|q.sent|..] == [];
    assert Conserves(q, q0, [id], []);
    DispatchPairsHeads(q0);
    ConservesTrans(q, q0, Dispatch(q0), [id], [], [], []);
  }

  /** A read that arrives while its transaction has no worker is not lost:
    * the dispatch that hands the transaction to a worker sends it there. */
  lemma BufferedReadDelivered(q: Queues, res: RemoteReadResult)
    requires HolderOf(q.txns, res.txnId).worker == ""
    requires var q1 := RemoteReadArrived(q, res);
      q1.readyWorkers != [] && q1.readyTxns != [] && q1.readyTxns[0] == res.txnId
    ensures var q1 := RemoteReadArrived(q, res);
      WorkerSend(q1.readyWorkers[0], ForwardedRemoteRead(res)) in Dispatch(q1).sent[|q1.sent|..]
  {
    var q1 := RemoteReadArrived(q, res);
    DispatchSendsTxnThenReads(q1);
    assert res in HolderOf(q1.txns, res.txnId).earlyRemoteReads;
  }

  /** The ids of a list of transactions from the last to the first. */
  function ReversedIds(txns: seq<Transaction>): (ids: seq<nat>)
    ensures |ids| == |txns|
  {
    if txns == [] then [] else ReversedIds(txns[1..]) + [txns[0].id]
  }

  /** ReversedIds lists the ids from the last transaction to the first. */
  lemma {:induction false} ReversedIdsReverse(txns: seq<Transaction>)
    ensures forall i :: 0 <= i < |txns| ==> ReversedIds(txns)[i] == txns[|txns| - 1 - i].id
  {
    if txns != [] {
      ReversedIdsReverse(txns[1..]);
    }
  }

  /** `ids` ahead of a run's ids; a null run stays null. */
  function Prepend(ids: seq<nat>, rest: Option<seq<nat>>): Option<seq<nat>>
  {
    if rest.None? then None else Some(ids + rest.value)
  }

  lemma PrependAssoc(a: seq<nat>, b: seq<nat>, rest: Option<seq<nat>>)
    ensures Prepend(a, Prepend(b, rest)) == Prepend(a + b, rest)
  {
    if rest.Some? {
      assert a + (b + rest.value) == (a + b) + rest.value;
    }
  }

  /** The ids the middle loop of MaybeProcessNextBatchesFromGlobalLog takes
    * from a log whose ready run is `ready` and whose batches are `batches`:
    * batch after batch in slot order, the transactions of each from the
    * last to the first. Each batch is moved out of the log as it is taken,
    * so a slot whose batch is missing, or already taken, is a null batch:
    * None. */
  function TakenFrom(ready: seq<(nat, nat)>, batches: map<nat, Batch>): Option<seq<nat>>
  {
    if ready == [] then Some([])
    else if ready[0].1 !in batches then None
    else Prepend(ReversedIds(batches[ready[0].1].transactions), TakenFrom(ready[1..], batches - {ready[0].1}))
  }

  /** The run is taken in full exactly when every slot's batch is there and
    * no two slots name the same batch. */
  lemma {:induction false} TakenFromSome(ready: seq<(nat, nat)>, batches: map<nat, Batch>)
    ensures TakenFrom(ready, batches).Some? <==>
      && (forall i :: 0 <= i < |ready| ==> ready[i].1 in batches)
      && (forall i, j :: 0 <= i < j < |ready| ==> ready[i].1 != ready[j].1)
  {
    if ready != [] {
      var id := ready[0].1;
      var rest := ready[1..];
      TakenFromSome(rest, batches - {id});
      if TakenFrom(ready, batches).Some? {
        forall i, j | 0 <= i < j < |ready| ensures ready[i].1 != ready[j].1 {
          if i > 0 {
            assert rest[i - 1] == ready[i] && rest[j - 1] == ready[j];
          } else {
            assert rest[j - 1] == ready[j];
          }
        }
        forall i | 0 <= i < |ready| ensures ready[i].1 in batches {
          if i > 0 {
            assert rest[i - 1] == ready[i];
          }
        }
      } else if id in batches {
        assert TakenFrom(rest, batches - {id}).None?;
        if forall i, j :: 0 <= i < j < |ready| ==> ready[i].1 != ready[j].1 {
          var i :| 0 <= i < |rest| && rest[i].1 !in batches - {id};
          assert rest[i] == ready[i + 1];
        }
      }
    }
  }

  /** Every transaction of every ready batch of a run taken in full is
    * taken. */
  lemma {:induction false} TakenFromHolds(ready: seq<(nat, nat)>, batches: map<nat, Batch>, i: nat, t: Transaction)
    requires TakenFrom(ready, batches).Some?
    requires i < |ready| && ready[i].1 in batches && t in batches[ready[i].1].transactions
    requires forall j :: 0 <= j < i ==> ready[j].1 != ready[i].1
    ensures t.id in TakenFrom(ready, batches).value
  {
    var id := ready[0].1;
    var ids := ReversedIds(batches[id].transactions);
    if i == 0 {
      var txns := batches[id].transactions;
      var n :| 0 <= n < |txns| && txns[n] == t;
      ReversedIdsReverse(txns);
      assert ids[|txns| - 1 - n] == t.id;
    } else {
      forall j | 0 <= j < i - 1 ensures ready[1..][j].1 != ready[1..][i - 1].1 {
        assert ready[1..][j] == ready[j + 1];
      }
      TakenFromHolds(ready[1..], batches - {id}, i - 1, t);
    }
  }

  /** The ids of the logs' runs taken in the order `order`; a null run or an
    * index past the logs adds nothing. */
  function Gathered(runs: seq<Option<seq<nat>>>, order: seq<nat>): seq<nat>
  {
    if order == [] then []
    else
      var k := order[|order| - 1];
      Gathered(runs, order[..|order| - 1]) + (if k < |runs| && runs[k].Some? then runs[k].value else [])
  }

  lemma GatheredSnoc(runs: seq<Option<seq<nat>>>, order: seq<nat>, k: nat)
    requires k < |runs| && runs[k].Some?
    ensures Gathered(runs, order + [k]) == Gathered(runs, order) + runs[k].value
  {
    assert (order + [k])[..|order|] == order;
  }

  /** Every id of every run that `order` names is gathered. */
  lemma {:induction false} GatheredHolds(runs: seq<Option<seq<nat>>>, order: seq<nat>, k: nat, x: nat)
    requires k in order && k < |runs| && runs[k].Some? && x in runs[k].value
    ensures x in Gathered(runs, order)
  {
    var last := order[|order| - 1];
    if last != k {
      assert k in order[..|order| - 1] by {
        var j :| 0 <= j < |order| && order[j] == k;
        assert order[..|order| - 1][j] == k;
      }
      GatheredHolds(runs, order[..|order| - 1], k, x);
    }
  }

  /** The ready queue and the batches of each of a list of logs. */
  ghost function ContentsOf(ls: seq<BatchLog>): (c: seq<(seq<(nat, nat)>, map<nat, Batch>)>)
    reads set l | l in ls
    ensures |c| == |ls|
    ensures forall i :: 0 <= i < |ls| ==> c[i] == (ls[i].ready, ls[i].batches)
  {
    if ls == [] then [] else [(ls[0].ready, ls[0].batches)] + ContentsOf(ls[1..])
  }

  /** Part way through the loop of MaybeProcessNextBatchesFromGlobalLog,
    * over logs holding `cs`: the logs `keys[..n]` are drained and their
    * runs, of `runs`, taken in that order after `taken0`, giving `taken`;
    * every other log still holds its run. */
  predicate TakingOf(cs: seq<(seq<(nat, nat)>, map<nat, Batch>)>, keys: seq<nat>, n: nat,
                     runs: seq<Option<seq<nat>>>, taken0: seq<nat>, taken: seq<nat>)
  {
    && n <= |keys| && |runs| == |cs|
    && (forall i :: 0 <= i < |cs| && i in keys[..n] ==> cs[i].0 == [] && runs[i].Some?)
    && (forall i :: 0 <= i < |cs| && i !in keys[..n] ==> TakenFrom(cs[i].0, cs[i].1) == runs[i])
    && taken == taken0 + Gathered(runs, keys[..n])
  }

  /** Draining the next log of `keys` and taking its run advances the loop. */
  lemma TakingStep(cs: seq<(seq<(nat, nat)>, map<nat, Batch>)>, keys: seq<nat>, n: nat,
                   runs: seq<Option<seq<nat>>>, taken0: seq<nat>, taken: seq<nat>,
                   batches: map<nat, Batch>, taken': seq<nat>)
    requires TakingOf(cs, keys, n, runs, taken0, taken) && IsOrderOf(keys, |cs|) && n < |keys|
    requires TakenFrom(cs[keys[n]].0, cs[keys[n]].1).Some?
    requires taken' == taken + TakenFrom(cs[keys[n]].0, cs[keys[n]].1).value
    ensures TakingOf(cs[keys[n] := ([], batches)], keys, n + 1, runs, taken0, taken')
  {
    var k := keys[n];
    OrderFresh(keys, n, |cs|);
    var done := keys[..n + 1];
    assert done == keys[..n] + [k];
    GatheredSnoc(runs, keys[..n], k);
    DrainedStep(cs, runs, keys[..n], k, batches);
    PendingStep(cs, runs, keys[..n], k, batches);
  }

  /** Draining log `k` adds it to the drained logs `before`... */
  lemma DrainedStep(cs: seq<(seq<(nat, nat)>, map<nat, Batch>)>, runs: seq<Option<seq<nat>>>,
                    before: seq<nat>, k: nat, batches: map<nat, Batch>)
    requires k < |cs| && |runs| == |cs| && runs[k].Some?
    requires forall i :: 0 <= i < |cs| && i in before ==> cs[i].0 == [] && runs[i].Some?
    ensures forall i :: 0 <= i < |cs| && i in before + [k] ==> cs[k := ([], batches)][i].0 == [] && runs[i].Some?
  {
    forall i | 0 <= i < |cs| && i in before + [k]
      ensures cs[k := ([], batches)][i].0 == [] && runs[i].Some?
    {
      if i != k {
        assert i in before;
      }
    }
  }

  /** ... and leaves every other log holding its run. */
  lemma PendingStep(cs: seq<(seq<(nat, nat)>, map<nat, Batch>)>, runs: seq<Option<seq<nat>>>,
                    before: seq<nat>, k: nat, batches: map<nat, Batch>)
    requires k < |cs| && |runs| == |cs|
    requires forall i :: 0 <= i < |cs| && i !in before ==> TakenFrom(cs[i].0, cs[i].1) == runs[i]
    ensures forall i :: 0 <= i < |cs| && i !in before + [k] ==>
      TakenFrom(cs[k := ([], batches)][i].0, cs[k := ([], batches)][i].1) == runs[i]
  {
    forall i | 0 <= i < |cs| && i !in before + [k]
      ensures TakenFrom(cs[k := ([], batches)][i].0, cs[k := ([], batches)][i].1) == runs[i]
    {
      assert i != k && i !in before;
    }
  }

  /** An order names no index twice: its n-th is not among the ones before. */
  lemma OrderFresh(keys: seq<nat>, n: nat, m: nat)
    requires IsOrderOf(keys, m) && n < |keys|
    ensures keys[n] !in keys[..n]
  {
    forall j | 0 <= j < n
      ensures keys[..n][j] != keys[n]
    {
      assert keys[..n][j] == keys[j];
    }
  }

  /** The loop of MaybeProcessNextBatchesFromGlobalLog starts with no log
    * visited... */
  lemma TakingStart(cs: seq<(seq<(nat, nat)>, map<nat, Batch>)>, keys: seq<nat>,
                    runs: seq<Option<seq<nat>>>, taken: seq<nat>)
    requires |runs| == |cs| && forall i :: 0 <= i < |cs| ==> TakenFrom(cs[i].0, cs[i].1) == runs[i]
    ensures TakingOf(cs, keys, 0, runs, taken, taken)
  {
    assert taken + [] == taken;
  }

  /** After the loop of MaybeProcessNextBatchesFromGlobalLog, over logs
    * holding `cs`: it visited the logs in `order`, drained all of them, and
    * took their runs, of `runs`, in that order after `taken0`, giving
    * `taken`. */
  predicate DrainedOf(cs: seq<(seq<(nat, nat)>, map<nat, Batch>)>, runs: seq<Option<seq<nat>>>,
                      order: seq<nat>, taken0: seq<nat>, taken: seq<nat>)
  {
    && |runs| == |cs| && IsOrderOf(order, |cs|)
    && (forall i :: 0 <= i < |cs| ==> cs[i].0 == [] && runs[i].Some?)
    && taken == taken0 + Gathered(runs, order)
  }

  /** ... and, once it has visited every log of `keys`, every log is drained
    * and the runs were taken in the order of `keys`. */
  lemma TakingDone(cs: seq<(seq<(nat, nat)>, map<nat, Batch>)>, keys: seq<nat>,
                   runs: seq<Option<seq<nat>>>, taken0: seq<nat>, taken: seq<nat>)
    requires TakingOf(cs, keys, |keys|, runs, taken0, taken) && IsOrderOf(keys, |cs|)
    ensures DrainedOf(cs, runs, keys, taken0, taken)
  {
    assert keys[..|keys|] == keys;
  }

  /** Contents that agree with `before` but at `k` are `before` updated at `k`. */
  lemma ContentsKept(before: seq<(seq<(nat, nat)>, map<nat, Batch>)>, now: seq<(seq<(nat, nat)>, map<nat, Batch>)>,
                     k: nat, atK: (seq<(nat, nat)>, map<nat, Batch>))
    requires |now| == |before| && k < |now| && now[k] == atK
    requires forall i :: 0 <= i < |now| && i != k ==> now[i] == before[i]
    ensures now == before[k := atK]
  {
  }

  /** `order` lists the indices 0 to n - 1, each once. */
  predicate IsOrderOf(order: seq<nat>, n: nat)
  {
    && (forall j :: 0 <= j < |order| ==> order[j] < n)
    && (forall i :: 0 <= i < n ==> i in order)
    && (forall i, j :: 0 <= i < j < |order| ==> order[i] != order[j])
  }

  /** The runs of a list of logs. */
  ghost function RunsOf(ls: seq<BatchLog>): (runs: seq<Option<seq<nat>>>)
    reads set l | l in ls
    ensures |runs| == |ls|
    ensures forall i :: 0 <= i < |ls| ==> runs[i] == TakenFrom(ls[i].ready, ls[i].batches)
  {
    if ls == [] then [] else [TakenFrom(ls[0].ready, ls[0].batches)] + RunsOf(ls[1..])
  }

  /** The holder AcceptTransaction makes of `before`: it holds `txn`, and
    * its key list gains the local keys of `txn`, each once. */
  ghost predicate AcceptedHolder(before: Holder, after: Holder, config: Configurations.Configuration, txn: Transaction)
    requires config.config.numPartitions >= 1
  {
    && after.txn == Some(txn)
    && after.worker == before.worker && after.earlyRemoteReads == before.earlyRemoteReads
    && |before.keysInPartition| <= |after.keysInPartition|
    && after.keysInPartition[..|before.keysInPartition|] == before.keysInPartition
    && TransactionUtils.ListsLockModes(after.keysInPartition[|before.keysInPartition|..],
                                       TransactionUtils.LocalLockModes(config, txn))
  }

  /** The holder keeps the transaction: it then has some local key. */
  predicate Accepts(before: Holder, config: Configurations.Configuration, txn: Transaction)
    requires config.config.numPartitions >= 1
  {
    before.keysInPartition != [] || TransactionUtils.LocalLockModes(config, txn) != map[]
  }

  lemma ListedIsEmpty(keys: seq<(Key, LockMode)>, modes: map<Key, LockMode>)
    requires TransactionUtils.ListsLockModes(keys, modes)
    ensures keys == [] <==> modes == map[]
  {
    if keys != [] {
      assert keys[0].0 in modes;
    }
  }

  /** TakeBatch's bookkeeping for the transaction at i: its id joins the
    * ids taken, and what it enqueued is among the transactions from i on. */
  lemma TakenIdsStep(txns: seq<Transaction>, i: nat, ids: seq<nat>, enq0: seq<nat>, enq: seq<nat>)
    requires i < |txns| && ids == ReversedIds(txns[i + 1..])
    requires forall t :: t in enq0 ==> exists j :: i + 1 <= j < |txns| && txns[j].id == t
    requires enq == enq0 || enq == enq0 + [txns[i].id]
    ensures ids + [txns[i].id] == ReversedIds(txns[i..])
    ensures forall t :: t in enq ==> exists j :: i <= j < |txns| && txns[j].id == t
  {
    assert txns[i..][1..] == txns[i + 1..];
    forall t | t in enq ensures exists j :: i <= j < |txns| && txns[j].id == t {
      if t !in enq0 {
        assert txns[i].id == t;
      }
    }
  }

  lemma SnocAssoc<T>(a: seq<T>, b: seq<T>, x: T)
    ensures a + b + [x] == a + (b + [x])
  {
  }

  /** One more element taken from `rest` onto the list of those taken. */
  lemma TakenStep(all: set<nat>, rest: set<nat>, taken: seq<nat>, t: nat)
    requires rest <= all && t in rest
    requires forall x :: x in taken <==> x in all - rest
    requires forall i, j :: 0 <= i < j < |taken| ==> taken[i] != taken[j]
    ensures rest - {t} <= all
    ensures forall x :: x in taken + [t] <==> x in all - (rest - {t})
    ensures forall i, j :: 0 <= i < j < |taken + [t]| ==> (taken + [t])[i] != (taken + [t])[j]
  {
    var taken' := taken + [t];
    forall i, j | 0 <= i < j < |taken'| ensures taken'[i] != taken'[j] {
      if j == |taken| {
        assert taken'[i] == taken[i];
      } else {
        assert taken'[i] == taken[i] && taken'[j] == taken[j];
      }
    }
  }

  /** A list extended by the keys of `modes` is empty exactly when both are. */
  lemma ExtendedIsEmpty(before: seq<(Key, LockMode)>, keys: seq<(Key, LockMode)>, modes: map<Key, LockMode>)
    requires |keys| >= |before| && keys[..|before|] == before
    requires TransactionUtils.ListsLockModes(keys[|before|..], modes)
    ensures keys == [] <==> before == [] && modes == map[]
  {
    ListedIsEmpty(keys[|before|..], modes);
    assert |keys| == |before| + |keys[|before|..]|;
  }

  /** A TransactionHolder object with the fields of a holder value, for a
    * call into the lock manager. */
  method HolderObject(h: Holder) returns (o: TransactionUtils.TransactionHolder)
    ensures fresh(o)
    ensures o.txn == h.txn && o.worker == h.worker
    ensures o.earlyRemoteReads == h.earlyRemoteReads && o.keysInPartition == h.keysInPartition
  {
    o := new TransactionUtils.TransactionHolder();
    o.txn, o.worker, o.earlyRemoteReads, o.keysInPartition := h.txn, h.worker, h.earlyRemoteReads, h.keysInPartition;
  }

  /** The loop of MaybeDispatchNextTransaction that sends the buffered
    * reads from the back. */
  method SendEarlyReads(sent: seq<WorkerSend>, w: string, buffered: seq<RemoteReadResult>) returns (out: seq<WorkerSend>)
    ensures out == sent + EarlyReadsBack(w, buffered)
  {
    out := sent;
    var rest := buffered;
    while rest != []
      invariant out + EarlyReadsBack(w, rest) == sent + EarlyReadsBack(w, buffered)
      decreases |rest|
    {
      var last := WorkerSend(w, ForwardedRemoteRead(rest[|rest| - 1]));
      assert EarlyReadsBack(w, rest) == [last] + EarlyReadsBack(w, rest[..|rest| - 1]);
      out := out + [last];
      rest := rest[..|rest| - 1];
    }
  }

  /** The batch orders MaybeUpdateLocalLog sends: each (slot, batch id)
    * the local interleaver hands out, to the local partition of every
    * replica. */
  function OrderSends(ordered: seq<(nat, nat)>, numReplicas: nat, partition: nat): seq<Envelope>
  {
    if ordered == [] then []
    else
      var (slot, batchId) := ordered[|ordered| - 1];
      OrderSends(ordered[..|ordered| - 1], numReplicas, partition)
        + ToMachines(SchedulerChannel, ReplicasOf(partition, numReplicas), ForwardBatchOrder(slot, batchId))
  }

  /** Every order reaches the local partition of every replica. */
  lemma {:induction false} OrderSendsReachEveryReplica(ordered: seq<(nat, nat)>, numReplicas: nat, partition: nat)
    ensures |OrderSends(ordered, numReplicas, partition)| == |ordered| * numReplicas
    ensures forall i, rep :: 0 <= i < |ordered| && 0 <= rep < numReplicas ==>
      Envelope(SchedulerChannel, Some(ProtoUtils.MakeMachineIdAsString(rep, partition)),
               ForwardBatchOrder(ordered[i].0, ordered[i].1)) in OrderSends(ordered, numReplicas, partition)
  {
    if ordered != [] {
      var init := ordered[..|ordered| - 1];
      OrderSendsReachEveryReplica(init, numReplicas, partition);
      var (slot, batchId) := ordered[|ordered| - 1];
      var last := ToMachines(SchedulerChannel, ReplicasOf(partition, numReplicas), ForwardBatchOrder(slot, batchId));
      assert OrderSends(ordered, numReplicas, partition) == OrderSends(init, numReplicas, partition) + last;
      MulSucc(|init|, numReplicas);
      forall i, rep | 0 <= i < |ordered| && 0 <= rep < numReplicas
        ensures Envelope(SchedulerChannel, Some(ProtoUtils.MakeMachineIdAsString(rep, partition)),
                         ForwardBatchOrder(ordered[i].0, ordered[i].1)) in OrderSends(ordered, numReplicas, partition)
      {
        var e := Envelope(SchedulerChannel, Some(ProtoUtils.MakeMachineIdAsString(rep, partition)),
                          ForwardBatchOrder(ordered[i].0, ordered[i].1));
        if i < |init| {
          assert ordered[i] == init[i];
          InConcat(e, OrderSends(init, numReplicas, partition), last);
        } else {
          assert last[rep] == e;
          InConcat(e, OrderSends(init, numReplicas, partition), last);
        }
      }
    }
  }

  lemma MulSucc(a: nat, n: nat)
    ensures (a + 1) * n == a * n + n
  {
  }

  lemma InConcat<T>(x: T, a: seq<T>, b: seq<T>)
    ensures x in a ==> x in a + b
    ensures x in b ==> x in a + b
  {
    if x in a {
      var i :| 0 <= i < |a| && a[i] == x;
      assert (a + b)[i] == x;
    }
    if x in b {
      var i :| 0 <= i < |b| && b[i] == x;
      assert (a + b)[|a| + i] == x;
    }
  }

  /** MaybeUpdateLocalLog's two loops. */
  method SendOrders(ordered: seq<(nat, nat)>, numReplicas: nat, partition: nat) returns (out: seq<Envelope>)
    ensures out == OrderSends(ordered, numReplicas, partition)
  {
    out := [];
    var i := 0;
    while i < |ordered|
      invariant 0 <= i <= |ordered|
      invariant out == OrderSends(ordered[..i], numReplicas, partition)
    {
      var (slot, batchId) := ordered[i];
      var sends := SendToReplicas(SchedulerChannel, ForwardBatchOrder(slot, batchId), partition, numReplicas);
      out := out + sends;
      assert ordered[..i + 1][..i] == ordered[..i];
      i := i + 1;
    }
    assert ordered[..|ordered|] == ordered;
  }

  /** A (slot, batch id) placed into a log is still there, or has moved to
    * the ready queue. */
  ghost predicate Placed(log: BatchLog, slot: nat, id: nat)
    reads log, log.slots
  {
    (slot in log.slots.log && log.slots.log[slot] == id) || (slot, id) in log.ready
  }

  lemma RunKeepsPlaced(log: map<nat, nat>, next: nat, arrived: set<nat>, slot: nat)
    requires slot in log && next <= slot
    ensures var after := AfterRun(log, next, arrived);
      (slot in after && after[slot] == log[slot]) || (slot, log[slot]) in ReadyRun(log, next, arrived)
  {
    AfterRunRemovesRun(log, next, arrived);
    var run := ReadyRun(log, next, arrived);
    if slot < next + |run| {
      assert ReadyEntry(log, next, arrived, run, slot - next);
    }
  }

  class Scheduler {
    const config: Configurations.Configuration
    /** kMultiHomeTxnLogMarker: the index after the last replica's log. */
    const multiHomeLogMarker: nat
    /** all_logs_: the log of each replica, then the multi-home log. */
    const logs: seq<BatchLog>
    const lockManager: LockManagerDeprecated.DeterministicLockManagerDeprecated
    var readyTxns: seq<nat>
    var readyWorkers: seq<string>
    var allTxns: map<nat, Holder>
    /** Messages to the workers, in order. */
    var toWorkers: seq<WorkerSend>
    /** Messages to other modules, in order. */
    var outbox: seq<Envelope>
    /** The calls into the local interleaver: AddBatchId(partition,
      * position, batch id) and AddSlot(slot, queue id). */
    var interleavedBatchIds: seq<(nat, nat, nat)>
    var interleavedSlots: seq<(nat, nat)>
    /** The ids of the transactions taken from the logs, in order. */
    ghost var taken: seq<nat>

    ghost predicate LogsValid()
      reads set l | l in logs, set l | l in logs :: l.slots
    {
      && (forall i :: 0 <= i < |logs| ==> logs[i].Valid())
      && (forall i, j :: 0 <= i < j < |logs| ==> logs[i] != logs[j] && logs[i].slots != logs[j].slots)
    }

    ghost predicate Valid()
      reads lockManager, set l | l in logs, set l | l in logs :: l.slots
    {
      && multiHomeLogMarker == config.GetNumReplicas()
      && |logs| == multiHomeLogMarker + 1
      && LocksValid()
      && LogsValid()
    }

    /** What the lock manager calls need: Valid() without the logs. */
    ghost predicate LocksValid()
      reads lockManager
    {
      config.config.numPartitions >= 1 && lockManager.Valid()
    }

    function State(): Queues
      reads this
    {
      Queues(readyTxns, readyWorkers, allTxns, toWorkers)
    }

    constructor (config: Configurations.Configuration)
      requires config.config.numPartitions >= 1
      ensures Valid() && Idle(State())
      ensures this.config == config
      ensures readyTxns == [] && readyWorkers == [] && allTxns == map[] && toWorkers == [] && outbox == []
      ensures forall i :: 0 <= i < |logs| ==> logs[i].batches == map[] && logs[i].ready == []
    {
      var ls: seq<BatchLog> := [];
      while |ls| < config.GetNumReplicas() + 1
        invariant |ls| <= config.GetNumReplicas() + 1
        invariant forall i :: 0 <= i < |ls| ==> ls[i].Valid() && ls[i].batches == map[] && ls[i].ready == []
        invariant forall i, j :: 0 <= i < j < |ls| ==> ls[i] != ls[j] && ls[i].slots != ls[j].slots
      {
        var l := new BatchLog();
        ls := ls + [l];
      }
      this.config := config;
      multiHomeLogMarker := config.GetNumReplicas();
      logs := ls;
      lockManager := new LockManagerDeprecated.DeterministicLockManagerDeprecated();
      readyTxns, readyWorkers, allTxns, toWorkers, outbox := [], [], map[], [], [];
      interleavedBatchIds, interleavedSlots := [], [];
      taken := [];
    }

    method MaybeDispatchNextTransaction()
      modifies this`readyTxns, this`readyWorkers, this`allTxns, this`toWorkers
      ensures State() == Dispatch(old(State()))
    {
      if readyWorkers == [] || readyTxns == [] {
        return;
      }
      var id := readyTxns[0];
      readyTxns := readyTxns[1..];
      var h := HolderOf(allTxns, id);
      var w := readyWorkers[0];
      readyWorkers := readyWorkers[1..];
      toWorkers := SendEarlyReads(toWorkers + [WorkerSend(w, ProcessTxn(id, h.txn))], w, h.earlyRemoteReads);
      allTxns := allTxns[id := h.(worker := w, earlyRemoteReads := [])];
    }

    method EnqueueTransactionForDispatching(id: nat)
      requires NearlyIdle(State())
      modifies this`readyTxns, this`readyWorkers, this`allTxns, this`toWorkers
      ensures State() == Enqueue(old(State()), id)
      ensures Idle(State()) && Conserves(old(State()), State(), [id], [])
    {
      readyTxns := readyTxns + [id];
      MaybeDispatchNextTransaction();
      EnqueueAppends(old(State()), id);
    }

    method ProcessRemoteReadResult(res: RemoteReadResult)
      modifies this`allTxns, this`toWorkers
      ensures State() == RemoteReadArrived(old(State()), res)
    {
      var h := HolderOf(allTxns, res.txnId);
      if h.txn.Some? && h.worker != "" {
        toWorkers := toWorkers + [WorkerSend(h.worker, ForwardedRemoteRead(res))];
      } else {
        allTxns := allTxns[res.txnId := h.(earlyRemoteReads := h.earlyRemoteReads + [res])];
      }
    }

    /** AcceptTransaction: the holder takes the transaction and its local
      * keys; a holder left without keys is erased. */
    method AcceptTransaction(txn: Transaction) returns (accepted: bool)
      requires config.config.numPartitions >= 1
      modifies this`allTxns
      ensures accepted <==> Accepts(HolderOf(old(allTxns), txn.id), config, txn)
      ensures accepted ==>
        && txn.id in allTxns
        && AcceptedHolder(HolderOf(old(allTxns), txn.id), allTxns[txn.id], config, txn)
        && allTxns - {txn.id} == old(allTxns) - {txn.id}
      ensures !accepted ==> allTxns == old(allTxns) - {txn.id}
    {
      var h := HolderOf(allTxns, txn.id);
      var keys := TransactionUtils.ExtractKeysInPartition(h.keysInPartition, config, txn);
      ExtendedIsEmpty(h.keysInPartition, keys, TransactionUtils.LocalLockModes(config, txn));
      if keys == [] {
        allTxns := allTxns - {txn.id};
        return false;
      }
      allTxns := allTxns[txn.id := h.(txn := Some(txn), keysInPartition := keys)];
      return true;
    }

    /** The SINGLE_HOME case: accept, then AcceptTransactionAndAcquireLocks. */
    method TakeSingleHome(txn: Transaction) returns (r: Result<bool, SchedulerError>)
      requires LocksValid() && Idle(State())
      modifies this`readyTxns, this`readyWorkers, this`allTxns, this`toWorkers, lockManager
      ensures LocksValid() && Idle(State())
      ensures Conserves(old(State()), State(), if r == Ok(true) then [txn.id] else [], [])
      ensures !Accepts(HolderOf(old(allTxns), txn.id), config, txn) ==>
        r == Ok(false) && allTxns == old(allTxns) - {txn.id} && unchanged(lockManager)
    {
      var accepted := AcceptTransaction(txn);
      if !accepted {
        ConservesNothing(old(State()), State());
        return Ok(false);
      }
      var h := allTxns[txn.id];
      if !LockManagerDeprecated.Requestable(lockManager.lockTable, h.keysInPartition, txn.id) {
        ConservesNothing(old(State()), State());
        return Err(LocksAlreadyRequested(txn.id));
      }
      var o := HolderObject(h);
      var ready := lockManager.AcceptTransactionAndAcquireLocks(o);
      if ready {
        EnqueueTransactionForDispatching(txn.id);
      } else {
        ConservesNothing(old(State()), State());
      }
      r := Ok(ready);
    }

    /** The MULTI_HOME case: accept, then only count the locks to wait for;
      * the lock-only parts acquire them. */
    method TakeMultiHome(txn: Transaction) returns (r: Result<bool, SchedulerError>)
      requires LocksValid() && Idle(State())
      modifies this`readyTxns, this`readyWorkers, this`allTxns, this`toWorkers, lockManager
      ensures LocksValid() && Idle(State()) && r.Ok?
      ensures Conserves(old(State()), State(), if r == Ok(true) then [txn.id] else [], [])
      ensures !Accepts(HolderOf(old(allTxns), txn.id), config, txn) ==>
        r == Ok(false) && allTxns == old(allTxns) - {txn.id} && unchanged(lockManager)
    {
      var accepted := AcceptTransaction(txn);
      if !accepted {
        ConservesNothing(old(State()), State());
        return Ok(false);
      }
      var o := HolderObject(allTxns[txn.id]);
      var ready := lockManager.AcceptTransaction(o);
      if ready {
        EnqueueTransactionForDispatching(txn.id);
      } else {
        ConservesNothing(old(State()), State());
      }
      r := Ok(ready);
    }

    /** The LOCK_ONLY case: a temporary holder acquires the locks; the
      * transaction it completes must have a holder already. */
    method TakeLockOnly(txn: Transaction) returns (r: Result<bool, SchedulerError>)
      requires LocksValid() && Idle(State())
      modifies this`readyTxns, this`readyWorkers, this`allTxns, this`toWorkers, lockManager
      ensures LocksValid() && Idle(State())
      ensures Conserves(old(State()), State(), if r == Ok(true) then [txn.id] else [], [])
      ensures r == Ok(true) ==> txn.id in old(allTxns)
      ensures r.Ok? ==> (TransactionUtils.LocalLockModes(config, txn) == map[] ==> r == Ok(false))
    {
      var o := new TransactionUtils.TransactionHolder.WithTransaction(config, txn);
      if !LockManagerDeprecated.Requestable(lockManager.lockTable, o.keysInPartition, txn.id) {
        ConservesNothing(old(State()), State());
        return Err(LocksAlreadyRequested(txn.id));
      }
      ListedIsEmpty(o.keysInPartition, TransactionUtils.LocalLockModes(config, txn));
      var ready := lockManager.AcquireLocks(o);
      if !ready {
        ConservesNothing(old(State()), State());
        return Ok(false);
      }
      if txn.id !in allTxns {
        ConservesNothing(old(State()), State());
        return Err(NotFoundForDispatching(txn.id));
      }
      EnqueueTransactionForDispatching(txn.id);
      r := Ok(true);
    }

    /** One transaction released from a batch, by its type; any other
      * type is logged and skipped. */
    method TakeTransaction(txn: Transaction) returns (r: Result<bool, SchedulerError>)
      requires LocksValid() && Idle(State())
      modifies this`readyTxns, this`readyWorkers, this`allTxns, this`toWorkers, this`taken, lockManager
      ensures LocksValid() && Idle(State())
      ensures taken == old(taken) + [txn.id]
      ensures Conserves(old(State()), State(), if r == Ok(true) then [txn.id] else [], [])
      ensures txn.txnType in {SINGLE_HOME, MULTI_HOME} && !Accepts(HolderOf(old(allTxns), txn.id), config, txn) ==>
        r == Ok(false) && allTxns == old(allTxns) - {txn.id}
      ensures txn.txnType == LOCK_ONLY && r == Ok(true) ==> txn.id in old(allTxns)
      ensures txn.txnType !in {SINGLE_HOME, MULTI_HOME, LOCK_ONLY} ==> r == Ok(false) && State() == old(State())
    {
      taken := taken + [txn.id];
      match txn.txnType
      case SINGLE_HOME => r := TakeSingleHome(txn);
      case MULTI_HOME => r := TakeMultiHome(txn);
      case LOCK_ONLY => r := TakeLockOnly(txn);
      case UNKNOWN =>
        ConservesNothing(old(State()), State());
        r := Ok(false);
    }

    /** The inner loop: the transactions of one batch, from the last to the
      * first. */
    method TakeBatch(txns: seq<Transaction>) returns (r: Result<(), SchedulerError>, ghost enqueued: seq<nat>)
      requires LocksValid() && Idle(State())
      modifies this`readyTxns, this`readyWorkers, this`allTxns, this`toWorkers, this`taken, lockManager
      ensures LocksValid() && Idle(State())
      ensures Conserves(old(State()), State(), enqueued, [])
      ensures forall t :: t in enqueued ==> exists i :: 0 <= i < |txns| && txns[i].id == t
      ensures r.Ok? ==> taken == old(taken) + ReversedIds(txns)
    {
      enqueued := [];
      var i := |txns|;
      ghost var ids: seq<nat> := [];
      ConservesNothing(old(State()), State());
      while i > 0
        invariant 0 <= i <= |txns|
        invariant LocksValid() && Idle(State())
        invariant ids == ReversedIds(txns[i..]) && taken == old(taken) + ids
        invariant Conserves(old(State()), State(), enqueued, [])
        invariant forall t :: t in enqueued ==> exists j :: i <= j < |txns| && txns[j].id == t
      {
        i := i - 1;
        var step;
        ghost var enq0 := enqueued;
        step, enqueued := TakeStep(txns[i], old(State()), enqueued);
        TakenIdsStep(txns, i, ids, enq0, enqueued);
        SnocAssoc(old(taken), ids, txns[i].id);
        ids := ids + [txns[i].id];
        if step.Err? {
          return Err(step.error), enqueued;
        }
      }
      r := Ok(());
    }

    /** One transaction of the inner loop, with what it adds to the
      * conservation of the queues since `q0`. */
    method TakeStep(txn: Transaction, ghost q0: Queues, ghost enq0: seq<nat>) returns (r: Result<bool, SchedulerError>, ghost enq: seq<nat>)
      requires LocksValid() && Idle(State()) && Conserves(q0, State(), enq0, [])
      modifies this`readyTxns, this`readyWorkers, this`allTxns, this`toWorkers, this`taken, lockManager
      ensures LocksValid() && Idle(State()) && Conserves(q0, State(), enq, [])
      ensures taken == old(taken) + [txn.id]
      ensures enq == enq0 || enq == enq0 + [txn.id]
    {
      ghost var q := State();
      r := TakeTransaction(txn);
      var added := if r == Ok(true) then [txn.id] else [];
      ConservesTrans(q0, q, State(), enq0, [], added, []);
      enq := enq0 + added;
    }

    /** The middle loop: every ready batch of one log, in slot order. A slot
      * whose batch is gone is a null batch in the source. The ids taken
      * are the log's run, and the ready queues conserve what was enqueued. */
    method TakeLog(k: nat) returns (r: Result<(), SchedulerError>, ghost enqueued: seq<nat>)
      requires Valid() && Idle(State()) && k < |logs|
      modifies this`readyTxns, this`readyWorkers, this`allTxns, this`toWorkers, this`taken, lockManager, logs[k]
      ensures Valid() && Idle(State())
      ensures Conserves(old(State()), State(), enqueued, [])
      ensures TakenFrom(old(logs[k].ready), old(logs[k].batches)).None? ==> r.Err?
      ensures r.Ok? ==>
        && logs[k].ready == []
        && TakenFrom(old(logs[k].ready), old(logs[k].batches)).Some?
        && taken == old(taken) + TakenFrom(old(logs[k].ready), old(logs[k].batches)).value
    {
      ghost var run0 := TakenFrom(logs[k].ready, logs[k].batches);
      ghost var since: seq<nat> := [];
      if run0.Some? {
        assert since + run0.value == run0.value;
      }
      r, enqueued := Ok(()), [];
      ConservesNothing(old(State()), State());
      while logs[k].HasNextBatch()
        invariant Valid() && Idle(State())
        invariant Conserves(old(State()), State(), enqueued, [])
        invariant taken == old(taken) + since
        invariant run0 == Prepend(since, TakenFrom(logs[k].ready, logs[k].batches))
        decreases |logs[k].ready|
      {
        var step;
        step, since, enqueued := TakeNextBatch(k, old(State()), enqueued, old(taken), since, run0);
        if step.Err? {
          return Err(step.error), enqueued;
        }
      }
      if r.Ok? {
        assert since + [] == since;
      }
    }

    /** TakeLog, seen from the other logs: they keep their ready queues and
      * their batches. */
    method TakeLogKeeping(k: nat) returns (r: Result<(), SchedulerError>, ghost enqueued: seq<nat>)
      requires Valid() && Idle(State()) && k < |logs|
      modifies this`readyTxns, this`readyWorkers, this`allTxns, this`toWorkers, this`taken, lockManager, logs[k]
      ensures Valid() && Idle(State())
      ensures Conserves(old(State()), State(), enqueued, [])
      ensures r.Ok? ==>
        && TakenFrom(old(logs[k].ready), old(logs[k].batches)).Some?
        && taken == old(taken) + TakenFrom(old(logs[k].ready), old(logs[k].batches)).value
        && ContentsOf(logs) == old(ContentsOf(logs))[k := ([], logs[k].batches)]
    {
      ghost var before := ContentsOf(logs);
      r, enqueued := TakeLog(k);
      forall i | 0 <= i < |logs| && i != k
        ensures (logs[i].ready, logs[i].batches) == before[i]
      {
        assert logs[i] != logs[k];
      }
      ContentsKept(before, ContentsOf(logs), k, (logs[k].ready, logs[k].batches));
    }

    /** One pass of the middle loop: the next ready batch of log `k` is moved
      * out, and its transactions are taken; a null batch is an error. The
      * ids taken so far, `since`, grow by the batch's, at the head of what
      * is left of the log's run; the queues since `q0` conserve what was
      * enqueued. */
    method TakeNextBatch(k: nat, ghost q0: Queues, ghost enq0: seq<nat>, ghost taken0: seq<nat>,
                         ghost since0: seq<nat>, ghost run0: Option<seq<nat>>)
      returns (r: Result<(), SchedulerError>, ghost since: seq<nat>, ghost enq: seq<nat>)
      requires Valid() && Idle(State()) && k < |logs| && logs[k].ready != []
      requires Conserves(q0, State(), enq0, [])
      requires taken == taken0 + since0 && run0 == Prepend(since0, TakenFrom(logs[k].ready, logs[k].batches))
      modifies this`readyTxns, this`readyWorkers, this`allTxns, this`toWorkers, this`taken, lockManager, logs[k]
      ensures Valid() && Idle(State())
      ensures Conserves(q0, State(), enq, [])
      ensures |logs[k].ready| < old(|logs[k].ready|)
      ensures old(logs[k].ready[0].1) !in old(logs[k].batches) ==> r == Err(NullBatch(old(logs[k].ready[0].0)))
      ensures r.Ok? ==> taken == taken0 + since && run0 == Prepend(since, TakenFrom(logs[k].ready, logs[k].batches))
    {
      since, enq := since0, enq0;
      var slot, batch := NextOf(k);
      if batch.None? {
        return Err(NullBatch(slot)), since, enq;
      }
      ghost var q := State();
      var step;
      ghost var added;
      step, added := TakeBatch(batch.value.transactions);
      ConservesTrans(q0, q, State(), enq0, [], added, []);
      enq := enq0 + added;
      if step.Err? {
        return Err(step.error), since, enq;
      }
      ghost var ids := ReversedIds(batch.value.transactions);
      PrependAssoc(since0, ids, TakenFrom(logs[k].ready, logs[k].batches));
      since := since0 + ids;
      r := Ok(());
    }

    /** BatchLog::NextBatch on a log with a ready batch; the other logs
      * stay as they are. */
    method NextOf(k: nat) returns (slot: nat, batch: Option<Batch>)
      requires LogsValid() && k < |logs| && logs[k].ready != []
      modifies logs[k]
      ensures LogsValid() && |logs[k].ready| < old(|logs[k].ready|)
      ensures var (s, id) := old(logs[k].ready[0]);
        && slot == s && batch == (if id in old(logs[k].batches) then Some(old(logs[k].batches)[id]) else None)
        && logs[k].ready == old(logs[k].ready[1..])
        && logs[k].batches == old(logs[k].batches) - {id}
    {
      var next := logs[k].NextBatch();
      slot, batch := next.value.0, next.value.1;
    }

    /** MaybeProcessNextBatchesFromGlobalLog: every log in turn, in the
      * iteration order of an unordered map, `order`, which is some
      * permutation of the log indices. On success every log's run is taken
      * in full, the ids taken are the runs in that order, and the ready
      * queues conserve what was enqueued. */
    method ProcessGlobalLogs(ghost q0: Queues, ghost taken0: seq<nat>)
      returns (r: Result<(), SchedulerError>, ghost runs: seq<Option<seq<nat>>>, ghost order: seq<nat>, ghost enqueued: seq<nat>)
      requires Valid() && Idle(State()) && State() == q0 && taken == taken0
      modifies this`readyTxns, this`readyWorkers, this`allTxns, this`toWorkers, this`taken, lockManager
      modifies set l | l in logs
      ensures Valid() && Idle(State())
      ensures Conserves(q0, State(), enqueued, [])
      ensures runs == old(RunsOf(logs)) && IsOrderOf(order, |logs|)
      ensures r.Ok? ==> Drained(runs, order, taken0)
    {
      runs := RunsOf(logs);
      var keys := IterationOrder(|logs|);
      order, enqueued := keys, [];
      ConservesNothing(q0, State());
      TakingStart(ContentsOf(logs), keys, runs, taken0);
      for n := 0 to |keys|
        invariant Valid() && Idle(State())
        invariant Conserves(q0, State(), enqueued, [])
        invariant Taking(keys, n, runs, taken0)
      {
        r, enqueued := TakeRun(keys, n, q0, enqueued, taken0, runs);
        if r.Err? {
          return;
        }
      }
      TakingDone(ContentsOf(logs), keys, runs, taken0, taken);
      r := Ok(());
    }

    /** After the loop of MaybeProcessNextBatchesFromGlobalLog: it visited
      * the logs in `order`, drained all of them, and took their runs, of
      * `runs`, in that order after `taken0`. */
    ghost predicate Drained(runs: seq<Option<seq<nat>>>, order: seq<nat>, taken0: seq<nat>)
      reads this, set l | l in logs
    {
      DrainedOf(ContentsOf(logs), runs, order, taken0, taken)
    }

    /** Part way through the loop of MaybeProcessNextBatchesFromGlobalLog. */
    ghost predicate Taking(keys: seq<nat>, n: nat, runs: seq<Option<seq<nat>>>, taken0: seq<nat>)
      reads this, set l | l in logs
    {
      TakingOf(ContentsOf(logs), keys, n, runs, taken0, taken)
    }

    /** One pass of the loop of MaybeProcessNextBatchesFromGlobalLog: log
      * `keys[n]`, not yet visited, has its run taken; the queues since `q0`
      * conserve what was enqueued. */
    method TakeRun(keys: seq<nat>, n: nat, ghost q0: Queues, ghost enq0: seq<nat>, ghost taken0: seq<nat>,
                   ghost runs: seq<Option<seq<nat>>>)
      returns (r: Result<(), SchedulerError>, ghost enq: seq<nat>)
      requires Valid() && Idle(State()) && IsOrderOf(keys, |logs|) && n < |keys|
      requires Conserves(q0, State(), enq0, []) && Taking(keys, n, runs, taken0)
      modifies this`readyTxns, this`readyWorkers, this`allTxns, this`toWorkers, this`taken, lockManager, logs[keys[n]]
      ensures Valid() && Idle(State())
      ensures Conserves(q0, State(), enq, [])
      ensures r.Ok? ==> Taking(keys, n + 1, runs, taken0)
    {
      var k := keys[n];
      ghost var cs := ContentsOf(logs);
      ghost var q := State();
      ghost var added;
      r, added := TakeLogKeeping(k);
      ConservesTrans(q0, q, State(), enq0, [], added, []);
      enq := enq0 + added;
      if r.Ok? {
        TakingStep(cs, keys, n, runs, taken0, old(taken), logs[k].batches, taken);
      }
    }

    /** The iteration order of an unordered map over the keys 0 to n - 1:
      * each key once, in an order the model leaves open. */
    method IterationOrder(n: nat) returns (order: seq<nat>)
      ensures IsOrderOf(order, n)
    {
      var pending: set<nat> := {};
      for i := 0 to n
        invariant forall j :: j in pending <==> 0 <= j < i
      {
        pending := pending + {i};
      }
      order := [];
      while pending != {}
        invariant forall i :: i in pending ==> i < n
        invariant forall i :: 0 <= i < n ==> (i in pending <==> i !in order)
        invariant forall j :: 0 <= j < |order| ==> order[j] < n
        invariant forall i, j :: 0 <= i < j < |order| ==> order[i] != order[j]
        decreases |pending|
      {
        var k :| k in pending;
        order := order + [k];
        pending := pending - {k};
      }
    }

    /** The machine a request came from: the local one for an empty
      * identity. */
    function SenderOf(from: string): Result<MachineId, string>
    {
      if from == "" then Ok(config.GetLocalMachineIdAsProto()) else ProtoUtils.MakeMachineId(from)
    }

    /** The interleaver's batch ids once `req` from `from` is handled: a
      * single-home batch from the local replica is queued for the local log. */
    function BatchIdsAfter(req: Request, from: string, ids: seq<(nat, nat, nat)>): (ids': seq<(nat, nat, nat)>)
      ensures |ids| <= |ids'| <= |ids| + 1 && ids'[..|ids|] == ids
      ensures |ids'| > |ids| <==>
        req.ForwardBatchData? && req.batch.txnType == SINGLE_HOME && SenderOf(from).Ok? &&
        SenderOf(from).value.replica == config.GetLocalReplica()
    {
      if req.ForwardBatchData? && req.batch.txnType == SINGLE_HOME && SenderOf(from).Ok? &&
         SenderOf(from).value.replica == config.GetLocalReplica()
      then ids + [(SenderOf(from).value.partition, req.sameOriginPosition, req.batch.id)]
      else ids
    }

    /** The interleaver's slots once `req` is handled: a local queue order is
      * queued for the local log. */
    function SlotsAfter(req: Request, slots: seq<(nat, nat)>): (slots': seq<(nat, nat)>)
      ensures |slots'| == |slots| + (if req.LocalQueueOrder? then 1 else 0)
      ensures slots'[..|slots|] == slots
    {
      if req.LocalQueueOrder? then slots + [(req.slot, req.queueId)] else slots
    }

    /** ProcessForwardBatch. */
    method ProcessForwardBatch(req: Request, from: string) returns (r: Result<(), SchedulerError>)
      requires Valid()
      requires req.ForwardBatchData? || req.ForwardBatchOrder?
      modifies this`interleavedBatchIds, set l | l in logs, set l | l in logs :: l.slots
      ensures Valid()
      ensures SenderOf(from).Err? ==> r == Err(BadSender(from))
      ensures r.Ok? && req.ForwardBatchData? && req.batch.txnType == SINGLE_HOME ==>
        var rep := SenderOf(from).value.replica;
        && rep < |logs|
        && logs[rep].batches == old(logs[rep].batches)[req.batch.id := req.batch]
        && interleavedBatchIds == old(interleavedBatchIds) +
             (if rep == config.GetLocalReplica()
              then [(SenderOf(from).value.partition, req.sameOriginPosition, req.batch.id)] else [])
      ensures r.Ok? && req.ForwardBatchData? && req.batch.txnType == MULTI_HOME ==>
        var log := logs[multiHomeLogMarker];
        && log.batches == old(log.batches)[req.batch.id := req.batch]
        && (old(log.slots.next) <= req.batch.id ==> Placed(log, req.batch.id, req.batch.id))
        && interleavedBatchIds == old(interleavedBatchIds)
      ensures !(req.ForwardBatchData? && req.batch.txnType == SINGLE_HOME) ==>
        interleavedBatchIds == old(interleavedBatchIds)
      ensures r.Ok? && req.ForwardBatchOrder? ==>
        SenderOf(from).value.replica < |logs| &&
        var log := logs[SenderOf(from).value.replica];
        && log.batches == old(log.batches)
        && (old(log.slots.next) <= req.slot ==> Placed(log, req.slot, req.batchId))
        && interleavedBatchIds == old(interleavedBatchIds)
    {
      var sender := SenderOf(from);
      if sender.Err? {
        return Err(BadSender(from));
      }
      var machine := sender.value;
      var rep := machine.replica;
      if req.ForwardBatchOrder? {
        if rep >= |logs| {
          return Err(NoSuchLog(rep));
        }
        r := AddSlotTo(rep, req.slot, req.batchId);
        return;
      }
      var batch := req.batch;
      if batch.txnType == SINGLE_HOME {
        if rep >= |logs| {
          return Err(NoSuchLog(rep));
        }
        if rep == config.GetLocalReplica() {
          interleavedBatchIds := interleavedBatchIds + [(machine.partition, req.sameOriginPosition, batch.id)];
        }
        AddBatchTo(rep, batch);
      } else if batch.txnType == MULTI_HOME {
        r := AddSlotTo(multiHomeLogMarker, batch.id, batch.id);
        if r.Err? {
          return;
        }
        ghost var log := logs[multiHomeLogMarker];
        ghost var next0 := old(log.slots.next);
        AddBatchTo(multiHomeLogMarker, batch);
      }
      r := Ok(());
    }

    /** BatchLog::AddSlot on one of the logs; the others stay as they are. */
    method AddSlotTo(k: nat, slot: nat, id: nat) returns (r: Result<(), SchedulerError>)
      requires Valid() && k < |logs|
      modifies logs[k], logs[k].slots
      ensures Valid() && logs[k].slots == old(logs[k].slots)
      ensures logs[k].batches == old(logs[k].batches)
      ensures r.Ok? && old(logs[k].slots.next) <= slot ==> Placed(logs[k], slot, id)
    {
      var added := logs[k].AddSlot(slot, id);
      if added.Err? {
        return Err(LogFailure(added.error));
      }
      if old(logs[k].slots.next) <= slot {
        RunKeepsPlaced(old(logs[k].slots.log)[slot := id], old(logs[k].slots.next), logs[k].batches.Keys, slot);
      }
      r := Ok(());
    }

    /** BatchLog::AddBatch on one of the logs; a slot already placed stays
      * placed. */
    method AddBatchTo(k: nat, batch: Batch)
      requires Valid() && k < |logs|
      modifies logs[k], logs[k].slots
      ensures Valid() && logs[k].slots == old(logs[k].slots)
      ensures logs[k].batches == old(logs[k].batches)[batch.id := batch]
      ensures forall slot, id :: old(Placed(logs[k], slot, id)) ==> Placed(logs[k], slot, id)
    {
      ghost var log0, next0, ready0 := logs[k].slots.log, logs[k].slots.next, logs[k].ready;
      logs[k].AddBatch(batch);
      forall slot, id | old(Placed(logs[k], slot, id)) ensures Placed(logs[k], slot, id) {
        if slot in log0 && log0[slot] == id && (slot, id) !in ready0 {
          RunKeepsPlaced(log0, next0, logs[k].batches.Keys, slot);
        }
      }
    }

    /** HandleResponseFromWorker: the finished transaction releases its
      * locks, the transactions that got their last lock are enqueued, the
      * holder is erased, and a participant partition reports the
      * sub-transaction to the coordinating server. */
    method HandleResponseFromWorker(res: WorkerResponse) returns (r: Result<(), SchedulerError>, ghost enqueued: seq<nat>)
      requires LocksValid() && NearlyIdle(State())
      modifies this`readyTxns, this`readyWorkers, this`allTxns, this`toWorkers, this`outbox, lockManager
      ensures LocksValid() && NearlyIdle(State())
      ensures Conserves(old(State()), State(), enqueued, [])
      ensures res.OtherResponse? ==> r.Ok? && State() == old(State()) && outbox == old(outbox)
      ensures res.ProcessTxnDone? ==> (r.Err? <==> HolderOf(old(allTxns), res.txnId).txn.None?)
      ensures res.ProcessTxnDone? && r.Ok? ==>
        var h := HolderOf(old(allTxns), res.txnId);
        var txn := h.txn.value;
        var st := LM.ReleaseAll(LM.ReleaseState(old(lockManager.lockTable), old(lockManager.numLocksWaited), {}),
                                LM.KeysOfRequests(h.keysInPartition), txn.id);
        && res.txnId !in allTxns
        && lockManager.lockTable == st.lockTable
        && (forall t :: t in enqueued <==> t in st.ready)
        && (forall i, j :: 0 <= i < j < |enqueued| ==> enqueued[i] != enqueued[j])
        && outbox == old(outbox) + CompletedSends(config.GetLocalPartition(), res.participants, res.txn)
    {
      enqueued := [];
      ConservesNothing(old(State()), State());
      if res.OtherResponse? {
        return Ok(()), enqueued;
      }
      var h := HolderOf(allTxns, res.txnId);
      if h.txn.None? {
        return Err(NullTransaction(res.txnId)), enqueued;
      }
      enqueued := FinishTransaction(res.txnId, res.participants, res.txn, h);
      r := Ok(());
    }

    /** The ProcessTxnDone case of HandleResponseFromWorker for a holder
      * with a transaction: its locks are released, the transactions that
      * got their last lock are enqueued, the holder is dropped, and the
      * coordinating server gets the transaction as the worker `executed`
      * it when this partition took part. */
    method FinishTransaction(txnId: nat, participants: seq<nat>, executed: Transaction, h: Holder)
      returns (ghost enqueued: seq<nat>)
      requires LocksValid() && NearlyIdle(State())
      requires h == HolderOf(allTxns, txnId) && h.txn.Some?
      modifies this`readyTxns, this`readyWorkers, this`allTxns, this`toWorkers, this`outbox, lockManager
      ensures LocksValid() && NearlyIdle(State())
      ensures Conserves(old(State()), State(), enqueued, [])
      ensures
        var txn := h.txn.value;
        var st := LM.ReleaseAll(LM.ReleaseState(old(lockManager.lockTable), old(lockManager.numLocksWaited), {}),
                                LM.KeysOfRequests(h.keysInPartition), txn.id);
        && txnId !in allTxns
        && lockManager.lockTable == st.lockTable
        && (forall t :: t in enqueued <==> t in st.ready)
        && (forall i, j :: 0 <= i < j < |enqueued| ==> enqueued[i] != enqueued[j])
        && outbox == old(outbox) + CompletedSends(config.GetLocalPartition(), participants, executed)
    {
      var o := HolderObject(h);
      var unlocked := lockManager.ReleaseLocks(o);
      enqueued := EnqueueAll(unlocked);
      allTxns := allTxns - {txnId};
      assert Conserves(old(State()), State(), enqueued, []);
      // The holder releases its transaction, which the worker has run in
      // place: that is `executed`.
      SendCompleted(participants, executed);
    }

    /** The last step of FinishTransaction: the coordinating server of `txn`
      * gets it back when this partition took part. */
    method SendCompleted(participants: seq<nat>, txn: Transaction)
      modifies this`outbox
      ensures outbox == old(outbox) + CompletedSends(config.GetLocalPartition(), participants, txn)
    {
      var lp := config.GetLocalPartition();
      if lp in participants {
        var server := ProtoUtils.MakeMachineIdAsString(txn.coordinatingServer.replica, txn.coordinatingServer.partition);
        outbox := outbox + [Envelope(ServerChannel, Some(server), CompletedSubtxn(txn, lp, participants))];
      }
    }

    /** The loop over the transactions whose last lock was released: each is
      * enqueued once, in some order. */
    method EnqueueAll(unlocked: set<nat>) returns (ghost enqueued: seq<nat>)
      requires NearlyIdle(State())
      modifies this`readyTxns, this`readyWorkers, this`allTxns, this`toWorkers
      ensures NearlyIdle(State())
      ensures Conserves(old(State()), State(), enqueued, [])
      ensures forall t :: t in enqueued <==> t in unlocked
      ensures forall i, j :: 0 <= i < j < |enqueued| ==> enqueued[i] != enqueued[j]
    {
      enqueued := [];
      ConservesNothing(old(State()), State());
      var rest := unlocked;
      while rest != {}
        invariant rest <= unlocked
        invariant forall t :: t in enqueued <==> t in unlocked - rest
        invariant forall i, j :: 0 <= i < j < |enqueued| ==> enqueued[i] != enqueued[j]
        invariant NearlyIdle(State())
        invariant Conserves(old(State()), State(), enqueued, [])
        decreases |rest|
      {
        var t :| t in rest;
        ghost var q := State();
        EnqueueTransactionForDispatching(t);
        ConservesTrans(old(State()), q, State(), enqueued, [], [t], []);
        TakenStep(unlocked, rest, enqueued, t);
        enqueued := enqueued + [t];
        rest := rest - {t};
      }
    }

    /** The worker branch of Loop for a response: the worker becomes free,
      * the response is handled, and a dispatch is tried. */
    method HandleWorkerResponse(worker: string, res: WorkerResponse) returns (r: Result<(), SchedulerError>, ghost enqueued: seq<nat>)
      requires LocksValid() && Idle(State())
      modifies this`readyTxns, this`readyWorkers, this`allTxns, this`toWorkers, this`outbox, lockManager
      ensures LocksValid()
      ensures r.Ok? ==> Idle(State()) && Conserves(old(State()), State(), enqueued, [worker])
      ensures res.OtherResponse? ==> r.Ok? && outbox == old(outbox)
      ensures res.ProcessTxnDone? ==> (r.Err? <==> HolderOf(old(allTxns), res.txnId).txn.None?)
      ensures res.ProcessTxnDone? && r.Ok? ==>
        outbox == old(outbox) + CompletedSends(config.GetLocalPartition(), res.participants, res.txn)
    {
      ghost var q0 := State();
      readyWorkers := readyWorkers + [worker];
      WorkerArrives(q0, worker);
      ghost var q1 := State();
      r, enqueued := HandleResponseFromWorker(res);
      if r.Err? {
        return;
      }
      ConservesThen(q0, q1, State(), enqueued, [worker]);
      ghost var q2 := State();
      MaybeDispatchNextTransaction();
      DispatchPairsHeads(q2);
      ConservesThen(q0, q2, State(), enqueued, [worker]);
    }

    /** The worker branch of Loop for a request: it goes to the scheduler
      * of the destination machine. */
    method ForwardWorkerRequest(req: Request, destination: string)
      modifies this`outbox
      ensures outbox == old(outbox) + [Envelope(SchedulerChannel, Some(destination), req)]
    {
      outbox := outbox + [Envelope(SchedulerChannel, Some(destination), req)];
    }

    /** MaybeUpdateLocalLog, given the (slot, batch id) pairs the local
      * interleaver hands out now. */
    method MaybeUpdateLocalLog(ordered: seq<(nat, nat)>)
      modifies this`outbox
      ensures outbox == old(outbox) + OrderSends(ordered, config.GetNumReplicas(), config.GetLocalPartition())
    {
      var sends := SendOrders(ordered, config.GetNumReplicas(), config.GetLocalPartition());
      outbox := outbox + sends;
    }

    /** HandleInternalRequest: the request by type, then the local log and
      * the global logs. A stats request is answered outside this model.
      * `runs` are the logs' runs once the request is handled, and `order`
      * the order in which ProcessGlobalLogs takes them. */
    method HandleInternalRequest(req: Request, from: string, ordered: seq<(nat, nat)>)
      returns (r: Result<(), SchedulerError>, ghost runs: seq<Option<seq<nat>>>, ghost order: seq<nat>,
               ghost enqueued: seq<nat>)
      requires Valid() && Idle(State())
      modifies this`interleavedBatchIds, this`interleavedSlots, this`readyTxns, this`readyWorkers, this`allTxns
      modifies this`toWorkers, this`taken, this`outbox, lockManager, set l | l in logs, set l | l in logs :: l.slots
      ensures Valid() && Idle(State())
      ensures req.RemoteRead? ==> Conserves(RemoteReadArrived(old(State()), req.result), State(), enqueued, [])
      ensures !req.RemoteRead? ==> Conserves(old(State()), State(), enqueued, [])
      ensures !(req.ForwardBatchData? || req.ForwardBatchOrder?) ==> runs == old(RunsOf(logs))
      ensures (req.ForwardBatchData? || req.ForwardBatchOrder?) && SenderOf(from).Err? ==> r == Err(BadSender(from))
      ensures r.Ok? || !(req.ForwardBatchData? && req.batch.txnType == SINGLE_HOME) ==>
        interleavedBatchIds == BatchIdsAfter(req, from, old(interleavedBatchIds))
      ensures interleavedSlots == SlotsAfter(req, old(interleavedSlots))
      ensures r.Ok? ==> outbox == old(outbox) + OrderSends(ordered, config.GetNumReplicas(), config.GetLocalPartition())
      ensures |runs| == |logs|
      ensures r.Ok? ==> Drained(runs, order, old(taken))
    {
      runs, order, enqueued := RunsOf(logs), [], [];
      r := HandleRequestByType(req, from);
      ghost var q, taken0 := State(), taken;
      if r.Err? {
        ConservesNothing(q, q);
        return;
      }
      assert taken0 == old(taken) && outbox == old(outbox);
      r, runs, order, enqueued := UpdateLogs(ordered, q, taken0);
    }

    /** The tail of HandleInternalRequest: MaybeUpdateLocalLog, then
      * MaybeProcessNextBatchesFromGlobalLog. */
    method UpdateLogs(ordered: seq<(nat, nat)>, ghost q0: Queues, ghost taken0: seq<nat>)
      returns (r: Result<(), SchedulerError>, ghost runs: seq<Option<seq<nat>>>, ghost order: seq<nat>, ghost enqueued: seq<nat>)
      requires Valid() && Idle(State()) && State() == q0 && taken == taken0
      modifies this`readyTxns, this`readyWorkers, this`allTxns, this`toWorkers, this`taken, this`outbox, lockManager
      modifies set l | l in logs
      ensures Valid() && Idle(State())
      ensures Conserves(q0, State(), enqueued, [])
      ensures runs == old(RunsOf(logs)) && IsOrderOf(order, |logs|)
      ensures r.Ok? ==> Drained(runs, order, taken0)
      ensures outbox == old(outbox) + OrderSends(ordered, config.GetNumReplicas(), config.GetLocalPartition())
    {
      MaybeUpdateLocalLog(ordered);
      assert State() == q0 && taken == taken0 && RunsOf(logs) == old(RunsOf(logs));
      r, runs, order, enqueued := ProcessGlobalLogs(q0, taken0);
    }

    /** The switch on the request type in HandleInternalRequest. */
    method HandleRequestByType(req: Request, from: string) returns (r: Result<(), SchedulerError>)
      requires Valid() && Idle(State())
      modifies this`interleavedBatchIds, this`interleavedSlots, this`allTxns, this`toWorkers
      modifies set l | l in logs, set l | l in logs :: l.slots
      ensures Valid() && Idle(State())
      ensures req.LocalQueueOrder? ==> r.Ok?
      ensures req.RemoteRead? ==> r.Ok? && State() == RemoteReadArrived(old(State()), req.result)
      ensures !req.RemoteRead? ==> State() == old(State())
      ensures !(req.ForwardBatchData? || req.ForwardBatchOrder?) ==> RunsOf(logs) == old(RunsOf(logs))
      ensures (req.ForwardBatchData? || req.ForwardBatchOrder?) && SenderOf(from).Err? ==> r == Err(BadSender(from))
      ensures r.Ok? || !(req.ForwardBatchData? && req.batch.txnType == SINGLE_HOME) ==>
        interleavedBatchIds == BatchIdsAfter(req, from, old(interleavedBatchIds))
      ensures interleavedSlots == SlotsAfter(req, old(interleavedSlots))
    {
      if req.ForwardBatchData? || req.ForwardBatchOrder? {
        r := ProcessForwardBatch(req, from);
        return;
      }
      match req {
        case LocalQueueOrder(queueId, slot) =>
          interleavedSlots := interleavedSlots + [(slot, queueId)];
        case RemoteRead(result) =>
          ProcessRemoteReadResult(result);
        case _ =>
      }
      r := Ok(());
    }
  }
}
