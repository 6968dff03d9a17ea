/** The multi-home orderer (module/multi_home_orderer.cpp): it collects
  * multi-home transactions into a batch and, at every tick, numbers the
  * batch, proposes its id to the global Paxos group and replicates it to the
  * orderer of every replica. Replicated batches and their global order meet
  * in a BatchLog, from which they go to the local sequencer in slot order,
  * each renumbered with its slot. */
module MultiHomeOrderers {
  import opened Wrappers
  import opened Types
  import opened Messages
  import opened BatchLogs
  import AsyncLogs
  import ProtoUtils
  import PaxosLeader
  import Configurations

  /** The batch NewBatch starts: empty and MULTI_HOME. */
  function NewBatch(): Batch
  {
    Batch(0, [], MULTI_HOME)
  }

  /** What draining a ready queue leaves: the requests sent, the buffer
    * left and, when the drain stopped at a slot whose batch was gone, that
    * slot with the queue behind it. */
  datatype Drain = Drain(sent: seq<Envelope>, left: map<nat, Batch>, stuck: Option<(nat, seq<(nat, nat)>)>)

  /** Draining a run of ready (slot, batch id) pairs: each batch, renumbered
    * with its slot, goes to the local sequencer and leaves the buffer. A
    * slot whose batch an earlier slot already took comes out of the log as
    * a null batch, and renumbering it ends the handling: the drain stops
    * with that slot popped, and what went out before it stays sent. */
  function Drained(ready: seq<(nat, nat)>, batches: map<nat, Batch>): (d: Drain)
    ensures |d.sent| <= |ready|
    ensures d.stuck.Some? ==> |d.stuck.value.1| < |ready|
    decreases |ready|
  {
    if ready == [] then Drain([], batches, None)
    else
      var (slot, id) := ready[0];
      if id !in batches then Drain([], batches, Some((slot, ready[1..])))
      else
        var rest := Drained(ready[1..], batches - {id});
        rest.(sent := [Envelope(SequencerChannel, None, ForwardBatchData(batches[id].(id := slot), 0))] + rest.sent)
  }

  /** The drain goes through exactly when every ready slot's batch is
    * buffered and no two ready slots name the same batch; otherwise it
    * stops at some slot k, after sending one batch for each slot before k,
    * with the slots behind k still queued. */
  lemma {:induction false} DrainCompletesIff(ready: seq<(nat, nat)>, batches: map<nat, Batch>)
    ensures Drained(ready, batches).stuck.None? <==>
      (forall i :: 0 <= i < |ready| ==> ready[i].1 in batches) &&
      (forall i, j :: 0 <= i < j < |ready| ==> ready[i].1 != ready[j].1)
    ensures var d := Drained(ready, batches);
      d.stuck.Some? ==> exists k :: 0 <= k < |ready| && d.stuck.value == (ready[k].0, ready[k + 1..]) && |d.sent| == k
    decreases |ready|
  {
    if ready != [] {
      var (slot, id) := ready[0];
      var tail := ready[1..];
      assert forall j :: 0 <= j < |tail| ==> tail[j] == ready[j + 1];
      if id in batches {
        DrainCompletesIff(tail, batches - {id});
        var d := Drained(tail, batches - {id});
        if d.stuck.Some? {
          var k :| 0 <= k < |tail| && d.stuck.value == (tail[k].0, tail[k + 1..]) && |d.sent| == k;
          assert tail[k + 1..] == ready[k + 2..];
          assert Drained(ready, batches).stuck.value == (ready[k + 1].0, ready[k + 2..]);
        } else {
          forall i, j | 0 <= i < j < |ready| ensures ready[i].1 != ready[j].1 {
            if i > 0 { assert ready[i] == tail[i - 1] && ready[j] == tail[j - 1]; }
            else { assert ready[j] == tail[j - 1]; }
          }
        }
      } else {
        assert Drained(ready, batches).stuck.value == (ready[0].0, ready[1..]);
      }
    }
  }

  /** The id of the batch an envelope forwards (0 for other requests). */
  function BatchIdOf(e: Envelope): nat
  {
    if e.req.ForwardBatchData? then e.req.batch.id else 0
  }

  /** The slots of a ready queue. */
  function Slots(ready: seq<(nat, nat)>): set<nat>
  {
    set p | p in ready :: p.0
  }

  /** A forward of a batch data request to the local sequencer. */
  predicate ToLocalSequencer(e: Envelope)
  {
    e.channel == SequencerChannel && e.to.None? && e.req.ForwardBatchData?
  }

  /** Every request the drain sends forwards a batch to the local
    * sequencer, renumbered with one of the ready slots; a drain that goes
    * through takes every batch of the run out of the buffer, and no drain
    * takes out any other. */
  lemma {:induction false} DrainedForwardsSlots(ready: seq<(nat, nat)>, batches: map<nat, Batch>)
    ensures var out := Drained(ready, batches).sent;
      forall i :: 0 <= i < |out| ==> ToLocalSequencer(out[i]) && BatchIdOf(out[i]) in Slots(ready)
    ensures Drained(ready, batches).stuck.None? ==> forall j :: 0 <= j < |ready| ==> ready[j].1 !in Drained(ready, batches).left
    ensures forall id :: id in batches && (forall j :: 0 <= j < |ready| ==> ready[j].1 != id) ==>
      id in Drained(ready, batches).left && Drained(ready, batches).left[id] == batches[id]
    ensures Drained(ready, batches).left.Keys <= batches.Keys
    decreases |ready|
  {
    if ready != [] {
      var (slot, id) := ready[0];
      var tail := ready[1..];
      DrainedForwardsSlots(tail, batches - {id});
      assert forall j :: 0 <= j < |tail| ==> tail[j] == ready[j + 1];
      assert Slots(tail) <= Slots(ready) by {
        forall p | p in Slots(tail) ensures p in Slots(ready) {
          var q :| q in tail && q.0 == p;
          assert q in ready;
        }
      }
      assert slot in Slots(ready) by { assert ready[0] in ready; }
    }
  }

  /** With increasing slots, the drained batches leave with increasing
    * ids: slot order. */
  lemma {:induction false} DrainedInSlotOrder(ready: seq<(nat, nat)>, batches: map<nat, Batch>)
    requires forall i, j :: 0 <= i < j < |ready| ==> ready[i].0 < ready[j].0
    ensures var out := Drained(ready, batches).sent;
      forall i, j :: 0 <= i < j < |out| ==> BatchIdOf(out[i]) < BatchIdOf(out[j])
    ensures ready != [] ==> forall i :: 0 <= i < |Drained(ready, batches).sent| ==> ready[0].0 <= BatchIdOf(Drained(ready, batches).sent[i])
    decreases |ready|
  {
    if ready != [] {
      var (slot, id) := ready[0];
      var tail := ready[1..];
      assert forall j :: 0 <= j < |tail| ==> tail[j] == ready[j + 1];
      DrainedInSlotOrder(tail, batches - {id});
      DrainedForwardsSlots(tail, batches - {id});
      var rest := Drained(tail, batches - {id}).sent;
      forall i | 0 <= i < |rest| ensures slot < BatchIdOf(rest[i]) {
        var p :| p in tail && p.0 == BatchIdOf(rest[i]);
        var j :| 0 <= j < |tail| && tail[j] == p;
        assert tail[j] == ready[j + 1];
      }
      if id in batches {
        var e := Envelope(SequencerChannel, None, ForwardBatchData(batches[id].(id := slot), 0));
        assert Drained(ready, batches).sent == [e] + rest;
        ConsInOrder(e, rest, slot);
      }
    }
  }

  /** A batch in front of later slots, themselves in order, keeps the order. */
  lemma ConsInOrder(e: Envelope, rest: seq<Envelope>, slot: nat)
    requires BatchIdOf(e) == slot
    requires forall i, j :: 0 <= i < j < |rest| ==> BatchIdOf(rest[i]) < BatchIdOf(rest[j])
    requires forall i :: 0 <= i < |rest| ==> slot < BatchIdOf(rest[i])
    ensures var out := [e] + rest;
      forall i, j :: 0 <= i < j < |out| ==> BatchIdOf(out[i]) < BatchIdOf(out[j])
    ensures var out := [e] + rest;
      forall i :: 0 <= i < |out| ==> slot <= BatchIdOf(out[i])
  {
    var out := [e] + rest;
    assert forall i :: 0 < i < |out| ==> out[i] == rest[i - 1];
  }

  class MultiHomeOrderer {
    const config: Configurations.Configuration
    var batch: Batch
    var batchIdCounter: nat
    const batchLog: BatchLog
    var outbox: seq<Envelope>

    ghost predicate Valid()
      reads this, batchLog, batchLog.slots
    {
      batch.txnType == MULTI_HOME && batchLog.Valid()
    }

    constructor(config: Configurations.Configuration)
      ensures Valid() && fresh(batchLog) && fresh(batchLog.slots)
      ensures this.config == config && batch == NewBatch() && batchIdCounter == 0 && outbox == []
      ensures batchLog.batches == map[] && batchLog.ready == [] && batchLog.slots.log == map[] && batchLog.slots.next == 0
    {
      this.config := config;
      batch := NewBatch();
      batchIdCounter := 0;
      batchLog := new BatchLog();
      outbox := [];
    }

    /** NextBatchId: the counter is incremented first, then stamped with
      * the local machine's number. */
    method NextBatchId() returns (id: nat)
      modifies this`batchIdCounter
      ensures batchIdCounter == NextCounter(old(batchIdCounter))
      ensures id == StampedId(batchIdCounter, config.GetLocalMachineIdAsNumber())
    {
      batchIdCounter := NextCounter(batchIdCounter);
      id := StampedId(batchIdCounter, config.GetLocalMachineIdAsNumber());
    }

    /** HandleCustomSocketMessage (a tick): nothing happens to an empty
      * batch. Otherwise the batch takes the next id, the id is proposed to
      * the global Paxos group, the batch goes to the orderer at the leader
      * partition of every replica, and a new batch starts. */
    method HandleTick()
      requires Valid()
      modifies this`batch, this`batchIdCounter, this`outbox
      ensures Valid()
      ensures old(batch.transactions) == [] ==>
        batch == old(batch) && batchIdCounter == old(batchIdCounter) && outbox == old(outbox)
      ensures old(batch.transactions) != [] ==>
        var id := StampedId(NextCounter(old(batchIdCounter)), config.GetLocalMachineIdAsNumber());
        batchIdCounter == NextCounter(old(batchIdCounter)) && batch == NewBatch() &&
        outbox == old(outbox) + [Envelope(GlobalPaxosChannel, None, Paxos(PaxosLeader.ProposeRequest(id)))] +
          ToMachines(MultiHomeOrdererChannel, ReplicasOf(config.GetLeaderPartitionForMultiHomeOrdering(), config.GetNumReplicas()),
            ForwardBatchData(old(batch).(id := id), 0))
    {
      if batch.transactions == [] {
        return;
      }
      var id := NextBatchId();
      outbox := outbox + [Envelope(GlobalPaxosChannel, None, Paxos(PaxosLeader.ProposeRequest(id)))];
      var req := ForwardBatchData(batch.(id := id), 0);
      var sends := SendToReplicas(MultiHomeOrdererChannel, req, config.GetLeaderPartitionForMultiHomeOrdering(), config.GetNumReplicas());
      outbox := outbox + sends;
      batch := NewBatch();
    }

    /** HandleInternalRequest: a forwarded multi-home transaction joins the
      * batch; batch data and batch orders go to ProcessForwardBatch;
      * anything else is ignored. */
    method HandleInternalRequest(req: Request) returns (r: Result<(), BatchLogError>)
      requires Valid()
      modifies this`batch, this`outbox, batchLog, batchLog.slots
      ensures Valid()
      ensures req.ForwardTxn? ==>
        r.Ok? && batch == old(batch).(transactions := old(batch.transactions) + [req.txn]) && outbox == old(outbox)
      ensures req.ForwardBatchData? || req.ForwardBatchOrder? ==>
        batch == old(batch) && Forwarded(req, old(ViewOf(batchLog)), old(outbox)) == Forward(ViewOf(batchLog), outbox, r)
      ensures !req.ForwardTxn? && !req.ForwardBatchData? && !req.ForwardBatchOrder? ==>
        r.Ok? && batch == old(batch) && outbox == old(outbox)
    {
      if req.ForwardTxn? {
        batch := batch.(transactions := batch.transactions + [req.txn]);
        return Ok(());
      }
      if req.ForwardBatchData? || req.ForwardBatchOrder? {
        r := ProcessForwardBatch(req);
      } else {
        r := Ok(());
      }
    }

    /** ProcessForwardBatch: batch data is added to the log, a batch order
      * places the batch id at its slot (a taken slot throws and ends the
      * handling); then every ready batch goes to the local sequencer, in
      * slot order, renumbered with its slot, until a slot whose batch is
      * gone ends the handling. */
    method ProcessForwardBatch(req: Request) returns (r: Result<(), BatchLogError>)
      requires Valid() && (req.ForwardBatchData? || req.ForwardBatchOrder?)
      modifies this`outbox, batchLog, batchLog.slots
      ensures Valid() && batchLog.slots == old(batchLog.slots)
      ensures Forwarded(req, old(ViewOf(batchLog)), old(outbox)) == Forward(ViewOf(batchLog), outbox, r)
    {
      ghost var v0 := ViewOf(batchLog);
      if req.ForwardBatchData? {
        batchLog.AddBatch(req.batch);
      } else {
        var added := batchLog.AddSlot(req.slot, req.batchId);
        if added.Err? {
          assert ViewOf(batchLog) == v0;
          return added;
        }
      }
      ghost var a := Added(req, v0).value;
      assert ViewOf(batchLog) == a;
      r := DrainReady();
    }

    /** The drain loop: while a batch is ready, it is taken from the log and
      * sent to the sequencer with its slot as its id; a null batch (its
      * slot's batch is gone) ends the handling with an error. */
    method DrainReady() returns (r: Result<(), BatchLogError>)
      requires Valid()
      modifies this`outbox, batchLog
      ensures Valid() && batchLog.slots == old(batchLog.slots)
      ensures var d := Drained(old(batchLog.ready), old(batchLog.batches));
        && outbox == old(outbox) + d.sent && batchLog.batches == d.left
        && (d.stuck.None? ==> r == Ok(()) && batchLog.ready == [])
        && (d.stuck.Some? ==> r == Err(MissingBatch(d.stuck.value.0)) && batchLog.ready == d.stuck.value.1)
    {
      ghost var d0 := Drained(batchLog.ready, batchLog.batches);
      while batchLog.HasNextBatch()
        invariant Valid() && batchLog.slots == old(batchLog.slots)
        invariant old(outbox) + d0.sent == outbox + Drained(batchLog.ready, batchLog.batches).sent
        invariant d0.left == Drained(batchLog.ready, batchLog.batches).left
        invariant d0.stuck == Drained(batchLog.ready, batchLog.batches).stuck
        decreases |batchLog.ready|
      {
        ghost var d := Drained(batchLog.ready, batchLog.batches);
        var next := batchLog.NextBatch();
        var (slot, taken) := next.value;
        if taken.None? {
          assert d == Drain([], batchLog.batches, Some((slot, batchLog.ready)));
          return Err(MissingBatch(slot));
        }
        outbox := outbox + [Envelope(SequencerChannel, None, ForwardBatchData(taken.value.(id := slot), 0))];
      }
      assert outbox + Drained(batchLog.ready, batchLog.batches).sent == outbox;
      r := Ok(());
    }
  }

  /** The batch log as a value: the slot log and its cursor, the ready
    * queue and the buffered batches. */
  datatype LogView = LogView(log: map<nat, nat>, next: nat, ready: seq<(nat, nat)>, batches: map<nat, Batch>)

  function ViewOf(b: BatchLog): LogView
    reads b, b.slots
  {
    LogView(b.slots.log, b.slots.next, b.ready, b.batches)
  }

  /** What BatchLog.Valid keeps: no slot behind the cursor, and the ready
    * queue holds the slots just behind it, in order. */
  predicate ViewValid(v: LogView)
  {
    && (forall p :: p in v.log ==> v.next <= p)
    && |v.ready| <= v.next
    && forall i :: 0 <= i < |v.ready| ==> v.ready[i].0 == v.next - |v.ready| + i
  }

  /** The batch log once a batch data request (AddBatch) or a batch order
    * request (AddSlot) has been added, before anything is drained. */
  function Added(req: Request, v: LogView): Result<LogView, BatchLogError>
    requires req.ForwardBatchData? || req.ForwardBatchOrder?
  {
    if req.ForwardBatchData? then
      var bs := v.batches[req.batch.id := req.batch];
      var run := ReadyRun(v.log, v.next, bs.Keys);
      Ok(LogView(AfterRun(v.log, v.next, bs.Keys), v.next + |run|, v.ready + run, bs))
    else if v.next <= req.slot && req.slot in v.log then
      Err(SlotError(AsyncLogs.PositionTaken(req.slot)))
    else
      var log0 := if req.slot < v.next then v.log else v.log[req.slot := req.batchId];
      var run := ReadyRun(log0, v.next, v.batches.Keys);
      Ok(LogView(AfterRun(log0, v.next, v.batches.Keys), v.next + |run|, v.ready + run, v.batches))
  }

  /** What a forward-batch request leaves: the log, the outbox and the
    * result of the handling. */
  datatype Forward = Forward(view: LogView, outbox: seq<Envelope>, result: Result<(), BatchLogError>)

  /** ProcessForwardBatch on values. A taken slot leaves everything as it
    * was; otherwise the log after the request and the drain, and the outbox
    * with the drained batches appended, and an error if the drain stopped
    * at a slot whose batch was gone. */
  function Forwarded(req: Request, v: LogView, outbox: seq<Envelope>): Forward
    requires req.ForwardBatchData? || req.ForwardBatchOrder?
  {
    match Added(req, v)
    case Err(e) => Forward(v, outbox, Err(e))
    case Ok(a) =>
      var d := Drained(a.ready, a.batches);
      match d.stuck
      case None => Forward(a.(ready := [], batches := d.left), outbox + d.sent, Ok(()))
      case Some((slot, behind)) => Forward(a.(ready := behind, batches := d.left), outbox + d.sent, Err(MissingBatch(slot)))
  }

  /** Every ready slot of the log has its batch buffered, and no two name
    * the same batch. */
  predicate DrainGoesThrough(a: LogView)
  {
    && (forall i :: 0 <= i < |a.ready| ==> a.ready[i].1 in a.batches)
    && (forall i, j :: 0 <= i < j < |a.ready| ==> a.ready[i].1 != a.ready[j].1)
  }

  /** A forward-batch request fails exactly when its order names a taken
    * slot, or when the slots it makes ready miss a batch or name one batch
    * twice; a taken slot changes nothing. */
  lemma ForwardFailsIff(req: Request, v: LogView, outbox: seq<Envelope>)
    requires req.ForwardBatchData? || req.ForwardBatchOrder?
    ensures Forwarded(req, v, outbox).result.Err? <==>
      (Added(req, v).Err? || !DrainGoesThrough(Added(req, v).value))
    ensures Added(req, v).Err? ==> Forwarded(req, v, outbox) == Forward(v, outbox, Err(Added(req, v).error))
  {
    if Added(req, v).Ok? {
      var a := Added(req, v).value;
      var d := Drained(a.ready, a.batches);
      DrainCompletesIff(a.ready, a.batches);
      assert DrainGoesThrough(a) <==> d.stuck.None?;
      assert Forwarded(req, v, outbox).result.Err? <==> d.stuck.Some?;
    }
  }

  /** Two orders naming the same batch, then its data: the batch goes out
    * once, for the first slot, and the second slot ends the handling with
    * an error, where the source dereferences the null batch. */
  lemma RepeatedOrderStops(b: Batch)
    ensures var f1 := Forwarded(ForwardBatchOrder(0, b.id), LogView(map[], 0, [], map[]), []);
      var f2 := Forwarded(ForwardBatchOrder(1, b.id), f1.view, f1.outbox);
      var f3 := Forwarded(ForwardBatchData(b, 0), f2.view, f2.outbox);
      && f1.result.Ok? && f2.result.Ok?
      && f3.result == Err(MissingBatch(1))
      && f3.outbox == [Envelope(SequencerChannel, None, ForwardBatchData(b.(id := 0), 0))]
  {
    FirstOrderPlaced(b.id);
    SecondOrderPlaced(b.id);
    DataMeetsRepeatedOrder(b);
  }

  /** The order for slot 0 of a fresh log only places the batch id. */
  lemma FirstOrderPlaced(id: nat)
    ensures Forwarded(ForwardBatchOrder(0, id), LogView(map[], 0, [], map[]), [])
      == Forward(LogView(map[0 := id], 0, [], map[]), [], Ok(()))
  {
    var none: map<nat, Batch> := map[];
    var v0 := LogView(map[], 0, [], none);
    var log1 := map[0 := id];
    assert none.Keys == {} && v0.log[0 := id] == log1;
    assert ReadyRun(log1, 0, {}) == [] && AfterRun(log1, 0, {}) == log1;
    var empty: seq<(nat, nat)> := [];
    assert empty + ReadyRun(log1, 0, none.Keys) == [];
    assert Added(ForwardBatchOrder(0, id), v0) == Ok(LogView(log1, 0, [], none));
    assert Drained([], none) == Drain([], none, None);
  }

  /** A second order for the same batch id, at slot 1, only places it too. */
  lemma SecondOrderPlaced(id: nat)
    ensures Forwarded(ForwardBatchOrder(1, id), LogView(map[0 := id], 0, [], map[]), [])
      == Forward(LogView(map[0 := id, 1 := id], 0, [], map[]), [], Ok(()))
  {
    var none: map<nat, Batch> := map[];
    var log2 := map[0 := id, 1 := id];
    assert none.Keys == {} && map[0 := id][1 := id] == log2;
    assert ReadyRun(log2, 0, {}) == [] && AfterRun(log2, 0, {}) == log2;
    var empty: seq<(nat, nat)> := [];
    assert empty + ReadyRun(log2, 0, none.Keys) == [];
    assert Added(ForwardBatchOrder(1, id), LogView(map[0 := id], 0, [], none)) == Ok(LogView(log2, 0, [], none));
    assert Drained([], none) == Drain([], none, None);
  }

  /** The batch's data then readies both slots: the batch goes out for
    * slot 0, and slot 1 finds it gone. */
  lemma DataMeetsRepeatedOrder(b: Batch)
    ensures Forwarded(ForwardBatchData(b, 0), LogView(map[0 := b.id, 1 := b.id], 0, [], map[]), [])
      == Forward(LogView(map[], 2, [], map[]), [Envelope(SequencerChannel, None, ForwardBatchData(b.(id := 0), 0))], Err(MissingBatch(1)))
  {
    var none: map<nat, Batch> := map[];
    var log2 := map[0 := b.id, 1 := b.id];
    var bs := map[b.id := b];
    assert none[b.id := b] == bs && bs.Keys == {b.id};
    assert log2 - {0} == map[1 := b.id];
    assert map[1 := b.id] - {1} == map[];
    assert ReadyRun(map[], 2, {b.id}) == [];
    assert ReadyRun(map[1 := b.id], 1, {b.id}) == [(1, b.id)];
    var run: seq<(nat, nat)> := [(0, b.id), (1, b.id)];
    assert ReadyRun(log2, 0, {b.id}) == run;
    assert AfterRun(log2 - {0}, 1, {b.id}) == AfterRun(map[], 2, {b.id}) == map[];
    assert run[1..] == [(1, b.id)];
    assert bs - {b.id} == none;
    assert Drained(run[1..], none) == Drain([], none, Some((1, [])));
    var e := Envelope(SequencerChannel, None, ForwardBatchData(b.(id := 0), 0));
    assert Drained(run, bs) == Drain([e], none, Some((1, [])));
    var empty: seq<(nat, nat)> := [];
    assert empty + run == run;
    assert Added(ForwardBatchData(b, 0), LogView(log2, 0, [], none)) == Ok(LogView(map[], 2, run, bs));
  }

  /** Adding a request to a valid log keeps it valid, and the ready queue
    * then lists consecutive, hence increasing, slots. */
  lemma AddedValid(req: Request, v: LogView)
    requires req.ForwardBatchData? || req.ForwardBatchOrder?
    requires ViewValid(v) && Added(req, v).Ok?
    ensures ViewValid(Added(req, v).value)
    ensures var a := Added(req, v).value;
      forall i, j :: 0 <= i < j < |a.ready| ==> a.ready[i].0 < a.ready[j].0
  {
    var log0 := if req.ForwardBatchData? || req.slot < v.next then v.log else v.log[req.slot := req.batchId];
    var keys := if req.ForwardBatchData? then v.batches[req.batch.id := req.batch].Keys else v.batches.Keys;
    var run := ReadyRun(log0, v.next, keys);
    AfterRunRemovesRun(log0, v.next, keys);
    var a := Added(req, v).value;
    assert a.ready == v.ready + run && a.next == v.next + |run|;
    forall i | 0 <= i < |a.ready| ensures a.ready[i].0 == a.next - |a.ready| + i {
      if i >= |v.ready| {
        assert ReadyEntry(log0, v.next, keys, run, i - |v.ready|);
      }
    }
  }

  /** Whatever ProcessForwardBatch sends goes to the local sequencer, after
    * what was already sent, in increasing id order, each id a slot. */
  lemma ForwardedInSlotOrder(req: Request, v: LogView, outbox: seq<Envelope>)
    requires req.ForwardBatchData? || req.ForwardBatchOrder?
    requires ViewValid(v) && Added(req, v).Ok?
    ensures var after := Forwarded(req, v, outbox).outbox;
      && |outbox| <= |after| && after[..|outbox|] == outbox
      && (forall i :: |outbox| <= i < |after| ==> ToLocalSequencer(after[i]))
      && forall i, j :: |outbox| <= i < j < |after| ==> BatchIdOf(after[i]) < BatchIdOf(after[j])
  {
    var a := Added(req, v).value;
    AddedValid(req, v);
    DrainedInSlotOrder(a.ready, a.batches);
    DrainedForwardsSlots(a.ready, a.batches);
    var out := Drained(a.ready, a.batches).sent;
    var after := outbox + out;
    assert forall i :: |outbox| <= i < |after| ==> after[i] == out[i - |outbox|];
  }

  /** The log is settled when nothing is ready and the batch at the cursor,
    * if its slot is ordered, has not arrived: how every handling that goes
    * through leaves it. */
  predicate Settled(v: LogView)
  {
    v.ready == [] && (v.next in v.log ==> v.log[v.next] !in v.batches)
  }

  /** Batch data whose slot is not yet at the cursor is only buffered under
    * its id, and nothing is sent. */
  lemma DataWaitsForOrder(b: Batch, v: LogView, outbox: seq<Envelope>)
    requires Settled(v) && (v.next in v.log ==> v.log[v.next] != b.id)
    ensures Forwarded(ForwardBatchData(b, 0), v, outbox) == Forward(v.(batches := v.batches[b.id := b]), outbox, Ok(()))
  {
    var bs := v.batches[b.id := b];
    assert !(v.next in v.log && v.log[v.next] in bs.Keys);
    assert ReadyRun(v.log, v.next, bs.Keys) == [] && AfterRun(v.log, v.next, bs.Keys) == v.log;
    var a := Added(ForwardBatchData(b, 0), v).value;
    assert a.ready == v.ready + [] == [];
    assert a == v.(batches := bs);
    assert Drained([], bs) == Drain([], bs, None);
  }

  /** An order for a slot whose batch has not arrived only places the batch
    * id at the slot, and nothing is sent. */
  lemma OrderWaitsForData(slot: nat, id: nat, v: LogView, outbox: seq<Envelope>)
    requires Settled(v) && v.next <= slot && slot !in v.log && id !in v.batches
    ensures Forwarded(ForwardBatchOrder(slot, id), v, outbox) == Forward(v.(log := v.log[slot := id]), outbox, Ok(()))
  {
    var log0 := v.log[slot := id];
    assert !(v.next in log0 && log0[v.next] in v.batches.Keys);
    assert ReadyRun(log0, v.next, v.batches.Keys) == [] && AfterRun(log0, v.next, v.batches.Keys) == log0;
    var a := Added(ForwardBatchOrder(slot, id), v).value;
    assert a.ready == v.ready + [] == [];
    assert a == v.(log := log0);
    assert Drained([], v.batches) == Drain([], v.batches, None);
  }

  /** The order for the slot at the cursor, once its batch has arrived,
    * sends that batch first, renumbered with its slot, and drops it from
    * the buffer. */
  lemma OrderReleasesBatch(id: nat, v: LogView, outbox: seq<Envelope>)
    requires Settled(v) && v.next !in v.log && id in v.batches
    ensures var f := Forwarded(ForwardBatchOrder(v.next, id), v, outbox);
      && |f.outbox| > |outbox|
      && f.outbox[..|outbox| + 1] == outbox + [Envelope(SequencerChannel, None, ForwardBatchData(v.batches[id].(id := v.next), 0))]
      && id !in f.view.batches && f.view.next > v.next
  {
    var log0 := v.log[v.next := id];
    var run := ReadyRun(log0, v.next, v.batches.Keys);
    assert ReadyEntry(log0, v.next, v.batches.Keys, run, 0);
    ReleasesFirst(run, v.batches, v.next, id);
    assert Added(ForwardBatchOrder(v.next, id), v).value.ready == run;
    var f := Forwarded(ForwardBatchOrder(v.next, id), v, outbox);
    assert f.outbox == outbox + Drained(run, v.batches).sent;
  }

  /** Draining a run headed by slot s with batch id: the batch, renumbered
    * with s, leaves first, and it is not left in the buffer. */
  lemma ReleasesFirst(run: seq<(nat, nat)>, batches: map<nat, Batch>, s: nat, id: nat)
    requires run != [] && run[0] == (s, id) && id in batches
    ensures var d := Drained(run, batches);
      d.sent != [] && d.sent[0] == Envelope(SequencerChannel, None, ForwardBatchData(batches[id].(id := s), 0)) && id !in d.left
  {
    DrainedForwardsSlots(run[1..], batches - {id});
  }

  /** The data of the batch ordered at the cursor sends that batch first,
    * renumbered with its slot, and keeps no copy of it. */
  lemma DataReleasesBatch(b: Batch, v: LogView, outbox: seq<Envelope>)
    requires Settled(v) && v.next in v.log && v.log[v.next] == b.id
    ensures var f := Forwarded(ForwardBatchData(b, 0), v, outbox);
      && |f.outbox| > |outbox|
      && f.outbox[..|outbox| + 1] == outbox + [Envelope(SequencerChannel, None, ForwardBatchData(b.(id := v.next), 0))]
      && b.id !in f.view.batches && f.view.next > v.next
  {
    var bs := v.batches[b.id := b];
    var run := ReadyRun(v.log, v.next, bs.Keys);
    assert ReadyEntry(v.log, v.next, bs.Keys, run, 0);
    ReleasesFirst(run, bs, v.next, b.id);
    assert Added(ForwardBatchData(b, 0), v).value.ready == run;
    var f := Forwarded(ForwardBatchData(b, 0), v, outbox);
    assert f.outbox == outbox + Drained(run, bs).sent;
  }
}
