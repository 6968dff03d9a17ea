/** Holds a batch back until both its data and its slot in the log order
  * have arrived (data_structure/batch_log.cpp). */
module BatchLogs {
  import opened Wrappers
  import opened Types
  import opened AsyncLogs

  datatype BatchLogError =
    | NoReadyBatch             // "NextBatch() was called when there is no batch"
    | SlotError(e: LogError)   // the exception of AsyncLog::Insert
    | MissingBatch(slot: nat)  // a ready slot whose batch is gone: the null batch the caller dereferences

  /** Entry `i` of `run` is the slot `next + i`, which holds a batch id whose
    * batch has arrived. */
  predicate ReadyEntry(log: map<nat, nat>, next: nat, arrived: set<nat>, run: seq<(nat, nat)>, i: nat)
    requires i < |run|
  {
    next + i in log && run[i] == (next + i, log[next + i]) && log[next + i] in arrived
  }

  /** The (slot, batch id) pairs that become ready from the cursor: the
    * longest run of consecutive slots whose batches have all arrived. */
  function ReadyRun(log: map<nat, nat>, next: nat, arrived: set<nat>): (run: seq<(nat, nat)>)
    ensures forall i :: 0 <= i < |run| ==> ReadyEntry(log, next, arrived, run, i)
    ensures next + |run| !in log || log[next + |run|] !in arrived
    decreases |log|
  {
    if next in log && log[next] in arrived then
      assert |log - {next}| < |log|;
      var rest := ReadyRun(log - {next}, next + 1, arrived);
      var run := [(next, log[next])] + rest;
      assert ReadyEntry(log, next, arrived, run, 0);
      assert forall i :: 0 < i < |run| ==> ReadyEntry(log, next, arrived, run, i) by {
        forall i | 0 < i < |run| ensures ReadyEntry(log, next, arrived, run, i) {
          assert ReadyEntry(log - {next}, next + 1, arrived, rest, i - 1);
          assert run[i] == rest[i - 1];
        }
      }
      run
    else []
  }

  /** The slot log left once the ready run has been taken out of it. */
  function AfterRun(log: map<nat, nat>, next: nat, arrived: set<nat>): map<nat, nat>
    decreases |log|
  {
    if next in log && log[next] in arrived then
      assert |log - {next}| < |log|;
      AfterRun(log - {next}, next + 1, arrived)
    else log
  }

  /** Taking the ready run removes exactly its slots and nothing else. */
  lemma {:induction false} AfterRunRemovesRun(log: map<nat, nat>, next: nat, arrived: set<nat>)
    ensures var n := |ReadyRun(log, next, arrived)|;
            AfterRun(log, next, arrived) == map p | p in log && !(next <= p < next + n) :: log[p]
    decreases |log|
  {
    if next in log && log[next] in arrived {
      assert |log - {next}| < |log|;
      AfterRunRemovesRun(log - {next}, next + 1, arrived);
    }
  }

  class BatchLog {
    var slots: AsyncLog<nat>
    var batches: map<nat, Batch>
    var ready: seq<(nat, nat)>

    /** The ready queue holds exactly the slots just behind the cursor, in order. */
    ghost predicate Valid()
      reads this, slots
    {
      && slots.Valid()
      && |ready| <= slots.next
      && forall i :: 0 <= i < |ready| ==> ready[i].0 == slots.next - |ready| + i
    }

    constructor ()
      ensures Valid() && fresh(slots)
      ensures slots.log == map[] && slots.next == 0 && batches == map[] && ready == []
    {
      slots := new AsyncLog<nat>(0);
      batches := map[];
      ready := [];
    }

    /** Stores a batch under its own id, overwriting one with the same id. */
    method AddBatch(batch: Batch)
      requires Valid()
      modifies this, slots
      ensures Valid() && slots == old(slots)
      ensures batches == old(batches)[batch.id := batch]
      ensures ready == old(ready) + ReadyRun(old(slots.log), old(slots.next), batches.Keys)
      ensures slots.next == old(slots.next) + |ReadyRun(old(slots.log), old(slots.next), batches.Keys)|
      ensures slots.log == AfterRun(old(slots.log), old(slots.next), batches.Keys)
    {
      batches := batches[batch.id := batch];
      UpdateReadyBatches();
    }

    /** Places a batch id at a slot; a stale slot is ignored, a taken one fails. */
    method AddSlot(slot: nat, batchId: nat) returns (r: Result<(), BatchLogError>)
      requires Valid()
      modifies this, slots
      ensures Valid() && slots == old(slots) && batches == old(batches)
      ensures r.Ok? <==> !(old(slots.next) <= slot && slot in old(slots.log))
      ensures slot < old(slots.next) ==> r.Ok?
      ensures old(slots.next) <= slot && slot in old(slots.log) ==>
                r == Err(SlotError(PositionTaken(slot)))
                && slots.log == old(slots.log) && slots.next == old(slots.next) && ready == old(ready)
      ensures r.Ok? ==>
                var log0 := if slot < old(slots.next) then old(slots.log) else old(slots.log)[slot := batchId];
                && ready == old(ready) + ReadyRun(log0, old(slots.next), batches.Keys)
                && slots.next == old(slots.next) + |ReadyRun(log0, old(slots.next), batches.Keys)|
                && slots.log == AfterRun(log0, old(slots.next), batches.Keys)
    {
      var ins := slots.Insert(slot, batchId);
      if ins.Err? {
        return Err(SlotError(ins.error));
      }
      UpdateReadyBatches();
      r := Ok(());
    }

    predicate HasNextBatch()
      reads this
    {
      ready != []
    }

    /** Hands out the oldest ready (slot, batch) and drops the batch from the
      * buffer. The batch is absent (a null batch in the source) if another
      * slot for the same id already took it. */
    method NextBatch() returns (r: Result<(nat, Option<Batch>), BatchLogError>)
      requires Valid()
      modifies this
      ensures Valid() && slots == old(slots)
      ensures old(ready) == [] ==> r == Err(NoReadyBatch) && ready == old(ready) && batches == old(batches)
      ensures old(ready) != [] ==>
                var (slot, id) := old(ready[0]);
                && r == Ok((slot, if id in old(batches) then Some(old(batches)[id]) else None))
                && ready == old(ready[1..])
                && batches == old(batches) - {id}
    {
      if ready == [] {
        return Err(NoReadyBatch);
      }
      var (slot, id) := ready[0];
      ready := ready[1..];
      var batch := if id in batches then Some(batches[id]) else None;
      batches := batches - {id};
      r := Ok((slot, batch));
    }

    /** Moves every slot whose batch has arrived, from the cursor on, to the
      * ready queue. */
    method UpdateReadyBatches()
      requires Valid()
      modifies this`ready, slots
      ensures Valid()
      ensures ready == old(ready) + ReadyRun(old(slots.log), old(slots.next), batches.Keys)
      ensures slots.next == old(slots.next) + |ReadyRun(old(slots.log), old(slots.next), batches.Keys)|
      ensures slots.log == AfterRun(old(slots.log), old(slots.next), batches.Keys)
    {
      ghost var log0, next0 := slots.log, slots.next;
      ghost var want := ReadyRun(log0, next0, batches.Keys);
      while slots.HasNext()
        invariant Valid()
        invariant old(ready) + want == ready + ReadyRun(slots.log, slots.next, batches.Keys)
        invariant next0 + |want| == slots.next + |ReadyRun(slots.log, slots.next, batches.Keys)|
        invariant AfterRun(log0, next0, batches.Keys) == AfterRun(slots.log, slots.next, batches.Keys)
        decreases |slots.log|
      {
        var head := slots.Peek();
        if head.value !in batches {
          break;
        }
        ghost var rest := ReadyRun(slots.log - {slots.next}, slots.next + 1, batches.Keys);
        assert ReadyRun(slots.log, slots.next, batches.Keys) == [(slots.next, head.value)] + rest;
        var item := slots.Next();
        ready := ready + [(slots.next - 1, item.value)];
      }
    }
  }
}
