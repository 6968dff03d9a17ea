/** A gap-tolerant log that hands out items by consecutive position
  * (common/async_log.h). */
module AsyncLogs {
  import opened Wrappers

  datatype LogError =
    | PositionTaken(position: nat)  // "Log position .. has already been taken"
    | NoNextItem                    // "Next item does not exist" / `at` on a missing position

  class AsyncLog<T> {
    /** Items waiting at their positions. */
    var log: map<nat, T>
    /** The position of the next item to hand out. */
    var next: nat

    /** Nothing is ever buffered behind the cursor. */
    ghost predicate Valid()
      reads this
    {
      forall p :: p in log ==> next <= p
    }

    constructor (startFrom: nat)
      ensures Valid()
      ensures next == startFrom && log == map[]
      ensures !HasNext()
    {
      log := map[];
      next := startFrom;
    }

    /** Buffers `item` at `position`. A position behind the cursor is
      * ignored; a position already holding an item is an error. */
    method Insert(position: nat, item: T) returns (r: Result<(), LogError>)
      requires Valid()
      modifies this
      ensures Valid()
      ensures next == old(next)
      ensures position < old(next) ==> r == Ok(()) && log == old(log)
      ensures old(next) <= position && position in old(log) ==>
                r == Err(PositionTaken(position)) && log == old(log)
      ensures old(next) <= position && position !in old(log) ==>
                r == Ok(()) && log == old(log)[position := item]
    {
      if position < next {
        return Ok(());
      }
      if position in log {
        return Err(PositionTaken(position));
      }
      log := log[position := item];
      r := Ok(());
    }

    /** Whether the item at the cursor has arrived. */
    predicate HasNext()
      reads this
    {
      next in log
    }

    /** The item at the cursor, without consuming it. */
    function Peek(): (r: Result<T, LogError>)
      reads this
      ensures r.Ok? <==> HasNext()
      ensures r.Ok? ==> next in log && r.value == log[next]
    {
      if next in log then Ok(log[next]) else Err(NoNextItem)
    }

    /** Consumes the item at the cursor and moves the cursor by one. */
    method Next() returns (r: Result<T, LogError>)
      requires Valid()
      modifies this
      ensures Valid()
      ensures !old(HasNext()) ==> r == Err(NoNextItem) && log == old(log) && next == old(next)
      ensures old(HasNext()) ==>
                r == Ok(old(log[next])) && log == old(log) - {old(next)} && next == old(next) + 1
    {
      if next !in log {
        return Err(NoNextItem);
      }
      r := Ok(log[next]);
      log := log - {next};
      next := next + 1;
    }
  }

  /** The number of consecutive positions, starting at `next`, that hold an
    * item: how many times Next succeeds in a row. */
  function Run<T>(log: map<nat, T>, next: nat): (n: nat)
    ensures forall i :: next <= i < next + n ==> i in log
    ensures next + n !in log
    decreases |log|
  {
    if next in log then
      assert |log - {next}| < |log|;
      var rest := Run(log - {next}, next + 1);
      assert forall i :: next <= i < next + 1 + rest ==> i in log by {
        forall i | next <= i < next + 1 + rest ensures i in log {
          if i != next { assert i in log - {next}; }
        }
      }
      1 + rest
    else 0
  }

  /** The items handed out by draining a log: each successful Next returns
    * the item at the cursor and the cursor moves by exactly one. */
  function Drain<T>(log: map<nat, T>, next: nat): (items: seq<T>)
    decreases |log|
  {
    if next in log then
      assert |log - {next}| < |log|;
      [log[next]] + Drain(log - {next}, next + 1)
    else []
  }

  /** Draining releases the items in strictly consecutive positions from the
    * cursor, up to the first gap, whatever order they were inserted in. */
  lemma {:induction false} DrainIsConsecutive<T>(log: map<nat, T>, next: nat)
    ensures |Drain(log, next)| == Run(log, next)
    ensures forall i :: 0 <= i < |Drain(log, next)| ==>
              next + i in log && Drain(log, next)[i] == log[next + i]
    decreases |log|
  {
    if next in log {
      assert |log - {next}| < |log|;
      DrainIsConsecutive(log - {next}, next + 1);
      var rest := Drain(log - {next}, next + 1);
      assert Drain(log, next) == [log[next]] + rest;
      forall i | 0 <= i < |Drain(log, next)|
        ensures next + i in log && Drain(log, next)[i] == log[next + i]
      {
        if i > 0 {
          assert Drain(log, next)[i] == rest[i - 1];
        }
      }
    }
  }
}
