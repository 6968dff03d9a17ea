/** The scheduler's per-transaction holder (common/txn_holder.h): one slot
  * per replica for the lock-only parts of a transaction, the main part in
  * the slot of its home replica, and counters and flags for garbage
  * collection. */
module TxnHolders {
  import opened Types
  import opened Wrappers

  /** What the holder reads of a transaction: its id, its home replica and
    * the replicas it involves, around the transaction itself. */
  datatype InternalTxn = InternalTxn(id: nat, home: nat, involvedReplicas: seq<nat>, txn: Transaction)

  /** The number of filled slots. */
  function NumFilled(slots: seq<Option<InternalTxn>>): nat
  {
    if slots == [] then 0 else (if slots[0].Some? then 1 else 0) + NumFilled(slots[1..])
  }

  /** Never more filled slots than slots; none when all are empty. */
  lemma {:induction false} FilledAtMostSlots(slots: seq<Option<InternalTxn>>)
    ensures NumFilled(slots) <= |slots|
    ensures (forall i :: 0 <= i < |slots| ==> slots[i].None?) ==> NumFilled(slots) == 0
  {
    if slots != [] {
      FilledAtMostSlots(slots[1..]);
      assert forall i :: 0 <= i < |slots| - 1 ==> slots[1..][i] == slots[i + 1];
    }
  }

  /** Filling an empty slot adds one filled slot. */
  lemma {:induction false} FillAddsOne(slots: seq<Option<InternalTxn>>, i: nat, t: InternalTxn)
    requires i < |slots| && slots[i].None?
    ensures NumFilled(slots[i := Some(t)]) == NumFilled(slots) + 1
  {
    if i > 0 {
      FillAddsOne(slots[1..], i - 1, t);
      assert slots[i := Some(t)][1..] == slots[1..][i - 1 := Some(t)];
    } else {
      assert slots[i := Some(t)][1..] == slots[1..];
    }
  }

  class TxnHolder {
    var txnId: nat
    var mainTxn: nat
    /** lo_txns_: one slot per replica; its size never changes. */
    var loTxns: array<Option<InternalTxn>>
    var remasterResult: Option<(Key, nat)>
    var aborting: bool
    var done: bool
    var numLoTxns: nat
    var expectedNumLoTxns: nat
    var numDispatches: nat

    /** Before Release: the count is the number of filled slots, and the
      * main slot is a slot. */
    ghost predicate Valid()
      reads this, loTxns
    {
      mainTxn < loTxns.Length && numLoTxns == NumFilled(loTxns[..])
    }

    /** The constructor puts the transaction in the slot of its home,
      * counts one, and expects one part per involved replica. */
    constructor(numReplicas: nat, txn: InternalTxn)
      requires txn.home < numReplicas
      ensures Valid()
      ensures txnId == txn.id && mainTxn == txn.home && loTxns.Length == numReplicas && fresh(loTxns)
      ensures forall i :: 0 <= i < numReplicas ==> loTxns[i] == (if i == txn.home then Some(txn) else None)
      ensures numLoTxns == 1 && expectedNumLoTxns == |txn.involvedReplicas|
      ensures remasterResult == None && !aborting && !done && numDispatches == 0
    {
      txnId := txn.id;
      mainTxn := txn.home;
      var slots := new Option<InternalTxn>[numReplicas](_ => None);
      slots[txn.home] := Some(txn);
      loTxns := slots;
      remasterResult := None;
      aborting := false;
      done := false;
      numLoTxns := 1;
      expectedNumLoTxns := |txn.involvedReplicas|;
      numDispatches := 0;
      new;
      var empty: seq<Option<InternalTxn>> := seq(numReplicas, _ => None);
      assert loTxns[..] == empty[txn.home := Some(txn)];
      FillAddsOne(empty, txn.home, txn);
      FilledAtMostSlots(empty);
    }

    /** AddLockOnlyTxn: a filled slot refuses the part and nothing changes;
      * an empty one takes it and the count grows by one. The home must be a
      * slot (a fatal check). */
    method AddLockOnlyTxn(txn: InternalTxn) returns (added: bool)
      requires Valid() && txn.home < loTxns.Length
      modifies loTxns, this`numLoTxns
      ensures Valid()
      ensures added <==> old(loTxns[txn.home]).None?
      ensures added ==> loTxns[..] == old(loTxns[..])[txn.home := Some(txn)] && numLoTxns == old(numLoTxns) + 1
      ensures !added ==> loTxns[..] == old(loTxns[..]) && numLoTxns == old(numLoTxns)
    {
      if loTxns[txn.home].Some? {
        return false;
      }
      FillAddsOne(loTxns[..], txn.home, txn);
      loTxns[txn.home] := Some(txn);
      numLoTxns := numLoTxns + 1;
      return true;
    }

    /** Release: hands back the main part and empties every slot, keeping
      * the number of slots. */
    method Release() returns (txn: Option<InternalTxn>)
      requires mainTxn < loTxns.Length
      modifies loTxns
      ensures txn == old(loTxns[mainTxn])
      ensures forall i :: 0 <= i < loTxns.Length ==> loTxns[i].None?
    {
      txn := loTxns[mainTxn];
      loTxns[mainTxn] := None;
      for i := 0 to loTxns.Length
        invariant forall j :: 0 <= j < i ==> loTxns[j].None?
      {
        loTxns[i] := None;
      }
    }

    /** txn(): the main part, which must be present (a fatal check). */
    function Txn(): InternalTxn
      requires mainTxn < loTxns.Length && loTxns[mainTxn].Some?
      reads this, loTxns
    {
      loTxns[mainTxn].value
    }

    method SetRemasterResult(key: Key, counter: nat)
      modifies this`remasterResult
      ensures remasterResult == Some((key, counter))
    {
      remasterResult := Some((key, counter));
    }

    method SetDone()
      modifies this`done
      ensures done
    {
      done := true;
    }

    method SetAborting()
      modifies this`aborting
      ensures aborting
    {
      aborting := true;
    }

    method IncNumDispatches()
      modifies this`numDispatches
      ensures numDispatches == old(numDispatches) + 1
    {
      numDispatches := numDispatches + 1;
    }

    predicate IsReadyForGc()
      reads this
    {
      done && numLoTxns == expectedNumLoTxns
    }
  }

  /** A holder never counts more parts than it has slots. */
  lemma CountAtMostSlots(h: TxnHolder)
    requires h.Valid()
    ensures h.numLoTxns <= h.loTxns.Length
  {
    FilledAtMostSlots(h.loTxns[..]);
  }

  /** A holder is ready for collection only once done, and then exactly
    * when as many slots are filled as parts are expected; while it expects
    * more parts than it has slots it never is. */
  lemma ReadyForGcIff(h: TxnHolder)
    requires h.Valid()
    ensures h.IsReadyForGc() <==> h.done && NumFilled(h.loTxns[..]) == h.expectedNumLoTxns
    ensures h.expectedNumLoTxns > h.loTxns.Length ==> !h.IsReadyForGc()
  {
    CountAtMostSlots(h);
  }
}
