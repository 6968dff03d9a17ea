/** The scheduler's abort manager: it decides which transactions can be
  * aborted at once when one of them aborts. Only single-partition
  * transactions are handled. */
module AbortManagers {
  import opened Types
  import opened Wrappers
  import TransactionHolders

  datatype AbortError =
    | MultiPartition   // more than one partition is involved
    | NoTransaction    // the holder holds no transaction

  /** The abort of `txn`, which involves the partitions `involved`: the
    * transaction as it is left and the ids that can be aborted now. */
  function Aborted(txn: Transaction, involved: set<nat>): (r: Result<(Transaction, seq<nat>), AbortError>)
    ensures r.Err? <==> |involved| != 1
    ensures r.Err? ==> r.error == MultiPartition
    // a single-home transaction is aborted on its own, nothing else changes
    ensures r.Ok? && txn.txnType == SINGLE_HOME ==>
              r.value.1 == [txn.id] && r.value.0.status == ABORTED && r.value.0.(status := txn.status) == txn
    // a multi-home or lock-only transaction, or one of unknown type, is left
    // alone and nothing can be aborted yet
    ensures r.Ok? && txn.txnType != SINGLE_HOME ==> r.value == (txn, [])
  {
    if |involved| != 1 then Err(MultiPartition)
    else match txn.txnType {
      case SINGLE_HOME => Ok((txn.(status := ABORTED), [txn.id]))
      case MULTI_HOME => Ok((txn, []))
      case LOCK_ONLY => Ok((txn, []))
      case UNKNOWN => Ok((txn, []))
    }
  }

  /** AbortTransaction sets the status of the held transaction in place
    * (when it is single-home) and returns the ids that can be aborted. The
    * holder's involved partitions are given as `involved`. */
  method AbortTransaction(holder: TransactionHolders.TransactionHolder, involved: set<nat>, wasDispatched: bool)
    returns (r: Result<seq<nat>, AbortError>)
    modifies holder`txn
    ensures |involved| != 1 ==> r == Err(MultiPartition) && holder.txn == old(holder.txn)
    ensures |involved| == 1 && old(holder.txn).None? ==> r == Err(NoTransaction) && holder.txn == old(holder.txn)
    ensures old(holder.txn).Some? && |involved| == 1 ==>
              var res := Aborted(old(holder.txn).value, involved).value;
              r == Ok(res.1) && holder.txn == Some(res.0)
  {
    if |involved| != 1 {
      return Err(MultiPartition);
    }
    if holder.txn.None? {
      return Err(NoTransaction);
    }
    var txn := holder.txn.value;
    var canAbort: seq<nat> := [];
    match txn.txnType {
      case SINGLE_HOME => {
        holder.txn := Some(txn.(status := ABORTED));
        canAbort := canAbort + [txn.id];
      }
      case MULTI_HOME => {}
      case LOCK_ONLY => {}
      case UNKNOWN => {}
    }
    r := Ok(canAbort);
    assert Aborted(txn, involved).value.1 == canAbort;
    assert Some(Aborted(txn, involved).value.0) == holder.txn;
  }

  /** Aborting again what was aborted leaves the transaction as it is and
    * names the same ids. */
  lemma AbortIdempotent(txn: Transaction, involved: set<nat>)
    requires Aborted(txn, involved).Ok?
    ensures Aborted(Aborted(txn, involved).value.0, involved) == Aborted(txn, involved)
  {
  }

  /** Only a single-home transaction is named, and then it is the only one. */
  lemma AbortsAtMostItself(txn: Transaction, involved: set<nat>)
    requires Aborted(txn, involved).Ok?
    ensures |Aborted(txn, involved).value.1| <= 1
    ensures forall id :: id in Aborted(txn, involved).value.1 <==> txn.txnType == SINGLE_HOME && id == txn.id
  {
  }
}
