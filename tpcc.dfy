/** The TPC-C execution entry point (execution/tpcc.cpp): the argument
  * checks on a TPC-C transaction's procedures and its final status. The
  * tpcc::*Txn classes that run the transaction, and ApplyWrites, are not
  * part of this model: their outcome is a parameter. */
module Tpcc {
  import opened Types
  import opened Wrappers

  /** The part of a transaction TPCCExecution::Execute reads and sets:
    * the code as a list of procedures, each a list of arguments. */
  datatype TpccTransaction = TpccTransaction(procedures: seq<seq<string>>, status: TransactionStatus, abortReason: string)

  datatype TxnName = NewOrder | Payment | OrderStatus | Deliver | StockLevel

  function NameOf(s: string): Option<TxnName>
  {
    if s == "new_order" then Some(NewOrder)
    else if s == "payment" then Some(Payment)
    else if s == "order_status" then Some(OrderStatus)
    else if s == "deliver" then Some(Deliver)
    else if s == "stock_level" then Some(StockLevel)
    else None
  }

  /** The number of order lines of a new_order transaction (the `ol` array). */
  const ORDER_LINES: nat := 10

  /** Independent statement of a well-formed TPC-C code: a first procedure
    * naming the transaction, with the argument counts each kind needs;
    * totalItems is tpcc::StockLevelTxn::kTotalItems. */
  predicate WellFormedCode(procs: seq<seq<string>>, totalItems: nat)
  {
    |procs| > 0 && |procs[0]| > 0 &&
    match NameOf(procs[0][0])
    case None => false
    case Some(NewOrder) =>
      |procs[0]| == 7 && |procs| == ORDER_LINES + 1 && forall i :: 1 <= i <= ORDER_LINES ==> |procs[i]| == 4
    case Some(Payment) => |procs[0]| == 9
    case Some(OrderStatus) => |procs[0]| == 5
    case Some(Deliver) => |procs[0]| == 7
    case Some(StockLevel) => |procs[0]| == 4 && |procs| == 2 && |procs[1]| == totalItems
  }

  /** The order lines 1..n all have four arguments. */
  predicate OrderLinesOk(procs: seq<seq<string>>, n: nat)
    requires n < |procs|
  {
    forall i :: 1 <= i <= n ==> |procs[i]| == 4
  }

  /** The checks in source order, each failure with its own reason. */
  function CheckArguments(procs: seq<seq<string>>, totalItems: nat): Result<TxnName, string>
  {
    if |procs| == 0 || |procs[0]| == 0 then Err("Invalid code")
    else
      var args := procs[0];
      match NameOf(args[0])
      case None => Err("Unknown procedure name")
      case Some(NewOrder) =>
        if |args| != 7 || |procs| != ORDER_LINES + 1 then Err("new_order: Invalid number of arguments")
        else if !OrderLinesOk(procs, ORDER_LINES) then Err("new_order: Invalid number of arguments for order line")
        else Ok(NewOrder)
      case Some(Payment) =>
        if |args| != 9 then Err("payment: Invalid number of arguments") else Ok(Payment)
      case Some(OrderStatus) =>
        if |args| != 5 then Err("order_status: Invalid number of arguments") else Ok(OrderStatus)
      case Some(Deliver) =>
        if |args| != 7 then Err("deliver: Invalid number of arguments") else Ok(Deliver)
      case Some(StockLevel) =>
        if |args| != 4 || |procs| != 2 then Err("stock_level: Invalid number of arguments")
        else if |procs[1]| != totalItems then Err("stock_level: Invalid number of items")
        else Ok(StockLevel)
  }

  /** The checks pass exactly on a well-formed code, and then name the
    * transaction kind of the first argument. */
  lemma CheckArgumentsIsWellFormed(procs: seq<seq<string>>, totalItems: nat)
    ensures CheckArguments(procs, totalItems).Ok? <==> WellFormedCode(procs, totalItems)
    ensures CheckArguments(procs, totalItems).Ok? ==> Some(CheckArguments(procs, totalItems).value) == NameOf(procs[0][0])
  {
  }

  /** The checks, with the loop over the order lines of a new_order. */
  method ValidateArguments(procs: seq<seq<string>>, totalItems: nat) returns (r: Result<TxnName, string>)
    ensures r == CheckArguments(procs, totalItems)
  {
    if |procs| == 0 || |procs[0]| == 0 {
      return Err("Invalid code");
    }
    var args := procs[0];
    var name := NameOf(args[0]);
    if name == Some(NewOrder) {
      if |args| != 7 || |procs| != ORDER_LINES + 1 {
        return Err("new_order: Invalid number of arguments");
      }
      var i := 0;
      while i < ORDER_LINES
        invariant 0 <= i <= ORDER_LINES
        invariant OrderLinesOk(procs, i)
      {
        if |procs[i + 1]| != 4 {
          return Err("new_order: Invalid number of arguments for order line");
        }
        i := i + 1;
      }
      return Ok(NewOrder);
    } else if name == Some(Payment) {
      if |args| != 9 {
        return Err("payment: Invalid number of arguments");
      }
      return Ok(Payment);
    } else if name == Some(OrderStatus) {
      if |args| != 5 {
        return Err("order_status: Invalid number of arguments");
      }
      return Ok(OrderStatus);
    } else if name == Some(Deliver) {
      if |args| != 7 {
        return Err("deliver: Invalid number of arguments");
      }
      return Ok(Deliver);
    } else if name == Some(StockLevel) {
      if |args| != 4 || |procs| != 2 {
        return Err("stock_level: Invalid number of arguments");
      }
      if |procs[1]| != totalItems {
        return Err("stock_level: Invalid number of items");
      }
      return Ok(StockLevel);
    }
    return Err("Unknown procedure name");
  }

  /** The outcome of Execute: the transaction and whether ApplyWrites ran. */
  datatype Outcome = Outcome(txn: TpccTransaction, writesApplied: bool)

  /** Execute as written: after a run whose result is `succeeded`,
    * the block that should be the `else` of `if (result)` runs
    * unconditionally, so the status always ends ABORTED. */
  function ExecutedAsWritten(txn: TpccTransaction, totalItems: nat, succeeded: bool): (o: Outcome)
    ensures o.txn.status == ABORTED && o.txn.procedures == txn.procedures
    ensures o.writesApplied ==> succeeded
  {
    match CheckArguments(txn.procedures, totalItems)
    case Err(reason) => Outcome(txn.(status := ABORTED, abortReason := reason), false)
    case Ok(_) =>
      Outcome(txn.(status := ABORTED, abortReason := "Aborted by a TPC-C txn"), succeeded)
  }

  /** Execute as intended: a successful run commits and applies its writes,
    * a failed one aborts with "Aborted by a TPC-C txn". */
  function Executed(txn: TpccTransaction, totalItems: nat, succeeded: bool): (o: Outcome)
    ensures o.txn.status in {COMMITTED, ABORTED} && o.txn.procedures == txn.procedures
    ensures o.writesApplied <==> o.txn.status == COMMITTED
    ensures o.writesApplied ==> succeeded
  {
    match CheckArguments(txn.procedures, totalItems)
    case Err(reason) => Outcome(txn.(status := ABORTED, abortReason := reason), false)
    case Ok(_) =>
      if succeeded then Outcome(txn.(status := COMMITTED), true)
      else Outcome(txn.(status := ABORTED, abortReason := "Aborted by a TPC-C txn"), false)
  }

  /** TPCCExecution::Execute, with the missing `else` restored; `run`
    * stands for the tpcc::*Txn class's Execute on the checked kind. */
  method Execute(txn: TpccTransaction, totalItems: nat, run: TxnName -> bool) returns (r: Outcome)
    ensures CheckArguments(txn.procedures, totalItems).Ok? ==>
      r == Executed(txn, totalItems, run(CheckArguments(txn.procedures, totalItems).value))
    ensures CheckArguments(txn.procedures, totalItems).Err? ==> r == Executed(txn, totalItems, false)
  {
    var checked := ValidateArguments(txn.procedures, totalItems);
    if checked.Err? {
      return Outcome(txn.(status := ABORTED, abortReason := checked.error), false);
    }
    var result := run(checked.value);
    if result {
      r := Outcome(txn.(status := COMMITTED), true);
    } else {
      r := Outcome(txn.(status := ABORTED, abortReason := "Aborted by a TPC-C txn"), false);
    }
  }

  /** As written, no TPC-C transaction ever commits, and a successful one
    * is aborted after its writes were applied. */
  lemma AsWrittenNeverCommits(txn: TpccTransaction, totalItems: nat, succeeded: bool)
    ensures ExecutedAsWritten(txn, totalItems, succeeded).txn.status == ABORTED
    ensures WellFormedCode(txn.procedures, totalItems) && succeeded ==>
      ExecutedAsWritten(txn, totalItems, succeeded).writesApplied
  {
    CheckArgumentsIsWellFormed(txn.procedures, totalItems);
  }

  /** A concrete payment transaction whose run succeeds: as written it ends
    * ABORTED with its writes applied; as intended it commits. */
  lemma PaymentShowsMissingElse()
    ensures var txn := TpccTransaction([["payment", "1", "2", "3", "4", "5", "6", "7", "8"]], NOT_STARTED, "");
      ExecutedAsWritten(txn, 0, true) == Outcome(txn.(status := ABORTED, abortReason := "Aborted by a TPC-C txn"), true) &&
      Executed(txn, 0, true) == Outcome(txn.(status := COMMITTED), true)
  {
    var txn := TpccTransaction([["payment", "1", "2", "3", "4", "5", "6", "7", "8"]], NOT_STARTED, "");
    assert NameOf(txn.procedures[0][0]) == Some(Payment);
  }

  /** As intended: a transaction commits exactly when its code is well formed
    * and its run succeeds, its writes are applied exactly when it commits,
    * and an abort carries the reason of the first failed check or the run's
    * failure. The procedures are never changed. */
  lemma ExecutedCommitsIff(txn: TpccTransaction, totalItems: nat, succeeded: bool)
    ensures Executed(txn, totalItems, succeeded).txn.status == COMMITTED <==>
      WellFormedCode(txn.procedures, totalItems) && succeeded
    ensures Executed(txn, totalItems, succeeded).writesApplied <==>
      Executed(txn, totalItems, succeeded).txn.status == COMMITTED
    ensures Executed(txn, totalItems, succeeded).txn.status != COMMITTED ==>
      Executed(txn, totalItems, succeeded).txn.status == ABORTED &&
      Executed(txn, totalItems, succeeded).txn.abortReason ==
        (if WellFormedCode(txn.procedures, totalItems) then "Aborted by a TPC-C txn"
         else CheckArguments(txn.procedures, totalItems).error)
    ensures Executed(txn, totalItems, succeeded).txn.procedures == txn.procedures
  {
    CheckArgumentsIsWellFormed(txn.procedures, totalItems);
  }

  /** A code without procedures, or whose first procedure has no argument,
    * is invalid; an unrecognised name is unknown. */
  lemma InvalidCodeReasons(procs: seq<seq<string>>, totalItems: nat)
    ensures (|procs| == 0 || |procs[0]| == 0) <==> CheckArguments(procs, totalItems) == Err("Invalid code")
    ensures |procs| > 0 && |procs[0]| > 0 && NameOf(procs[0][0]).None? ==>
      CheckArguments(procs, totalItems) == Err("Unknown procedure name")
  {
  }
}
