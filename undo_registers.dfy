/** Undo actions run when a transaction rolls back: the saga operations
    (io/github/andresviedma/poket/transaction/utils/Sagas.kt) and the undoable actions
    (io/github/andresviedma/poket/transaction/utils/UndoableActions.kt), whose registers
    and handlers have the same behaviour. */
module UndoRegisters {
  import opened Base

  /** An undo function applied to the action's result, or to null when the action did not
      finish. */
  datatype UndoCall<T> = UndoCall(undo: nat, argument: Option<T>)

  /** `SagaRegister` / `UndoableActionsRegister`. */
  class UndoRegister<T> {
    var transactionUndoes: seq<UndoCall<T>>

    constructor()
      ensures transactionUndoes == []
    {
      transactionUndoes := [];
    }

    /** `addSagaUndo` / `addUndoAction`: kept only while a transaction is open. */
    method AddUndo(call: UndoCall<T>, inTransaction: bool)
      modifies this
      ensures transactionUndoes == if inTransaction then old(transactionUndoes) + [call] else old(transactionUndoes)
    {
      if inTransaction {
        transactionUndoes := transactionUndoes + [call];
      }
    }

    /** `clearSagas` / `clearUndoActions`: the registered undoes, leaving none. */
    method Clear() returns (r: seq<UndoCall<T>>)
      modifies this
      ensures r == old(transactionUndoes) && transactionUndoes == []
    {
      r := transactionUndoes;
      transactionUndoes := [];
    }
  }

  /** `sagaOperation` / `undoable`: the action's outcome; a finished action registers its
      undo with the result. The register is the current transaction's, if any. */
  method Undoable<T>(undo: nat, action: Outcome<T>, register: UndoRegister?<T>, inTransaction: bool) returns (r: Outcome<T>)
    modifies register
    ensures r == action
    ensures register != null ==>
              register.transactionUndoes ==
                if action.Ok? && inTransaction then old(register.transactionUndoes) + [UndoCall(undo, Some(action.value))]
                else old(register.transactionUndoes)
  {
    r := action;
    if action.Ok? && register != null {
      register.AddUndo(UndoCall(undo, Some(action.value)), inTransaction);
    }
  }

  /** `sagaOperationIfNotFinished` / `undoableEvenIfNotFinished`: as `Undoable`, but an
      action that throws registers its undo with null before the exception propagates. */
  method UndoableEvenIfNotFinished<T>(undo: nat, action: Outcome<T>, register: UndoRegister?<T>, inTransaction: bool)
    returns (r: Outcome<T>)
    modifies register
    ensures r == action
    ensures register != null ==>
              register.transactionUndoes ==
                if !inTransaction then old(register.transactionUndoes)
                else old(register.transactionUndoes) + [UndoCall(undo, if action.Ok? then Some(action.value) else None)]
  {
    r := action;
    if register != null {
      register.AddUndo(UndoCall(undo, if action.Ok? then Some(action.value) else None), inTransaction);
    }
  }

  /** `startTransaction` of the handlers: a fresh, empty register. */
  method StartTransaction<T>() returns (data: UndoRegister<T>)
    ensures fresh(data) && data.transactionUndoes == []
  {
    data := new UndoRegister();
  }

  /** `commitTransaction`: the undoes are discarded without running. */
  method CommitTransaction<T>(data: UndoRegister?<T>)
    modifies data
    ensures data != null ==> data.transactionUndoes == []
  {
    if data != null {
      var _ := data.Clear();
    }
  }

  /** `rollbackTransaction`: every registered undo runs, most recent first; one that throws
      is logged and the rest still run. `ran` lists the undoes called, in order. */
  method RollbackTransaction<T>(data: UndoRegister?<T>) returns (ran: seq<UndoCall<T>>)
    modifies data
    ensures data == null ==> ran == []
    ensures data != null ==> ran == Reverse(old(data.transactionUndoes)) && data.transactionUndoes == []
  {
    ran := [];
    if data == null {
      return;
    }
    var undoes := data.Clear();
    var reversed := Reverse(undoes);
    var i := 0;
    while i < |reversed|
      invariant 0 <= i <= |reversed|
      invariant ran == reversed[..i]
    {
      ran := ran + [reversed[i]];
      i := i + 1;
    }
    assert reversed[..i] == reversed;
  }

  /** Three saga operations in a transaction, the third throwing: only the two that finished
      registered an undo, and the rollback runs the second one's undo, then the first's. */
  method ThirdOperationFails() returns (ran: seq<UndoCall<string>>)
    ensures ran == [UndoCall(2, Some("action2")), UndoCall(1, Some("action1"))]
  {
    var register := StartTransaction<string>();
    var _ := Undoable(1, Ok("action1"), register, true);
    var _ := Undoable(2, Ok("action2"), register, true);
    var _ := Undoable(3, Thrown(IllegalState("boom")), register, true);
    ran := RollbackTransaction(register);
  }
}
