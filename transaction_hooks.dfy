/** Actions deferred until the current transaction commits
    (com/github/andresviedma/poket/transaction/TransactionHooks.kt). */
module TransactionHooks {
  import opened Base

  /** An action, identified by a number. */
  type Hook = nat

  class TransactionHookRegister {
    var onCommitActions: seq<Hook>

    constructor()
      ensures onCommitActions == []
    {
      onCommitActions := [];
    }

    /** `addOnTransactionCommitHook`: kept only while a transaction is open. */
    method AddOnTransactionCommitHook(action: Hook, inTransaction: bool)
      modifies this
      ensures onCommitActions == if inTransaction then old(onCommitActions) + [action] else old(onCommitActions)
    {
      if inTransaction {
        onCommitActions := onCommitActions + [action];
      }
    }

    /** `clearTransactionHooks`: the registered actions on commit, none otherwise; the
        register is emptied either way. */
    method ClearTransactionHooks(commit: bool) returns (r: seq<Hook>)
      modifies this
      ensures r == if commit then old(onCommitActions) else []
      ensures onCommitActions == []
    {
      r := if commit then onCommitActions else [];
      onCommitActions := [];
    }
  }

  /** `runAfterTransactionCommit`: with a hook register in the current transaction the
      action is registered and not run now; without one it runs at once. */
  method RunAfterTransactionCommit(action: Hook, register: TransactionHookRegister?, inTransaction: bool)
    returns (ranNow: seq<Hook>)
    modifies register
    ensures register == null ==> ranNow == [action]
    ensures register != null ==> ranNow == []
    ensures register != null ==>
              register.onCommitActions == if inTransaction then old(register.onCommitActions) + [action]
                                          else old(register.onCommitActions)
  {
    if register != null {
      register.AddOnTransactionCommitHook(action, inTransaction);
      ranNow := [];
    } else {
      ranNow := [action];
    }
  }
}
