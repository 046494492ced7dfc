/** Properties a transaction is declared with, and which exceptions roll it back
    (io/github/andresviedma/poket/transaction/TransactionMetadata.kt). */
module RollbackRules {
  import opened Base

  datatype TransactionIsolationLevel = ReadUncommitted | ReadCommitted | RepeatableRead | Serializable

  /** `rollbackOn` and `dontRollbackOn` are sets of exception class names. */
  datatype TransactionMetadata = TransactionMetadata(rollbackOn: set<string>, dontRollbackOn: set<string>,
                                                     isolationLevel: Option<TransactionIsolationLevel>)
  {
    /** `isRollbackException`: the exception is an instance of some class of `rollbackOn`
        (or that set is empty), and of no class of `dontRollbackOn`. */
    predicate IsRollbackException(e: Exception): (r: bool)
      ensures r ==> !ExceptionInList(e, dontRollbackOn)
      ensures rollbackOn == {} ==> (r <==> !ExceptionInList(e, dontRollbackOn))
    {
      (rollbackOn == {} || ExceptionInList(e, rollbackOn)) && !ExceptionInList(e, dontRollbackOn)
    }
  }

  /** `exceptionInList`: the exception is an instance of one of the classes. */
  predicate ExceptionInList(e: Exception, classes: set<string>) {
    exists c :: c in classes && e.IsInstance(c)
  }

  /** `TransactionMetadata()`: no rule and the default isolation level. */
  const DefaultMetadata := TransactionMetadata({}, {}, None)

  /** With both sets empty, every exception rolls back. */
  lemma EmptySetsRollBackEverything(isolationLevel: Option<TransactionIsolationLevel>, e: Exception)
    ensures TransactionMetadata({}, {}, isolationLevel).IsRollbackException(e)
  {
  }

  /** An exception that is an instance of a `dontRollbackOn` class never rolls back. */
  lemma DontRollbackOnWins(m: TransactionMetadata, e: Exception, c: string)
    requires c in m.dontRollbackOn && e.IsInstance(c)
    ensures !m.IsRollbackException(e)
  {
  }

  /** With `rollbackOn` non-empty, only its instances roll back, and those do unless
      `dontRollbackOn` claims them. */
  lemma RollbackOnSelects(m: TransactionMetadata, e: Exception)
    requires m.rollbackOn != {}
    ensures m.IsRollbackException(e) <==>
              (exists c :: c in m.rollbackOn && e.IsInstance(c)) && !(exists c :: c in m.dontRollbackOn && e.IsInstance(c))
  {
  }
}
