/** The generic transaction coordinator
    (io/github/andresviedma/poket/transaction/TransactionManager.kt).

    Handlers are identified by name. What a handler's `startTransaction` returns is modelled
    as the handler's own name, so that every commit and rollback call shows which handler's
    data it was given. Which handler calls throw is given by `HandlerFaults`. The calls made
    are recorded, in order, in `calls`. */
module Transactions {
  import opened Base
  import opened RollbackRules
  import opened TransactionHooks

  type Handler = string

  /** A call into a handler: `startTransaction`, or `commitTransaction` /
      `rollbackTransaction` with the data they were given. */
  datatype HandlerCall = Started(handler: Handler) | Committed(handler: Handler, data: Handler)
                       | RolledBack(handler: Handler, data: Handler)

  /** The exception each handler call throws, for the handlers whose call fails: on
      `startTransaction`, on `commitTransaction` in the block's first round of commits, and
      on `commitTransaction` in the second round, which the `catch` runs after a failed
      first round. A handler may thus fail once and then succeed, or the reverse. */
  datatype HandlerFaults = HandlerFaults(onStart: map<Handler, Exception>, onCommit: map<Handler, Exception>,
                                         onCommitAgain: map<Handler, Exception>)

  /** `TransactionContext`: whether a transaction is open, and the after-commit hook
      register kept among its transaction data (null once the data is cleared). */
  datatype TransactionContext = TransactionContext(inTransaction: bool, hookRegister: TransactionHookRegister?)

  const ClearedContext := TransactionContext(false, null)

  /** The elements of `s` that are not in `excluded`, in order. */
  function Without(s: seq<Handler>, excluded: seq<Handler>): (r: seq<Handler>)
    ensures forall h :: h in r <==> h in s && h !in excluded
    ensures Distinct(s) ==> Distinct(r)
  {
    if s == [] then []
    else
      var rest := Without(s[1..], excluded);
      assert Distinct(s) ==> s[0] !in s[1..];
      (if s[0] in excluded then [] else [s[0]]) + rest
  }

  /** `transactionHandlers`: the secondary handlers, then the primary ones that are not
      also secondary (the iteration order of the union of two sets). */
  function HandlerOrder(primary: seq<Handler>, secondary: seq<Handler>): (r: seq<Handler>)
    requires Distinct(primary) && Distinct(secondary)
    ensures Distinct(r)
    ensures forall h :: h in r <==> h in primary || h in secondary
    ensures |secondary| <= |r| && r[..|secondary|] == secondary
    ensures forall i :: |secondary| <= i < |r| ==> r[i] in primary && r[i] !in secondary
  {
    var tail := Without(primary, secondary);
    var r := secondary + tail;
    assert forall i :: |secondary| <= i < |r| ==> r[i] == tail[i - |secondary|];
    assert forall i :: 0 <= i < |secondary| ==> r[i] == secondary[i];
    assert forall i, j :: 0 <= i < |secondary| <= j < |r| ==> r[i] in secondary && r[j] !in secondary;
    r
  }

  /** Primary handlers start last, so they are the first to commit or roll back: in the
      reversed order, the primary-only handlers come before every secondary one. */
  lemma PrimaryHandlersFinishFirst(primary: seq<Handler>, secondary: seq<Handler>)
    requires Distinct(primary) && Distinct(secondary)
    ensures var rev := Reverse(HandlerOrder(primary, secondary));
            var p := |rev| - |secondary|;
            (forall j :: 0 <= j < p ==> rev[j] in primary && rev[j] !in secondary) &&
            (forall j :: p <= j < |rev| ==> rev[j] in secondary)
  {
    var r := HandlerOrder(primary, secondary);
    var rev := Reverse(r);
    forall j | |rev| - |secondary| <= j < |rev| ensures rev[j] in secondary {
      assert rev[j] == r[|r| - 1 - j] == r[..|secondary|][|r| - 1 - j];
    }
  }

  /** The position of the first handler (or hook) whose call fails, `|hs|` when none does. */
  function FirstFailing<X>(hs: seq<X>, fails: map<X, Exception>): (k: nat)
    ensures k <= |hs|
    ensures forall j :: 0 <= j < k ==> hs[j] !in fails
    ensures k < |hs| ==> hs[k] in fails
  {
    if hs == [] || hs[0] in fails then 0 else 1 + FirstFailing(hs[1..], fails)
  }

  function StartCalls(hs: seq<Handler>): (r: seq<HandlerCall>)
    ensures |r| == |hs|
  {
    seq(|hs|, j requires 0 <= j < |hs| => Started(hs[j]))
  }

  /** Rollback of `started`, most recent first, each handler given its own data. */
  function RollbackCalls(started: seq<Handler>): (r: seq<HandlerCall>)
    ensures |r| == |started|
  {
    seq(|started|, j requires 0 <= j < |started| => RolledBack(started[|started| - 1 - j], started[|started| - 1 - j]))
  }

  function CommittedCalls(ordered: seq<Handler>): (r: seq<HandlerCall>)
    ensures |r| == |ordered|
  {
    seq(|ordered|, j requires 0 <= j < |ordered| => Committed(ordered[j], ordered[j]))
  }

  /** Commit of every handler, last started first, stopping after the first that throws. */
  function CommitCalls(hs: seq<Handler>, fails: map<Handler, Exception>): (r: seq<HandlerCall>)
    ensures |r| <= |hs|
  {
    var rev := Reverse(hs);
    var k := FirstFailing(rev, fails);
    CommittedCalls(rev[..if k < |rev| then k + 1 else k])
  }

  /** The exception that stops the commit, if any. */
  function CommitFailure(hs: seq<Handler>, fails: map<Handler, Exception>): (r: Option<Exception>)
    ensures r.Some? ==> exists h :: h in hs && h in fails && r.value == fails[h]
  {
    var rev := Reverse(hs);
    var k := FirstFailing(rev, fails);
    if k < |rev| then Some(fails[rev[k]]) else None
  }

  /** The commit fails exactly when some handler's commit throws. */
  lemma CommitFailsIffSomeHandlerFails(hs: seq<Handler>, fails: map<Handler, Exception>)
    ensures CommitFailure(hs, fails).Some? <==> exists h :: h in hs && h in fails
  {
    var rev := Reverse(hs);
    var k := FirstFailing(rev, fails);
    if h :| h in hs && h in fails {
      var i :| 0 <= i < |hs| && hs[i] == h;
      assert rev[|hs| - 1 - i] == h;
    }
  }

  /** How a block ends: the handler calls, its outcome, and whether it counts as committed
      (which decides whether after-commit hooks run). */
  datatype Ending<T> = Ending(calls: seq<HandlerCall>, result: Outcome<T>, commit: bool)

  /** The `catch` of `transactionalBlock` for a transaction started there: a rollback
      exception rolls every handler back; any other exception commits, with `fails` giving
      the commits of this round that throw (and a failing commit replaces the exception).
      The exception is rethrown. */
  function CatchBlock<T>(hs: seq<Handler>, m: TransactionMetadata, e: Exception, fails: map<Handler, Exception>): Ending<T> {
    if m.IsRollbackException(e) then Ending(RollbackCalls(hs), Thrown(e), false)
    else
      var c := CommitCalls(hs, fails);
      match CommitFailure(hs, fails)
      case None => Ending(c, Thrown(e), true)
      case Some(e2) => Ending(c, Thrown(e2), false)
  }

  /** Everything after the body of a block that started its transaction: the body's value is
      returned after a commit; a failing commit is handled like an exception of the body, so
      that the `catch` may commit a second time. */
  function StartedBlock<T>(hs: seq<Handler>, m: TransactionMetadata, body: Outcome<T>, f: HandlerFaults): Ending<T> {
    if body.Thrown? then CatchBlock(hs, m, body.error, f.onCommit)
    else
      var c := CommitCalls(hs, f.onCommit);
      match CommitFailure(hs, f.onCommit)
      case None => Ending(c, body, true)
      case Some(e) => var k := CatchBlock(hs, m, e, f.onCommitAgain); Ending(c + k.calls, k.result, k.commit)
  }

  /** An outermost block: the handlers start in order; if one throws, the ones started before
      it roll back, most recent first, and its exception propagates. */
  function OutermostBlock<T>(hs: seq<Handler>, m: TransactionMetadata, body: Outcome<T>, f: HandlerFaults): Ending<T> {
    var k := FirstFailing(hs, f.onStart);
    if k < |hs| then Ending(StartCalls(hs[..k + 1]) + RollbackCalls(hs[..k]), Thrown(f.onStart[hs[k]]), false)
    else var b := StartedBlock(hs, m, body, f); Ending(StartCalls(hs) + b.calls, b.result, b.commit)
  }

  /** The calls of an outermost block, appended to earlier ones, in either of its cases. */
  lemma OutermostBlockAfter<T>(before: seq<HandlerCall>, hs: seq<Handler>, m: TransactionMetadata, body: Outcome<T>, f: HandlerFaults)
    ensures var k := FirstFailing(hs, f.onStart);
            k < |hs| ==> before + StartCalls(hs[..k + 1]) + RollbackCalls(hs[..k]) == before + OutermostBlock(hs, m, body, f).calls
    ensures FirstFailing(hs, f.onStart) == |hs| ==>
              before + StartCalls(hs) + StartedBlock(hs, m, body, f).calls == before + OutermostBlock(hs, m, body, f).calls
  {
    var k := FirstFailing(hs, f.onStart);
    if k < |hs| {
      assert OutermostBlock(hs, m, body, f).calls == StartCalls(hs[..k + 1]) + RollbackCalls(hs[..k]);
      CallsRegroup(before, StartCalls(hs[..k + 1]), RollbackCalls(hs[..k]));
    } else {
      var b := StartedBlock(hs, m, body, f);
      assert OutermostBlock(hs, m, body, f).calls == StartCalls(hs) + b.calls;
      CallsRegroup(before, StartCalls(hs), b.calls);
    }
  }

  /** The block returns normally exactly when every handler starts, the body returns and
      the commit succeeds; it then returns the body's value and counts as committed. */
  lemma BlockReturnsOnlyAfterCommit<T>(hs: seq<Handler>, m: TransactionMetadata, body: Outcome<T>, f: HandlerFaults)
    ensures var e := OutermostBlock(hs, m, body, f);
            e.result.Ok? <==> FirstFailing(hs, f.onStart) == |hs| && body.Ok? && CommitFailure(hs, f.onCommit).None?
    ensures var e := OutermostBlock(hs, m, body, f);
            e.result.Ok? ==> e.result == body && e.commit
  {
  }

  /** Commits go from the last handler started to the first, and without a failing handler
      every handler commits. */
  lemma CommitsInReverse(hs: seq<Handler>, fails: map<Handler, Exception>)
    ensures var c := CommitCalls(hs, fails);
            forall j :: 0 <= j < |c| ==> c[j] == Committed(hs[|hs| - 1 - j], hs[|hs| - 1 - j])
    ensures CommitFailure(hs, fails).None? ==> |CommitCalls(hs, fails)| == |hs|
  {
  }

  /** Every commit or rollback call gets the data of the handler it is made on. */
  lemma DataGoesBackToItsHandler<T>(hs: seq<Handler>, m: TransactionMetadata, body: Outcome<T>, f: HandlerFaults)
    ensures forall c :: c in OutermostBlock(hs, m, body, f).calls && !c.Started? ==> c.data == c.handler
  {
    var e := OutermostBlock(hs, m, body, f);
    var k := FirstFailing(hs, f.onStart);
    if k == |hs| {
      var rev := Reverse(hs);
      var commits, again := CommitCalls(hs, f.onCommit), CommitCalls(hs, f.onCommitAgain);
      assert forall c :: c in commits ==> c.Committed? && c.data == c.handler;
      assert forall c :: c in again ==> c.Committed? && c.data == c.handler;
      assert forall c :: c in RollbackCalls(hs) ==> c.RolledBack? && c.data == c.handler;
      assert forall c :: c in StartCalls(hs) ==> c.Started?;
    } else {
      assert forall c :: c in RollbackCalls(hs[..k]) ==> c.RolledBack? && c.data == c.handler;
      assert forall c :: c in StartCalls(hs[..k + 1]) ==> c.Started?;
    }
  }

  /** When a handler fails to start, exactly the handlers started before it roll back, in
      reverse order, and no handler after it is started. */
  lemma {:induction false} StartFailureRollsBackOnlyStarted<T>(hs: seq<Handler>, m: TransactionMetadata, body: Outcome<T>, f: HandlerFaults)
    requires FirstFailing(hs, f.onStart) < |hs|
    ensures var k := FirstFailing(hs, f.onStart);
            var e := OutermostBlock(hs, m, body, f);
            e.result == Thrown(f.onStart[hs[k]]) && !e.commit &&
            (forall h :: RolledBack(h, h) in e.calls <==> h in hs[..k]) &&
            (forall h :: Started(h) in e.calls <==> h in hs[..k + 1])
  {
    var k := FirstFailing(hs, f.onStart);
    StartFailureEnding(hs, m, body, f);
    StartThenRollback(hs[..k + 1], hs[..k]);
  }

  /** The ending of a block whose k-th start throws. */
  lemma {:induction false} StartFailureEnding<T>(hs: seq<Handler>, m: TransactionMetadata, body: Outcome<T>, f: HandlerFaults)
    requires FirstFailing(hs, f.onStart) < |hs|
    ensures var k := FirstFailing(hs, f.onStart);
            OutermostBlock(hs, m, body, f)
              == Ending(StartCalls(hs[..k + 1]) + RollbackCalls(hs[..k]), Thrown(f.onStart[hs[k]]), false)
  {
    var k := FirstFailing(hs, f.onStart);
    assert k < |hs|;
  }

  /** Which handlers a run of starts followed by rollbacks touches. */
  lemma StartThenRollback(started: seq<Handler>, rolledBack: seq<Handler>)
    ensures var calls := StartCalls(started) + RollbackCalls(rolledBack);
            (forall h :: RolledBack(h, h) in calls <==> h in rolledBack) &&
            (forall h :: Started(h) in calls <==> h in started)
  {
    var starts, rollbacks := StartCalls(started), RollbackCalls(rolledBack);
    var n := |rolledBack|;
    forall h ensures RolledBack(h, h) in starts + rollbacks <==> h in rolledBack {
      if h in rolledBack {
        var i :| 0 <= i < n && rolledBack[i] == h;
        assert rollbacks[n - 1 - i] == RolledBack(h, h);
      }
      assert RolledBack(h, h) !in starts;
    }
    forall h ensures Started(h) in starts + rollbacks <==> h in started {
      if h in started {
        var i :| 0 <= i < |started| && started[i] == h;
        assert starts[i] == Started(h);
      }
      assert Started(h) !in rollbacks;
    }
  }

  /** A block counts as committed, so that its hooks run, only if every handler started and
      none rolled back. */
  lemma HooksOnlyAfterCommit<T>(hs: seq<Handler>, m: TransactionMetadata, body: Outcome<T>, f: HandlerFaults)
    ensures var e := OutermostBlock(hs, m, body, f);
            e.commit ==> FirstFailing(hs, f.onStart) == |hs| && forall c :: c in e.calls ==> !c.RolledBack?
  {
    var e := OutermostBlock(hs, m, body, f);
    if e.commit {
      var b := StartedBlock(hs, m, body, f);
      assert e.calls == StartCalls(hs) + b.calls;
      CommittedAfterLastRoundSucceeds(hs, m, body, f);
      assert forall c :: c in StartCalls(hs) ==> c.Started?;
    }
  }

  /** A block counts as committed exactly when its last round of commits succeeded: the
      first round, run after a body that returned or threw anything but a rollback exception,
      or the second, run after a first round that failed with anything but a rollback
      exception. It then made only commit calls. */
  lemma CommittedAfterLastRoundSucceeds<T>(hs: seq<Handler>, m: TransactionMetadata, body: Outcome<T>, f: HandlerFaults)
    ensures var first := CommitFailure(hs, f.onCommit);
            StartedBlock(hs, m, body, f).commit <==>
              (first.None? && (body.Ok? || !m.IsRollbackException(body.error))) ||
              (body.Ok? && first.Some? && !m.IsRollbackException(first.value) && CommitFailure(hs, f.onCommitAgain).None?)
    ensures var b := StartedBlock(hs, m, body, f);
            b.commit ==> forall c :: c in b.calls ==> c.Committed?
  {
    var b := StartedBlock(hs, m, body, f);
    var c1, c2 := CommitCalls(hs, f.onCommit), CommitCalls(hs, f.onCommitAgain);
    assert forall c :: c in c1 ==> c.Committed?;
    assert forall c :: c in c2 ==> c.Committed?;
    if b.commit && body.Ok? && CommitFailure(hs, f.onCommit).Some? {
      assert b.calls == c1 + c2;
    }
  }

  /** After the handlers started, a body exception that is a rollback exception rolls every
      handler back, most recent first, and is rethrown; with `TransactionMetadata()` every
      exception is one. */
  lemma BodyRollbackException<T>(hs: seq<Handler>, m: TransactionMetadata, e: Exception, f: HandlerFaults)
    requires m.IsRollbackException(e)
    ensures StartedBlock<T>(hs, m, Thrown(e), f) == Ending(RollbackCalls(hs), Thrown(e), false)
    ensures DefaultMetadata.IsRollbackException(e)
  {
  }

  /** After the handlers started, a body exception that is not a rollback exception commits
      every handler and is still rethrown; the after-commit hooks then run. */
  lemma BodyOtherException<T>(hs: seq<Handler>, m: TransactionMetadata, e: Exception, f: HandlerFaults)
    requires !m.IsRollbackException(e) && CommitFailure(hs, f.onCommit).None?
    ensures StartedBlock<T>(hs, m, Thrown(e), f) == Ending(CommitCalls(hs, f.onCommit), Thrown(e), true)
  {
  }

  /** A failing commit is caught like a body exception: as a rollback exception it rolls
      every handler back, those already committed included. */
  lemma CommitFailureRollsBackEverything<T>(hs: seq<Handler>, m: TransactionMetadata, v: T, f: HandlerFaults)
    requires CommitFailure(hs, f.onCommit).Some? && m.IsRollbackException(CommitFailure(hs, f.onCommit).value)
    ensures var x := CommitFailure(hs, f.onCommit).value;
            StartedBlock(hs, m, Ok(v), f) == Ending(CommitCalls(hs, f.onCommit) + RollbackCalls(hs), Thrown(x), false)
  {
  }

  /** A failing commit whose exception is not a rollback exception makes the handlers commit
      a second time, from the last one again. If that round succeeds, the block counts as
      committed and the first commit exception is rethrown; if it fails too, its exception
      propagates instead. */
  lemma CommitFailureCommitsAgain<T>(hs: seq<Handler>, m: TransactionMetadata, v: T, f: HandlerFaults)
    requires CommitFailure(hs, f.onCommit).Some? && !m.IsRollbackException(CommitFailure(hs, f.onCommit).value)
    ensures var c1, c2 := CommitCalls(hs, f.onCommit), CommitCalls(hs, f.onCommitAgain);
            CommitFailure(hs, f.onCommitAgain).None? ==>
              StartedBlock(hs, m, Ok(v), f) == Ending(c1 + c2, Thrown(CommitFailure(hs, f.onCommit).value), true)
    ensures var c1, c2 := CommitCalls(hs, f.onCommit), CommitCalls(hs, f.onCommitAgain);
            CommitFailure(hs, f.onCommitAgain).Some? ==>
              StartedBlock(hs, m, Ok(v), f) == Ending(c1 + c2, Thrown(CommitFailure(hs, f.onCommitAgain).value), false)
  {
  }

  /** The after-commit hooks that ran, in order, and the exception that stopped them. */
  datatype HookRun = HookRun(ran: seq<Hook>, failure: Option<Exception>)

  /** The `forEach` of `runActionsAfterTransaction`: the hooks run in order until one
      throws; its exception ends the walk, and no later hook runs. */
  function RunHooks(hooks: seq<Hook>, throwing: map<Hook, Exception>): (r: HookRun)
    ensures var k := FirstFailing(hooks, throwing);
            r.ran == hooks[..if k < |hooks| then k + 1 else k] &&
            r.failure == if k < |hooks| then Some(throwing[hooks[k]]) else None
  {
    if hooks == [] then HookRun([], None)
    else if hooks[0] in throwing then HookRun([hooks[0]], Some(throwing[hooks[0]]))
    else
      var rest := RunHooks(hooks[1..], throwing);
      HookRun([hooks[0]] + rest.ran, rest.failure)
  }

  /** The outcome of a block once its hooks ran in the `finally`: an exception thrown there
      replaces the block's value or exception. */
  function AfterHooks<T>(result: Outcome<T>, run: HookRun): (r: Outcome<T>)
    ensures run.failure.None? ==> r == result
    ensures run.failure.Some? ==> r == Thrown(run.failure.value)
  {
    if run.failure.Some? then Thrown(run.failure.value) else result
  }

  /** Every hook runs exactly when none throws; otherwise the walk stops at the first hook
      that throws, after every hook before it ran. */
  lemma {:induction false} ThrowingHookStopsTheRest(hooks: seq<Hook>, throwing: map<Hook, Exception>)
    ensures RunHooks(hooks, throwing).failure.None? <==> forall h :: h in hooks ==> h !in throwing
    ensures RunHooks(hooks, throwing).failure.None? ==> RunHooks(hooks, throwing).ran == hooks
    ensures var run := RunHooks(hooks, throwing);
            run.failure.Some? ==>
              |run.ran| > 0 && run.ran <= hooks && run.ran[|run.ran| - 1] in throwing &&
              run.failure.value == throwing[run.ran[|run.ran| - 1]] &&
              forall j :: 0 <= j < |run.ran| - 1 ==> run.ran[j] !in throwing
  {
    var k := FirstFailing(hooks, throwing);
    if k < |hooks| {
      assert hooks[k] in hooks;
    } else {
      assert hooks[..k] == hooks;
      forall h | h in hooks ensures h !in throwing {
        var i :| 0 <= i < |hooks| && hooks[i] == h;
      }
    }
  }

  /** The `forEach { action -> action() }` over the hooks to run. */
  method RunEach(actions: seq<Hook>, throwing: map<Hook, Exception>) returns (ran: seq<Hook>, failure: Option<Exception>)
    ensures HookRun(ran, failure) == RunHooks(actions, throwing)
  {
    ghost var k := FirstFailing(actions, throwing);
    ran, failure := [], None;
    var i := 0;
    while i < |actions|
      invariant 0 <= i <= |actions| && i <= k
      invariant ran == actions[..i]
    {
      var action := actions[i];
      ran := ran + [action];
      if action in throwing {
        assert i == k;
        failure := Some(throwing[action]);
        return;
      }
      i := i + 1;
    }
    assert k == |actions| && actions[..i] == actions;
  }

  /** Calls recorded in three runs, regrouped. */
  lemma CallsRegroup(a: seq<HandlerCall>, b: seq<HandlerCall>, c: seq<HandlerCall>)
    ensures a + b + c == a + (b + c)
  {
  }

  class TransactionManager {
    const handlers: seq<Handler>
    /** The thread-local `transactionContext`; None is null. */
    var context: Option<TransactionContext>
    var calls: seq<HandlerCall>

    constructor(primary: seq<Handler>, secondary: seq<Handler>)
      requires Distinct(primary) && Distinct(secondary)
      ensures handlers == HandlerOrder(primary, secondary) && Distinct(handlers)
      ensures context == None && calls == []
    {
      handlers := HandlerOrder(primary, secondary);
      context := None;
      calls := [];
    }

    /** `inTransaction()`. */
    predicate InTransaction()
      reads this
    {
      context.Some? && context.value.inTransaction
    }

    /** The hook register of the current context, if any. */
    function Register(): TransactionHookRegister?
      reads this
    {
      if context.Some? then context.value.hookRegister else null
    }

    /** `forceRollbackAfterHandler`: walks the handlers in reverse, skipping them up to and
        including `lastIgnored`, and rolls back each of the rest with the data it popped from
        the end of `data`; a rollback that throws does not stop the others. The context is
        cleared. */
    method ForceRollbackAfterHandler(data: seq<Handler>, lastIgnored: Option<Handler>)
      requires Distinct(handlers)
      requires |data| <= |handlers| && data == handlers[..|data|]
      requires lastIgnored.None? ==> |data| == |handlers|
      requires lastIgnored.Some? ==> |data| < |handlers| && handlers[|data|] == lastIgnored.value
      modifies this
      ensures calls == old(calls) + RollbackCalls(data)
      ensures context == if old(context).Some? then Some(ClearedContext) else None
    {
      var rev := Reverse(handlers);
      var n, d := |handlers|, |data|;
      var ignored := lastIgnored;
      var rest := data;
      ghost var done := 0;
      var i := 0;
      while i < n
        invariant 0 <= i <= n
        invariant ignored == if i < n - d then lastIgnored else None
        invariant done == if i <= n - d then 0 else i - (n - d)
        invariant rest == data[..d - done]
        invariant calls == old(calls) + RollbackCalls(data)[..done]
        invariant context == old(context)
      {
        var h := rev[i];
        if ignored.Some? && ignored.value == h {
          ignored := None;
        } else if ignored.None? {
          var popped := rest[|rest| - 1];
          assert popped == data[n - 1 - i] == h;
          rest := rest[..|rest| - 1];
          // A rollback that throws is caught (the source adds it to the original exception
          // as suppressed, which is not recorded here), and the walk goes on.
          CallsRegroup(old(calls), RollbackCalls(data)[..done], [RolledBack(h, h)]);
          calls := calls + [RolledBack(h, popped)];
          assert RollbackCalls(data)[..done + 1] == RollbackCalls(data)[..done] + [RolledBack(h, h)];
          done := done + 1;
        } else {
          assert h == handlers[n - 1 - i] && n - 1 - i > d;
        }
        i := i + 1;
      }
      assert RollbackCalls(data)[..d] == RollbackCalls(data);
      if context.Some? {
        context := Some(ClearedContext);
      }
    }

    /** `startOrJoinTransaction`: inside a transaction it only joins (returns false).
        Otherwise it opens the transaction, registers a fresh hook register and starts
        every handler in order, collecting their data; a handler that throws makes the
        ones started before it roll back, and its exception propagates. */
    method StartOrJoin(m: TransactionMetadata, faults: HandlerFaults) returns (r: Outcome<bool>, data: seq<Handler>)
      requires context.Some? && Distinct(handlers)
      modifies this
      ensures old(InTransaction()) ==> r == Ok(false) && data == [] && context == old(context) && calls == old(calls)
      ensures !old(InTransaction()) && FirstFailing(handlers, faults.onStart) == |handlers| ==>
                r == Ok(true) && data == handlers && calls == old(calls) + StartCalls(handlers) &&
                InTransaction() && Register() != null && fresh(Register()) && Register().onCommitActions == []
      ensures !old(InTransaction()) && FirstFailing(handlers, faults.onStart) < |handlers| ==>
                var k := FirstFailing(handlers, faults.onStart);
                r == Thrown(faults.onStart[handlers[k]]) && context == Some(ClearedContext) &&
                calls == old(calls) + StartCalls(handlers[..k + 1]) + RollbackCalls(handlers[..k])
    {
      if InTransaction() {
        return Ok(false), [];
      }
      var register := new TransactionHookRegister();
      context := Some(TransactionContext(true, register));
      data := [];
      var i := 0;
      while i < |handlers|
        invariant 0 <= i <= |handlers| && i <= FirstFailing(handlers, faults.onStart)
        invariant data == handlers[..i]
        invariant calls == old(calls) + StartCalls(handlers[..i])
        invariant context == Some(TransactionContext(true, register)) && register.onCommitActions == []
      {
        var h := handlers[i];
        CallsRegroup(old(calls), StartCalls(handlers[..i]), [Started(h)]);
        calls := calls + [Started(h)];
        assert StartCalls(handlers[..i + 1]) == StartCalls(handlers[..i]) + [Started(h)];
        if h in faults.onStart {
          assert i == FirstFailing(handlers, faults.onStart);
          ForceRollbackAfterHandler(data, Some(h));
          return Thrown(faults.onStart[h]), data;
        }
        data := data + [h];
        i := i + 1;
      }
      assert handlers[..i] == handlers;
      r := Ok(true);
    }

    /** `commit`: every handler commits, last started first, each with the data it popped
        from the end of a copy of `data`; the first exception (`fails` gives the handlers
        whose commit throws in this round) stops it and propagates. */
    method Commit(data: seq<Handler>, fails: map<Handler, Exception>) returns (failure: Option<Exception>)
      requires data == handlers
      modifies this
      ensures calls == old(calls) + CommitCalls(handlers, fails)
      ensures failure == CommitFailure(handlers, fails)
      ensures context == old(context)
    {
      var rev := Reverse(handlers);
      ghost var k := FirstFailing(rev, fails);
      var copy := data;
      var i := 0;
      while i < |rev|
        invariant 0 <= i <= |rev| && i <= k
        invariant copy == data[..|rev| - i]
        invariant calls == old(calls) + CommittedCalls(rev[..i])
        invariant context == old(context)
      {
        var h := rev[i];
        var popped := copy[|copy| - 1];
        copy := copy[..|copy| - 1];
        CallsRegroup(old(calls), CommittedCalls(rev[..i]), [Committed(h, h)]);
        calls := calls + [Committed(h, popped)];
        assert CommittedCalls(rev[..i + 1]) == CommittedCalls(rev[..i]) + [Committed(h, h)];
        if h in fails {
          return Some(fails[h]);
        }
        i := i + 1;
      }
      failure := None;
    }

    /** `runActionsAfterTransaction`: the register's hooks run only on commit, in order,
        until one throws (`throwing` gives the hooks that do); the register is emptied
        either way. `ran` lists the hooks run and `failure` the exception that stopped them. */
    method RunActionsAfterTransaction(commit: bool, throwing: map<Hook, Exception>)
      returns (ran: seq<Hook>, failure: Option<Exception>)
      modifies Register()
      ensures var run := RunHooks(if commit && Register() != null then old(Register().onCommitActions) else [], throwing);
              ran == run.ran && failure == run.failure
      ensures Register() != null ==> Register().onCommitActions == []
    {
      var actions := [];
      var register := Register();
      if register != null {
        actions := register.ClearTransactionHooks(commit);
      }
      ran, failure := RunEach(actions, throwing);
    }

    /** The `runAfterTransactionCommit` calls the body makes, in order. `ranNow` lists the
        hooks run at once because there was no register. */
    method RegisterHooks(hooks: seq<Hook>) returns (ranNow: seq<Hook>)
      modifies Register()
      ensures Register() != null ==>
                ranNow == [] &&
                Register().onCommitActions == old(Register().onCommitActions) + (if InTransaction() then hooks else [])
      ensures Register() == null ==> ranNow == hooks
    {
      ranNow := [];
      var register := Register();
      var i := 0;
      while i < |hooks|
        invariant 0 <= i <= |hooks|
        invariant register != null ==>
                    ranNow == [] &&
                    register.onCommitActions == old(register.onCommitActions) + (if InTransaction() then hooks[..i] else [])
        invariant register == null ==> ranNow == hooks[..i]
      {
        var now := RunAfterTransactionCommit(hooks[i], register, InTransaction());
        ranNow := ranNow + now;
        i := i + 1;
      }
      assert hooks[..i] == hooks;
    }

    /** The `catch` of `transactionalBlock` for a transaction started there. */
    method CatchBody<T>(m: TransactionMetadata, e: Exception, data: seq<Handler>, fails: map<Handler, Exception>)
      returns (r: Outcome<T>, commit: bool)
      requires Distinct(handlers) && data == handlers
      modifies this
      ensures var c: Ending<T> := CatchBlock(handlers, m, e, fails);
              calls == old(calls) + c.calls && r == c.result && commit == c.commit
      ensures context == if m.IsRollbackException(e) && old(context).Some? then Some(ClearedContext) else old(context)
    {
      if m.IsRollbackException(e) {
        ForceRollbackAfterHandler(data, None);
        r, commit := Thrown(e), false;
      } else {
        var failure := Commit(data, fails);
        if failure.Some? {
          r, commit := Thrown(failure.value), false;
        } else {
          r, commit := Thrown(e), true;
        }
      }
    }

    /** The `try` and `catch` of `transactionalBlock` for a transaction started there: the
        commit after a body that returned, or the `catch` of the body's exception or of the
        commit's. `commit` is the flag the `finally` reads. */
    method TryCommit<T>(data: seq<Handler>, m: TransactionMetadata, body: Outcome<T>, faults: HandlerFaults)
      returns (r: Outcome<T>, commit: bool)
      requires Distinct(handlers) && data == handlers
      modifies this
      ensures var e := StartedBlock(handlers, m, body, faults);
              calls == old(calls) + e.calls && r == e.result && commit == e.commit
      ensures commit ==> context == old(context)
      ensures !commit ==> context == old(context) || context == Some(ClearedContext)
    {
      if body.Ok? {
        var failure := Commit(data, faults.onCommit);
        if failure.None? {
          r, commit := body, true;
        } else {
          ghost var first := calls;
          r, commit := CatchBody(m, failure.value, data, faults.onCommitAgain);
          CallsRegroup(old(calls), CommitCalls(handlers, faults.onCommit), calls[|first|..]);
        }
      } else {
        r, commit := CatchBody(m, body.error, data, faults.onCommit);
      }
    }

    /** The part of `transactionalBlock` after the body: commit or roll back when the
        transaction started here, then (in `finally`) run the after-commit hooks and drop the
        context. A joined block only passes the body's outcome on. */
    method Complete<T>(startedHere: bool, data: seq<Handler>, m: TransactionMetadata, body: Outcome<T>,
                       faults: HandlerFaults, throwing: map<Hook, Exception>) returns (r: Outcome<T>, ran: seq<Hook>)
      requires context.Some? && Distinct(handlers)
      requires startedHere ==> data == handlers
      modifies this, Register()
      ensures !startedHere ==> r == body && ran == [] && calls == old(calls) && context == old(context)
      ensures !startedHere && Register() != null ==> Register().onCommitActions == old(Register().onCommitActions)
      ensures startedHere ==>
                var e := StartedBlock(handlers, m, body, faults);
                var run := RunHooks(if e.commit && old(Register()) != null then old(Register().onCommitActions) else [], throwing);
                calls == old(calls) + e.calls && r == AfterHooks(e.result, run) && context == None && ran == run.ran
    {
      ran := [];
      if !startedHere {
        return body, [];
      }
      var commit;
      r, commit := TryCommit(data, m, body, faults);
      var failure;
      ran, failure := RunActionsAfterTransaction(commit, throwing);
      if failure.Some? {
        r := Thrown(failure.value);
      }
      // The inner `finally`: ctx.clear(), then the thread-local is set to null.
      context := None;
    }

    /** `transactionalBlock`, the body given by its outcome and the after-commit hooks it
        registers. A block inside a transaction joins it: no handler is called and the
        body's outcome passes through. An outermost block behaves as `OutermostBlock`, runs the
        body's hooks only if it commits, and leaves no context behind; if a handler fails to
        start, the cleared context stays. */
    method TransactionalBlock<T>(m: TransactionMetadata, body: Outcome<T>, hooks: seq<Hook>, faults: HandlerFaults,
                                 throwing: map<Hook, Exception>)
      returns (r: Outcome<T>, ran: seq<Hook>)
      requires context.Some? && Distinct(handlers)
      modifies this, Register()
      ensures old(InTransaction()) ==> r == body && calls == old(calls) && context == old(context)
      ensures old(InTransaction()) && Register() != null ==>
                ran == [] && Register().onCommitActions == old(Register().onCommitActions) + hooks
      ensures old(InTransaction()) && Register() == null ==> ran == hooks
      ensures !old(InTransaction()) ==>
                var e := OutermostBlock(handlers, m, body, faults);
                var run := RunHooks(if e.commit then hooks else [], throwing);
                calls == old(calls) + e.calls && r == AfterHooks(e.result, run) && ran == run.ran &&
                context == if FirstFailing(handlers, faults.onStart) < |handlers| then Some(ClearedContext) else None
    {
      if InTransaction() {
        r, ran := JoinedBlock(m, body, hooks, faults, throwing);
      } else {
        ghost var before := calls;
        r, ran := OutermostTransactionalBlock(m, body, hooks, faults, throwing);
        OutermostBlockAfter(before, handlers, m, body, faults);
      }
    }

    /** `transactionalBlock` inside a transaction: `startOrJoinTransaction` only joins. */
    method JoinedBlock<T>(m: TransactionMetadata, body: Outcome<T>, hooks: seq<Hook>, faults: HandlerFaults,
                          throwing: map<Hook, Exception>)
      returns (r: Outcome<T>, ran: seq<Hook>)
      requires context.Some? && Distinct(handlers) && InTransaction()
      modifies this, Register()
      ensures r == body && calls == old(calls) && context == old(context)
      ensures Register() != null ==> ran == [] && Register().onCommitActions == old(Register().onCommitActions) + hooks
      ensures Register() == null ==> ran == hooks
    {
      var started, data := StartOrJoin(m, faults);
      r, ran := RunJoined(m, body, hooks, faults, throwing);
    }

    /** `transactionalBlock` outside a transaction: it starts one; if a handler fails to
        start, the ones started roll back and its exception propagates, otherwise the block
        runs as `StartedBlock` and its hooks run only on commit. */
    method OutermostTransactionalBlock<T>(m: TransactionMetadata, body: Outcome<T>, hooks: seq<Hook>,
                                          faults: HandlerFaults, throwing: map<Hook, Exception>) returns (r: Outcome<T>, ran: seq<Hook>)
      requires context.Some? && Distinct(handlers) && !InTransaction()
      modifies this, Register()
      ensures var k := FirstFailing(handlers, faults.onStart);
              k < |handlers| ==>
                calls == old(calls) + StartCalls(handlers[..k + 1]) + RollbackCalls(handlers[..k]) &&
                r == Thrown(faults.onStart[handlers[k]]) && ran == [] && context == Some(ClearedContext)
      ensures var b := StartedBlock(handlers, m, body, faults);
              var run := RunHooks(if b.commit then hooks else [], throwing);
              FirstFailing(handlers, faults.onStart) == |handlers| ==>
                calls == old(calls) + StartCalls(handlers) + b.calls && r == AfterHooks(b.result, run) &&
                ran == run.ran && context == None
    {
      var started, data := StartOrJoin(m, faults);
      if started.Thrown? {
        r, ran := Thrown(started.error), [];
      } else {
        r, ran := RunStartedHere(data, m, body, hooks, faults, throwing);
      }
    }

    /** The try block and `finally` of a `transactionalBlock` that started the transaction:
        the body registers its hooks in the fresh register, then the block completes. */
    method RunStartedHere<T>(data: seq<Handler>, m: TransactionMetadata, body: Outcome<T>, hooks: seq<Hook>,
                             faults: HandlerFaults, throwing: map<Hook, Exception>) returns (r: Outcome<T>, ran: seq<Hook>)
      requires context.Some? && Distinct(handlers) && data == handlers
      requires InTransaction() && Register() != null && Register().onCommitActions == []
      modifies this, Register()
      ensures var e := StartedBlock(handlers, m, body, faults);
              var run := RunHooks(if e.commit then hooks else [], throwing);
              calls == old(calls) + e.calls && r == AfterHooks(e.result, run) && context == None && ran == run.ran
    {
      var register := Register();
      var ranNow := RegisterHooks(hooks);
      assert ranNow == [] && Register() == register && register.onCommitActions == hooks;
      var ranAfter;
      r, ranAfter := Complete(true, data, m, body, faults, throwing);
      ran := ranNow + ranAfter;
    }

    /** The same for a block that joined: the hooks go to the current register (or run at
        once without one) and the body's outcome passes through. */
    method RunJoined<T>(m: TransactionMetadata, body: Outcome<T>, hooks: seq<Hook>, faults: HandlerFaults,
                        throwing: map<Hook, Exception>)
      returns (r: Outcome<T>, ran: seq<Hook>)
      requires context.Some? && Distinct(handlers) && InTransaction()
      modifies this, Register()
      ensures r == body && calls == old(calls) && context == old(context)
      ensures Register() != null ==> ran == [] && Register().onCommitActions == old(Register().onCommitActions) + hooks
      ensures Register() == null ==> ran == hooks
    {
      var ranNow := RegisterHooks(hooks);
      var ranAfter;
      r, ranAfter := Complete(false, [], m, body, faults, throwing);
      ran := ranNow + ranAfter;
    }

    /** `transactional`: joins the current transaction, or runs the block in a new context,
        after which the previous thread-local value is back. */
    method Transactional<T>(m: TransactionMetadata, body: Outcome<T>, hooks: seq<Hook>, faults: HandlerFaults,
                            throwing: map<Hook, Exception>)
      returns (r: Outcome<T>, ran: seq<Hook>)
      requires Distinct(handlers)
      modifies this, Register()
      ensures old(InTransaction()) ==> r == body && calls == old(calls) && context == old(context)
      ensures !old(InTransaction()) ==>
                var e := OutermostBlock(handlers, m, body, faults);
                var run := RunHooks(if e.commit then hooks else [], throwing);
                calls == old(calls) + e.calls && r == AfterHooks(e.result, run) && ran == run.ran &&
                context == old(context)
    {
      if InTransaction() {
        r, ran := TransactionalBlock(m, body, hooks, faults, throwing);
      } else {
        var saved := context;
        context := Some(TransactionContext(false, null));
        r, ran := TransactionalBlock(m, body, hooks, faults, throwing);
        context := saved;
      }
    }

    /** `transactionalNew`: always a new transaction in a new context, even inside another
        one, whose context is back afterwards. */
    method TransactionalNew<T>(m: TransactionMetadata, body: Outcome<T>, hooks: seq<Hook>, faults: HandlerFaults,
                               throwing: map<Hook, Exception>)
      returns (r: Outcome<T>, ran: seq<Hook>)
      requires Distinct(handlers)
      modifies this
      ensures var e := OutermostBlock(handlers, m, body, faults);
              var run := RunHooks(if e.commit then hooks else [], throwing);
              calls == old(calls) + e.calls && r == AfterHooks(e.result, run) && ran == run.ran &&
              context == old(context)
    {
      var saved := context;
      context := Some(TransactionContext(false, null));
      r, ran := TransactionalBlock(m, body, hooks, faults, throwing);
      context := saved;
    }

    /** `blockingTransactional`: as `transactional`, but the new context is not taken back. */
    method BlockingTransactional<T>(m: TransactionMetadata, body: Outcome<T>, hooks: seq<Hook>, faults: HandlerFaults,
                                    throwing: map<Hook, Exception>)
      returns (r: Outcome<T>, ran: seq<Hook>)
      requires Distinct(handlers)
      modifies this, Register()
      ensures old(InTransaction()) ==> r == body && calls == old(calls) && context == old(context)
      ensures !old(InTransaction()) ==>
                var e := OutermostBlock(handlers, m, body, faults);
                var run := RunHooks(if e.commit then hooks else [], throwing);
                calls == old(calls) + e.calls && r == AfterHooks(e.result, run) && ran == run.ran &&
                context == if FirstFailing(handlers, faults.onStart) < |handlers| then Some(ClearedContext) else None
    {
      if !InTransaction() {
        context := Some(TransactionContext(false, null));
      }
      r, ran := TransactionalBlock(m, body, hooks, faults, throwing);
    }
  }

  /** With no failing handler call, a block over one handler whose body returns commits. */
  lemma OneHandlerCommits<T>(h: Handler, m: TransactionMetadata, value: T, faults: HandlerFaults)
    requires faults == HandlerFaults(map[], map[], map[])
    ensures FirstFailing([h], faults.onStart) == 1
    ensures StartedBlock([h], m, Ok(value), faults).commit
  {
    assert Reverse([h]) == [h];
  }

  /** A single primary handler is the only handler. */
  lemma OneHandlerOrder(h: Handler)
    ensures HandlerOrder([h], []) == [h]
  {
    var w := Without([h], []);
    assert [h][1..] == [];
    assert w == [h] + Without([], []);
    assert [] + w == w;
  }

  /** The outer block of the nested-hooks scenario up to the end of its body: one handler
      started, the outer hook registered, then a nested block that joins the transaction and
      registers the inner hook. No hook has run yet. */
  method OpenWithNestedHooks(handler: Handler, outerHook: Hook, innerHook: Hook)
    returns (manager: TransactionManager, data: seq<Handler>, ranNow: seq<Hook>)
    ensures fresh(manager) && manager.handlers == [handler] && data == [handler] && ranNow == []
    ensures manager.context.Some? && manager.InTransaction()
    ensures manager.Register() != null && fresh(manager.Register())
    ensures manager.Register().onCommitActions == [outerHook, innerHook]
  {
    OneHandlerOrder(handler);
    manager := new TransactionManager([handler], []);
    var faults := HandlerFaults(map[], map[], map[]);
    assert FirstFailing([handler], faults.onStart) == 1;
    manager.context := Some(TransactionContext(false, null));
    var started;
    started, data := manager.StartOrJoin(DefaultMetadata, faults);
    var register := manager.Register();
    assert started == Ok(true) && register != null && register.onCommitActions == [];
    var outerNow := manager.RegisterHooks([outerHook]);
    assert outerNow == [] && register.onCommitActions == [outerHook];
    var inner, innerRan := manager.TransactionalBlock(DefaultMetadata, Ok(Unit), [innerHook], faults, map[]);
    assert innerRan == [] && manager.Register() == register;
    ranNow := outerNow + innerRan;
  }

  /** Hooks registered by a nested block join the outer transaction's register and run
      after the outer commit, after the outer block's own hooks. */
  method NestedBlockHooksRunAfterOuterCommit(handler: Handler, outerHook: Hook, innerHook: Hook)
    returns (ran: seq<Hook>)
    ensures ran == [outerHook, innerHook]
  {
    var manager, data, ranNow := OpenWithNestedHooks(handler, outerHook, innerHook);
    var faults := HandlerFaults(map[], map[], map[]);
    OneHandlerCommits(handler, DefaultMetadata, Unit, faults);
    ThrowingHookStopsTheRest([outerHook, innerHook], map[]);
    var r, after := manager.Complete(true, data, DefaultMetadata, Ok(Unit), faults, map[]);
    ran := ranNow + after;
  }
}
