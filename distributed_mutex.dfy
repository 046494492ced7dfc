/** A mutex over a pluggable lock system, with per-type handling of lock system errors
    (io/github/andresviedma/poket/mutex/DistributedMutex.kt).

    The mutex keeps no state of its own: each call reads the current configuration, asks a
    lock system for the lock, runs the block and releases the lock. The lock systems are
    given by what each of their calls returns or throws. */
module DistributedMutexes {
  import opened Base
  import Strings
  import opened MutexConfiguration

  /** What the calls of one registered lock system do: `waitLock`, `getLockIfFree` (whether
      the lock was obtained, or the exception thrown) and `releaseLock`. */
  datatype LockSystemBehaviour = LockSystemBehaviour(waitLock: Outcome<bool>, getLockIfFree: Outcome<bool>,
                                                     releaseLock: Outcome<bool>)

  /** The registered lock systems, by id. */
  type LockSystems = map<string, LockSystemBehaviour>

  datatype LockOperation = WaitLock | GetLockIfFree

  /** `LockContext`: whether the lock is held, and the lock system that granted it (none when
      an error was ignored). */
  datatype LockContext = LockContext(hasLock: bool, lockSystemUsed: Option<string>)

  /** The lock request: its outcome and the lock systems asked, in order. */
  datatype Acquisition = Acquisition(result: Outcome<LockContext>, tried: seq<string>)

  /** A guarded run: its outcome, whether the block ran, and the lock system the lock was
      released on, if a release was attempted. */
  datatype MutexRun<T> = MutexRun(result: Outcome<T>, blockRan: bool, releasedOn: Option<string>)

  const LockWaitTimedOutException := "LockWaitTimedOutException"

  function LockWaitTimedOut(name: string): (e: Exception)
    ensures e.IsInstance(LockWaitTimedOutException) && e.IsInstance("RuntimeException")
  {
    Exception({LockWaitTimedOutException, "RuntimeException", "Exception", "Throwable"}, "Lock " + name + " wait timed out")
  }

  /** `LockSystemProvider.getLockSystem`: an unknown id is an IllegalStateException. */
  function GetLockSystem(systems: LockSystems, id: string): (r: Outcome<LockSystemBehaviour>)
    ensures r.Ok? <==> id in systems
    ensures r.Ok? ==> r.value == systems[id]
  {
    if id in systems then Ok(systems[id]) else Thrown(IllegalState("LockSystem unknown: " + id))
  }

  function Ask(system: LockSystemBehaviour, op: LockOperation): Outcome<bool> {
    match op
    case WaitLock => system.waitLock
    case GetLockIfFree => system.getLockIfFree
  }

  /** `lockName`: the type followed by the keys, joined with "::". */
  function LockName(lockType: string, keys: seq<string>): (name: string)
    ensures Strings.IsPrefix(lockType, name)
  {
    Strings.JoinPrefix([lockType] + keys, Separator, 1);
    assert ([lockType] + keys)[..1] == [lockType];
    Strings.Join([lockType] + keys, Separator)
  }

  /** The lock name gives back the type and the keys when none of them contains ':'. */
  lemma LockNameSplitsBack(lockType: string, keys: seq<string>)
    requires ':' !in lockType && forall i :: 0 <= i < |keys| ==> ':' !in keys[i]
    ensures Strings.Split(LockName(lockType, keys), Separator) == [lockType] + keys
  {
    var parts := [lockType] + keys;
    assert forall i :: 1 <= i < |parts| ==> parts[i] == keys[i - 1];
    Strings.SplitJoin(parts, Separator);
  }

  datatype DistributedMutex = DistributedMutex(lockType: string, forceIgnoreLockErrors: bool,
                                               baseTypeConfig: Option<MutexTypeConfig>)
  {
    /** The action taken when the lock system throws: GET when errors are force-ignored,
        else the configured one (null behaves as FAIL). */
    function ErrorAction(config: MutexTypeConfig): Option<MutexOnErrorAction> {
      if forceIgnoreLockErrors then Some(Get) else config.onLockSystemError
    }

    /** `getLockHandlingErrors`: asks `systemId` for the lock. When it throws, FAIL (or no
        action) rethrows; GET goes on as if the lock had been obtained, with no lock system
        to release it on; FALLBACK asks the fallback lock system, if it is set and differs
        from the failing one, else rethrows. */
    function GetLockHandlingErrors(config: MutexTypeConfig, systems: LockSystems, systemId: string, op: LockOperation)
      : (r: Acquisition)
      requires systemId in systems
      ensures 1 <= |r.tried| <= 2 && r.tried[0] == systemId
      ensures |r.tried| == 2 ==> config.fallbackLockSystem == Some(r.tried[1]) && r.tried[1] != systemId
      ensures r.result.Ok? && r.result.value.lockSystemUsed.Some? ==> r.result.value.lockSystemUsed.value in r.tried
      decreases if config.fallbackLockSystem.Some? && config.fallbackLockSystem.value != systemId then 1 else 0
    {
      match Ask(systems[systemId], op)
      case Ok(hasLock) => Acquisition(Ok(LockContext(hasLock, Some(systemId))), [systemId])
      case Thrown(e) =>
        match ErrorAction(config)
        case None => Acquisition(Thrown(e), [systemId])
        case Some(Fail) => Acquisition(Thrown(e), [systemId])
        case Some(Get) => Acquisition(Ok(LockContext(true, None)), [systemId])
        case Some(Fallback) =>
          if config.fallbackLockSystem.Some? && config.fallbackLockSystem.value != systemId then
            var fallback := config.fallbackLockSystem.value;
            match GetLockSystem(systems, fallback)
            case Thrown(unknown) => Acquisition(Thrown(unknown), [systemId])
            case Ok(_) =>
              var a := GetLockHandlingErrors(config, systems, fallback, op);
              assert |a.tried| == 1;
              Acquisition(a.result, [systemId] + a.tried)
          else Acquisition(Thrown(e), [systemId])
    }

    /** `releaseLock`: attempted only when the lock is held and a lock system granted it; a
        release error propagates only when errors are not force-ignored and
        `failOnLockReleaseError` is true. */
    function ReleaseLock(ctx: LockContext, config: MutexTypeConfig, systems: LockSystems): (r: (Outcome<Unit>, Option<string>))
      ensures r.1.Some? <==> ctx.hasLock && ctx.lockSystemUsed.Some?
      ensures r.1.Some? ==> r.1 == ctx.lockSystemUsed
    {
      if ctx.hasLock && ctx.lockSystemUsed.Some? then
        var id := ctx.lockSystemUsed.value;
        var released := if id in systems then systems[id].releaseLock else Ok(true);
        if released.Thrown? && !forceIgnoreLockErrors && config.failOnLockReleaseError == Some(true) then
          (Thrown(released.error), Some(id))
        else (Ok(Unit), Some(id))
      else (Ok(Unit), None)
    }

    /** The block's outcome, unless the release in `finally` throws, which replaces it. */
    function Finally<T>(block: Outcome<T>, release: (Outcome<Unit>, Option<string>)): MutexRun<T> {
      MutexRun(if release.0.Thrown? then Thrown(release.0.error) else block, true, release.1)
    }

    /** `synchronized`: waits for the lock; without it (and errors not force-ignored) throws
        LockWaitTimedOutException and skips the block; otherwise runs the block and releases. */
    function Synchronized<T>(mutexConfig: MutexConfig, systems: LockSystems, keys: seq<string>, block: Outcome<T>)
      : (r: MutexRun<T>)
      ensures r.blockRan ==> r.result == block || r.result.Thrown?
    {
      var config := mutexConfig.GetTypeConfig(lockType, baseTypeConfig);
      var name := LockName(lockType, keys);
      match GetLockSystem(systems, config.lockSystem.value)
      case Thrown(e) => MutexRun(Thrown(e), false, None)
      case Ok(_) =>
        var a := GetLockHandlingErrors(config, systems, config.lockSystem.value, WaitLock);
        if a.result.Thrown? then MutexRun(Thrown(a.result.error), false, None)
        else if !a.result.value.hasLock && !forceIgnoreLockErrors then MutexRun(Thrown(LockWaitTimedOut(name)), false, None)
        else Finally(block, ReleaseLock(a.result.value, config, systems))
    }

    /** `maybeSynchronized`: tries the lock without waiting and runs the block, telling it
        whether the lock was obtained; the lock is released afterwards. */
    function MaybeSynchronized<T>(mutexConfig: MutexConfig, systems: LockSystems, keys: seq<string>,
                                  block: bool -> Outcome<T>): (r: MutexRun<T>)
      ensures r.blockRan ==>
                TryLock(mutexConfig, systems).Some? &&
                (r.result == block(TryLock(mutexConfig, systems).value.hasLock) || r.result.Thrown?)
      ensures r.releasedOn.Some? ==>
                r.blockRan && TryLock(mutexConfig, systems).Some? && TryLock(mutexConfig, systems).value.hasLock &&
                r.releasedOn == TryLock(mutexConfig, systems).value.lockSystemUsed
    {
      var config := mutexConfig.GetTypeConfig(lockType, baseTypeConfig);
      var name := LockName(lockType, keys);
      match GetLockSystem(systems, config.lockSystem.value)
      case Thrown(e) => MutexRun(Thrown(e), false, None)
      case Ok(_) =>
        var a := GetLockHandlingErrors(config, systems, config.lockSystem.value, GetLockIfFree);
        if a.result.Thrown? then MutexRun(Thrown(a.result.error), false, None)
        else Finally(block(a.result.value.hasLock), ReleaseLock(a.result.value, config, systems))
    }

    /** The lock context `maybeSynchronized` obtains, if any. */
    function TryLock(mutexConfig: MutexConfig, systems: LockSystems): Option<LockContext> {
      var config := mutexConfig.GetTypeConfig(lockType, baseTypeConfig);
      if config.lockSystem.value !in systems then None
      else
        var a := GetLockHandlingErrors(config, systems, config.lockSystem.value, GetLockIfFree);
        if a.result.Thrown? then None else Some(a.result.value)
    }

    /** `ifSynchronized`: the block runs only with the lock; without it the result is null. */
    function IfSynchronized<T>(mutexConfig: MutexConfig, systems: LockSystems, keys: seq<string>, block: Outcome<T>)
      : (r: MutexRun<Option<T>>)
      ensures r.result.Ok? && r.result.value.Some? ==>
                r.blockRan && TryLock(mutexConfig, systems).Some? && TryLock(mutexConfig, systems).value.hasLock &&
                block == Ok(r.result.value.value)
      ensures TryLock(mutexConfig, systems).Some? && TryLock(mutexConfig, systems).value.hasLock && block.Thrown? ==>
                r.result.Thrown?
    {
      MaybeSynchronized(mutexConfig, systems, keys,
        (gotLock: bool) => if gotLock then (if block.Ok? then Ok(Some(block.value)) else Thrown(block.error)) else Ok(None))
    }
  }

  /** The block of `synchronized` runs exactly when the lock system is known, asking for
      the lock does not throw, and the lock was obtained or errors are force-ignored. */
  lemma SynchronizedRunsBlockIff<T>(m: DistributedMutex, mutexConfig: MutexConfig, systems: LockSystems,
                                    keys: seq<string>, block: Outcome<T>)
    ensures var config := mutexConfig.GetTypeConfig(m.lockType, m.baseTypeConfig);
            var id := config.lockSystem.value;
            var run := m.Synchronized(mutexConfig, systems, keys, block);
            run.blockRan <==>
              id in systems && m.GetLockHandlingErrors(config, systems, id, WaitLock).result.Ok? &&
              (m.GetLockHandlingErrors(config, systems, id, WaitLock).result.value.hasLock || m.forceIgnoreLockErrors)
  {
  }

  /** Without the lock and errors not force-ignored, `synchronized` throws
      LockWaitTimedOutException and the block does not run. */
  lemma TimedOutWithoutLock<T>(m: DistributedMutex, mutexConfig: MutexConfig, systems: LockSystems,
                               keys: seq<string>, block: Outcome<T>)
    requires !m.forceIgnoreLockErrors
    requires var config := mutexConfig.GetTypeConfig(m.lockType, m.baseTypeConfig);
             config.lockSystem.value in systems &&
             m.GetLockHandlingErrors(config, systems, config.lockSystem.value, WaitLock).result == Ok(LockContext(false, Some(config.lockSystem.value)))
    ensures var run := m.Synchronized(mutexConfig, systems, keys, block);
            !run.blockRan && run.result == Thrown(LockWaitTimedOut(LockName(m.lockType, keys)))
            && run.result.error.IsInstance(LockWaitTimedOutException)
  {
  }

  /** FAIL, or no action, rethrows the lock system's exception; GET reports the lock as held
      with no lock system to release it on. */
  lemma FailAndGetActions(m: DistributedMutex, config: MutexTypeConfig, systems: LockSystems, id: string,
                          op: LockOperation, e: Exception)
    requires id in systems && Ask(systems[id], op) == Thrown(e)
    ensures m.ErrorAction(config) in {None, Some(Fail)} ==>
              m.GetLockHandlingErrors(config, systems, id, op) == Acquisition(Thrown(e), [id])
    ensures m.ErrorAction(config) == Some(Get) ==>
              m.GetLockHandlingErrors(config, systems, id, op).result == Ok(LockContext(true, None))
  {
  }

  /** FALLBACK asks the fallback lock system exactly when it is set, differs from the failing
      one and is registered; otherwise the exception is rethrown (or the fallback is unknown). */
  lemma FallbackAction(m: DistributedMutex, config: MutexTypeConfig, systems: LockSystems, id: string,
                       op: LockOperation, e: Exception)
    requires id in systems && Ask(systems[id], op) == Thrown(e) && m.ErrorAction(config) == Some(Fallback)
    ensures var a := m.GetLockHandlingErrors(config, systems, id, op);
            |a.tried| == 2 <==>
              config.fallbackLockSystem.Some? && config.fallbackLockSystem.value != id &&
              config.fallbackLockSystem.value in systems
    ensures var a := m.GetLockHandlingErrors(config, systems, id, op);
            config.fallbackLockSystem.None? || config.fallbackLockSystem.value == id ==> a.result == Thrown(e)
    ensures var a := m.GetLockHandlingErrors(config, systems, id, op);
            |a.tried| == 2 ==> a.result == m.GetLockHandlingErrors(config, systems, a.tried[1], op).result
  {
  }

  /** With errors force-ignored, a failing lock system acts as GET whatever is configured. */
  lemma ForceIgnoreActsAsGet(m: DistributedMutex, config: MutexTypeConfig, systems: LockSystems, id: string,
                             op: LockOperation)
    requires m.forceIgnoreLockErrors && id in systems
    ensures m.GetLockHandlingErrors(config, systems, id, op) ==
              m.(forceIgnoreLockErrors := false).GetLockHandlingErrors(config.(onLockSystemError := Some(Get)), systems, id, op)
  {
  }

  /** With errors force-ignored, `synchronized` returns the block's outcome whenever its lock
      system is known, whatever the lock systems do. */
  lemma ForceIgnoringErrorsRunsBlock<T>(m: DistributedMutex, mutexConfig: MutexConfig, systems: LockSystems,
                                        keys: seq<string>, block: Outcome<T>)
    requires m.forceIgnoreLockErrors
    requires mutexConfig.GetTypeConfig(m.lockType, m.baseTypeConfig).lockSystem.value in systems
    ensures var run := m.Synchronized(mutexConfig, systems, keys, block);
            run.blockRan && run.result == block
  {
  }

  /** A release is attempted only with the lock held and on the lock system that granted
      it, which is one of those asked. */
  lemma ReleaseOnGrantingSystem<T>(m: DistributedMutex, mutexConfig: MutexConfig, systems: LockSystems,
                                   keys: seq<string>, block: Outcome<T>)
    ensures var config := mutexConfig.GetTypeConfig(m.lockType, m.baseTypeConfig);
            var run := m.Synchronized(mutexConfig, systems, keys, block);
            run.releasedOn.Some? ==>
              run.blockRan &&
              var a := m.GetLockHandlingErrors(config, systems, config.lockSystem.value, WaitLock);
              a.result == Ok(LockContext(true, run.releasedOn)) && run.releasedOn.value in a.tried
  {
  }

  /** A failing release replaces the block's outcome exactly when errors are not
      force-ignored and `failOnLockReleaseError` is true. */
  lemma ReleaseErrorPropagation(m: DistributedMutex, ctx: LockContext, config: MutexTypeConfig, systems: LockSystems)
    requires ctx.hasLock && ctx.lockSystemUsed.Some? && ctx.lockSystemUsed.value in systems
    requires systems[ctx.lockSystemUsed.value].releaseLock.Thrown?
    ensures m.ReleaseLock(ctx, config, systems).0.Thrown? <==>
              !m.forceIgnoreLockErrors && config.failOnLockReleaseError == Some(true)
  {
  }

  /** `maybeSynchronized` runs its block exactly when the lock request ends without an
      error, tells it whether the lock was obtained, and returns its outcome unless the
      release throws. */
  lemma MaybeSynchronizedTellsLock<T>(m: DistributedMutex, mutexConfig: MutexConfig, systems: LockSystems,
                                      keys: seq<string>, block: bool -> Outcome<T>)
    ensures var run := m.MaybeSynchronized(mutexConfig, systems, keys, block);
            run.blockRan <==> m.TryLock(mutexConfig, systems).Some?
    ensures var run := m.MaybeSynchronized(mutexConfig, systems, keys, block);
            var config := mutexConfig.GetTypeConfig(m.lockType, m.baseTypeConfig);
            var ctx := m.TryLock(mutexConfig, systems);
            ctx.Some? && m.ReleaseLock(ctx.value, config, systems).0.Ok? ==> run.result == block(ctx.value.hasLock)
    ensures var run := m.MaybeSynchronized(mutexConfig, systems, keys, block);
            !run.blockRan ==> run.result.Thrown? && run.releasedOn.None?
  {
  }

  /** `maybeSynchronized` tells the block whether it got the lock, and `ifSynchronized`
      gives null without running its block when it did not. */
  lemma IfSynchronizedWithoutLock<T>(m: DistributedMutex, mutexConfig: MutexConfig, systems: LockSystems,
                                     keys: seq<string>, block: Outcome<T>)
    requires m.TryLock(mutexConfig, systems).Some? && !m.TryLock(mutexConfig, systems).value.hasLock
    ensures m.IfSynchronized(mutexConfig, systems, keys, block) == MutexRun(Ok(None), true, None)
  {
  }

  lemma IfSynchronizedWithLock<T>(m: DistributedMutex, mutexConfig: MutexConfig, systems: LockSystems,
                                  keys: seq<string>, v: T)
    requires m.TryLock(mutexConfig, systems).Some? && m.TryLock(mutexConfig, systems).value.hasLock
    ensures var run := m.IfSynchronized(mutexConfig, systems, keys, Ok(v));
            run.result == Ok(Some(v)) || (run.result.Thrown? && run.releasedOn.Some?)
  {
  }
}
