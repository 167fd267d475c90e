/**
  A sequential model of a reader/writer mutex (Go's `sync.RWMutex`).

  The state is a writer flag and a reader count. Acquiring a mode that the
  current state does not admit would block the calling thread; sequentially,
  that is reported as `None`.
 */
module RWLock {
  import opened Optional

  datatype Mode = Shared | Exclusive

  datatype Lock = Lock(writer: bool, readers: nat)

  const Unlocked: Lock := Lock(false, 0)

  /** A writer excludes every reader. */
  predicate Valid(l: Lock)
  {
    !(l.writer && l.readers > 0)
  }

  /** `Lock()` for `Exclusive`, `RLock()` for `Shared`; `None` when the call would block. */
  function Acquire(l: Lock, m: Mode): (r: Option<Lock>)
    ensures r.Some? <==> !l.writer && (m == Exclusive ==> l.readers == 0)
    ensures r.Some? && m == Exclusive ==> r.value.writer && r.value.readers == 0
    ensures r.Some? && m == Shared ==> !r.value.writer && r.value.readers == l.readers + 1
  {
    match m
    case Exclusive => if !l.writer && l.readers == 0 then Some(Lock(true, 0)) else None
    case Shared => if !l.writer then Some(Lock(false, l.readers + 1)) else None
  }

  /** True when the state records at least one holder of mode `m`. */
  predicate Holds(l: Lock, m: Mode)
  {
    match m
    case Exclusive => l.writer
    case Shared => l.readers > 0
  }

  /**
    `Unlock()` for `Exclusive`, `RUnlock()` for `Shared`. Releasing a mode that
    is not held is a fatal runtime error in Go, hence the precondition.
   */
  function Release(l: Lock, m: Mode): (r: Lock)
    requires Holds(l, m)
    ensures m == Exclusive ==> !r.writer && r.readers == l.readers
    ensures m == Shared ==> r.writer == l.writer && r.readers + 1 == l.readers
  {
    match m
    case Exclusive => Lock(false, l.readers)
    case Shared => Lock(l.writer, l.readers - 1)
  }

  /** Releasing the mode just acquired returns the lock to the state it was found in. */
  lemma ReleaseUndoesAcquire(l: Lock, m: Mode)
    requires Acquire(l, m).Some?
    ensures Holds(Acquire(l, m).value, m)
    ensures Release(Acquire(l, m).value, m) == l
  {
  }

  /** Acquisition and release keep a valid state valid. */
  lemma TransitionsPreserveValid(l: Lock, m: Mode)
    requires Valid(l)
    ensures Acquire(l, m).Some? ==> Valid(Acquire(l, m).value)
    ensures Holds(l, m) ==> Valid(Release(l, m))
  {
  }

  /** While a writer holds the lock no mode can be acquired; while readers hold it only `Shared` can. */
  lemma HeldLockBlocks(l: Lock, m: Mode)
    ensures l.writer ==> Acquire(l, m).None?
    ensures l.readers > 0 ==> Acquire(l, Exclusive).None?
    ensures !l.writer ==> Acquire(l, Shared).Some?
  {
  }
}
