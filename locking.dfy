/** The server lock of server/server.go as one goroutine sees it. Every server operation
    takes the lock on entry and releases it on return (a deferred Unlock); a call made
    while the lock is held adds the callee's own Lock and Unlock in between. Go's
    sync.RWMutex is not re-entrant: a goroutine that asks for the lock it already holds
    waits forever, and releasing a lock nobody holds is a fatal error. Readers and writers
    are not told apart, since a read lock asked for under a held write lock also waits. */
module Locking {

  datatype Op = Lock | Unlock

  /** The end of a run of lock operations: the lock's final state, a wait that never ends,
      or the fatal error of releasing an unheld lock. */
  datatype Outcome = Done(held: bool) | Blocked | Fatal

  function Run(ops: seq<Op>, held: bool): (r: Outcome)
    ensures ops == [] ==> r == Done(held)
    ensures ops != [] && ops[0] == Lock && held ==> r == Blocked
    ensures ops != [] && ops[0] == Unlock && !held ==> r == Fatal
  {
    if ops == [] then Done(held)
    else match ops[0]
      case Lock => if held then Blocked else Run(ops[1..], true)
      case Unlock => if !held then Fatal else Run(ops[1..], false)
  }

  /** Running two stretches in a row runs the second from where the first left the lock,
      unless the first never finished. */
  lemma {:induction false} RunAppend(a: seq<Op>, b: seq<Op>, held: bool)
    ensures Run(a + b, held) == match Run(a, held)
      case Done(h) => Run(b, h)
      case Blocked => Blocked
      case Fatal => Fatal
  {
    if a != [] {
      assert (a + b)[1..] == a[1..] + b;
      match a[0]
      case Lock =>
        if !held {
          RunAppend(a[1..], b, true);
        }
      case Unlock =>
        if held {
          RunAppend(a[1..], b, false);
        }
    } else {
      assert a + b == b;
    }
  }

  /** An operation that holds the lock around inner: Lock, inner, Unlock. */
  function Locked(inner: seq<Op>): (r: seq<Op>)
    ensures |r| == |inner| + 2 && r[0] == Lock && r[|r| - 1] == Unlock
  {
    [Lock] + inner + [Unlock]
  }

  /** An operation that holds the lock completes from an unheld lock, and leaves it
      unheld, exactly when what it calls completes with the lock held and leaves it so:
      whatever it calls must not take the lock again. */
  lemma LockedCompletes(inner: seq<Op>)
    ensures Run(Locked(inner), false) == Done(false) <==> Run(inner, true) == Done(true)
  {
    RunAppend([Lock] + inner, [Unlock], false);
    RunAppend([Lock], inner, false);
    match Run(inner, true)
    case Done(h) =>
    case Blocked =>
    case Fatal =>
  }

  /** A callee that starts by taking the lock never returns to a caller that holds it. */
  lemma NestedLockBlocks(inner: seq<Op>)
    requires inner != [] && inner[0] == Lock
    ensures Run(Locked(inner), false) == Blocked
  {
    RunAppend([Lock] + inner, [Unlock], false);
    RunAppend([Lock], inner, false);
  }

  /** removePlayerFromGame as written: it takes the lock itself. */
  function RemovePlayerFromGameLocks(): seq<Op> {
    Locked([])
  }

  /** unregisterConnection as written: it holds the lock while it calls
      removePlayerFromGame. */
  function UnregisterAsWritten(): seq<Op> {
    Locked(RemovePlayerFromGameLocks())
  }

  /** Every disconnect waits forever on the server lock. */
  lemma UnregisterAsWrittenBlocks()
    ensures Run(UnregisterAsWritten(), false) == Blocked
  {
    NestedLockBlocks(RemovePlayerFromGameLocks());
  }

  /** unregisterConnection with the roster removal done under the lock it already holds,
      which is how Hub.Server.UnregisterConnection runs it. */
  function UnregisterCorrected(): seq<Op> {
    Locked([])
  }

  /** The corrected disconnect completes and releases the lock. */
  lemma UnregisterCorrectedCompletes()
    ensures Run(UnregisterCorrected(), false) == Done(false)
  {
    LockedCompletes([]);
  }

  /** join_game as written calls addPlayerToGame and then broadcastToGame with no lock
      held, so each takes and releases the lock in turn and the handler completes. */
  lemma JoinGameLocksComplete()
    ensures Run(Locked([]) + Locked([]), false) == Done(false)
  {
    RunAppend(Locked([]), Locked([]), false);
    LockedCompletes([]);
  }
}
