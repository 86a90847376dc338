/**
 * Support for command-line actions that need the Raft key/value transaction behind the
 * session's current transaction.
 */
module AbstractTransactionRaftCommand {
  import opened Wrappers

  /** The read-consistency levels of a Raft transaction. */
  datatype Consistency = Uncommitted | Eventual | EventualCommitted | Linearizable

  /** A Raft key/value transaction, the kind handed to the action's own `run`. */
  datatype RaftKVTransaction = RaftKVTransaction(id: nat)

  /** The key/value transaction a session holds: a Raft one, a fallback one wrapping its current inner transaction, or any other kind. */
  datatype KVTransaction =
    | RaftTx(raft: RaftKVTransaction)
    | FallbackTx(inner: KVTransaction)
    | OtherTx(otherId: nat)

  /** The name under which the consistency level is passed as a transaction option. */
  const OptionConsistency: string := "consistency"

  const StandaloneModeError: string := "Raft Fallback key/value store is currently in standalone mode"
  const NotRaftError: string := "key/value store is not Raft or Raft fallback"

  /**
   * The case split of `RaftTransactionAction.run`: a Raft transaction is used as it is; a
   * fallback transaction is unwrapped once and must then be a Raft transaction; anything
   * else is refused.
   */
  function UnwrapRaft(kvt: KVTransaction): (r: Result<RaftKVTransaction>)
    ensures kvt.RaftTx? ==> r == Success(kvt.raft)
    ensures kvt.FallbackTx? && kvt.inner.RaftTx? ==> r == Success(kvt.inner.raft)
    ensures kvt.FallbackTx? && !kvt.inner.RaftTx? ==> r == Failure(StandaloneModeError)
    ensures kvt.OtherTx? ==> r == Failure(NotRaftError)
  {
    match kvt
    case RaftTx(raft) => Success(raft)
    case FallbackTx(inner) =>
      if inner.RaftTx? then Success(inner.raft) else Failure(StandaloneModeError)
    case OtherTx(_) => Failure(NotRaftError)
  }

  /**
   * `RaftTransactionAction.run`: `body` stands for the subclass's `run(session, tx)`, which
   * may itself fail; it is reached only when the unwrapping succeeds, with the Raft
   * transaction found.
   */
  function RunAction(kvt: KVTransaction, body: RaftKVTransaction -> Result<()>): (r: Result<()>)
    ensures UnwrapRaft(kvt).Success? ==> r == body(UnwrapRaft(kvt).value)
    ensures UnwrapRaft(kvt).Failure? ==> r == Failure(UnwrapRaft(kvt).error)
  {
    match UnwrapRaft(kvt)
    case Success(tx) => body(tx)
    case Failure(e) => Failure(e)
  }

  /** The body is run exactly when the session's transaction is Raft or a fallback currently wrapping Raft. */
  lemma RunReachesBodyExactlyForRaft(kvt: KVTransaction, body: RaftKVTransaction -> Result<()>)
    ensures UnwrapRaft(kvt).Success? <==> (kvt.RaftTx? || (kvt.FallbackTx? && kvt.inner.RaftTx?))
    ensures !(kvt.RaftTx? || (kvt.FallbackTx? && kvt.inner.RaftTx?)) ==> RunAction(kvt, body).Failure?
  {
  }

  /** `getConsistency()`: the level a `RaftTransactionAction` asks for unless a subclass overrides it. */
  function DefaultConsistency(): (c: Consistency)
    ensures c == Linearizable
  {
    Linearizable
  }

  /** `getTransactionOptions()`: the single option naming the action's consistency level. */
  function TransactionOptions(consistency: Consistency): (m: map<string, Consistency>)
    ensures m.Keys == {OptionConsistency}
    ensures m[OptionConsistency] == consistency
  {
    map[OptionConsistency := consistency]
  }
}
