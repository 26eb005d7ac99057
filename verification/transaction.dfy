/**
 * The transaction wrapper (pkg/transaction): begin a transaction, run the
 * body once with queries bound to it, then roll back if the body failed or
 * commit if it succeeded. The replies of the database to begin, rollback and
 * commit are parameters; the calls made are recorded in order.
 */
module Transaction {
  import opened GoTypes

  /** An open database transaction. */
  datatype Tx = Tx(id: nat)

  /** The calls `Exec` makes on the connection and on the transaction. */
  datatype Call = Begin | RunBody(tx: Tx) | Rollback(tx: Tx) | Commit(tx: Tx)

  /** What the body returns: a result pointer (`None` for nil) and an error. */
  datatype BodyResult<R> = BodyResult(result: Option<R>, err: Option<string>)

  /** What `Exec` returns, with the calls it made. */
  datatype ExecResult<R> = ExecResult(result: Option<R>, err: Option<string>, calls: seq<Call>)

  /** `b` is `a` followed by more text. */
  predicate StartsWith(b: string, a: string) {
    |a| <= |b| && b[..|a|] == a
  }

  /** `b` ends with `a`. */
  predicate EndsWith(b: string, a: string) {
    |a| <= |b| && b[|b| - |a|..] == a
  }

  /**
   * `Exec(body)`: `begin` is the database's reply to `BeginTx` (the new
   * transaction or the error), `body(tx)` what the body returns when its
   * queries run in `tx`, and `rollbackErr`/`commitErr` the errors (if any)
   * returned by `Rollback`/`Commit` on that transaction.
   */
  function Exec<R>(begin: Result<Tx>, body: Tx -> BodyResult<R>, rollbackErr: Option<string>, commitErr: Option<string>): (r: ExecResult<R>)
    // a failed begin: nothing else is called
    ensures begin.Err? ==> r.calls == [Begin] && r.result.None? && r.err.Some?
    ensures begin.Err? ==> StartsWith(r.err.value, "beginning transaction: ") && EndsWith(r.err.value, begin.msg)
    // otherwise the body runs exactly once, in the opened transaction, and exactly one of rollback and commit follows
    ensures begin.Ok? ==> |r.calls| == 3 && r.calls[0] == Begin && r.calls[1] == RunBody(begin.value)
    ensures begin.Ok? ==> (r.calls[2] == Rollback(begin.value) <==> body(begin.value).err.Some?)
    ensures begin.Ok? ==> (r.calls[2] == Commit(begin.value) <==> body(begin.value).err.None?)
    // a failed body: nil result, its error, and the rollback error after it if rollback failed too
    ensures begin.Ok? && body(begin.value).err.Some? ==>
      && r.result.None? && r.err.Some?
      && StartsWith(r.err.value, body(begin.value).err.value)
      && (rollbackErr.None? ==> r.err.value == body(begin.value).err.value)
      && (rollbackErr.Some? ==> EndsWith(r.err.value, rollbackErr.value) && |r.err.value| > |body(begin.value).err.value| + |rollbackErr.value|)
    // a successful body: its result if commit succeeds, an error and nil result if commit fails
    ensures begin.Ok? && body(begin.value).err.None? ==>
      && (commitErr.None? ==> r.result == body(begin.value).result && r.err.None?)
      && (commitErr.Some? ==> r.result.None? && r.err.Some? && EndsWith(r.err.value, commitErr.value))
    // a result only when begin, body and commit all succeeded
    ensures r.result.Some? ==> begin.Ok? && body(begin.value).err.None? && commitErr.None?
    ensures r.err.None? <==> begin.Ok? && body(begin.value).err.None? && commitErr.None?
  {
    match begin
    case Err(e) => ExecResult(None, Some("beginning transaction: " + e), [Begin])
    case Ok(tx) =>
      var out := body(tx);
      if out.err.Some? then
        match rollbackErr
        case Some(rbErr) =>
          ExecResult(None, Some(out.err.value + ", rollback failed: " + rbErr), [Begin, RunBody(tx), Rollback(tx)])
        case None =>
          ExecResult(None, out.err, [Begin, RunBody(tx), Rollback(tx)])
      else
        match commitErr
        case Some(cErr) => ExecResult(None, Some("commit failed: " + cErr), [Begin, RunBody(tx), Commit(tx)])
        case None => ExecResult(out.result, None, [Begin, RunBody(tx), Commit(tx)])
  }

  /** Where a connection stands in the begin/body/end protocol. */
  datatype TxState = Idle | Began | Ran(tx: Tx) | Closed(tx: Tx)

  /**
   * The protocol as an automaton: begin first, then the body in a
   * transaction, then one rollback or one commit of that same transaction.
   * `None` is a call the protocol forbids.
   */
  function Step(s: TxState, c: Call): Option<TxState> {
    match (s, c)
    case (Idle, Begin) => Some(Began)
    case (Began, RunBody(t)) => Some(Ran(t))
    case (Ran(t), Rollback(u)) => if t == u then Some(Closed(t)) else None
    case (Ran(t), Commit(u)) => if t == u then Some(Closed(t)) else None
    case _ => None
  }

  function Run(s: TxState, calls: seq<Call>): Option<TxState>
    decreases |calls|
  {
    if |calls| == 0 then Some(s)
    else match Step(s, calls[0])
      case Some(s') => Run(s', calls[1..])
      case None => None
  }

  /**
   * Every run of `Exec` obeys the protocol and leaves nothing open: a failed
   * begin stops right after it, and an opened transaction is always closed.
   */
  lemma ExecFollowsProtocol<R>(begin: Result<Tx>, body: Tx -> BodyResult<R>, rollbackErr: Option<string>, commitErr: Option<string>)
    ensures var r := Exec(begin, body, rollbackErr, commitErr);
      Run(Idle, r.calls) == if begin.Ok? then Some(Closed(begin.value)) else Some(Began)
  {
    var r := Exec(begin, body, rollbackErr, commitErr);
    if begin.Ok? {
      var tx := begin.value;
      var c1 := r.calls[1..];
      var c2 := c1[1..];
      assert c1[0] == RunBody(tx) && c2[0] == r.calls[2] && c2[1..] == [];
      assert Step(Ran(tx), c2[0]) == Some(Closed(tx));
      assert Run(Ran(tx), c2) == Some(Closed(tx));
      assert Run(Began, c1) == Some(Closed(tx));
    } else {
      assert r.calls[1..] == [];
    }
  }
}
