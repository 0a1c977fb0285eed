/** The unit-of-work cleanup of `helper/tx.go`: the function every service defers right
    after it begins a transaction. */
module Tx {
  import opened Common

  /** A terminal action issued on a transaction handle. */
  datatype TxAction = Commit | Rollback

  /** A value handed to `panic`; `recover()` reports it as non-nil. */
  datatype Panic = Panic(value: string)

  /** How the deferred cleanup leaves the function it was deferred in: the function returns
      normally, or the goroutine panics again with the given value (`panic(nil)` when `None`). */
  datatype Unwind = Return | Repanic(value: Option<string>)

  /** A `pgx.Tx` handle: the terminal actions issued on it, in order. */
  class Transaction {
    var actions: seq<TxAction>

    /** `db.Begin` succeeded: a fresh handle on which nothing has been issued yet. */
    constructor ()
      ensures actions == []
    {
      actions := [];
    }

    predicate Open()
      reads this
    {
      actions == []
    }

    /** `tx.Commit(ctx)`: the driver's answer is `driverErr`. */
    method Commit(driverErr: Option<string>) returns (err: Option<string>)
      requires Open()
      modifies this
      ensures actions == [TxAction.Commit]
      ensures err == driverErr
    {
      actions := actions + [TxAction.Commit];
      err := driverErr;
    }

    /** `tx.Rollback(ctx)`: the driver's answer is `driverErr`. */
    method Rollback(driverErr: Option<string>) returns (err: Option<string>)
      requires Open()
      modifies this
      ensures actions == [TxAction.Rollback]
      ensures err == driverErr
    {
      actions := actions + [TxAction.Rollback];
      err := driverErr;
    }
  }

  /** `CommitOrRollback`. `inFlight` is what `recover()` returns; `commitErr` and `rollbackErr`
      are the driver's answers to the two calls. Exactly one terminal action is issued. With no
      panic in flight it commits, and a failed commit is only logged (`logged`), never handed
      to the caller. With a panic in flight it rolls back and panics again with the ROLLBACK's
      error, so the original panic value is lost. */
  method CommitOrRollback(tx: Transaction, inFlight: Option<Panic>, commitErr: Option<string>,
                          rollbackErr: Option<string>)
    returns (u: Unwind, logged: Option<string>)
    requires tx.Open()
    modifies tx
    ensures |tx.actions| == 1
    ensures inFlight.None? <==> tx.actions == [TxAction.Commit]
    ensures inFlight.Some? <==> tx.actions == [TxAction.Rollback]
    ensures inFlight.None? ==> u == Return && logged == commitErr
    ensures inFlight.Some? ==> u == Repanic(rollbackErr) && logged == None
  {
    if inFlight.Some? {
      var rollbackResult := tx.Rollback(rollbackErr);
      u, logged := Repanic(rollbackResult), None;
    } else {
      var commitResult := tx.Commit(commitErr);
      u, logged := Return, commitResult;
    }
  }

  /** The handle a successful `db.Begin` returned, once the cleanup deferred on it has run with
      no panic in flight: it was committed, whatever the database answered (`commitErr`). */
  method Closed(commitErr: Option<string>) returns (tx: Transaction, logged: Option<string>)
    ensures fresh(tx) && tx.actions == [TxAction.Commit]
    ensures logged == commitErr
  {
    tx := new Transaction();
    var unwind;
    unwind, logged := CommitOrRollback(tx, None, commitErr, None);
  }
}
