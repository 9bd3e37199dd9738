/** A database session: what other sessions see, and this transaction's own view of it. */
module Sessions {
  import opened ParkingStore
  import opened Operations

  class Session {
    var committed: Store
    var work: Store

    constructor (initial: Store)
      ensures committed == initial && Idle()
    {
      committed, work := initial, initial;
    }

    /** No transaction is open. */
    ghost predicate Idle()
      reads this
    {
      work == committed
    }

    method Commit()
      modifies this`committed
      ensures committed == work
    {
      committed := work;
    }

    method Rollback()
      modifies this`work
      ensures work == committed
    {
      work := committed;
    }

    /** Transactions of other sessions, committed while this one has no changes of its own. */
    method OthersCommit(ops: seq<Op>)
      requires Idle()
      modifies this
      ensures Idle() && committed == Run(old(committed), ops)
    {
      committed := Run(committed, ops);
      work := committed;
    }
  }
}
