/** Transactions: a block of statements either becomes durable or leaves no trace. */
module Store {

  /** One database and the block currently open on it. Statements change `working`; other
      transactions see `committed` only. */
  class Connection<State> {
    var committed: State
    var working: State
    var active: bool

    constructor (initial: State)
      ensures committed == working == initial && !active
    {
      committed, working, active := initial, initial, false;
    }

    method Enter()
      requires !active
      modifies this
      ensures active && committed == working == old(committed)
    {
      working := committed;
      active := true;
    }

    /** An early commit inside the block: later statements of the block are lost to it. */
    method Commit()
      modifies this
      ensures !active && working == old(working)
      ensures committed == if old(active) then old(working) else old(committed)
    {
      if active {
        committed := working;
        active := false;
      }
    }

    /** Transactions of others between two blocks of this connection. */
    method Others(state: State)
      requires !active
      modifies this
      ensures !active && committed == working == state
    {
      committed, working := state, state;
    }

    /** Leave the block, normally or by an exception. */
    method Exit(raised: bool)
      modifies this
      ensures !active && committed == working
      ensures committed == if old(active) && !raised then old(working) else old(committed)
    {
      if active && !raised {
        committed := working;
      }
      working := committed;
      active := false;
    }
  }
}
