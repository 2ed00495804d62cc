/**
 The transaction wrapper around pooled SQL connections: begin, the work,
 commit, and on any failure after begin a rollback; the connection goes back
 to the pool in the end, whatever happened.

 The database keeps what was committed; what an open transaction has changed
 is visible only to it. A commit that fails is taken not to have happened.
 */
module SqlTransaction {
  import opened Wrappers

  datatype Call = Begin | Work | Commit | Rollback | Release

  class Connection<T(!new)> {
    var stored: T                 // what is committed
    var open: Option<T>           // what the open transaction sees, if there is one
    var calls: seq<Call>

    constructor (stored: T)
      ensures this.stored == stored && open.None? && calls == []
    {
      this.stored, open, calls := stored, None, [];
    }

    /**
     Runs the work in a transaction. `work` gives the tables it leaves, or nothing when it throws; the flags say
     which statements succeed. Either all of the work is stored or nothing is, the connection is released exactly
     once and last, and a rollback is tried exactly when a transaction was begun and not committed. Only if that
     rollback fails too does the connection go back with the transaction still open.
     */
    method WithTransaction(work: T -> Option<T>, beginOk: bool, commitOk: bool, rollbackOk: bool) returns (done: bool)
      requires open.None? && calls == []
      modifies this
      ensures done <==> beginOk && work(old(stored)).Some? && commitOk
      ensures done ==> Some(stored) == work(old(stored))
      ensures !done ==> stored == old(stored)
      ensures calls != [] && calls[|calls| - 1] == Release && Release !in calls[..|calls| - 1]
      ensures Rollback in calls <==> beginOk && !done
      ensures Commit in calls <==> beginOk && work(old(stored)).Some?
      ensures open.Some? <==> beginOk && !done && !rollbackOk
    {
      done := false;
      calls := calls + [Begin];
      if beginOk {
        open := Some(stored);
        calls := calls + [Work];
        var result := work(stored);
        if result.Some? {
          open := result;
          calls := calls + [Commit];
          if commitOk {
            stored := open.value;
            open := None;
            done := true;
          }
        }
        if !done {
          calls := calls + [Rollback];
          if rollbackOk {
            open := None;
          }
        }
      }
      calls := calls + [Release];
    }
  }
}
