/** The guard and the batch operations of the database as objects. */
module LockedTxn {
  import opened Tables
  import B = Batch

  class Database<D> {
    var committed: D
    var working: Option<D>
    ghost var started: nat
    ghost var closings: seq<B.Closing>

    ghost function View(): B.Db<D>
      reads this
    {
      B.Db(committed, working, started, closings)
    }

    constructor (data: D)
      ensures View() == B.Db(data, None, 0, [])
    {
      committed, working, started, closings := data, None, 0, [];
    }

    /** False when a batch is active already. */
    method BatchStart(fails: bool) returns (threw: bool, begun: bool)
      modifies this
      ensures threw == fails && (begun <==> !fails && !old(View()).Active())
      ensures View() == B.Opened(old(View()), fails).0
    {
      if fails { return true, false; }
      if working.Some? { return false, false; }
      working, started := Some(committed), started + 1;
      return false, true;
    }

    /** Cleans up whether or not the commit itself throws; a refusal comes before either. */
    method BatchStop(outcome: B.Outcome, ghost closer: nat) returns (threw: bool)
      modifies this
      ensures threw == (!outcome.Goes? || !old(View()).Active())
      ensures View() == B.Committed(old(View()), B.Guard(true, closer), outcome).0
    {
      if working.None? || outcome.Refused? { return true; }
      if outcome.Goes? { committed := working.value; }
      working, closings := None, closings + [B.Closing(started, closer)];
      threw := outcome.Breaks?;
    }

    method BatchAbort(fails: bool, ghost closer: nat) returns (threw: bool)
      modifies this
      ensures threw == (fails || !old(View()).Active())
      ensures View() == B.Aborted(old(View()), B.Guard(true, closer), fails).0
    {
      if working.None? || fails { return true; }
      working, closings := None, closings + [B.Closing(started, closer)];
      threw := false;
    }
  }

  class LockedTxn<D> {
    const db: Database<D>
    var batch: bool
    ghost var number: nat

    ghost function View(): B.Guard
      reads this
    {
      B.Guard(batch, number)
    }

    constructor (db: Database<D>, begun: bool)
      ensures this.db == db && View() == B.Guard(begun, if begun then db.started else 0)
    {
      this.db, batch, number := db, begun, if begun then db.started else 0;
    }

    /** The constructor proper: no guard comes into being when the start throws. */
    static method Open(db: Database<D>, fails: bool) returns (g: LockedTxn?<D>)
      modifies db
      ensures var (d, guard) := B.Opened(old(db.View()), fails);
              && db.View() == d && (g == null <==> guard.None?)
              && (g != null ==> fresh(g) && g.db == db && g.View() == guard.value)
    {
      var threw, begun := db.BatchStart(fails);
      if threw { return null; }
      g := new LockedTxn(db, begun);
    }

    /** The move constructor: the other guard gives up the batch. */
    constructor Move(o: LockedTxn<D>)
      modifies o
      ensures db == o.db && View() == old(o.View()) && o.View() == old(o.View()).(owns := false)
    {
      db, batch, number := o.db, o.batch, o.number;
      new;
      o.batch := false;
    }

    method Commit(outcome: B.Outcome)
      modifies this, db
      ensures (db.View(), View()) == B.Committed(old(db.View()), old(View()), outcome)
    {
      if batch {
        var threw := db.BatchStop(outcome, number);
        if !threw { batch := false; }
      }
    }

    method Abort(fails: bool)
      modifies this, db
      ensures (db.View(), View()) == B.Aborted(old(db.View()), old(View()), fails)
    {
      if batch {
        var threw := db.BatchAbort(fails, number);
        if !threw { batch := false; }
      }
    }

    method Destroy(fails: bool)
      modifies this, db
      ensures (db.View(), View()) == B.Aborted(old(db.View()), old(View()), fails)
    {
      Abort(fails);
    }
  }
}
