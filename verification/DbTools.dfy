/** The pool and the objects that draw on it: what a whole call does, as a run of the machine's
    steps. */
module DbTools {
  import opened Wrappers
  import opened DbPool

  class Pool {
    const poolSize: nat
    var usedCount: int
    /** The objects that use the pool, where each thread is, and the grabs whose connection no object
        received. */
    ghost var tools: set<Tools>
    ghost var threads: map<nat, Pc>
    ghost var lost: nat

    constructor (poolSize: nat, ghost threads: set<nat>)
      ensures this.poolSize == poolSize && Valid() && Abs() == Idle(threads) && tools == {}
    {
      this.poolSize := poolSize;
      usedCount, lost, tools := 0, 0, {};
      this.threads := Idle(threads).threads;
    }

    ghost predicate Valid()
      reads this, tools
    {
      && (forall o | o in tools :: o.dbp == this)
      && forall a, b | a in tools && b in tools && a.id == b.id :: a == b
    }

    /** The state of the machine: an object holds a connection when its `db` is set. */
    ghost function Abs(): World
      reads this, tools
    {
      World(threads, set o | o in tools && o.db.Some? :: o.id, usedCount, lost)
    }
  }

  /** The steps of a call of grab by thread `t` for object `o`. */
  function GrabSteps(t: nat, o: nat, held: bool, asleep: bool, got: bool): seq<Event> {
    if held then [Ask(t, o)] else [Ask(t, o)] + WakeSteps(t, asleep, got)
  }

  /** From the test of the guard on. */
  function WakeSteps(t: nat, asleep: bool, got: bool): seq<Event> {
    if asleep then [Check(t)] else [Check(t)] + ([Count(t)] + [if got then Take(t) else Lose(t, false)])
  }

  /** An object that works on the database through at most one connection of the pool. */
  class Tools {
    const id: nat
    const dbp: Pool
    var db: Option<nat>

    constructor (id: nat, dbp: Pool)
      requires dbp.Valid() && forall o | o in dbp.tools :: o.id != id
      modifies dbp`tools
      ensures this.id == id && this.dbp == dbp && db == None
      ensures dbp.Valid() && dbp.tools == old(dbp.tools) + {this} && dbp.Abs() == old(dbp.Abs())
    {
      this.id, this.dbp, db := id, dbp, None;
      new;
      dbp.tools := dbp.tools + {this};
      assert dbp.Abs().holding == old(dbp.Abs()).holding;
    }

    /** One call of grab, undisturbed: `connection` is what the pool hands out, if anything. */
    method Grab(connection: Option<nat>, ghost t: nat) returns (asleep: bool, r: bool)
      requires dbp.Valid() && this in dbp.tools
      requires t in dbp.threads && dbp.threads[t].Free? && !Busy(dbp.Abs(), id)
      modifies this`db, dbp`usedCount, dbp`threads, dbp`lost
      ensures dbp.Valid()
      ensures Run(old(dbp.Abs()), dbp.poolSize, GrabSteps(t, id, old(db).Some?, asleep, connection.Some?), dbp.Abs())
      ensures r <==> db.Some?
      ensures db == if old(db).Some? then old(db) else if asleep then None else connection
    {
      if db.Some? {
        RunOne(dbp.Abs(), dbp.poolSize, Ask(t, id));
        return false, true;
      }
      ghost var w := dbp.Abs();
      dbp.threads := dbp.threads[t := Waiting(id)];
      assert dbp.Abs() == Apply(w, dbp.poolSize, Ask(t, id));
      asleep, r := Wake(connection, t);
      RunCons(w, dbp.poolSize, Ask(t, id), WakeSteps(t, asleep, connection.Some?), dbp.Abs());
    }

    /** The loop of the pool's grab, each time a thread reaches its test: it sleeps while the guard is
        true, otherwise it counts one up and takes what it gets. */
    method Wake(connection: Option<nat>, ghost t: nat) returns (asleep: bool, r: bool)
      requires dbp.Valid() && this in dbp.tools && db.None?
      requires t in dbp.threads && dbp.threads[t] == Waiting(id)
      modifies this`db, dbp`usedCount, dbp`threads, dbp`lost
      ensures dbp.Valid()
      ensures Run(old(dbp.Abs()), dbp.poolSize, WakeSteps(t, asleep, connection.Some?), dbp.Abs())
      ensures r <==> db.Some?
      ensures db == if asleep then None else connection
    {
      hide Run, Busy;
      ghost var size, w := dbp.poolSize, dbp.Abs();
      if dbp.usedCount > dbp.poolSize {
        RunOne(w, size, Check(t));
        return true, false;
      }
      dbp.usedCount := dbp.usedCount + 1;
      ghost var w1, w2 := Set(w, t, Passed(id)), Set(w, t, Counted(id)).(used := w.used + 1);
      assert Set(w1, t, Counted(id)).threads == w2.threads;
      db := connection;
      dbp.threads := dbp.threads[t := Free];
      if db.None? { dbp.lost := dbp.lost + 1; }
      ghost var last := if connection.Some? then Take(t) else Lose(t, false);
      assert dbp.Abs() == Apply(w2, size, last) by {
        assert Set(w2, t, Free).threads == dbp.threads;
        assert connection.Some? ==> dbp.Abs().holding == w.holding + {id};
        assert connection.None? ==> dbp.Abs().holding == w.holding;
      }
      RunOne(w2, size, last);
      RunCons(w1, size, Count(t), [last], dbp.Abs());
      RunCons(w, size, Check(t), [Count(t)] + [last], dbp.Abs());
      asleep, r := false, db.Some?;
    }

    method Release(ghost t: nat)
      requires dbp.Valid() && this in dbp.tools
      requires t in dbp.threads && dbp.threads[t].Free? && !Busy(dbp.Abs(), id)
      modifies this`db, dbp`usedCount
      ensures dbp.Valid() && db.None?
      ensures Run(old(dbp.Abs()), dbp.poolSize, [Return(t, id)], dbp.Abs())
    {
      ghost var w := dbp.Abs();
      RunOne(w, dbp.poolSize, Return(t, id));
      if db.None? {
        assert id !in w.holding;
        return;
      }
      dbp.usedCount := dbp.usedCount - 1;
      db := None;
      assert dbp.Abs().holding == w.holding - {id};
    }
  }
}
