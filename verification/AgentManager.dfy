/** The periodic update of one backend: it starts the agents it does not know yet, then runs its two
    statements on the shared history. */
module AgentManager {
  import opened FailureDetector

  class Database {
    var history: Table
    constructor () ensures history == map[] { history := map[]; }
  }

  /** The ids of `listed` not in `known`, each once, in order. */
  function Unknown(known: set<nat>, listed: seq<nat>): seq<nat> {
    if listed == [] then []
    else
      var rest := Unknown(known, listed[..|listed| - 1]);
      var id := listed[|listed| - 1];
      if id in known || id in rest then rest else rest + [id]
  }

  /** Every listed agent the backend did not run is started exactly once, and no other. */
  lemma {:induction false} UnknownOnce(known: set<nat>, listed: seq<nat>)
    ensures forall id :: id in Unknown(known, listed) <==> id in listed && id !in known
    ensures forall i, j | 0 <= i < j < |Unknown(known, listed)| ::
              Unknown(known, listed)[i] != Unknown(known, listed)[j]
  {
    if listed != [] {
      var n := |listed| - 1;
      UnknownOnce(known, listed[..n]);
      assert listed == listed[..n] + [listed[n]];
    }
  }

  class Manager {
    const back: nat
    const db: Database
    var agents: set<nat>
    /** The agents whose init ran, in order. */
    ghost var started: seq<nat>

    constructor (back: nat, db: Database)
      ensures this.back == back && this.db == db && agents == {} && started == []
    {
      this.back := back;
      this.db := db;
      agents := {};
      started := [];
    }

    /** `listed` is the answer to the agent query. Without a connection nothing happens. */
    method UpdateAgents(connected: bool, listed: seq<nat>, now: int, ghost at: int)
      modifies this, db
      ensures !connected ==> unchanged(this) && unchanged(db)
      ensures connected ==> agents == old(agents) + set id | id in listed
      ensures connected ==> started == old(started) + Unknown(old(agents), listed)
      ensures connected ==>
                db.history == Run(old(db.history), [Beat(back, now, at), Scan(back, now, at)])
    {
      if !connected { return; }
      var i := 0;
      while i < |listed|
        invariant 0 <= i <= |listed| && db.history == old(db.history)
        invariant agents == old(agents) + set id | id in listed[..i]
        invariant started == old(started) + Unknown(old(agents), listed[..i])
      {
        UnknownOnce(old(agents), listed[..i]);
        assert listed[..i + 1] == listed[..i] + [listed[i]];
        assert listed[..i + 1][..i] == listed[..i];
        if listed[i] !in agents {
          agents := agents + {listed[i]};
          started := started + [listed[i]];
        }
        i := i + 1;
      }
      assert listed[..i] == listed;
      ghost var t, run := db.history, [Beat(back, now, at), Scan(back, now, at)];
      assert run[..1] == [run[0]] && run[..1][..0] == [];
      assert Run(t, run[..1][..0]) == t && Run(t, run[..1]) == Apply(t, run[0]);
      db.history := db.history[Key(back, now) := Row(0, 1)];
      db.history := db.history + FailedRows(db.history, now);
    }
  }
}
