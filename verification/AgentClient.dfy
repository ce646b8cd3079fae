/** The collect method of the agent client, loop by loop. */
module AgentClient {
  import opened Wrappers
  import opened Identities
  import opened LogBook
  import opened Collect
  import opened LogTheorems

  datatype Answer = Answer(timestamp: int, services: seq<Service>)

  class Client {
    var since: int
    var db: Db
    /** Every alert handed to the alerter. */
    ghost var alerts: seq<Alert>

    constructor (db: Db)
      ensures since == 0 && this.db == db && alerts == []
    {
      since := 0;
      this.db := db;
      alerts := [];
    }

    /** The log loop: known lines are skipped, the others inserted. */
    method ReadLogs(serv: nat, es: seq<Entry>) returns (text: string, level: nat)
      modifies this`db
      ensures Reading(db.book, text, level) == ReadEntries(Reading(old(db.book), "", 0), serv, es)
      ensures db == old(db).(book := db.book)
    {
      text, level := "", 0;
      var i := 0;
      while i < |es|
        invariant 0 <= i <= |es|
        invariant Reading(db.book, text, level) == ReadEntries(Reading(old(db.book), "", 0), serv, es[..i])
        invariant db == old(db).(book := db.book)
      {
        var e := es[i];
        assert es[..i + 1][..i] == es[..i];
        i := i + 1;
        if KeyOf(serv, e) in db.book.rows { continue; }
        text := text + e.text + "\n";
        var levels := Have(db.book.levels, Folded(e.level));
        var id := levels.of[Folded(e.level)];
        if level < id { level := id; }
        db := db.(book := Book(levels, db.book.rows[KeyOf(serv, e) := LogRow(e.ts, id, e.text)]));
      }
      assert es[..i] == es;
    }

    method ReadProcesses(serv: nat, ps: seq<Process>, now: int) returns (ok: nat, failed: nat, changed: nat)
      modifies this`db
      ensures Checked(db.processes, Tally(ok, failed, changed))
           == CheckProcesses(Checked(old(db.processes), Tally(0, 0, 0)), serv, ps, now)
      ensures db == old(db).(processes := db.processes)
    {
      ok, failed, changed := 0, 0, 0;
      var i := 0;
      while i < |ps|
        invariant 0 <= i <= |ps|
        invariant Checked(db.processes, Tally(ok, failed, changed))
               == CheckProcesses(Checked(old(db.processes), Tally(0, 0, 0)), serv, ps[..i], now)
        invariant db == old(db).(processes := db.processes)
      {
        var p := ps[i];
        var key, pid := Part(serv, p.name), 0;
        assert ps[..i + 1][..i] == ps[..i];
        if p.status == "ok" {
          ok := ok + 1;
          pid := p.pid;
        } else {
          if !(key in db.processes && db.processes[key].status == p.status) { changed := changed + 1; }
          failed := failed + 1;
        }
        db := db.(processes := db.processes[key := ProcessRow(p.path, p.cwd, p.user, pid, p.status, now)]);
        i := i + 1;
      }
      assert ps[..i] == ps;
    }

    /** The socket loop goes on counting where the process loop stopped. */
    method ReadSockets(serv: nat, ps: seq<Sock>, now: int, t: Tally) returns (ok: nat, failed: nat, changed: nat)
      modifies this`db
      ensures Checked(db.sockets, Tally(ok, failed, changed))
          == CheckSockets(Checked(old(db.sockets), t), serv, ps, now)
      ensures db == old(db).(sockets := db.sockets)
    {
      ok, failed, changed := t.ok, t.failed, t.changed;
      var i := 0;
      while i < |ps|
        invariant 0 <= i <= |ps|
        invariant Checked(db.sockets, Tally(ok, failed, changed))
               == CheckSockets(Checked(old(db.sockets), t), serv, ps[..i], now)
        invariant db == old(db).(sockets := db.sockets)
      {
        var p := ps[i];
        var key := Part(serv, p.name);
        assert ps[..i + 1][..i] == ps[..i];
        if p.status != "ok" {
          if !(key in db.sockets && db.sockets[key].status == p.status) { changed := changed + 1; }
          failed := failed + 1;
        } else {
          ok := ok + 1;
        }
        db := db.(sockets := db.sockets[key := SockRow(p.status, now)]);
        i := i + 1;
      }
      assert ps[..i] == ps;
    }

    /** One pass of the service loop. */
    method ReadService(v: Service, now: int, hosts: set<nat>) returns (hosts': set<nat>)
      modifies this`db, this`alerts
      ensures State(db, alerts, hosts') == CollectService(State(old(db), old(alerts), hosts), v, now)
    {
      ghost var s0 := State(db, alerts, hosts);
      var ids := Have(db.hosts, v.host);
      var h := ids.of[v.host];
      db := db.(hosts := ids, services := Have(db.services, ServiceName(h, v.name)), kinds := Have(db.kinds, v.kind));
      var serv, kind := db.services.of[ServiceName(h, v.name)], db.kinds.of[v.kind];
      hosts' := hosts + {h};
      ghost var s1 := Named(s0, v);
      assert s1 == State(db, alerts, hosts');
      hide Named, Have;
      var text, level := ReadLogs(serv, v.entries);
      if level > 0 { alerts := alerts + [LogAlert(h, serv, level, text)]; }
      ghost var s2 := Logged(s1, v);
      assert s2 == State(db, alerts, hosts');
      hide Logged, ReadEntries;
      var ok, failed, changed := ReadProcesses(serv, v.processes, now);
      ok, failed, changed := ReadSockets(serv, v.sockets, now, Tally(ok, failed, changed));
      if changed > 0 { alerts := alerts + [ServiceAlert(h, serv, v.name, v.shown, failed)]; }
      db := db.(kindOf := db.kindOf[serv := kind]);
      db := db.(history := Stored(db.history, Point(serv, now), failed, ok));
    }

    /** The service loop; returns the ids of the hosts seen. */
    method ReadServices(vs: seq<Service>, now: int) returns (hosts: set<nat>)
      modifies this`db, this`alerts
      ensures State(db, alerts, hosts) == CollectServices(State(old(db), old(alerts), {}), vs, now)
    {
      hide CollectService;
      hosts := {};
      var i := 0;
      ghost var s0 := State(db, alerts, {});
      while i < |vs|
        invariant 0 <= i <= |vs|
        invariant State(db, alerts, hosts) == CollectServices(s0, vs[..i], now)
      {
        assert vs[..i + 1][..i] == vs[..i];
        hosts := ReadService(vs[i], now, hosts);
        i := i + 1;
      }
      assert vs[..i] == vs;
    }

    /** `answer` is what the agent returned, if anything; `connected` tells whether the pool gave a
        connection. The answer's timestamp is kept even when there is none. */
    method Collect(answer: Option<Answer>, connected: bool, now: int)
      requires NamesValid(db)
      modifies this
      ensures answer.None? ==> unchanged(this)
      ensures answer.Some? ==> since == answer.value.timestamp
      ensures answer.Some? && !connected ==> db == old(db) && alerts == old(alerts)
      ensures answer.Some? && connected ==>
                var s := Collected(old(db), old(alerts), answer.value.services, now);
                db == s.db && alerts == s.alerts
    {
      hide NamesValid, WithMissing, CollectServices;
      if answer.None? { return; }
      since := answer.value.timestamp;
      if !connected { return; }
      LoopValid(db, alerts, answer.value.services, now);
      var hosts := ReadServices(answer.value.services, now);
      InsertMissing(hosts, now);
    }

    /** The loop over the hosts seen: one insert-select each. */
    method InsertMissing(hosts: set<nat>, now: int)
      requires Valid(db.services)
      modifies this`db
      ensures db == WithMissing(old(db), hosts, now)
    {
      hide Valid, MissingPoints;
      var left := hosts;
      ghost var done: set<nat> := {};
      NoneMissing(db, now);
      while left != {}
        invariant done !! left && done + left == hosts
        invariant db == WithMissing(old(db), done, now)
        decreases left
      {
        var h :| h in left;
        MissingSplit(old(db), done, h, now);
        db := db.(history := db.history + Missing(db, {h}, now));
        done := done + {h};
        left := left - {h};
      }
      assert done == hosts;
    }
  }

  lemma LoopValid(db: Db, alerts: seq<Alert>, vs: seq<Service>, now: int)
    requires NamesValid(db)
    ensures Valid(CollectServices(State(db, alerts, {}), vs, now).db.services)
  {
    hide Valid, CollectServices;
    ServicesTell(State(db, alerts, {}), vs, now);
  }

  lemma NoneMissing(db: Db, now: int)
    ensures WithMissing(db, {}, now) == db
  {
    assert MissingPoints(db, {}, now) == {};
    assert Missing(db, {}, now) == map[];
  }
}
