/** What one collect does to the database, as a function of the agent's answer. */
module Collect {
  import opened Identities
  import opened LogBook

  datatype Process = Process(name: string, path: string, cwd: string, user: string, pid: int, status: string)

  datatype Sock = Sock(name: string, status: string)

  /** One member of the answer's `services` object; its name is the member's key. */
  datatype Service = Service(name: string, host: string, shown: string, kind: string,
                             entries: seq<Entry>, processes: seq<Process>, sockets: seq<Sock>)

  /** The unique key of s$process and of s$sockets. */
  datatype Part = Part(serv: nat, name: string)

  datatype ProcessRow = ProcessRow(path: string, cwd: string, user: string, pid: int, status: string, ts: int)

  datatype SockRow = SockRow(status: string, ts: int)

  /** The unique key of s$services, and of s$history with its counters. */
  datatype ServiceName = ServiceName(host: nat, name: string)

  datatype Point = Point(serv: nat, ts: int)

  datatype Counts = Counts(failed: nat, missing: nat, ok: nat)

  datatype Alert =
    | LogAlert(host: nat, serv: nat, level: nat, text: string)
    | ServiceAlert(host: nat, serv: nat, name: string, shown: string, failed: nat)

  datatype Db = Db(hosts: Ids<string>, services: Ids<ServiceName>, kinds: Ids<string>, kindOf: map<nat, nat>,
                   book: Book,
                   processes: map<Part, ProcessRow>, sockets: map<Part, SockRow>, history: map<Point, Counts>)

  /** The state of the service loop; `hosts` holds the ids of the hosts seen so far. */
  datatype State = State(db: Db, alerts: seq<Alert>, hosts: set<nat>)

  // ---- Processes and sockets of one service ----

  datatype Tally = Tally(ok: nat, failed: nat, changed: nat)

  function Tallied(t: Tally, ok: bool, known: bool): Tally {
    if ok then t.(ok := t.ok + 1) else Tally(t.ok, t.failed + 1, if known then t.changed else t.changed + 1)
  }

  datatype Checked<R> = Checked(rows: map<Part, R>, tally: Tally)

  function CheckProcess(c: Checked<ProcessRow>, serv: nat, p: Process, now: int): Checked<ProcessRow> {
    var key, ok := Part(serv, p.name), p.status == "ok";
    Checked(c.rows[key := ProcessRow(p.path, p.cwd, p.user, if ok then p.pid else 0, p.status, now)],
            Tallied(c.tally, ok, key in c.rows && c.rows[key].status == p.status))
  }

  function CheckProcesses(c: Checked<ProcessRow>, serv: nat, ps: seq<Process>, now: int): Checked<ProcessRow> {
    if ps == [] then c else CheckProcess(CheckProcesses(c, serv, ps[..|ps| - 1], now), serv, ps[|ps| - 1], now)
  }

  function CheckSocket(c: Checked<SockRow>, serv: nat, p: Sock, now: int): Checked<SockRow> {
    var key := Part(serv, p.name);
    Checked(c.rows[key := SockRow(p.status, now)],
            Tallied(c.tally, p.status == "ok", key in c.rows && c.rows[key].status == p.status))
  }

  function CheckSockets(c: Checked<SockRow>, serv: nat, ps: seq<Sock>, now: int): Checked<SockRow> {
    if ps == [] then c else CheckSocket(CheckSockets(c, serv, ps[..|ps| - 1], now), serv, ps[|ps| - 1], now)
  }

  // ---- One service ----

  /** The get-or-create calls at the head of the loop. */
  function Named(s: State, v: Service): (s': State)
    ensures v.host in s'.db.hosts.of && ServiceName(s'.db.hosts.of[v.host], v.name) in s'.db.services.of
    ensures v.kind in s'.db.kinds.of
  {
    var hosts := Have(s.db.hosts, v.host);
    var h := hosts.of[v.host];
    s.(db := s.db.(hosts := hosts, services := Have(s.db.services, ServiceName(h, v.name)),
                   kinds := Have(s.db.kinds, v.kind)),
       hosts := s.hosts + {h})
  }

  predicate IsNamed(db: Db, v: Service) {
    v.host in db.hosts.of && ServiceName(db.hosts.of[v.host], v.name) in db.services.of
  }

  function HostId(db: Db, v: Service): nat requires IsNamed(db, v) { db.hosts.of[v.host] }

  function ServId(db: Db, v: Service): nat
    requires IsNamed(db, v)
  {
    db.services.of[ServiceName(HostId(db, v), v.name)]
  }

  /** The log loop and its alert. */
  function Logged(s: State, v: Service): State
    requires IsNamed(s.db, v)
  {
    var h, serv := HostId(s.db, v), ServId(s.db, v);
    var r := ReadEntries(Reading(s.db.book, "", 0), serv, v.entries);
    s.(db := s.db.(book := r.book),
       alerts := if r.level > 0 then s.alerts + [LogAlert(h, serv, r.level, r.text)] else s.alerts)
  }

  /** insert ... on duplicate key update failed, ok */
  function Stored(history: map<Point, Counts>, p: Point, failed: nat, ok: nat): map<Point, Counts> {
    history[p := Counts(failed, if p in history then history[p].missing else 0, ok)]
  }

  /** The process and socket loops, their alert, the type update and the history row. */
  function Measured(s: State, v: Service, now: int): State
    requires IsNamed(s.db, v) && v.kind in s.db.kinds.of
  {
    var h, serv := HostId(s.db, v), ServId(s.db, v);
    var p := CheckProcesses(Checked(s.db.processes, Tally(0, 0, 0)), serv, v.processes, now);
    var q := CheckSockets(Checked(s.db.sockets, p.tally), serv, v.sockets, now);
    var t := q.tally;
    s.(db := s.db.(processes := p.rows, sockets := q.rows, kindOf := s.db.kindOf[serv := s.db.kinds.of[v.kind]],
                   history := Stored(s.db.history, Point(serv, now), t.failed, t.ok)),
       alerts := if t.changed > 0 then s.alerts + [ServiceAlert(h, serv, v.name, v.shown, t.failed)] else s.alerts)
  }

  function CollectService(s: State, v: Service, now: int): State { Measured(Logged(Named(s, v), v), v, now) }

  function CollectServices(s: State, vs: seq<Service>, now: int): State {
    if vs == [] then s else CollectService(CollectServices(s, vs[..|vs| - 1], now), vs[|vs| - 1], now)
  }

  // ---- Missing services ----

  /** `serv` is in (select serv_id from s$history where timestamp >= now) */
  predicate Recorded(history: map<Point, Counts>, serv: nat, now: int) {
    exists p | p in history :: p.serv == serv && p.ts >= now
  }

  /** Every process and socket row of the service. */
  function StoredParts(db: Db, serv: nat): nat {
    |set k | k in db.processes && k.serv == serv| + |set k | k in db.sockets && k.serv == serv|
  }

  function MissingPoints(db: Db, hosts: set<nat>, now: int): set<Point> {
    set n | n in db.services.of && n.host in hosts && !Recorded(db.history, db.services.of[n], now) ::
      Point(db.services.of[n], now)
  }

  /** The rows of the insert-select for the services of `hosts`. */
  function Missing(db: Db, hosts: set<nat>, now: int): map<Point, Counts> {
    map p | p in MissingPoints(db, hosts, now) :: Counts(0, StoredParts(db, p.serv), 0)
  }

  function WithMissing(db: Db, hosts: set<nat>, now: int): Db {
    db.(history := db.history + Missing(db, hosts, now))
  }

  function Collected(db: Db, alerts: seq<Alert>, vs: seq<Service>, now: int): State {
    var s := CollectServices(State(db, alerts, {}), vs, now);
    s.(db := WithMissing(s.db, s.hosts, now))
  }

  ghost predicate NamesValid(db: Db) {
    Valid(db.hosts) && Valid(db.services) && Valid(db.kinds) && Valid(db.book.levels)
  }

  lemma MissingRow(db: Db, hosts: set<nat>, now: int, n: ServiceName)
    requires n in db.services.of && Valid(db.services)
    ensures Point(db.services.of[n], now) in Missing(db, hosts, now)
       <==> n.host in hosts && !Recorded(db.history, db.services.of[n], now)
  {
    var p := Point(db.services.of[n], now);
    if p in Missing(db, hosts, now) {
      var m :| m in db.services.of && m.host in hosts && !Recorded(db.history, db.services.of[m], now)
               && Point(db.services.of[m], now) == p;
      assert m == n;
    }
  }

  lemma PointsSplit(db: Db, done: set<nat>, h: nat, now: int)
    requires Valid(db.services) && h !in done
    ensures MissingPoints(db, done + {h}, now)
         == MissingPoints(db, done, now) + MissingPoints(WithMissing(db, done, now), {h}, now)
  {
    var db1 := WithMissing(db, done, now);
    forall n | n in db.services.of && n.host == h
      ensures Recorded(db1.history, db.services.of[n], now) == Recorded(db.history, db.services.of[n], now)
    {
      RecordedKept(db, done, now, n);
    }
    hide Recorded;
  }

  /** The statements of different hosts do not meet, so running them one host at a time inserts the
      rows of all hosts. */
  lemma MissingSplit(db: Db, done: set<nat>, h: nat, now: int)
    requires Valid(db.services) && h !in done
    ensures WithMissing(WithMissing(db, done, now), {h}, now) == WithMissing(db, done + {h}, now)
  {
    hide StoredParts, MissingPoints, Valid;
    var db1 := WithMissing(db, done, now);
    PointsSplit(db, done, h, now);
    forall serv ensures StoredParts(db1, serv) == StoredParts(db, serv) { PartsOnly(db, db1, serv); }
    assert Missing(db, done + {h}, now) == Missing(db, done, now) + Missing(db1, {h}, now);
    assert db.history + (Missing(db, done, now) + Missing(db1, {h}, now)) == db1.history + Missing(db1, {h}, now);
  }

  lemma PartsOnly(db: Db, db1: Db, serv: nat)
    requires db1.processes == db.processes && db1.sockets == db.sockets
    ensures StoredParts(db1, serv) == StoredParts(db, serv)
  {}

  lemma RecordedKept(db: Db, done: set<nat>, now: int, n: ServiceName)
    requires Valid(db.services) && n in db.services.of && n.host !in done
    ensures Recorded(WithMissing(db, done, now).history, db.services.of[n], now)
        == Recorded(db.history, db.services.of[n], now)
  {
    var history := WithMissing(db, done, now).history;
    forall p | p in history && p.serv == db.services.of[n]
      ensures p in db.history
    {
      if p in Missing(db, done, now) { MissingRow(db, done, now, n); }
    }
    forall p | p in db.history ensures p in history {}
  }
}
