/** Every service of every host seen gets exactly one history row. */
module CollectTheorems {
  import opened Identities
  import opened LogBook
  import opened Collect
  import opened Reports

  // ---- Counting the parts of a service ----

  function Ok(v: Service): (n: nat)
    ensures n <= |v.processes| + |v.sockets|
  {
    OkCount(OfProcesses(v.processes)) + OkCount(OfSockets(v.sockets))
  }

  /** The counters a reported service must get. */
  function Outcome(v: Service): Counts { Counts(|v.processes| + |v.sockets| - Ok(v), 0, Ok(v)) }

  /** The rows of all other services are untouched. */
  ghost predicate OthersKept<R(!new)>(rows: map<Part, R>, rows': map<Part, R>, serv: nat) {
    forall k: Part | k.serv != serv :: (k in rows <==> k in rows') && (k in rows ==> rows'[k] == rows[k])
  }

  lemma {:induction false} ProcessesApart(c: Checked<ProcessRow>, serv: nat, ps: seq<Process>, now: int)
    ensures OthersKept(c.rows, CheckProcesses(c, serv, ps, now).rows, serv)
  {
    if ps != [] { ProcessesApart(c, serv, ps[..|ps| - 1], now); }
  }

  lemma {:induction false} SocketsApart(c: Checked<SockRow>, serv: nat, ps: seq<Sock>, now: int)
    ensures OthersKept(c.rows, CheckSockets(c, serv, ps, now).rows, serv)
  {
    if ps != [] { SocketsApart(c, serv, ps[..|ps| - 1], now); }
  }

  lemma ProcessesCounted(c: Checked<ProcessRow>, serv: nat, ps: seq<Process>, now: int)
    ensures var c' := CheckProcesses(c, serv, ps, now);
            && OthersKept(c.rows, c'.rows, serv)
            && c'.tally.ok == c.tally.ok + OkCount(OfProcesses(ps))
            && c'.tally.ok + c'.tally.failed == c.tally.ok + c.tally.failed + |ps|
  {
    hide CheckProcesses, CheckReports, OthersKept;
    ProcessesApart(c, serv, ps, now);
    ProcessesAreReports(c, serv, ps, now);
    ReportsCounted(Checked(OfProcessRows(c.rows), c.tally), serv, OfProcesses(ps));
  }

  lemma SocketsCounted(c: Checked<SockRow>, serv: nat, ps: seq<Sock>, now: int)
    ensures var c' := CheckSockets(c, serv, ps, now);
            && OthersKept(c.rows, c'.rows, serv)
            && c'.tally.ok == c.tally.ok + OkCount(OfSockets(ps))
            && c'.tally.ok + c'.tally.failed == c.tally.ok + c.tally.failed + |ps|
  {
    hide CheckSockets, CheckReports, OthersKept;
    SocketsApart(c, serv, ps, now);
    SocketsAreReports(c, serv, ps, now);
    ReportsCounted(Checked(OfSocketRows(c.rows), c.tally), serv, OfSockets(ps));
  }

  // ---- One service ----

  /** All that the history theorem needs of one pass of the service loop. */
  ghost predicate ServiceDone(s: State, v: Service, now: int, s': State) {
    && IsNamed(s'.db, v) && NamesValid(s'.db)
    && Extends(s.db.hosts, s'.db.hosts) && Extends(s.db.services, s'.db.services)
    && s'.hosts == s.hosts + {HostId(s'.db, v)}
    && v.kind in s'.db.kinds.of && Extends(s.db.kinds, s'.db.kinds)
    && s'.db.kindOf == s.db.kindOf[ServId(s'.db, v) := s'.db.kinds.of[v.kind]]
    && OthersKept(s.db.processes, s'.db.processes, ServId(s'.db, v))
    && OthersKept(s.db.sockets, s'.db.sockets, ServId(s'.db, v))
    && s'.db.history == Collect.Stored(s.db.history, Point(ServId(s'.db, v), now), Outcome(v).failed, Outcome(v).ok)
  }

  lemma NamedKeeps(s: State, v: Service)
    requires NamesValid(s.db)
    ensures var s' := Named(s, v);
            && NamesValid(s'.db) && IsNamed(s'.db, v) && v.kind in s'.db.kinds.of
            && Extends(s.db.hosts, s'.db.hosts) && Extends(s.db.services, s'.db.services)
            && Extends(s.db.kinds, s'.db.kinds)
            && s'.hosts == s.hosts + {HostId(s'.db, v)}
  {
    hide Valid, Extends, Have;
    HaveKeeps(s.db.hosts, v.host);
    HaveKeeps(s.db.services, ServiceName(Have(s.db.hosts, v.host).of[v.host], v.name));
    HaveKeeps(s.db.kinds, v.kind);
  }

  lemma LoggedKeeps(s: State, v: Service)
    requires NamesValid(s.db) && IsNamed(s.db, v)
    ensures NamesValid(Logged(s, v).db)
  {
    hide Valid, Fresh, ReadEntries, Grows;
    EntriesAdvance(Reading(s.db.book, "", 0), ServId(s.db, v), v.entries);
  }

  lemma ServiceStep(s: State, v: Service, now: int)
    requires NamesValid(s.db)
    ensures ServiceDone(s, v, now, CollectService(s, v, now))
  {
    hide Valid, Extends, Named, ReadEntries, CheckProcesses, CheckSockets, OthersKept, Collect.Stored;
    NamedKeeps(s, v);
    var s1 := Named(s, v);
    LoggedKeeps(s1, v);
    var s2 := Logged(s1, v);
    var serv := ServId(s2.db, v);
    var p := CheckProcesses(Checked(s2.db.processes, Tally(0, 0, 0)), serv, v.processes, now);
    ProcessesCounted(Checked(s2.db.processes, Tally(0, 0, 0)), serv, v.processes, now);
    SocketsCounted(Checked(s2.db.sockets, p.tally), serv, v.sockets, now);
    NamedFrame(s, v);
  }

  lemma NamedFrame(s: State, v: Service)
    ensures var d, d' := s.db, Named(s, v).db;
            d'.processes == d.processes && d'.sockets == d.sockets && d'.history == d.history && d'.kindOf == d.kindOf
  {}

  // ---- The service loop ----

  /** `serv` is one of the reported services. */
  ghost predicate IsReported(db: Db, vs: seq<Service>, serv: nat) {
    exists i | 0 <= i < |vs| :: Is(db, vs[i], serv)
  }

  predicate Is(db: Db, v: Service, serv: nat) { IsNamed(db, v) && ServId(db, v) == serv }

  predicate OnHost(db: Db, v: Service, h: nat) { v.host in db.hosts.of && db.hosts.of[v.host] == h }

  ghost predicate HostSeen(db: Db, vs: seq<Service>, h: nat) { exists i | 0 <= i < |vs| :: OnHost(db, vs[i], h) }

  /** The service has its row at `now`, and its type. */
  ghost predicate RowStored(s: State, v: Service, now: int) {
    && IsNamed(s.db, v) && HostId(s.db, v) in s.hosts
    && Point(ServId(s.db, v), now) in s.db.history
    && s.db.history[Point(ServId(s.db, v), now)] == Outcome(v)
    && ServId(s.db, v) in s.db.kindOf && v.kind in s.db.kinds.of
    && s.db.kindOf[ServId(s.db, v)] == s.db.kinds.of[v.kind]
  }

  ghost predicate RowsStored(s: State, vs: seq<Service>, now: int) {
    forall i | 0 <= i < |vs| :: RowStored(s, vs[i], now)
  }

  /** The stored history is kept, and every other row is one of a reported service, at `now`. */
  ghost predicate HistoryGrows(old_: map<Point, Counts>, s: State, vs: seq<Service>, now: int) {
    && (forall p | p in old_ :: p in s.db.history && s.db.history[p] == old_[p])
    && forall p | p in s.db.history && p !in old_ :: p.ts == now && IsReported(s.db, vs, p.serv)
  }

  /** A service that is not reported keeps its parts. */
  ghost predicate PartsKept<R(!new)>(rows: map<Part, R>, rows': map<Part, R>, db: Db, vs: seq<Service>) {
    forall k: Part | !IsReported(db, vs, k.serv) :: (k in rows <==> k in rows') && (k in rows ==> rows'[k] == rows[k])
  }

  ghost predicate Progress(db: Db, s: State, vs: seq<Service>, now: int) {
    && NamesValid(s.db) && Extends(db.hosts, s.db.hosts) && Extends(db.services, s.db.services)
    && RowsStored(s, vs, now)
    && (forall h | h in s.hosts :: HostSeen(s.db, vs, h))
    && HistoryGrows(db.history, s, vs, now)
    && PartsKept(db.processes, s.db.processes, s.db, vs) && PartsKept(db.sockets, s.db.sockets, s.db, vs)
  }

  /** The members of a JSON object have different names. */
  predicate Distinct(vs: seq<Service>) {
    forall i, j | 0 <= i < j < |vs| :: vs[i].name != vs[j].name
  }

  predicate Later(history: map<Point, Counts>, now: int) { forall p | p in history :: p.ts < now }

  lemma ReportedStep(s: State, vs: seq<Service>, s': State, serv: nat)
    requires vs != [] && Extends(s.db.hosts, s'.db.hosts) && Extends(s.db.services, s'.db.services)
    requires IsReported(s.db, vs[..|vs| - 1], serv) || Is(s'.db, vs[|vs| - 1], serv)
    ensures IsReported(s'.db, vs, serv)
  {
    var n := |vs| - 1;
    if Is(s'.db, vs[n], serv) {
    } else {
      var i :| 0 <= i < n && Is(s.db, vs[..n][i], serv);
      assert vs[..n][i] == vs[i] && Is(s'.db, vs[i], serv);
    }
  }

  lemma HostSeenStep(s: State, vs: seq<Service>, s': State, now: int, h: nat)
    requires vs != [] && ServiceDone(s, vs[|vs| - 1], now, s')
    requires h in s'.hosts && (h in s.hosts ==> HostSeen(s.db, vs[..|vs| - 1], h))
    ensures HostSeen(s'.db, vs, h)
  {
    var n := |vs| - 1;
    if h in s.hosts {
      var i :| 0 <= i < n && OnHost(s.db, vs[..n][i], h);
      assert vs[..n][i] == vs[i] && OnHost(s'.db, vs[i], h);
    } else {
      assert OnHost(s'.db, vs[n], h);
    }
  }

  /** Different names mean different ids, so a later service leaves an earlier one's row alone. */
  lemma RowKept(s: State, u: Service, v: Service, now: int, s': State)
    requires RowStored(s, u, now) && ServiceDone(s, v, now, s') && u.name != v.name
    ensures RowStored(s', u, now)
  {
    hide Outcome;
    assert ServId(s'.db, u) == ServId(s.db, u);
    assert ServId(s'.db, u) != ServId(s'.db, v);
  }

  lemma NotReportedBefore(s: State, vs: seq<Service>, now: int, s': State)
    requires vs != [] && Distinct(vs) && ServiceDone(s, vs[|vs| - 1], now, s')
    ensures !IsReported(s.db, vs[..|vs| - 1], ServId(s'.db, vs[|vs| - 1]))
  {
    var n := |vs| - 1;
    forall i | 0 <= i < n && IsNamed(s.db, vs[..n][i])
      ensures ServId(s.db, vs[..n][i]) != ServId(s'.db, vs[n])
    {
      assert vs[..n][i] == vs[i] && ServId(s.db, vs[i]) == ServId(s'.db, vs[i]);
    }
  }

  /** The row of the service just handled is new, so its missing count is 0. */
  lemma RowNew(db: Db, s: State, vs: seq<Service>, now: int, s': State)
    requires vs != [] && Distinct(vs) && Later(db.history, now)
    requires HistoryGrows(db.history, s, vs[..|vs| - 1], now) && ServiceDone(s, vs[|vs| - 1], now, s')
    ensures RowStored(s', vs[|vs| - 1], now)
  {
    hide OthersKept, IsReported;
    NotReportedBefore(s, vs, now, s');
  }

  lemma RowsStep(db: Db, s: State, vs: seq<Service>, now: int, s': State)
    requires vs != [] && Distinct(vs) && Later(db.history, now)
    requires RowsStored(s, vs[..|vs| - 1], now)
    requires HistoryGrows(db.history, s, vs[..|vs| - 1], now) && ServiceDone(s, vs[|vs| - 1], now, s')
    ensures RowsStored(s', vs, now)
  {
    var n := |vs| - 1;
    RowNew(db, s, vs, now, s');
    hide RowStored, ServiceDone, HistoryGrows;
    forall i | 0 <= i < n ensures RowStored(s', vs[i], now) {
      assert vs[..n][i] == vs[i];
      RowKept(s, vs[i], vs[n], now, s');
    }
  }

  lemma HistoryStep(db: Db, s: State, vs: seq<Service>, now: int, s': State)
    requires vs != [] && Later(db.history, now)
    requires HistoryGrows(db.history, s, vs[..|vs| - 1], now) && ServiceDone(s, vs[|vs| - 1], now, s')
    ensures HistoryGrows(db.history, s', vs, now)
  {
    hide Outcome, OthersKept, IsReported;
    var n := |vs| - 1;
    forall p | p in s'.db.history && p !in db.history
      ensures p.ts == now && IsReported(s'.db, vs, p.serv)
    {
      ReportedStep(s, vs, s', p.serv);
    }
  }

  lemma PartsStep<R(!new)>(rows: map<Part, R>, mid: map<Part, R>, rows': map<Part, R>, s: State, vs: seq<Service>,
          s': State)
    requires vs != [] && IsNamed(s'.db, vs[|vs| - 1])
    requires Extends(s.db.hosts, s'.db.hosts) && Extends(s.db.services, s'.db.services)
    requires PartsKept(rows, mid, s.db, vs[..|vs| - 1]) && OthersKept(mid, rows', ServId(s'.db, vs[|vs| - 1]))
    ensures PartsKept(rows, rows', s'.db, vs)
  {
    hide IsReported;
    forall k: Part | !IsReported(s'.db, vs, k.serv)
      ensures (k in rows <==> k in rows') && (k in rows ==> rows'[k] == rows[k])
    {
      if IsReported(s.db, vs[..|vs| - 1], k.serv) || Is(s'.db, vs[|vs| - 1], k.serv) {
        ReportedStep(s, vs, s', k.serv);
      }
    }
  }

  lemma ExtendsTrans<K(!new)>(a: Ids<K>, b: Ids<K>, c: Ids<K>)
    requires Extends(a, b) && Extends(b, c)
    ensures Extends(a, c)
  {}

  lemma ProgressStep(db: Db, s: State, vs: seq<Service>, now: int, s': State)
    requires vs != [] && Distinct(vs) && Later(db.history, now)
    requires Progress(db, s, vs[..|vs| - 1], now) && ServiceDone(s, vs[|vs| - 1], now, s')
    ensures Progress(db, s', vs, now)
  {
    hide RowsStored, HistoryGrows, PartsKept, HostSeen, Distinct, Later, Extends, OthersKept, Outcome;
    RowsStep(db, s, vs, now, s');
    HistoryStep(db, s, vs, now, s');
    PartsStep(db.processes, s.db.processes, s'.db.processes, s, vs, s');
    PartsStep(db.sockets, s.db.sockets, s'.db.sockets, s, vs, s');
    ExtendsTrans(db.hosts, s.db.hosts, s'.db.hosts);
    ExtendsTrans(db.services, s.db.services, s'.db.services);
    forall h | h in s'.hosts ensures HostSeen(s'.db, vs, h) {
      HostSeenStep(s, vs, s', now, h);
    }
  }

  lemma {:induction false} LoopProgress(db: Db, alerts: seq<Alert>, vs: seq<Service>, now: int)
    requires NamesValid(db) && Distinct(vs) && Later(db.history, now)
    ensures Progress(db, CollectServices(State(db, alerts, {}), vs, now), vs, now)
  {
    if vs != [] {
      hide Progress, NamesValid, CollectService, ServiceDone;
      var n := |vs| - 1;
      var s := CollectServices(State(db, alerts, {}), vs[..n], now);
      LoopProgress(db, alerts, vs[..n], now);
      ProgressValid(db, s, vs[..n], now);
      ServiceStep(s, vs[n], now);
      ProgressStep(db, s, vs, now, CollectService(s, vs[n], now));
    }
  }

  lemma ProgressValid(db: Db, s: State, vs: seq<Service>, now: int)
    requires Progress(db, s, vs, now)
    ensures NamesValid(s.db)
  {}

  // ---- One row each ----

  /** The host of the service was seen but the service itself was not reported. */
  ghost predicate IsMissing(s: State, vs: seq<Service>, n: ServiceName) {
    n in s.db.services.of && n.host in s.hosts && !IsReported(s.db, vs, s.db.services.of[n])
  }

  lemma ReportedHosts(db: Db, s: State, vs: seq<Service>, now: int, serv: nat)
    requires Progress(db, s, vs, now) && IsReported(s.db, vs, serv)
    ensures Point(serv, now) in s.db.history && OfSeenHost(s, serv)
  {
    var i :| 0 <= i < |vs| && Is(s.db, vs[i], serv);
    assert RowStored(s, vs[i], now);
    assert ServiceName(HostId(s.db, vs[i]), vs[i].name) in s.db.services.of;
  }

  lemma PartsCounted(db: Db, s: State, vs: seq<Service>, serv: nat)
    requires PartsKept(db.processes, s.db.processes, s.db, vs) && PartsKept(db.sockets, s.db.sockets, s.db, vs)
    requires !IsReported(s.db, vs, serv)
    ensures StoredParts(s.db, serv) == StoredParts(db, serv)
  {
    hide IsReported;
    assert (set k | k in s.db.processes && k.serv == serv) == set k | k in db.processes && k.serv == serv;
    assert (set k | k in s.db.sockets && k.serv == serv) == set k | k in db.sockets && k.serv == serv;
  }

  /** A missing service is not recorded at `now` by the loop, so the insert-select covers it. */
  lemma MissingCovered(db: Db, s: State, vs: seq<Service>, now: int, n: ServiceName)
    requires Progress(db, s, vs, now) && Later(db.history, now) && IsMissing(s, vs, n)
    ensures var p := Point(s.db.services.of[n], now);
            p !in s.db.history && p in Missing(s.db, s.hosts, now)
              && Missing(s.db, s.hosts, now)[p] == Counts(0, StoredParts(db, p.serv), 0)
  {
    hide StoredParts, IsReported, RowsStored, Extends, MissingPoints;
    PartsCounted(db, s, vs, s.db.services.of[n]);
    MissingRow(s.db, s.hosts, now, n);
  }

  /** Only missing services are covered. */
  lemma CoveredMissing(db: Db, s: State, vs: seq<Service>, now: int, p: Point) returns (n: ServiceName)
    requires Progress(db, s, vs, now) && p in Missing(s.db, s.hosts, now)
    ensures IsMissing(s, vs, n) && s.db.services.of[n] == p.serv && p.ts == now
  {
    n :| n in s.db.services.of && n.host in s.hosts && !Recorded(s.db.history, s.db.services.of[n], now)
         && Point(s.db.services.of[n], now) == p;
    hide Progress;
    if IsReported(s.db, vs, p.serv) {
      ReportedHosts(db, s, vs, now, p.serv);
    }
  }

  /** The rows one collect at `now` leaves behind: a reported service's row counts its components, a
      missing service's row counts the parts stored for it, every other row was there before, and
      nothing stored is lost. */
  ghost predicate OneRowEach(db: Db, s: State, vs: seq<Service>, now: int) {
    && RowsStored(s, vs, now)
    && (forall n | n in s.db.services.of && IsMissing(s, vs, n) :: MissingStored(db, s, s.db.services.of[n], now))
    && (forall p | p in db.history :: p in s.db.history && s.db.history[p] == db.history[p])
    && (forall p | p in s.db.history && p !in db.history :: p.ts == now && OfSeenHost(s, p.serv))
    && forall h | h in s.hosts :: HostSeen(s.db, vs, h)
  }

  predicate MissingStored(db: Db, s: State, serv: nat, now: int) {
    Point(serv, now) in s.db.history && s.db.history[Point(serv, now)] == Counts(0, StoredParts(db, serv), 0)
  }

  predicate OfSeenHost(s: State, serv: nat) {
    exists n | n in s.db.services.of :: s.db.services.of[n] == serv && n.host in s.hosts
  }

  function Final(s: State, now: int): State { s.(db := WithMissing(s.db, s.hosts, now)) }

  lemma ReportedNotCovered(s: State, v: Service, now: int)
    requires Valid(s.db.services) && RowStored(s, v, now)
    ensures Point(ServId(s.db, v), now) !in Missing(s.db, s.hosts, now)
  {
    hide Missing;
    MissingRow(s.db, s.hosts, now, ServiceName(HostId(s.db, v), v.name));
  }

  lemma PartitionRows(db: Db, s: State, vs: seq<Service>, now: int)
    requires Progress(db, s, vs, now)
    ensures RowsStored(Final(s, now), vs, now)
  {
    hide Missing, Outcome;
    forall i | 0 <= i < |vs| ensures RowStored(Final(s, now), vs[i], now) {
      ReportedNotCovered(s, vs[i], now);
    }
  }

  lemma ReportedSame(s: State, vs: seq<Service>, now: int, serv: nat)
    ensures IsReported(Final(s, now).db, vs, serv) <==> IsReported(s.db, vs, serv)
  {
    forall i | 0 <= i < |vs| ensures Is(Final(s, now).db, vs[i], serv) <==> Is(s.db, vs[i], serv) {}
  }

  lemma PartitionMissing(db: Db, s: State, vs: seq<Service>, now: int, n: ServiceName)
    requires Progress(db, s, vs, now) && Later(db.history, now) && IsMissing(Final(s, now), vs, n)
    ensures MissingStored(db, Final(s, now), s.db.services.of[n], now)
  {
    ReportedSame(s, vs, now, s.db.services.of[n]);
    MissingCovered(db, s, vs, now, n);
  }

  lemma PartitionOnly(db: Db, s: State, vs: seq<Service>, now: int, p: Point)
    requires Progress(db, s, vs, now)
    requires p in Final(s, now).db.history && p !in db.history
    ensures p.ts == now && OfSeenHost(Final(s, now), p.serv)
  {
    hide Missing, IsReported;
    if p in Missing(s.db, s.hosts, now) {
      var n := CoveredMissing(db, s, vs, now, p);
    } else {
      ReportedHosts(db, s, vs, now, p.serv);
    }
  }

  /** An insert-select never meets a row that is there already. */
  lemma MissingIsNew(db: Db, hosts: set<nat>, now: int, p: Point)
    requires p in Missing(db, hosts, now)
    ensures p !in db.history
  {}

  /** One collect, started later than all stored history: every service of every host seen gets
      exactly one row at that time, with failed+ok equal to its reported components or missing equal
      to its stored ones, and no other row changes. */
  lemma CollectPartitions(db: Db, alerts: seq<Alert>, vs: seq<Service>, now: int)
    requires NamesValid(db) && Distinct(vs) && Later(db.history, now)
    ensures OneRowEach(db, Collected(db, alerts, vs, now), vs, now)
  {
    var s := CollectServices(State(db, alerts, {}), vs, now);
    LoopProgress(db, alerts, vs, now);
    PartitionAll(db, s, vs, now);
  }

  lemma PartitionAll(db: Db, s: State, vs: seq<Service>, now: int)
    requires Progress(db, s, vs, now) && Later(db.history, now)
    ensures OneRowEach(db, Final(s, now), vs, now)
  {
    hide RowsStored, MissingStored, OfSeenHost, IsMissing, PartsKept, Extends, Valid, IsReported, Missing;
    var f := Final(s, now);
    PartitionRows(db, s, vs, now);
    forall n | n in f.db.services.of && IsMissing(f, vs, n) ensures MissingStored(db, f, f.db.services.of[n], now) {
      PartitionMissing(db, s, vs, now, n);
    }
    forall p | p in db.history ensures p in f.db.history && f.db.history[p] == db.history[p] {
      if p in Missing(s.db, s.hosts, now) { MissingIsNew(s.db, s.hosts, now, p); }
    }
    forall p | p in f.db.history && p !in db.history ensures p.ts == now && OfSeenHost(f, p.serv) {
      PartitionOnly(db, s, vs, now, p);
    }
    forall h | h in f.hosts ensures HostSeen(f.db, vs, h) {
      SeenSame(s, vs, now, h);
    }
  }

  lemma SeenSame(s: State, vs: seq<Service>, now: int, h: nat)
    requires HostSeen(s.db, vs, h)
    ensures HostSeen(Final(s, now).db, vs, h)
  {
    var i :| 0 <= i < |vs| && OnHost(s.db, vs[i], h);
    assert OnHost(Final(s, now).db, vs[i], h);
  }
}
