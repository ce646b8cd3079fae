/** The history rows of a collect in numbers: how many components, which services. */
module CollectRows {
  import opened Identities
  import opened Collect
  import opened CollectTheorems
  import opened Reports

  // ---- Reported services ----

  /** The reports with (`good`) or without the status "ok". */
  function Alike(rs: seq<Report>, good: bool): set<nat> { set i | 0 <= i < |rs| && (rs[i].status == "ok") == good }

  lemma AlikeStep(rs: seq<Report>, good: bool)
    requires rs != []
    ensures var n := |rs| - 1;
            |Alike(rs, good)| == |Alike(rs[..n], good)| + if (rs[n].status == "ok") == good then 1 else 0
  {
    var n := |rs| - 1;
    assert Alike(rs, good) == Alike(rs[..n], good) + if (rs[n].status == "ok") == good then {n} else {};
  }

  lemma {:induction false} OkCountIs(rs: seq<Report>)
    ensures OkCount(rs) == |Alike(rs, true)| && |rs| - OkCount(rs) == |Alike(rs, false)|
  {
    if rs != [] {
      hide Alike;
      OkCountIs(rs[..|rs| - 1]);
      AlikeStep(rs, true);
      AlikeStep(rs, false);
    }
  }

  /** The processes and sockets of the service with (`good`) or without the status "ok". */
  function Components(v: Service, good: bool): nat {
    |set i | 0 <= i < |v.processes| && (v.processes[i].status == "ok") == good|
      + |set i | 0 <= i < |v.sockets| && (v.sockets[i].status == "ok") == good|
  }

  lemma ComponentsAre(v: Service, good: bool)
    ensures Components(v, good) == |Alike(OfProcesses(v.processes), good)| + |Alike(OfSockets(v.sockets), good)|
  {
    assert Alike(OfProcesses(v.processes), good)
        == set i | 0 <= i < |v.processes| && (v.processes[i].status == "ok") == good;
    assert Alike(OfSockets(v.sockets), good) == set i | 0 <= i < |v.sockets| && (v.sockets[i].status == "ok") == good;
  }

  lemma OutcomeCounts(v: Service)
    ensures Outcome(v) == Counts(Components(v, false), 0, Components(v, true))
  {
    hide OkCount, Alike, Components;
    OkCountIs(OfProcesses(v.processes));
    OkCountIs(OfSockets(v.sockets));
    ComponentsAre(v, true);
    ComponentsAre(v, false);
  }

  /** One pass writes one history row: the failed and the good components, and a missing count that an
      earlier row of the same time keeps. */
  lemma PassRow(s: State, v: Service, now: int)
    requires NamesValid(s.db)
    ensures var db := CollectService(s, v, now).db;
            && IsNamed(db, v)
            && var p := Point(ServId(db, v), now);
            && db.history.Keys == s.db.history.Keys + {p}
            && (forall q | q in s.db.history && q != p :: db.history[q] == s.db.history[q])
            && db.history[p].failed == Components(v, false) && db.history[p].ok == Components(v, true)
            && db.history[p].missing == if p in s.db.history then s.db.history[p].missing else 0
  {
    hide Outcome, Components, CollectService, OthersKept, Extends, NamesValid;
    ServiceStep(s, v, now);
    OutcomeCounts(v);
  }

  // ---- Missing services ----

  /** The insert-select covers a service iff it is on one of the hosts and has no row at `now` or later. */
  lemma CoveredIff(db: Db, hosts: set<nat>, now: int, n: ServiceName)
    requires n in db.services.of && Valid(db.services)
    ensures Point(db.services.of[n], now) in Missing(db, hosts, now) <==>
            n.host in hosts && forall p | p in db.history && p.serv == db.services.of[n] :: p.ts < now
  {
    MissingRow(db, hosts, now, n);
    hide Missing;
  }

  /** On the host of some answering service, but not one of them. */
  ghost predicate Silent(db: Db, vs: seq<Service>, n: ServiceName) {
    && n in db.services.of && HostSeen(db, vs, n.host)
    && forall i | 0 <= i < |vs| && vs[i].name == n.name :: !OnHost(db, vs[i], n.host)
  }

  /** The row of an answering service: its failed and its good components. */
  predicate Counted(history: map<Point, Counts>, p: Point, v: Service) {
    && p in history && history[p].missing == 0
    && history[p].failed == Components(v, false) && history[p].ok == Components(v, true)
  }

  /** The row of a silent service: the processes and sockets the tables hold for it. */
  predicate Missed(history: map<Point, Counts>, p: Point, db: Db) {
    && p in history && history[p].failed == 0 && history[p].ok == 0
    && history[p].missing
    == |set k | k in db.processes && k.serv == p.serv| + |set k | k in db.sockets && k.serv == p.serv|
  }

  lemma SilentIsMissing(db: Db, s: State, vs: seq<Service>, now: int, n: ServiceName)
    requires OneRowEach(db, s, vs, now) && Valid(s.db.services) && Valid(s.db.hosts) && Silent(s.db, vs, n)
    ensures IsMissing(s, vs, n)
  {
    hide Outcome;
    var i :| 0 <= i < |vs| && OnHost(s.db, vs[i], n.host);
    assert RowStored(s, vs[i], now);
    forall j | 0 <= j < |vs| ensures !Is(s.db, vs[j], s.db.services.of[n]) {
      assert vs[j].name == n.name ==> !OnHost(s.db, vs[j], n.host);
    }
  }

  /** The rows one collect, started later than all stored history, leaves at `now`. */
  lemma RowsInNumbers(db: Db, alerts: seq<Alert>, vs: seq<Service>, now: int)
    requires NamesValid(db) && Distinct(vs) && Later(db.history, now)
    ensures var t := Collected(db, alerts, vs, now).db;
            && (forall i | 0 <= i < |vs| ::
                  IsNamed(t, vs[i]) && Counted(t.history, Point(ServId(t, vs[i]), now), vs[i]))
            && (forall n | Silent(t, vs, n) :: Missed(t.history, Point(t.services.of[n], now), db))
  {
    hide Collected, Outcome, Components, Distinct, Later, NamesValid;
    var s := Collected(db, alerts, vs, now);
    CollectPartitions(db, alerts, vs, now);
    CollectedValid(db, alerts, vs, now);
    forall i | 0 <= i < |vs|
      ensures IsNamed(s.db, vs[i]) && Counted(s.db.history, Point(ServId(s.db, vs[i]), now), vs[i])
    {
      assert RowStored(s, vs[i], now);
      OutcomeCounts(vs[i]);
    }
    forall n | Silent(s.db, vs, n) ensures Missed(s.db.history, Point(s.db.services.of[n], now), db) {
      SilentIsMissing(db, s, vs, now, n);
      assert MissingStored(db, s, s.db.services.of[n], now);
    }
  }

  lemma CollectedValid(db: Db, alerts: seq<Alert>, vs: seq<Service>, now: int)
    requires NamesValid(db) && Distinct(vs) && Later(db.history, now)
    ensures Valid(Collected(db, alerts, vs, now).db.services) && Valid(Collected(db, alerts, vs, now).db.hosts)
  {
    hide Valid, CollectServices, RowsStored, HistoryGrows, Missing;
    LoopProgress(db, alerts, vs, now);
  }
}
