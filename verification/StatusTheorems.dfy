/** What a service's components leave behind, and when a service alert goes out. */
module StatusTheorems {
  import opened Identities
  import opened LogBook
  import opened Collect
  import opened CollectTheorems
  import opened Reports

  /** The row of a process is what the last report of its name says; a failed one has no pid. */
  lemma {:induction false} ProcessRowIs(c: Checked<ProcessRow>, serv: nat, ps: seq<Process>, now: int, i: nat)
    requires i < |ps| && forall k | i < k < |ps| :: ps[k].name != ps[i].name
    ensures var rows, p, key := CheckProcesses(c, serv, ps, now).rows, ps[i], Part(serv, ps[i].name);
            && key in rows && rows[key].path == p.path && rows[key].cwd == p.cwd && rows[key].user == p.user
            && rows[key].status == p.status && rows[key].ts == now
            && rows[key].pid == if p.status == "ok" then p.pid else 0
  {
    if i < |ps| - 1 { ProcessRowIs(c, serv, ps[..|ps| - 1], now, i); }
  }

  lemma {:induction false} SocketRowIs(c: Checked<SockRow>, serv: nat, ps: seq<Sock>, now: int, i: nat)
    requires i < |ps| && forall k | i < k < |ps| :: ps[k].name != ps[i].name
    ensures var rows, key := CheckSockets(c, serv, ps, now).rows, Part(serv, ps[i].name);
            key in rows && rows[key] == SockRow(ps[i].status, now)
  {
    if i < |ps| - 1 { SocketRowIs(c, serv, ps[..|ps| - 1], now, i); }
  }

  /** A name that is not reported keeps its row, or stays without one. */
  lemma {:induction false} ProcessElse(c: Checked<ProcessRow>, serv: nat, ps: seq<Process>, now: int, name: string)
    requires forall i | 0 <= i < |ps| :: ps[i].name != name
    ensures var (rows, key) := (CheckProcesses(c, serv, ps, now).rows, Part(serv, name));
            (key in rows <==> key in c.rows) && (key in rows ==> rows[key] == c.rows[key])
  {
    if ps != [] { ProcessElse(c, serv, ps[..|ps| - 1], now, name); }
  }

  lemma {:induction false} SocketElse(c: Checked<SockRow>, serv: nat, ps: seq<Sock>, now: int, name: string)
    requires forall i | 0 <= i < |ps| :: ps[i].name != name
    ensures var (rows, key) := (CheckSockets(c, serv, ps, now).rows, Part(serv, name));
            (key in rows <==> key in c.rows) && (key in rows ==> rows[key] == c.rows[key])
  {
    if ps != [] { SocketElse(c, serv, ps[..|ps| - 1], now, name); }
  }

  lemma PassTables(s: State, v: Service, now: int) returns (t: Tally)
    ensures var db := CollectService(s, v, now).db;
            && IsNamed(db, v)
            && db.processes
            == CheckProcesses(Checked(s.db.processes, Tally(0, 0, 0)), ServId(db, v), v.processes, now).rows
            && db.sockets == CheckSockets(Checked(s.db.sockets, t), ServId(db, v), v.sockets, now).rows
  {
    hide CheckProcesses, CheckSockets, ReadEntries, Have, Stored;
    var db := CollectService(s, v, now).db;
    t := CheckProcesses(Checked(s.db.processes, Tally(0, 0, 0)), ServId(db, v), v.processes, now).tally;
  }

  /** One pass over a service stores, under its id, the last report of every process name. */
  lemma PassProcess(s: State, v: Service, now: int, i: nat)
    requires i < |v.processes| && forall k | i < k < |v.processes| :: v.processes[k].name != v.processes[i].name
    ensures var (db, p) := (CollectService(s, v, now).db, v.processes[i]);
            && IsNamed(db, v) && Part(ServId(db, v), p.name) in db.processes
            && db.processes[Part(ServId(db, v), p.name)]
            == ProcessRow(p.path, p.cwd, p.user, if p.status == "ok" then p.pid else 0, p.status, now)
  {
    hide CollectService, CheckProcesses;
    var t := PassTables(s, v, now);
    ProcessRowIs(Checked(s.db.processes, Tally(0, 0, 0)), ServId(CollectService(s, v, now).db, v), v.processes, now, i);
  }

  /** The same for its sockets. */
  lemma PassSocket(s: State, v: Service, now: int, i: nat)
    requires i < |v.sockets| && forall k | i < k < |v.sockets| :: v.sockets[k].name != v.sockets[i].name
    ensures var (db, p) := (CollectService(s, v, now).db, v.sockets[i]);
            && IsNamed(db, v) && Part(ServId(db, v), p.name) in db.sockets
            && db.sockets[Part(ServId(db, v), p.name)] == SockRow(p.status, now)
  {
    hide CollectService, CheckSockets;
    var t := PassTables(s, v, now);
    SocketRowIs(Checked(s.db.sockets, t), ServId(CollectService(s, v, now).db, v), v.sockets, now, i);
  }

  /** It leaves the rows of the names it does not report alone. */
  lemma PassElse(s: State, v: Service, now: int, name: string)
    ensures var db := CollectService(s, v, now).db;
            && IsNamed(db, v)
            && var key := Part(ServId(db, v), name);
            && ((forall i | 0 <= i < |v.processes| :: v.processes[i].name != name) ==>
                  && (key in db.processes <==> key in s.db.processes)
                  && (key in db.processes ==> db.processes[key] == s.db.processes[key]))
            && ((forall i | 0 <= i < |v.sockets| :: v.sockets[i].name != name) ==>
                  && (key in db.sockets <==> key in s.db.sockets)
                  && (key in db.sockets ==> db.sockets[key] == s.db.sockets[key]))
  {
    hide CollectService, CheckProcesses, CheckSockets;
    var t := PassTables(s, v, now);
    var serv := ServId(CollectService(s, v, now).db, v);
    if forall i | 0 <= i < |v.processes| :: v.processes[i].name != name {
      ProcessElse(Checked(s.db.processes, Tally(0, 0, 0)), serv, v.processes, now, name);
    }
    if forall i | 0 <= i < |v.sockets| :: v.sockets[i].name != name {
      SocketElse(Checked(s.db.sockets, t), serv, v.sockets, now, name);
    }
  }

  /** The pass over a service sends one service alert, with the number of failed components, iff some
      component failed in another way than it was last known to, from this answer or from the tables,
      and none otherwise. */
  lemma ServiceAlertIff(s: State, v: Service, now: int)
    requires IsNamed(s.db, v) && v.kind in s.db.kinds.of
    ensures var serv, s' := ServId(s.db, v), Measured(s, v, now);
            if SomeTurned(OfProcessRows(s.db.processes), serv, OfProcesses(v.processes))
               || SomeTurned(OfSocketRows(s.db.sockets), serv, OfSockets(v.sockets)) then
              s'.alerts == s.alerts + [ServiceAlert(HostId(s.db, v), serv, v.name, v.shown, Outcome(v).failed)]
            else s'.alerts == s.alerts
  {
    hide SomeTurned, CheckProcesses, CheckSockets, Stored, OthersKept, OfProcessRows, OfSocketRows, CheckReports;
    var serv := ServId(s.db, v);
    var p := CheckProcesses(Checked(s.db.processes, Tally(0, 0, 0)), serv, v.processes, now);
    ProcessesAreReports(Checked(s.db.processes, Tally(0, 0, 0)), serv, v.processes, now);
    ReportsTurn(Checked(OfProcessRows(s.db.processes), Tally(0, 0, 0)), serv, OfProcesses(v.processes));
    SocketsAreReports(Checked(s.db.sockets, p.tally), serv, v.sockets, now);
    ReportsTurn(Checked(OfSocketRows(s.db.sockets), p.tally), serv, OfSockets(v.sockets));
    ProcessesCounted(Checked(s.db.processes, Tally(0, 0, 0)), serv, v.processes, now);
    SocketsCounted(Checked(s.db.sockets, p.tally), serv, v.sockets, now);
  }
}
