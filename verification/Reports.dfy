/** Processes and sockets alike, as reports of a name and a status: what the two loops count. */
module Reports {
  import opened Wrappers
  import opened Collect

  datatype Report = Report(name: string, status: string)

  function OfProcesses(ps: seq<Process>): seq<Report> {
    seq(|ps|, i requires 0 <= i < |ps| => Report(ps[i].name, ps[i].status))
  }

  function OfSockets(ps: seq<Sock>): seq<Report> {
    seq(|ps|, i requires 0 <= i < |ps| => Report(ps[i].name, ps[i].status))
  }

  function OfProcessRows(rows: map<Part, ProcessRow>): map<Part, string> { map k | k in rows :: rows[k].status }

  function OfSocketRows(rows: map<Part, SockRow>): map<Part, string> { map k | k in rows :: rows[k].status }

  function CheckReport(c: Checked<string>, serv: nat, r: Report): Checked<string> {
    var key := Part(serv, r.name);
    Checked(c.rows[key := r.status], Tallied(c.tally, r.status == "ok", key in c.rows && c.rows[key] == r.status))
  }

  function CheckReports(c: Checked<string>, serv: nat, rs: seq<Report>): Checked<string> {
    if rs == [] then c else CheckReport(CheckReports(c, serv, rs[..|rs| - 1]), serv, rs[|rs| - 1])
  }

  lemma ProcessIsReport(c: Checked<ProcessRow>, serv: nat, p: Process, now: int)
    ensures var c' := CheckProcess(c, serv, p, now);
            CheckReport(Checked(OfProcessRows(c.rows), c.tally), serv, Report(p.name, p.status))
            == Checked(OfProcessRows(c'.rows), c'.tally)
  {
    hide Tallied;
  }

  lemma {:induction false} ProcessesAreReports(c: Checked<ProcessRow>, serv: nat, ps: seq<Process>, now: int)
    ensures var c' := CheckProcesses(c, serv, ps, now);
            CheckReports(Checked(OfProcessRows(c.rows), c.tally), serv, OfProcesses(ps))
            == Checked(OfProcessRows(c'.rows), c'.tally)
  {
    if ps != [] {
      var n := |ps| - 1;
      ProcessesAreReports(c, serv, ps[..n], now);
      assert OfProcesses(ps)[..n] == OfProcesses(ps[..n]);
      assert OfProcesses(ps)[n] == Report(ps[n].name, ps[n].status);
      hide OfProcesses, OfProcessRows, CheckProcess, CheckReport;
      ProcessIsReport(CheckProcesses(c, serv, ps[..n], now), serv, ps[n], now);
    }
  }

  lemma SocketIsReport(c: Checked<SockRow>, serv: nat, p: Sock, now: int)
    ensures var c' := CheckSocket(c, serv, p, now);
            CheckReport(Checked(OfSocketRows(c.rows), c.tally), serv, Report(p.name, p.status))
            == Checked(OfSocketRows(c'.rows), c'.tally)
  {
    hide Tallied;
  }

  lemma {:induction false} SocketsAreReports(c: Checked<SockRow>, serv: nat, ps: seq<Sock>, now: int)
    ensures var c' := CheckSockets(c, serv, ps, now);
            CheckReports(Checked(OfSocketRows(c.rows), c.tally), serv, OfSockets(ps))
            == Checked(OfSocketRows(c'.rows), c'.tally)
  {
    if ps != [] {
      var n := |ps| - 1;
      SocketsAreReports(c, serv, ps[..n], now);
      assert OfSockets(ps)[..n] == OfSockets(ps[..n]);
      assert OfSockets(ps)[n] == Report(ps[n].name, ps[n].status);
      hide OfSockets, OfSocketRows, CheckSocket, CheckReport;
      SocketIsReport(CheckSockets(c, serv, ps[..n], now), serv, ps[n], now);
    }
  }

  // ---- Counting ----

  function OkCount(rs: seq<Report>): (n: nat)
    ensures n <= |rs|
  {
    if rs == [] then 0 else OkCount(rs[..|rs| - 1]) + if rs[|rs| - 1].status == "ok" then 1 else 0
  }

  lemma {:induction false} ReportsCounted(c: Checked<string>, serv: nat, rs: seq<Report>)
    ensures var t := CheckReports(c, serv, rs).tally;
            && t.ok == c.tally.ok + OkCount(rs)
            && t.ok + t.failed == c.tally.ok + c.tally.failed + |rs|
  {
    if rs != [] { ReportsCounted(c, serv, rs[..|rs| - 1]); }
  }

  // ---- Failing in a new way ----

  /** The status of a name after `rs`: the last one reported, else the stored one. */
  function LastStatus(known: map<Part, string>, serv: nat, rs: seq<Report>, name: string): Option<string> {
    if rs == [] then (if Part(serv, name) in known then Some(known[Part(serv, name)]) else None)
    else if rs[|rs| - 1].name == name then Some(rs[|rs| - 1].status)
    else LastStatus(known, serv, rs[..|rs| - 1], name)
  }

  /** The `i`-th component failed, in another way than it was last known to be. */
  predicate Turned(known: map<Part, string>, serv: nat, rs: seq<Report>, i: nat)
    requires i < |rs|
  {
    rs[i].status != "ok" && LastStatus(known, serv, rs[..i], rs[i].name) != Some(rs[i].status)
  }

  ghost predicate SomeTurned(known: map<Part, string>, serv: nat, rs: seq<Report>) {
    exists i | 0 <= i < |rs| :: Turned(known, serv, rs, i)
  }

  lemma {:induction false} ReportsStored(c: Checked<string>, serv: nat, rs: seq<Report>, name: string)
    ensures LastStatus(CheckReports(c, serv, rs).rows, serv, [], name) == LastStatus(c.rows, serv, rs, name)
  {
    if rs != [] { ReportsStored(c, serv, rs[..|rs| - 1], name); }
  }

  lemma TurnedStep(known: map<Part, string>, serv: nat, rs: seq<Report>)
    requires rs != []
    ensures SomeTurned(known, serv, rs) <==>
            SomeTurned(known, serv, rs[..|rs| - 1]) || Turned(known, serv, rs, |rs| - 1)
  {
    var n := |rs| - 1;
    forall i | 0 <= i < n
      ensures Turned(known, serv, rs[..n], i) == Turned(known, serv, rs, i)
    {
      assert rs[..n][..i] == rs[..i];
    }
  }

  lemma {:induction false} ReportsTurn(c: Checked<string>, serv: nat, rs: seq<Report>)
    ensures var t := CheckReports(c, serv, rs).tally;
            && t.changed >= c.tally.changed
            && (t.changed > c.tally.changed <==> SomeTurned(c.rows, serv, rs))
  {
    if rs != [] {
      hide SomeTurned;
      var n := |rs| - 1;
      ReportsTurn(c, serv, rs[..n]);
      ReportsStored(c, serv, rs[..n], rs[n].name);
      TurnedStep(c.rows, serv, rs);
    }
  }
}
