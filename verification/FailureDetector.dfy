/** The backends' shared history table: every backend writes a heartbeat and marks the others that
    have fallen silent. */
module FailureDetector {

  /** The unique key of b$history. */
  datatype Key = Key(back: nat, ts: int)

  datatype Row = Row(failed: nat, ok: nat)

  type Table = map<Key, Row>

  predicate HasRows(t: Table, b: nat) { exists k | k in t :: k.back == b }

  /** max(timestamp) of one backend. */
  ghost predicate IsLast(t: Table, b: nat, ts: int) {
    Key(b, ts) in t && forall k | k in t && k.back == b :: k.ts <= ts
  }

  /** `select max(timestamp) ... group by back_id` reports `b` as older than `limit`. */
  predicate Stale(t: Table, b: nat, limit: int) {
    HasRows(t, b) && forall k | k in t && k.back == b :: k.ts < limit
  }

  function FailedKeys(t: Table, now: int): set<Key> {
    set k | k in t && Stale(t, k.back, now - 600000) :: Key(k.back, now - 300000)
  }

  /** The rows the insert-select adds. */
  function FailedRows(t: Table, now: int): Table { map k | k in FailedKeys(t, now) :: Row(1, 0) }

  /** The two statements of one updateAgents of backend `back`, whose clock reads `now`; `at` is the
      true time. Statements of different backends interleave freely. */
  datatype Statement = Beat(back: nat, now: int, at: int) | Scan(back: nat, now: int, at: int)

  function Apply(t: Table, s: Statement): Table {
    match s
    case Beat(b, now, _) => t[Key(b, now) := Row(0, 1)]
    case Scan(_, now, _) => t + FailedRows(t, now)
  }

  function Run(t: Table, run: seq<Statement>): Table {
    if run == [] then t else Apply(Run(t, run[..|run| - 1]), run[|run| - 1])
  }

  // ---- The insert-select ----

  lemma {:induction false} LastExists(t: Table, b: nat, ks: set<Key>) returns (ts: int)
    requires ks <= t.Keys && (exists k | k in ks :: k.back == b)
    ensures Key(b, ts) in ks && forall k | k in ks && k.back == b :: k.ts <= ts
    decreases ks
  {
    var k :| k in ks && k.back == b;
    var rest := ks - {k};
    if x :| x in rest && x.back == b {
      var ts' := LastExists(t, b, rest);
      ts := if ts' <= k.ts then k.ts else ts';
      assert forall y | y in ks :: y == k || y in rest;
    } else {
      ts := k.ts;
      assert k == Key(b, ts);
    }
  }

  /** A backend with rows has a last one, and is stale exactly when that one is old enough. */
  lemma StaleIsLast(t: Table, b: nat, limit: int)
    ensures Stale(t, b, limit) <==> exists ts :: IsLast(t, b, ts) && ts < limit
  {
    if HasRows(t, b) {
      var ts := LastExists(t, b, t.Keys);
      assert IsLast(t, b, ts);
    }
  }

  lemma FailedRow(t: Table, now: int, k: Key)
    ensures k in FailedRows(t, now) <==> k.ts == now - 300000 && Stale(t, k.back, now - 600000)
    ensures k in FailedRows(t, now) ==> FailedRows(t, now)[k] == Row(1, 0)
  {
    if k.ts == now - 300000 && Stale(t, k.back, now - 600000) {
      var x :| x in t && x.back == k.back;
      assert Key(x.back, now - 300000) == k;
    }
  }

  /** A scan marks exactly the backends whose last row is more than 600000 ms old, 300000 ms back. */
  lemma ScanIff(t: Table, now: int, k: Key)
    ensures k in FailedRows(t, now) <==>
            k.ts == now - 300000 && exists last :: IsLast(t, k.back, last) && now - last > 600000
    ensures k in FailedRows(t, now) ==> FailedRows(t, now)[k].failed == 1 && FailedRows(t, now)[k].ok == 0
  {
    FailedRow(t, now, k);
    StaleIsLast(t, k.back, now - 600000);
    hide FailedRows, Stale, IsLast;
    if last :| IsLast(t, k.back, last) && now - last > 600000 {
      assert IsLast(t, k.back, last) && last < now - 600000;
    }
    if last :| IsLast(t, k.back, last) && last < now - 600000 {
      assert IsLast(t, k.back, last) && now - last > 600000;
    }
  }

  /** The rows a scan inserts into `t`: none is there already, each lies more than 300000 ms after
      every earlier row of its backend, and its backend has no row from the last 600000 ms. */
  lemma ScanSafety(t: Table, now: int, k: Key)
    requires k in FailedRows(t, now)
    ensures k !in t && k.ts == now - 300000
    ensures forall x | x in t && x.back == k.back :: x.ts + 300000 < k.ts && x.ts < now - 600000
  {
    FailedRow(t, now, k);
  }

  /** No statement removes a row, and a new one is the beat's own or a failed one. */
  lemma ApplyKeys(t: Table, s: Statement)
    ensures t.Keys <= Apply(t, s).Keys
    ensures s.Beat? ==> Apply(t, s).Keys == t.Keys + {Key(s.back, s.now)}
    ensures s.Beat? ==> Apply(t, s)[Key(s.back, s.now)] == Row(0, 1)
    ensures s.Scan? ==> forall k | k in Apply(t, s) ::
              k in t || (k in FailedRows(t, s.now) && Apply(t, s)[k] == Row(1, 0))
    ensures forall k | k in t && k in Apply(t, s) && Apply(t, s)[k] != t[k] ::
              s == Beat(k.back, k.ts, s.at)
  {
    hide FailedRows;
    if s.Scan? {
      forall k | k in FailedRows(t, s.now)
        ensures k !in t && FailedRows(t, s.now)[k] == Row(1, 0)
      {
        FailedRow(t, s.now, k);
        ScanSafety(t, s.now, k);
      }
    }
  }

  // ---- All interleavings ----

  /** The rows the `i`-th statement of the run inserts as failed. */
  function Marked(t: Table, run: seq<Statement>, i: nat): Table
    requires i < |run|
  {
    if run[i].Scan? then FailedRows(Run(t, run[..i]), run[i].now) else map[]
  }

  /** Over every interleaving of the statements of any number of backends, with any clocks: no
      insert-select meets an existing key, and whatever it inserts lies more than 300000 ms after
      all earlier rows of that backend. */
  lemma RunSafety(t: Table, run: seq<Statement>, i: nat, k: Key)
    requires i < |run| && k in Marked(t, run, i)
    ensures k !in Run(t, run[..i])
    ensures forall x | x in Run(t, run[..i]) && x.back == k.back :: x.ts + 300000 < k.ts
  {
    ScanSafety(Run(t, run[..i]), run[i].now, k);
  }

  // ---- A backend that keeps beating ----

  /** True time does not run back, and between two statements the readings advance by at most `skew`
      more than true time does. */
  predicate Clocked(run: seq<Statement>, skew: nat) {
    && (forall i, j | 0 <= i <= j < |run| :: run[i].at <= run[j].at)
    && forall i, j | 0 <= i <= j < |run| :: run[j].now - run[i].now <= run[j].at - run[i].at + skew
  }

  /** The last beat of `b` before position `n`, or -1. */
  function LastBeat(run: seq<Statement>, b: nat, n: nat): (i: int)
    requires n <= |run|
    ensures -1 <= i < n && (i >= 0 ==> run[i].Beat? && run[i].back == b)
    ensures forall k | i < k < n :: !(run[k].Beat? && run[k].back == b)
  {
    if n == 0 then -1
    else if run[n - 1].Beat? && run[n - 1].back == b then n - 1
    else LastBeat(run, b, n - 1)
  }

  /** At every scan, `b` has beaten at most `gap` ms before. */
  predicate Beating(run: seq<Statement>, b: nat, gap: nat) {
    forall n | 0 <= n < |run| :: Heard(run, b, gap, n)
  }

  predicate Heard(run: seq<Statement>, b: nat, gap: nat, n: nat)
    requires n < |run|
  {
    var i := LastBeat(run, b, n);
    run[n].Scan? ==> i >= 0 && run[n].at - run[i].at <= gap
  }

  lemma {:induction false} BeatStored(t: Table, run: seq<Statement>, i: nat)
    requires i < |run| && run[i].Beat?
    ensures Key(run[i].back, run[i].now) in Run(t, run)
    decreases |run|
  {
    hide Apply;
    var n := |run| - 1;
    ApplyKeys(Run(t, run[..n]), run[n]);
    if i < n {
      BeatStored(t, run[..n], i);
      assert run[..n][i] == run[i];
    }
  }

  /** A backend whose heartbeat gap plus the clock skew stays within 600000 ms is never marked
      failed by any scan of the run, its own included. */
  lemma BeatingNeverFailed(t: Table, run: seq<Statement>, b: nat, gap: nat, skew: nat, n: nat, k: Key)
    requires Clocked(run, skew) && Beating(run, b, gap) && gap + skew <= 600000
    requires n < |run| && k in Marked(t, run, n)
    ensures k.back != b
  {
    hide FailedRows, Run;
    assert Heard(run, b, gap, n);
    var i := LastBeat(run, b, n);
    BeatStored(t, run[..n], i);
    assert run[..n][i] == run[i];
    assert run[n].now - run[i].now <= run[n].at - run[i].at + skew;
    ScanSafety(Run(t, run[..n]), run[n].now, k);
  }

  // ---- A silent backend ----

  /** The latest reading any scan before position `n` made, or `since`. */
  function Latest(run: seq<Statement>, since: int, n: nat): int
    requires n <= |run|
  {
    if n == 0 then since
    else
      var before := Latest(run, since, n - 1);
      if run[n - 1].Scan? && before < run[n - 1].now then run[n - 1].now else before
  }

  /** Backend `b` does not beat, and no scan reads more than `period` ms past the latest one. */
  predicate Watched(run: seq<Statement>, b: nat, period: nat, since: int) {
    forall i | 0 <= i < |run| ::
      if run[i].Beat? then run[i].back != b else run[i].now <= Latest(run, since, i) + period
  }

  /** Row `k` is followed by a row of the same backend more than 300000 and at most 300000+period
      ms later. */
  predicate Followed(t: Table, k: Key, period: nat) {
    exists x | x in t :: x.back == k.back && 300000 < x.ts - k.ts <= 300000 + period
  }

  /** From the row at `from` on, every row of `b` but the last is followed in time. */
  ghost predicate Chain(t: Table, b: nat, from: int, last: int, period: nat) {
    && IsLast(t, b, last) && from <= last
    && forall k | k in t && k.back == b && from <= k.ts < last :: Followed(t, k, period)
  }

  lemma SilentBeat(t: Table, s: Statement, b: nat, from: int, last: int, period: nat)
    requires s.Beat? && s.back != b && Chain(t, b, from, last, period)
    ensures Chain(Apply(t, s), b, from, last, period)
  {
    var t' := Apply(t, s);
    ApplyKeys(t, s);
    forall k | k in t' && k.back == b && from <= k.ts < last
      ensures Followed(t', k, period)
    {
      ChainKept(t, t', b, from, last, last, period, k);
    }
  }

  lemma SilentScan(t: Table, s: Statement, b: nat, from: int, last: int, period: nat) returns (last': int)
    requires s.Scan? && Chain(t, b, from, last, period) && s.now - period - 600000 <= last
    ensures Chain(Apply(t, s), b, from, last', period) && s.now - 600000 <= last' && last <= last'
  {
    var t' := Apply(t, s);
    ApplyKeys(t, s);
    assert Key(b, last) in t;
    if last < s.now - 600000 {
      last' := s.now - 300000;
      assert Stale(t, b, s.now - 600000);
      FailedRow(t, s.now, Key(b, last'));
    } else {
      last' := last;
      assert !Stale(t, b, s.now - 600000);
    }
    forall k | k in t' && k.back == b
      ensures k in t || (last < last' && k.ts == last')
    {
      FailedRow(t, s.now, k);
    }
    forall k | k in t' && k.back == b && from <= k.ts < last'
      ensures Followed(t', k, period)
    {
      ChainKept(t, t', b, from, last, last', period, k);
    }
  }

  lemma ChainKept(t: Table, t': Table, b: nat, from: int, last: int, last': int, period: nat, k: Key)
    requires Chain(t, b, from, last, period) && t.Keys <= t'.Keys && k in t && k.back == b && from <= k.ts < last'
    requires Key(b, last') in t' && (last' == last || 300000 < last' - last <= 300000 + period)
    ensures Followed(t', k, period)
  {
    if k.ts < last {
      assert Followed(t, k, period);
      var x :| x in t && x.back == k.back && 300000 < x.ts - k.ts <= 300000 + period;
      assert x in t';
    } else {
      assert k.ts == last;
      assert Key(b, last') in t';
    }
  }

  /** A silent backend is noticed on time, whatever the interleaving: while the peers' scans are at
      most `period` ms apart, each row of the silent backend from its last own one on is followed by
      another within 300000+period ms, except the last, which is never more than 600000 ms behind
      the latest scan. */
  lemma {:induction false} SilentIsMarked(t: Table, run: seq<Statement>, b: nat, period: nat, since: int, from: int)
    returns (last: int)
    requires Watched(run, b, period, since) && IsLast(t, b, from) && since - 600000 <= from
    ensures Chain(Run(t, run), b, from, last, period)
    ensures Latest(run, since, |run|) - 600000 <= last
    decreases |run|
  {
    if run == [] {
      last := from;
    } else {
      hide Apply, IsLast;
      var n := |run| - 1;
      WatchedPrefix(run, b, period, since);
      last := SilentIsMarked(t, run[..n], b, period, since, from);
      if run[n].Scan? {
        last := SilentScan(Run(t, run[..n]), run[n], b, from, last, period);
      } else {
        SilentBeat(Run(t, run[..n]), run[n], b, from, last, period);
      }
    }
  }

  lemma WatchedPrefix(run: seq<Statement>, b: nat, period: nat, since: int)
    requires run != [] && Watched(run, b, period, since)
    ensures Watched(run[..|run| - 1], b, period, since)
    ensures Latest(run[..|run| - 1], since, |run| - 1) == Latest(run, since, |run| - 1)
  {
    var n := |run| - 1;
    forall i | 0 <= i <= n
      ensures Latest(run[..n], since, i) == Latest(run, since, i)
    {
      LatestPrefix(run, since, n, i);
    }
    assert forall i | 0 <= i < n :: run[..n][i] == run[i];
  }

  lemma {:induction false} LatestPrefix(run: seq<Statement>, since: int, n: nat, i: nat)
    requires i <= n <= |run|
    ensures Latest(run[..n], since, i) == Latest(run, since, i)
  {
    if i > 0 { LatestPrefix(run, since, n, i - 1); }
  }
}
