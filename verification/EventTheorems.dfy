/** Event state, event rows and alerts as functions of the stream of lines. */
module EventTheorems {
  import opened Wrappers
  import opened Events

  predicate Carries(line: Line, r: Rule) { r.property in line.values }

  /** The index of the last line that carries the rule's property, or -1. */
  function LastCarrier(lines: seq<Line>, r: Rule): (i: int)
    ensures -1 <= i < |lines|
    ensures i >= 0 ==> Carries(lines[i], r)
    ensures forall k | i < k < |lines| :: !Carries(lines[k], r)
  {
    if lines == [] then -1
    else if Carries(lines[|lines| - 1], r) then |lines| - 1
    else LastCarrier(lines[..|lines| - 1], r)
  }

  /** What the history says about a rule: the comparison on the last line that carries its
      property, or the state at the start. */
  predicate OpenByHistory(lines: seq<Line>, r: Rule, listed: bool, before: bool) {
    if !Known(r) then before
    else if !listed then before && forall k | 0 <= k < |lines| && Carries(lines[k], r) :: Opens(r, lines[k])
    else
      var i := LastCarrier(lines, r);
      if i < 0 then before else Opens(r, lines[i])
  }

  lemma {:induction false} TrackedOpen(rows: seq<EventRow>, r: Rule, listed: bool, lines: seq<Line>)
    ensures LastOpen(TrackAll(rows, r, listed, lines)) <==> OpenByHistory(lines, r, listed, LastOpen(rows))
  {
    if lines != [] {
      var n := |lines| - 1;
      TrackedOpen(rows, r, listed, lines[..n]);
      NeverBoth(r, lines[n]);
      assert forall k | 0 <= k < n :: lines[..n][k] == lines[k];
    }
  }

  /** After any sequence of lines, a rule has an open event iff its comparison held on the last line
      carrying its property (or it was open at the start if no line did); an event that no rule
      matches can only close; and no two open events are equal. */
  lemma EventStateIsHistory(m: Machine, lines: seq<Line>, r: Rule)
    requires Inv(m)
    ensures IsOpen(Parse(m, lines), r) <==> OpenByHistory(lines, r, r in m.factory, IsOpen(m, r))
    ensures var open := Parse(m, lines).open; forall a, b | a in open && b in open && open[a] == open[b] :: a == b
  {
    ParseTracks(m, lines, r);
    TrackedOpen(RowsOf(m.rows, r), r, r in m.factory, lines);
    OpenShows(m, r);
    var m' := Parse(m, lines);
    OpenShows(m', r);
    forall a, b | a in m'.open && b in m'.open && m'.open[a] == m'.open[b]
      ensures a == b
    {
      OpenDistinct(m', a, b);
    }
  }

  lemma {:induction false} LastCarrierIs(lines: seq<Line>, r: Rule, i: nat)
    requires i < |lines| && Carries(lines[i], r) && forall k | i < k < |lines| :: !Carries(lines[k], r)
    ensures LastCarrier(lines, r) == i
  {
    if i < |lines| - 1 {
      assert !Carries(lines[|lines| - 1], r);
      LastCarrierIs(lines[..|lines| - 1], r, i);
    }
  }

  /** The same on numbers: the event of a listed rule is open iff the last value carried for its
      property is below, above or equal to the rule's value, as the operator says. */
  lemma OpenCompares(m: Machine, lines: seq<Line>, r: Rule, i: nat)
    requires Inv(m) && r in m.factory
    requires i < |lines| && r.property in lines[i].values
    requires forall k | i < k < |lines| :: r.property !in lines[k].values
    ensures var (open, v) := (IsOpen(Parse(m, lines), r), lines[i].values[r.property]);
            && (r.oper == '<' ==> (open <==> v < r.value))
            && (r.oper == '>' ==> (open <==> v > r.value))
            && (r.oper == '=' ==> (open <==> v == r.value))
            && (r.oper != '<' && r.oper != '>' && r.oper != '=' ==> (open <==> IsOpen(m, r)))
  {
    hide Parse, Inv, IsOpen;
    LastCarrierIs(lines, r, i);
    EventStateIsHistory(m, lines, r);
  }

  // ---- Episodes ----

  /** Line `i` triggers the rule, and the rule was not triggered just before. */
  predicate Rising(lines: seq<Line>, r: Rule, before: bool, i: nat)
    requires i < |lines|
  {
    Opens(r, lines[i]) && !OpenByHistory(lines[..i], r, true, before)
  }

  /** Every listed line triggers the rule. */
  predicate Triggering(lines: seq<Line>, r: Rule, edges: seq<nat>) {
    forall k | 0 <= k < |edges| :: edges[k] < |lines| && Opens(r, lines[edges[k]])
  }

  function RisingEdges(lines: seq<Line>, r: Rule, before: bool): (edges: seq<nat>)
    ensures Triggering(lines, r, edges)
  {
    if lines == [] then []
    else
      var n := |lines| - 1;
      var rest := RisingEdges(lines[..n], r, before);
      if Rising(lines, r, before, n) then rest + [n] else rest
  }

  /** They are the lines that start a run of triggering lines, each once and in order. */
  lemma {:induction false} RisingEdgesAre(lines: seq<Line>, r: Rule, before: bool)
    ensures var edges := RisingEdges(lines, r, before);
            && (forall i :: i in edges <==> 0 <= i < |lines| && Rising(lines, r, before, i))
            && (forall j, k | 0 <= j < k < |edges| :: edges[j] < edges[k])
  {
    if lines != [] {
      hide OpenByHistory, Opens;
      var n := |lines| - 1;
      RisingEdgesAre(lines[..n], r, before);
      forall i | 0 <= i < n
        ensures Rising(lines[..n], r, before, i) == Rising(lines, r, before, i)
      {
        assert lines[..n][i] == lines[i] && lines[..n][..i] == lines[..i];
      }
    }
  }

  /** The first line from `i` on that closes the rule, or the number of lines. */
  function FirstClose(lines: seq<Line>, r: Rule, i: nat): (j: nat)
    requires i <= |lines|
    ensures i <= j <= |lines|
    ensures j < |lines| ==> Closes(r, lines[j])
    ensures forall k | i <= k < j :: !Closes(r, lines[k])
    decreases |lines| - i
  {
    if i == |lines| then i else if Closes(r, lines[i]) then i else FirstClose(lines, r, i + 1)
  }

  /** The value on the last triggering line from `i` up to `j`, or `v` if there is none. */
  function LastValue(lines: seq<Line>, r: Rule, i: nat, j: nat, v: real): real
    requires i <= j <= |lines|
  {
    if i == j then v
    else if Opens(r, lines[j - 1]) then lines[j - 1].values[r.property]
    else LastValue(lines, r, i, j - 1, v)
  }

  /** `row`, open before line `i`, as the lines from `i` on leave it: its value follows the
      triggering lines, and the first closing line ends it. */
  function Carried(row: EventRow, lines: seq<Line>, r: Rule, i: nat): EventRow
    requires i <= |lines|
  {
    var j := FirstClose(lines, r, i);
    row.(current := LastValue(lines, r, i, j, row.current),
         end := if j < |lines| then Some(lines[j].timestamp) else None)
  }

  /** The row of the maximal run of triggering lines that starts at line `i`. */
  function Episode(lines: seq<Line>, r: Rule, i: nat): EventRow
    requires i < |lines| && Opens(r, lines[i])
  {
    Carried(EventRow(r, lines[i].timestamp, lines[i].values[r.property], None), lines, r, i)
  }

  function Episodes(lines: seq<Line>, r: Rule, edges: seq<nat>): (rows: seq<EventRow>)
    requires Triggering(lines, r, edges)
    ensures |rows| == |edges| && forall k | 0 <= k < |rows| :: rows[k] == Episode(lines, r, edges[k])
  {
    seq(|edges|, k requires 0 <= k < |edges| => Episode(lines, r, edges[k]))
  }

  /** The rows from before the lines; the last one may still be open. */
  function Earlier(rows: seq<EventRow>, lines: seq<Line>, r: Rule): seq<EventRow> {
    if LastOpen(rows) then Update(rows, Carried(rows[|rows| - 1], lines, r, 0)) else rows
  }

  predicate OnlyLastOpen(rows: seq<EventRow>) { forall k | 0 <= k < |rows| - 1 :: rows[k].end.Some? }

  /** One more line, seen from an episode. */
  lemma CarriedStep(row: EventRow, lines: seq<Line>, r: Rule, i: nat)
    requires i < |lines| && row.end.None?
    ensures var n := |lines| - 1;
            var c, c' := Carried(row, lines[..n], r, i), Carried(row, lines, r, i);
            if c.end.Some? then c' == c
            else c' == (if Opens(r, lines[n]) then c.(current := lines[n].values[r.property])
                        else if Closes(r, lines[n]) then c.(end := Some(lines[n].timestamp))
                        else c)
  {
    var n := |lines| - 1;
    FirstCloseStep(lines, r, i);
    var j := FirstClose(lines[..n], r, i);
    LastValuePrefix(lines, r, i, j, row.current);
    NeverBoth(r, lines[n]);
  }

  lemma {:induction false} FirstCloseStep(lines: seq<Line>, r: Rule, i: nat)
    requires i < |lines|
    ensures var n := |lines| - 1;
            var j := FirstClose(lines[..n], r, i);
            FirstClose(lines, r, i) == if j < n || Closes(r, lines[n]) then j else n + 1
    decreases |lines| - i
  {
    var n := |lines| - 1;
    if i < n && !Closes(r, lines[i]) {
      FirstCloseStep(lines, r, i + 1);
    }
  }

  lemma {:induction false} LastValuePrefix(lines: seq<Line>, r: Rule, i: nat, j: nat, v: real)
    requires i <= j < |lines|
    ensures LastValue(lines[..|lines| - 1], r, i, j, v) == LastValue(lines, r, i, j, v)
    decreases j
  {
    if i < j {
      LastValuePrefix(lines, r, i, j - 1, v);
    }
  }

  /** The rows of a listed rule: the earlier ones, then one per maximal run of triggering lines. */
  lemma {:induction false} TrackedEpisodes(rows: seq<EventRow>, r: Rule, lines: seq<Line>)
    requires Known(r) && OnlyLastOpen(rows)
    ensures var all := TrackAll(rows, r, true, lines);
            && OnlyLastOpen(all)
            && all == Earlier(rows, lines, r) + Episodes(lines, r, RisingEdges(lines, r, LastOpen(rows)))
  {
    var before := LastOpen(rows);
    if lines == [] {
      assert Earlier(rows, lines, r) == rows;
    } else {
      var n := |lines| - 1;
      TrackedEpisodes(rows, r, lines[..n]);
      TrackedOpen(rows, r, true, lines[..n]);
      var all, edges := TrackAll(rows, r, true, lines[..n]), RisingEdges(lines[..n], r, before);
      EdgesStep(lines, r, before);
      EarlierStep(rows, lines, r);
      NextEpisodes(all, Earlier(rows, lines[..n], r), Earlier(rows, lines, r), r, lines, edges);
    }
  }

  lemma EarlierStep(rows: seq<EventRow>, lines: seq<Line>, r: Rule)
    requires lines != [] && OnlyLastOpen(rows)
    ensures var (e, e') := (Earlier(rows, lines[..|lines| - 1], r), Earlier(rows, lines, r));
            |e'| == |e| && forall k | 0 <= k < |e| :: StepOf(e[k], e'[k], r, lines[|lines| - 1])
  {
    if LastOpen(rows) {
      CarriedStep(rows[|rows| - 1], lines, r, 0);
    }
  }

  lemma EpisodeStep(lines: seq<Line>, r: Rule, i: nat)
    requires i < |lines| - 1 && Opens(r, lines[i])
    ensures StepOf(Episode(lines[..|lines| - 1], r, i), Episode(lines, r, i), r, lines[|lines| - 1])
  {
    CarriedStep(EventRow(r, lines[i].timestamp, lines[i].values[r.property], None), lines, r, i);
  }

  /** What one line does to the row of an episode. */
  predicate StepOf(row: EventRow, row': EventRow, r: Rule, line: Line) {
    if row.end.Some? then row' == row
    else row' == (if Opens(r, line) then row.(current := line.values[r.property])
                  else if Closes(r, line) then row.(end := Some(line.timestamp))
                  else row)
  }

  /** Tracking a line steps every row, and appends a fresh one when the rule was closed. */
  lemma TrackIsStep(all: seq<EventRow>, all': seq<EventRow>, r: Rule, line: Line)
    requires OnlyLastOpen(all) && |all'| == |all|
    requires forall k | 0 <= k < |all| :: StepOf(all[k], all'[k], r, line)
    ensures OnlyLastOpen(Track(all, r, true, line))
    ensures Track(all, r, true, line) ==
            if Opens(r, line) && !LastOpen(all) then all' + [EventRow(r, line.timestamp, line.values[r.property], None)]
            else all'
  {
    NeverBoth(r, line);
    forall k | 0 <= k < |all| - 1
      ensures all'[k] == all[k]
    {
      assert StepOf(all[k], all'[k], r, line);
    }
    if all != [] {
      assert StepOf(all[|all| - 1], all'[|all| - 1], r, line);
      assert all == Update(all, all[|all| - 1]) && all' == Update(all, all'[|all| - 1]);
    }
  }

  lemma NextEpisodes(all: seq<EventRow>, e: seq<EventRow>, e': seq<EventRow>, r: Rule, lines: seq<Line>,
          edges: seq<nat>)
    requires lines != [] && OnlyLastOpen(all)
    requires Triggering(lines[..|lines| - 1], r, edges)
    requires all == e + Episodes(lines[..|lines| - 1], r, edges)
    requires |e'| == |e| && forall k | 0 <= k < |e| :: StepOf(e[k], e'[k], r, lines[|lines| - 1])
    ensures var n := |lines| - 1;
            var edges' := if Opens(r, lines[n]) && !LastOpen(all) then edges + [n] else edges;
            && OnlyLastOpen(Track(all, r, true, lines[n]))
            && Track(all, r, true, lines[n]) == e' + Episodes(lines, r, edges')
  {
    hide StepOf, Episode, Track, OnlyLastOpen, Opens;
    var n := |lines| - 1;
    var old', new' := Episodes(lines[..n], r, edges), Episodes(lines, r, edges);
    var all' := e' + new';
    forall k | 0 <= k < |all|
      ensures StepOf(all[k], all'[k], r, lines[n])
    {
      if k >= |e| {
        EpisodeStep(lines, r, edges[k - |e|]);
      }
    }
    TrackIsStep(all, all', r, lines[n]);
    if Opens(r, lines[n]) && !LastOpen(all) {
      FreshEpisode(lines, r);
      assert Episodes(lines, r, edges + [n]) == new' + [Episode(lines, r, n)];
    }
  }

  /** An episode that starts on the last line. */
  lemma FreshEpisode(lines: seq<Line>, r: Rule)
    requires lines != [] && Opens(r, lines[|lines| - 1])
    ensures var n := |lines| - 1;
            Episode(lines, r, n) == EventRow(r, lines[n].timestamp, lines[n].values[r.property], None)
  {
    NeverBoth(r, lines[|lines| - 1]);
  }

  lemma {:induction false} RowsOfOnlyLastOpen(rows: seq<EventRow>, r: Rule)
    requires forall id | 0 < id <= |rows| && OpenRow(rows, id) && rows[id - 1].rule == r :: !LaterRow(rows, id - 1, r)
    ensures OnlyLastOpen(RowsOf(rows, r))
  {
    if rows != [] {
      var n := |rows| - 1;
      forall id | 0 < id <= n && OpenRow(rows[..n], id) && rows[..n][id - 1].rule == r
        ensures !LaterRow(rows[..n], id - 1, r)
        ensures rows[n].rule != r
      {
        assert OpenRow(rows, id);
        assert forall j | 0 <= j < n :: rows[..n][j] == rows[j];
      }
      RowsOfOnlyLastOpen(rows[..n], r);
      if rows[n].rule == r {
        RowsOfClosed(rows[..n], r) by {
          forall i | 0 <= i < n && rows[..n][i].rule == r
            ensures rows[..n][i].end.Some?
          {
            assert rows[..n][i].end.None? ==> OpenRow(rows[..n], i + 1);
          }
        }
      }
    }
  }

  /** Event rows and alerts are exactly the rising edges: after any lines, the rows of a listed rule
      are the earlier ones followed by one row per maximal run of triggering lines, with that run's
      start, last value and end, and each run raised one alert with its first value. */
  lemma RowsAreRisingEdges(m: Machine, lines: seq<Line>, r: Rule)
    requires Inv(m) && r in m.factory && Known(r)
    ensures var (m', edges) := (Parse(m, lines), RisingEdges(lines, r, IsOpen(m, r)));
            && RowsOf(m'.rows, r) == Earlier(RowsOf(m.rows, r), lines, r) + Episodes(lines, r, edges)
            && AlertsOf(m'.alerts, r) == AlertsOf(m.alerts, r) + FirstValues(lines, r, edges)
  {
    ParseTracks(m, lines, r);
    OpenShows(m, r);
    RowsOfOnlyLastOpen(m.rows, r);
    TrackedEpisodes(RowsOf(m.rows, r), r, lines);
    AlertsAreEdges(m, lines, r);
  }

  /** The values of the lines that raised the alerts. */
  function FirstValues(lines: seq<Line>, r: Rule, edges: seq<nat>): seq<real>
    requires Triggering(lines, r, edges)
  {
    if edges == [] then []
    else
      var n := |edges| - 1;
      assert Opens(r, lines[edges[n]]);
      var v := lines[edges[n]].values[r.property];
      FirstValues(lines, r, edges[..n]) + [v]
  }

  lemma {:induction false} FirstValuesPrefix(lines: seq<Line>, r: Rule, edges: seq<nat>)
    requires lines != [] && Triggering(lines[..|lines| - 1], r, edges)
    ensures FirstValues(lines[..|lines| - 1], r, edges) == FirstValues(lines, r, edges)
  {
    if edges != [] {
      FirstValuesPrefix(lines, r, edges[..|edges| - 1]);
    }
  }

  /** One more line adds an edge iff it triggers a rule that the history leaves closed. */
  lemma EdgesStep(lines: seq<Line>, r: Rule, before: bool)
    requires lines != []
    ensures var n := |lines| - 1;
            var edges := RisingEdges(lines[..n], r, before);
            RisingEdges(lines, r, before) ==
            if Opens(r, lines[n]) && !OpenByHistory(lines[..n], r, true, before) then edges + [n] else edges
  {}

  ghost predicate AlertsFollow(m: Machine, lines: seq<Line>, r: Rule) {
    AlertsOf(Parse(m, lines).alerts, r) ==
    AlertsOf(m.alerts, r) + FirstValues(lines, r, RisingEdges(lines, r, IsOpen(m, r)))
  }

  lemma {:induction false} AlertsAreEdges(m: Machine, lines: seq<Line>, r: Rule)
    requires Inv(m) && r in m.factory
    ensures AlertsFollow(m, lines, r)
  {
    if lines == [] {
      assert AlertsOf(m.alerts, r) == AlertsOf(m.alerts, r) + [];
    } else {
      hide AlertsFollow, Inv;
      AlertsAreEdges(m, lines[..|lines| - 1], r);
      AlertsStep(m, lines, r);
    }
  }

  lemma AlertsStep(m: Machine, lines: seq<Line>, r: Rule)
    requires Inv(m) && r in m.factory && lines != [] && AlertsFollow(m, lines[..|lines| - 1], r)
    ensures AlertsFollow(m, lines, r)
  {
    hide Triggering, Opens, Inv, Rising, OpenByHistory, AlertsOf, AlertOn, FirstValues, LastCarrier, Parse, IsOpen;
    var n, before := |lines| - 1, IsOpen(m, r);
    var edges := RisingEdges(lines[..n], r, before);
    LineAlerts(m, lines, r);
    AlertStep(lines, r, before, edges);
    assert AlertsOf(m.alerts, r) + FirstValues(lines[..n], r, edges) + AlertOn(lines, r, before)
        == AlertsOf(m.alerts, r) + (FirstValues(lines[..n], r, edges) + AlertOn(lines, r, before));
  }

  /** The alert the last line raises, if any. */
  function AlertOn(lines: seq<Line>, r: Rule, before: bool): seq<real>
    requires lines != []
  {
    var n := |lines| - 1;
    if Opens(r, lines[n]) && !OpenByHistory(lines[..n], r, true, before) then [lines[n].values[r.property]] else []
  }

  lemma LineAlerts(m: Machine, lines: seq<Line>, r: Rule)
    requires Inv(m) && r in m.factory && lines != []
    ensures AlertsOf(Parse(m, lines).alerts, r) ==
            AlertsOf(Parse(m, lines[..|lines| - 1]).alerts, r) + AlertOn(lines, r, IsOpen(m, r))
  {
    var n := |lines| - 1;
    OpenShows(m, r);
    ParseTracks(m, lines[..n], r);
    TrackedOpen(RowsOf(m.rows, r), r, true, lines[..n]);
    OnLineTracks(Parse(m, lines[..n]), lines[n], r);
  }

  lemma AlertStep(lines: seq<Line>, r: Rule, before: bool, edges: seq<nat>)
    requires lines != [] && edges == RisingEdges(lines[..|lines| - 1], r, before)
    ensures FirstValues(lines, r, RisingEdges(lines, r, before)) ==
            FirstValues(lines[..|lines| - 1], r, edges) + AlertOn(lines, r, before)
  {
    var n := |lines| - 1;
    EdgesStep(lines, r, before);
    FirstValuesPrefix(lines, r, edges);
    var all := edges + [n];
    assert all[..|edges|] == edges;
  }

  predicate Increasing(lines: seq<Line>) {
    forall i, j | 0 <= i < j < |lines| :: lines[i].timestamp < lines[j].timestamp
  }

  /** The intervals of a rule's rows: every one ends after it starts, and all but the last have ended
      before the next one starts. */
  ghost predicate InOrder(rows: seq<EventRow>) {
    && (forall k | 0 <= k < |rows| && rows[k].end.Some? :: rows[k].start < rows[k].end.value)
    && forall j, k | 0 <= j < k < |rows| :: rows[j].end.Some? && rows[j].end.value < rows[k].start
  }

  /** Every time in the rows is at most `t`. */
  ghost predicate UpTo(rows: seq<EventRow>, t: real) {
    forall k | 0 <= k < |rows| :: rows[k].start <= t && (rows[k].end.Some? ==> rows[k].end.value <= t)
  }

  lemma TrackInOrder(rows: seq<EventRow>, r: Rule, listed: bool, line: Line, t: real)
    requires InOrder(rows) && UpTo(rows, t) && t < line.timestamp
    ensures InOrder(Track(rows, r, listed, line)) && UpTo(Track(rows, r, listed, line), line.timestamp)
  {
    NeverBoth(r, line);
    hide Opens, Closes;
  }

  lemma {:induction false} TrackedInOrder(rows: seq<EventRow>, r: Rule, listed: bool, lines: seq<Line>, t: real)
    requires InOrder(rows) && UpTo(rows, t) && Increasing(lines) && (lines != [] ==> t < lines[0].timestamp)
    ensures InOrder(TrackAll(rows, r, listed, lines))
    ensures UpTo(TrackAll(rows, r, listed, lines), if lines == [] then t else lines[|lines| - 1].timestamp)
  {
    if lines != [] {
      hide InOrder, UpTo, Track;
      var n := |lines| - 1;
      TrackedInOrder(rows, r, listed, lines[..n], t);
      var last := if n == 0 then t else lines[n - 1].timestamp;
      TrackInOrder(TrackAll(rows, r, listed, lines[..n]), r, listed, lines[n], last);
    }
  }

  /** When timestamps increase and stored times lie before them, the stored intervals of every rule,
      listed or not, rows from before the lines included, are disjoint and in order. */
  lemma IntervalsDisjoint(m: Machine, lines: seq<Line>, r: Rule, t: real)
    requires Inv(m) && InOrder(RowsOf(m.rows, r)) && UpTo(RowsOf(m.rows, r), t)
    requires Increasing(lines) && (lines != [] ==> t < lines[0].timestamp)
    ensures InOrder(RowsOf(Parse(m, lines).rows, r))
  {
    hide InOrder, UpTo, Inv, Increasing;
    ParseTracks(m, lines, r);
    TrackedInOrder(RowsOf(m.rows, r), r, r in m.factory, lines, t);
  }

  // ---- Restart ----

  /** `init` reloads exactly the events that are open. */
  lemma RestartIsSeamless(m: Machine, a: seq<Line>, b: seq<Line>)
    requires Inv(m)
    ensures Parse(Restart(Parse(m, a)), b) == Parse(m, a + b)
  {
    ParseKeepsInv(m, a);
    ParseSplit(m, a, b);
  }

  lemma {:induction false} ParseKeepsInv(m: Machine, lines: seq<Line>)
    requires Inv(m)
    ensures Inv(Parse(m, lines))
  {
    ParseTracks(m, lines, Rule(0, "", '=', 0.0));
  }

  lemma {:induction false} ParseSplit(m: Machine, a: seq<Line>, b: seq<Line>)
    ensures Parse(m, a + b) == Parse(Parse(m, a), b)
  {
    if b == [] {
      assert a + b == a;
    } else {
      assert (a + b)[..|a + b| - 1] == a + b[..|b| - 1];
      ParseSplit(m, a, b[..|b| - 1]);
    }
  }
}
