/** Threshold events of one resource: which rules have an open event, and the rows and alerts that
    a stream of data lines leaves behind. */
module Events {
  import opened Wrappers

  /** res_event; its operator== compares all four fields. */
  datatype Rule = Rule(eventType: nat, property: string, oper: char, value: real)

  /** A data line: its timestamp, and its non-null properties as numbers. */
  datatype Line = Line(timestamp: real, values: map<string, real>)

  /** A row of h$res_events or s$res_events for this host or service and resource. Its id is its
      position, counted from 1: auto_increment hands ids out in insertion order. */
  datatype EventRow = EventRow(rule: Rule, start: real, current: real, end: Option<real>)

  datatype Alert = Alert(rule: Rule, value: real)

  datatype Machine = Machine(factory: seq<Rule>, open: map<nat, Rule>, rows: seq<EventRow>, alerts: seq<Alert>)

  predicate Known(r: Rule) { r.oper == '<' || r.oper == '>' || r.oper == '=' }

  /** The comparison of the open loop. */
  predicate Holds(r: Rule, v: real) {
    match r.oper
    case '<' => v < r.value
    case '>' => v > r.value
    case '=' => v == r.value
    case _ => false
  }

  /** The comparison of the close loop. */
  predicate Fails(r: Rule, v: real) {
    match r.oper
    case '<' => v >= r.value
    case '>' => v <= r.value
    case '=' => v != r.value
    case _ => false
  }

  predicate Opens(r: Rule, line: Line) { r.property in line.values && Holds(r, line.values[r.property]) }
  predicate Closes(r: Rule, line: Line) { r.property in line.values && Fails(r, line.values[r.property]) }

  /** The id the search loop ends with: the largest whose event equals `r` among the first `n`, or 0. */
  function FindOpen(open: map<nat, Rule>, n: nat, r: Rule): (id: nat)
    ensures id <= n && (id > 0 ==> id in open && open[id] == r)
    ensures id == 0 ==> forall i | i in open && 0 < i <= n :: open[i] != r
  {
    if n == 0 then 0
    else if n in open && open[n] == r then n
    else FindOpen(open, n - 1, r)
  }

  function OpenRule(m: Machine, r: Rule, line: Line): Machine {
    if !Opens(r, line) then m
    else
      var v := line.values[r.property];
      var id := FindOpen(m.open, |m.rows|, r);
      if id > 0 then m.(rows := m.rows[id - 1 := m.rows[id - 1].(current := v)])
      else m.(rows := m.rows + [EventRow(r, line.timestamp, v, None)],
              open := m.open[|m.rows| + 1 := r], alerts := m.alerts + [Alert(r, v)])
  }

  function OpenRules(m: Machine, rules: seq<Rule>, line: Line): Machine {
    if rules == [] then m
    else OpenRule(OpenRules(m, rules[..|rules| - 1], line), rules[|rules| - 1], line)
  }

  function CloseEvent(m: Machine, id: nat, line: Line): Machine {
    if 0 < id <= |m.rows| && id in m.open && Closes(m.open[id], line) then
      m.(rows := m.rows[id - 1 := m.rows[id - 1].(end := Some(line.timestamp))], open := m.open - {id})
    else m
  }

  /** The close loop over the ids up to `n`. */
  function CloseUpTo(m: Machine, n: nat, line: Line): Machine {
    if n == 0 then m else CloseEvent(CloseUpTo(m, n - 1, line), n, line)
  }

  function OnLine(m: Machine, line: Line): Machine {
    var m' := OpenRules(m, m.factory, line);
    CloseUpTo(m', |m'.rows|, line)
  }

  /** `parse` */
  function Parse(m: Machine, lines: seq<Line>): Machine {
    if lines == [] then m else OnLine(Parse(m, lines[..|lines| - 1]), lines[|lines| - 1])
  }

  /** The open events `init` reloads: the rows without an end_time. */
  function Reload(rows: seq<EventRow>): map<nat, Rule> {
    map id | 0 < id <= |rows| && OpenRow(rows, id) :: rows[id - 1].rule
  }

  predicate OpenRow(rows: seq<EventRow>, id: nat)
    requires 0 < id <= |rows|
  {
    rows[id - 1].end.None?
  }

  function Restart(m: Machine): Machine { m.(open := Reload(m.rows)) }

  predicate LaterRow(rows: seq<EventRow>, i: nat, r: Rule) {
    exists j | i < j < |rows| :: rows[j].rule == r
  }

  /** The open events are the rows without an end_time, and such a row is the last of its rule; so
      no two open events are equal. */
  ghost predicate Inv(m: Machine) {
    && m.open == Reload(m.rows)
    && forall id | 0 < id <= |m.rows| && OpenRow(m.rows, id) :: !LaterRow(m.rows, id - 1, m.rows[id - 1].rule)
  }

  predicate IsOpen(m: Machine, r: Rule) { exists id | id in m.open :: m.open[id] == r }

  // ---- One rule at a time ----

  /** The rows of one rule, in order. */
  function RowsOf(rows: seq<EventRow>, r: Rule): seq<EventRow> {
    if rows == [] then []
    else
      var rest := RowsOf(rows[..|rows| - 1], r);
      var last := rows[|rows| - 1];
      if last.rule == r then rest + [last] else rest
  }

  function AlertsOf(alerts: seq<Alert>, r: Rule): seq<real> {
    if alerts == [] then []
    else
      var rest := AlertsOf(alerts[..|alerts| - 1], r);
      var last := alerts[|alerts| - 1];
      if last.rule == r then rest + [last.value] else rest
  }

  predicate LastOpen(rows: seq<EventRow>) { rows != [] && rows[|rows| - 1].end.None? }

  function Update(rows: seq<EventRow>, row: EventRow): seq<EventRow>
    requires rows != []
  {
    rows[..|rows| - 1] + [row]
  }

  function TrackOpen(rows: seq<EventRow>, r: Rule, line: Line): seq<EventRow> {
    if !Opens(r, line) then rows
    else if LastOpen(rows) then Update(rows, rows[|rows| - 1].(current := line.values[r.property]))
    else rows + [EventRow(r, line.timestamp, line.values[r.property], None)]
  }

  function TrackClose(rows: seq<EventRow>, r: Rule, line: Line): seq<EventRow> {
    if LastOpen(rows) && Closes(r, line) then Update(rows, rows[|rows| - 1].(end := Some(line.timestamp))) else rows
  }

  /** What one line does to the rows of a rule; a rule that is not listed in the factory can only
      close. */
  function Track(rows: seq<EventRow>, r: Rule, listed: bool, line: Line): seq<EventRow> {
    TrackClose(if listed then TrackOpen(rows, r, line) else rows, r, line)
  }

  function TrackAll(rows: seq<EventRow>, r: Rule, listed: bool, lines: seq<Line>): seq<EventRow> {
    if lines == [] then rows
    else Track(TrackAll(rows, r, listed, lines[..|lines| - 1]), r, listed, lines[|lines| - 1])
  }

  lemma NeverBoth(r: Rule, line: Line)
    ensures !(Opens(r, line) && Closes(r, line))
    ensures Known(r) && r.property in line.values ==> Opens(r, line) || Closes(r, line)
  {}

  lemma RowsOfAppend(rows: seq<EventRow>, row: EventRow, r: Rule)
    ensures RowsOf(rows + [row], r) == if row.rule == r then RowsOf(rows, r) + [row] else RowsOf(rows, r)
  {
    assert (rows + [row])[..|rows|] == rows;
  }

  /** Changing a row in place, without changing its rule: other rules do not notice. */
  lemma {:induction false} RowsOfOther(rows: seq<EventRow>, i: nat, row: EventRow, r: Rule)
    requires i < |rows| && row.rule == rows[i].rule != r
    ensures RowsOf(rows[i := row], r) == RowsOf(rows, r)
  {
    var n := |rows| - 1;
    if i < n {
      RowsOfOther(rows[..n], i, row, r);
      assert rows[i := row][..n] == rows[..n][i := row];
    } else {
      assert rows[i := row][..n] == rows[..n];
    }
  }

  /** Changing the last row of a rule changes the end of its list. */
  lemma {:induction false} RowsOfLast(rows: seq<EventRow>, i: nat, row: EventRow, r: Rule)
    requires i < |rows| && row.rule == rows[i].rule == r && !LaterRow(rows, i, r)
    ensures RowsOf(rows, r) != [] && RowsOf(rows, r)[|RowsOf(rows, r)| - 1] == rows[i]
    ensures RowsOf(rows[i := row], r) == Update(RowsOf(rows, r), row)
  {
    var n := |rows| - 1;
    if i < n {
      assert rows[n].rule != r;
      assert !LaterRow(rows[..n], i, r) by {
        forall j | i < j < n ensures rows[..n][j].rule != r { assert rows[j].rule != r; }
      }
      RowsOfLast(rows[..n], i, row, r);
      assert rows[i := row][..n] == rows[..n][i := row];
    } else {
      assert rows[i := row][..n] == rows[..n];
    }
  }

  /** A rule without an open row: its last row, if any, is closed. */
  lemma {:induction false} RowsOfClosed(rows: seq<EventRow>, r: Rule)
    requires forall i | 0 <= i < |rows| && rows[i].rule == r :: rows[i].end.Some?
    ensures !LastOpen(RowsOf(rows, r))
  {
    if rows != [] {
      var n := |rows| - 1;
      if rows[n].rule != r {
        RowsOfClosed(rows[..n], r);
      }
    }
  }

  /** Whether a rule is open shows at the end of its rows. */
  lemma OpenShows(m: Machine, r: Rule)
    requires Inv(m)
    ensures IsOpen(m, r) <==> LastOpen(RowsOf(m.rows, r))
  {
    if id :| id in m.open && m.open[id] == r {
      RowsOfLast(m.rows, id - 1, m.rows[id - 1], r);
    } else {
      forall i | 0 <= i < |m.rows| && m.rows[i].rule == r
        ensures m.rows[i].end.Some?
      {
        assert m.rows[i].end.None? ==> i + 1 in m.open;
      }
      RowsOfClosed(m.rows, r);
    }
  }

  /** No two open events are equal. */
  lemma OpenDistinct(m: Machine, a: nat, b: nat)
    requires Inv(m) && a in m.open && b in m.open && m.open[a] == m.open[b]
    ensures a == b
  {
    assert OpenRow(m.rows, a) && OpenRow(m.rows, b);
    var later := set j | a - 1 < j < |m.rows| && m.rows[j].rule == m.open[a];
    var later' := set j | b - 1 < j < |m.rows| && m.rows[j].rule == m.open[b];
    assert a < b ==> b - 1 in later;
    assert b < a ==> a - 1 in later';
  }

  // ---- The loops, seen from one rule ----

  /** What opening rule `e` does to the alerts of rule `r`. */
  function Alerted(rows: seq<EventRow>, r: Rule, line: Line): seq<real> {
    if Opens(r, line) && !LastOpen(rows) then [line.values[r.property]] else []
  }

  /** From `m` to `m'`, rule `r` had its turn in the open loop, or had none. */
  ghost predicate Turned(m: Machine, m': Machine, r: Rule, turn: bool, line: Line) {
    && Inv(m') && m'.factory == m.factory
    && RowsOf(m'.rows, r) == (if turn then TrackOpen(RowsOf(m.rows, r), r, line) else RowsOf(m.rows, r))
    && AlertsOf(m'.alerts, r) ==
       AlertsOf(m.alerts, r) + (if turn then Alerted(RowsOf(m.rows, r), r, line) else [])
  }

  /** An open event equal to the rule: only its row's current value changes. */
  lemma OpenRuleUpdates(m: Machine, e: Rule, id: nat, v: real, r: Rule)
    requires Inv(m) && id in m.open && m.open[id] == e
    ensures var rows := m.rows[id - 1 := m.rows[id - 1].(current := v)];
            && Inv(m.(rows := rows)) && LastOpen(RowsOf(m.rows, e))
            && RowsOf(rows, r) ==
               if e == r then Update(RowsOf(m.rows, r), RowsOf(m.rows, r)[|RowsOf(m.rows, r)| - 1].(current := v))
               else RowsOf(m.rows, r)
  {
    hide RowsOf;
    assert 0 < id <= |m.rows| && OpenRow(m.rows, id) && m.rows[id - 1].rule == e;
    var row := m.rows[id - 1].(current := v);
    ReplaceKeepsInv(m, id, row);
    RowsOfLast(m.rows, id - 1, row, e);
    if e != r { RowsOfOther(m.rows, id - 1, row, r); }
  }

  lemma OpenRuleTracks(m: Machine, e: Rule, line: Line, r: Rule)
    requires Inv(m)
    ensures Turned(m, OpenRule(m, e, line), r, e == r, line)
  {
    hide RowsOf, Holds;
    assert AlertsOf(m.alerts, r) + [] == AlertsOf(m.alerts, r);
    if Opens(e, line) {
      var v := line.values[e.property];
      var id := FindOpen(m.open, |m.rows|, e);
      if id > 0 {
        OpenRuleUpdates(m, e, id, v, r);
        hide Inv, AlertsOf, Update;
      } else {
        OpenShows(m, e);
        assert !IsOpen(m, e);
        hide Inv, IsOpen;
        var row := EventRow(e, line.timestamp, v, None);
        RowsOfAppend(m.rows, row, r);
        AppendKeepsInv(m, row);
        assert (m.alerts + [Alert(e, v)])[..|m.alerts|] == m.alerts;
      }
    }
  }

  lemma ReplaceKeepsInv(m: Machine, id: nat, row: EventRow)
    requires Inv(m) && 0 < id <= |m.rows|
    requires row.rule == m.rows[id - 1].rule && row.end == m.rows[id - 1].end
    ensures Inv(m.(rows := m.rows[id - 1 := row]))
  {
    var rows := m.rows[id - 1 := row];
    forall i | 0 < i <= |rows|
      ensures OpenRow(rows, i) == OpenRow(m.rows, i)
      ensures LaterRow(rows, i - 1, rows[i - 1].rule) ==> LaterRow(m.rows, i - 1, m.rows[i - 1].rule)
    {
      if j :| i - 1 < j < |rows| && rows[j].rule == rows[i - 1].rule {
        assert m.rows[j].rule == m.rows[i - 1].rule;
      }
    }
    assert Reload(rows) == Reload(m.rows);
  }

  lemma AppendKeepsInv(m: Machine, row: EventRow)
    requires Inv(m) && !IsOpen(m, row.rule) && row.end.None?
    ensures Inv(m.(rows := m.rows + [row], open := m.open[|m.rows| + 1 := row.rule]))
  {
    var rows := m.rows + [row];
    forall i | 0 < i <= |m.rows|
      ensures OpenRow(rows, i) == OpenRow(m.rows, i)
      ensures OpenRow(rows, i) ==> !LaterRow(rows, i - 1, rows[i - 1].rule)
    {
      if OpenRow(m.rows, i) {
        assert i in m.open;
        assert forall j | 0 <= j < |m.rows| :: rows[j] == m.rows[j];
      }
    }
    assert Reload(rows) == m.open[|m.rows| + 1 := row.rule];
  }

  lemma TrackOpenAgain(rows: seq<EventRow>, r: Rule, line: Line)
    ensures TrackOpen(TrackOpen(rows, r, line), r, line) == TrackOpen(rows, r, line)
    ensures Opens(r, line) ==> LastOpen(TrackOpen(rows, r, line))
  {}

  /** A second turn on the same line adds nothing. */
  lemma TurnAgain(m: Machine, m1: Machine, m2: Machine, r: Rule, first: bool, second: bool, line: Line)
    requires Turned(m, m1, r, first, line) && Turned(m1, m2, r, second, line)
    ensures Turned(m, m2, r, first || second, line)
  {
    hide Inv, RowsOf, AlertsOf, TrackOpen, Opens, LastOpen;
    TrackOpenAgain(RowsOf(m.rows, r), r, line);
    var added := if first then Alerted(RowsOf(m.rows, r), r, line) else [];
    assert AlertsOf(m1.alerts, r) + [] == AlertsOf(m1.alerts, r);
    assert AlertsOf(m.alerts, r) + [] == AlertsOf(m.alerts, r);
  }

  lemma {:induction false} OpenRulesTrack(m: Machine, rules: seq<Rule>, line: Line, r: Rule)
    requires Inv(m)
    ensures Turned(m, OpenRules(m, rules, line), r, r in rules, line)
  {
    if rules == [] {
      hide Inv, RowsOf, AlertsOf, TrackOpen;
      assert AlertsOf(m.alerts, r) + [] == AlertsOf(m.alerts, r);
    } else {
      hide Turned, OpenRule, Inv, TrackOpen, Alerted, RowsOf, AlertsOf;
      var n := |rules| - 1;
      var m1 := OpenRules(m, rules[..n], line);
      OpenRulesTrack(m, rules[..n], line, r);
      TurnedInv(m, m1, r, r in rules[..n], line);
      OpenRuleTracks(m1, rules[n], line, r);
      TurnAgain(m, m1, OpenRules(m, rules, line), r, r in rules[..n], rules[n] == r, line);
      assert rules == rules[..n] + [rules[n]];
    }
  }

  lemma TurnedInv(m: Machine, m': Machine, r: Rule, turn: bool, line: Line)
    requires Turned(m, m', r, turn, line)
    ensures Inv(m')
  {}

  lemma CloseEventTracks(m: Machine, id: nat, line: Line, r: Rule)
    requires Inv(m)
    ensures var m' := CloseEvent(m, id, line);
            && Inv(m') && m'.factory == m.factory && m'.alerts == m.alerts && |m'.rows| == |m.rows|
            && m'.open.Keys <= m.open.Keys
            && (forall i | i in m.open && i != id :: i in m'.open && m'.open[i] == m.open[i])
            && RowsOf(m'.rows, r) ==
               (if id in m.open && m.open[id] == r then TrackClose(RowsOf(m.rows, r), r, line) else RowsOf(m.rows, r))
  {
    if id in m.open {
      var row := m.rows[id - 1].(end := Some(line.timestamp));
      assert OpenRow(m.rows, id);
      if m.open[id] == r {
        RowsOfLast(m.rows, id - 1, row, r);
      } else {
        RowsOfOther(m.rows, id - 1, row, r);
      }
      CloseKeepsInv(m, id, row);
    }
  }

  lemma CloseKeepsInv(m: Machine, id: nat, row: EventRow)
    requires Inv(m) && 0 < id <= |m.rows| && row.rule == m.rows[id - 1].rule && row.end.Some?
    ensures Inv(m.(rows := m.rows[id - 1 := row], open := m.open - {id}))
  {
    var rows := m.rows[id - 1 := row];
    forall i | 0 < i <= |rows|
      ensures OpenRow(rows, i) == (i != id && OpenRow(m.rows, i))
      ensures LaterRow(rows, i - 1, rows[i - 1].rule) ==> LaterRow(m.rows, i - 1, m.rows[i - 1].rule)
    {
      if j :| i - 1 < j < |rows| && rows[j].rule == rows[i - 1].rule {
        assert m.rows[j].rule == m.rows[i - 1].rule;
      }
    }
    assert Reload(rows) == m.open - {id};
  }

  predicate OpenBelow(m: Machine, n: nat, r: Rule) { exists id | id in m.open :: id <= n && m.open[id] == r }

  lemma {:induction false} CloseTracks(m: Machine, n: nat, line: Line, r: Rule)
    requires Inv(m)
    ensures var m' := CloseUpTo(m, n, line);
            && Inv(m') && m'.factory == m.factory && m'.alerts == m.alerts && |m'.rows| == |m.rows|
            && m'.open.Keys <= m.open.Keys
            && (forall i | i in m.open && n < i :: i in m'.open && m'.open[i] == m.open[i])
            && RowsOf(m'.rows, r) ==
               (if OpenBelow(m, n, r) then TrackClose(RowsOf(m.rows, r), r, line) else RowsOf(m.rows, r))
  {
    if n > 0 {
      CloseTracks(m, n - 1, line, r);
      var m' := CloseUpTo(m, n - 1, line);
      CloseEventTracks(m', n, line, r);
      if id :| id in m.open && id <= n - 1 && m.open[id] == r {
        if n in m.open && m.open[n] == r {
          OpenDistinct(m, id, n);
        }
      }
    }
  }

  lemma OnLineTracks(m: Machine, line: Line, r: Rule)
    requires Inv(m)
    ensures var m' := OnLine(m, line);
            && Inv(m') && m'.factory == m.factory
            && RowsOf(m'.rows, r) == Track(RowsOf(m.rows, r), r, r in m.factory, line)
            && AlertsOf(m'.alerts, r) ==
               AlertsOf(m.alerts, r) + (if r in m.factory then Alerted(RowsOf(m.rows, r), r, line) else [])
  {
    OpenRulesTrack(m, m.factory, line, r);
    var m' := OpenRules(m, m.factory, line);
    CloseTracks(m', |m'.rows|, line, r);
    OpenShows(m', r);
    assert IsOpen(m', r) ==> OpenBelow(m', |m'.rows|, r);
  }

  /** The rows of each rule depend on the lines alone, one rule at a time. */
  lemma {:induction false} ParseTracks(m: Machine, lines: seq<Line>, r: Rule)
    requires Inv(m)
    ensures var m' := Parse(m, lines);
            && Inv(m') && m'.factory == m.factory
            && RowsOf(m'.rows, r) == TrackAll(RowsOf(m.rows, r), r, r in m.factory, lines)
  {
    if lines != [] {
      ParseTracks(m, lines[..|lines| - 1], r);
      OnLineTracks(Parse(m, lines[..|lines| - 1]), lines[|lines| - 1], r);
    }
  }
}
