/** The object that collects one resource: it opens and closes events line by line, and stores the
    samples. */
module RessourceClient {
  import opened Wrappers
  import E = Events

  /** A stored sample: the columns of the data definition, 0 where the line has none. */
  type Sample = map<string, real>

  function SampleOf(def: set<string>, line: E.Line): Sample {
    map c | c in def :: if c in line.values then line.values[c] else 0.0
  }

  /** The d$ table after the lines: for each timestamp the last line that carried it. */
  function Stored(samples: map<real, Sample>, def: set<string>, lines: seq<E.Line>): map<real, Sample> {
    if lines == [] then samples
    else
      var line := lines[|lines| - 1];
      Stored(samples, def, lines[..|lines| - 1])[line.timestamp := SampleOf(def, line)]
  }

  predicate IsLast(lines: seq<E.Line>, i: nat)
    requires i < |lines|
  {
    forall j | i < j < |lines| :: lines[j].timestamp != lines[i].timestamp
  }

  predicate NoLine(lines: seq<E.Line>, at: real) { forall j | 0 <= j < |lines| :: lines[j].timestamp != at }

  /** A row for the line: every column of the definition, with the line's value if it carries one, or 0. */
  predicate HasRow(t: map<real, Sample>, def: set<string>, line: E.Line) {
    && line.timestamp in t && t[line.timestamp].Keys == def
    && (forall c | c in def && c in line.values :: t[line.timestamp][c] == line.values[c])
    && forall c | c in def && c !in line.values :: t[line.timestamp][c] == 0.0
  }

  /** The last line of a timestamp decides its row. */
  lemma {:induction false} StoredLast(samples: map<real, Sample>, def: set<string>, lines: seq<E.Line>, i: nat)
    requires i < |lines| && IsLast(lines, i)
    ensures HasRow(Stored(samples, def, lines), def, lines[i])
  {
    var n := |lines| - 1;
    if i < n {
      StoredLast(samples, def, lines[..n], i);
    }
  }

  /** A timestamp no line carries keeps the row it had, if any. */
  lemma {:induction false} StoredElse(samples: map<real, Sample>, def: set<string>, lines: seq<E.Line>, at: real)
    requires NoLine(lines, at)
    ensures var t := Stored(samples, def, lines);
            (at in t <==> at in samples) && (at in samples ==> t[at] == samples[at])
  {
    if lines != [] {
      StoredElse(samples, def, lines[..|lines| - 1], at);
    }
  }

  /** `after` holds exactly the timestamps of `before` and of the lines, each with the row of its last
      line or, where no line carries it, the one it had. */
  ghost predicate Loaded(before: map<real, Sample>, def: set<string>, lines: seq<E.Line>, after: map<real, Sample>) {
    && (forall i | 0 <= i < |lines| && IsLast(lines, i) :: HasRow(after, def, lines[i]))
    && forall at: real | NoLine(lines, at) ::
         (at in after <==> at in before) && (at in before ==> after[at] == before[at])
  }

  lemma StoredLoaded(samples: map<real, Sample>, def: set<string>, lines: seq<E.Line>)
    ensures Loaded(samples, def, lines, Stored(samples, def, lines))
  {
    forall i | 0 <= i < |lines| && IsLast(lines, i) ensures HasRow(Stored(samples, def, lines), def, lines[i]) {
      StoredLast(samples, def, lines, i);
    }
    var after := Stored(samples, def, lines);
    forall at: real | NoLine(lines, at)
      ensures (at in after <==> at in samples) && (at in samples ==> after[at] == samples[at])
    {
      StoredElse(samples, def, lines, at);
    }
  }

  class Client {
    const def: set<string>
    var factory: seq<E.Rule>
    var current: map<nat, E.Rule>
    var rows: seq<E.EventRow>
    var alerts: seq<E.Alert>
    var samples: map<real, Sample>

    ghost function State(): E.Machine
      reads this
    {
      E.Machine(factory, current, rows, alerts)
    }

    /** `init`: loads the open events among the stored rows, and the rules. */
    constructor (def: set<string>, rules: seq<E.Rule>, stored: seq<E.EventRow>, samples: map<real, Sample>)
      ensures this.def == def && this.samples == samples
      ensures State() == E.Restart(E.Machine(rules, map[], stored, []))
    {
      this.def, this.samples := def, samples;
      rows, alerts := stored, [];
      var open: map<nat, E.Rule> := map[];
      var i := 0;
      while i < |stored|
        invariant 0 <= i <= |stored|
        invariant open == map id | 0 < id <= i && E.OpenRow(stored, id) :: stored[id - 1].rule
      {
        if stored[i].end.None? {
          open := open[i + 1 := stored[i].rule];
        }
        i := i + 1;
      }
      current := open;
      var loaded: seq<E.Rule> := [];
      for k := 0 to |rules|
        invariant loaded == rules[..k]
      {
        loaded := loaded + [rules[k]];
      }
      factory := loaded;
    }

    /** The search over the open events, in the order of their ids. */
    method Find(e: E.Rule) returns (found: nat)
      ensures found == E.FindOpen(current, |rows|, e)
    {
      found := 0;
      for id := 1 to |rows| + 1
        invariant found == E.FindOpen(current, id - 1, e)
      {
        if id in current && current[id] == e {
          found := id;
        }
      }
    }

    method OpenEvents(line: E.Line)
      modifies `current, `rows, `alerts
      ensures State() == E.OpenRules(old(State()), factory, line)
    {
      hide E.FindOpen;
      ghost var m := State();
      for k := 0 to |factory|
        invariant State() == E.OpenRules(m, factory[..k], line)
      {
        var e := factory[k];
        assert factory[..k + 1][..k] == factory[..k];
        if e.property in line.values {
          var v := line.values[e.property];
          var trig := false;
          match e.oper {
            case '<' => trig := v < e.value;
            case '>' => trig := v > e.value;
            case '=' => trig := v == e.value;
            case _ =>
          }
          if trig {
            var found := Find(e);
            if found > 0 {
              rows := rows[found - 1 := rows[found - 1].(current := v)];
            } else {
              rows := rows + [E.EventRow(e, line.timestamp, v, None)];
              current := current[|rows| := e];
              alerts := alerts + [E.Alert(e, v)];
            }
          }
        }
      }
      assert factory[..|factory|] == factory;
    }

    method CloseEvents(line: E.Line)
      modifies `current, `rows
      ensures State() == E.CloseUpTo(old(State()), |old(rows)|, line)
    {
      ghost var m := State();
      for id := 1 to |rows| + 1
        invariant |rows| == |m.rows|
        invariant State() == E.CloseUpTo(m, id - 1, line)
      {
        if id in current && current[id].property in line.values {
          var e := current[id];
          var v := line.values[e.property];
          var trig := false;
          match e.oper {
            case '<' => trig := v >= e.value;
            case '>' => trig := v <= e.value;
            case '=' => trig := v != e.value;
            case _ =>
          }
          if trig {
            rows := rows[id - 1 := rows[id - 1].(end := Some(line.timestamp))];
            current := current - {id};
          }
        }
      }
    }

    /** `parse`: events first, then the sample itself. */
    method Parse(lines: seq<E.Line>)
      requires E.Inv(State())
      modifies `current, `rows, `alerts, `samples
      ensures State() == E.Parse(old(State()), lines) && E.Inv(State())
      ensures samples == Stored(old(samples), def, lines) && Loaded(old(samples), def, lines, samples)
    {
      ghost var m, s := State(), samples;
      for n := 0 to |lines|
        invariant State() == E.Parse(m, lines[..n]) && E.Inv(State())
        invariant samples == Stored(s, def, lines[..n])
      {
        var line := lines[n];
        assert lines[..n + 1][..n] == lines[..n];
        E.OnLineTracks(State(), line, E.Rule(0, "", '=', 0.0));
        OpenEvents(line);
        CloseEvents(line);
        samples := samples[line.timestamp := SampleOf(def, line)];
      }
      assert lines[..|lines|] == lines;
      StoredLoaded(s, def, lines);
    }
  }
}
