/** The client's connection vector: reuse of one idle connection, removal of the others, and who
    holds what over all interleavings of requests and completions. */
module ConnectionPool {
  import opened Wrappers

  // ---- What get_connection does to the vector ----

  /** The elements of `s` that are in `keep`, in order. */
  function Filter<T(==)>(s: seq<T>, keep: set<T>): (r: seq<T>)
    ensures (forall x | x in r :: x in s && x in keep) && (forall x | x in s && x in keep :: x in r)
  {
    if s == [] then []
    else if s[|s| - 1] in keep then Filter(s[..|s| - 1], keep) + [s[|s| - 1]]
    else Filter(s[..|s| - 1], keep)
  }

  /** The first connection that is not busy. */
  function FirstIdle<T(==)>(s: seq<T>, busy: set<T>): (r: Option<T>)
    ensures r.None? <==> forall x | x in s :: x in busy
    ensures r.Some? ==> r.value in s && r.value !in busy
  {
    if s == [] then None
    else
      var r := FirstIdle(s[..|s| - 1], busy);
      if r.Some? then r else if s[|s| - 1] !in busy then Some(s[|s| - 1]) else None
  }

  /** It stands behind busy ones only. */
  lemma {:induction false} FirstIdleIs<T>(s: seq<T>, busy: set<T>)
    requires FirstIdle(s, busy).Some?
    ensures exists i | 0 <= i < |s| && s[i] == FirstIdle(s, busy).value :: forall j | 0 <= j < i :: s[j] in busy
  {
    var n := |s| - 1;
    if FirstIdle(s[..n], busy).Some? {
      FirstIdleIs(s[..n], busy);
      var i :| 0 <= i < n && s[..n][i] == FirstIdle(s, busy).value && forall j | 0 <= j < i :: s[..n][j] in busy;
      assert s[i] == s[..n][i] && forall j | 0 <= j < i :: s[j] == s[..n][j];
    } else {
      assert s[n] == FirstIdle(s, busy).value && forall j | 0 <= j < n :: s[j] in s[..n];
    }
  }

  /** The vector afterwards and the connection handed out: the first idle one, or a new one at the
      end; of the others only busy ones stay. */
  function Acquired<T(==)>(s: seq<T>, busy: set<T>, created: T): (seq<T>, T) {
    match FirstIdle(s, busy)
    case Some(c) => (Filter(s, busy + {c}), c)
    case None => (s + [created], created)
  }

  predicate Distinct<T(==)>(s: seq<T>) { forall i, j | 0 <= i < j < |s| :: s[i] != s[j] }

  lemma {:induction false} FilterDistinct<T>(s: seq<T>, keep: set<T>)
    requires Distinct(s)
    ensures Distinct(Filter(s, keep))
  {
    if s != [] {
      FilterDistinct(s[..|s| - 1], keep);
    }
  }

  lemma FilterAppend<T>(s: seq<T>, x: T, keep: set<T>)
    ensures Filter(s + [x], keep) == if x in keep then Filter(s, keep) + [x] else Filter(s, keep)
  {
    assert (s + [x])[..|s|] == s;
  }

  /** Order is kept: filtering out what is not busy gives the same busy connections as before. */
  lemma {:induction false} FilterTwice<T>(s: seq<T>, a: set<T>, b: set<T>)
    requires a <= b
    ensures Filter(Filter(s, b), a) == Filter(s, a)
  {
    if s != [] {
      var n := |s| - 1;
      FilterTwice(s[..n], a, b);
      FilterAppend(Filter(s[..n], b), s[n], a);
    }
  }

  lemma {:induction false} FilterAll<T>(s: seq<T>, keep: set<T>)
    requires forall x | x in s :: x in keep
    ensures Filter(s, keep) == s
  {
    if s != [] {
      FilterAll(s[..|s| - 1], keep);
    }
  }

  /** Right after get_connection: the connection handed out is the first idle one or new; every connection in
      the vector is in use; the busy ones are all kept, in order; at most one was created. */
  lemma AcquiredMeans<T>(s: seq<T>, busy: set<T>, created: T)
    requires Distinct(s) && created !in s && created !in busy
    ensures var (s', c) := Acquired(s, busy, created);
            && c !in busy && (c in s || c == created)
            && (c in s ==> exists i | 0 <= i < |s| && s[i] == c :: forall j | 0 <= j < i :: s[j] in busy)
            && Distinct(s') && c in s'
            && (forall x | x in s' :: x in busy || x == c)
            && Filter(s', busy) == Filter(s, busy)
            && (forall x | x in s' :: x in s || x == created)
            && (created in s' <==> forall x | x in s :: x in busy)
  {
    match FirstIdle(s, busy)
    case Some(c) =>
      FirstIdleIs(s, busy);
      FilterDistinct(s, busy + {c});
      FilterTwice(s, busy, busy + {c});
    case None =>
      var s' := s + [created];
      assert s'[..|s|] == s;
  }

  // ---- The vector itself ----

  class Connection {
    var inUse: bool
    var reconnecting: bool

    constructor ()
      ensures !inUse && !reconnecting
    {
      inUse, reconnecting := false, false;
    }
  }

  /** The connections of `s` that are in use. */
  ghost function InUse(s: seq<Connection>): set<Connection>
    reads s
  {
    set c | c in s && c.inUse
  }

  class Pool {
    var connections: seq<Connection>

    constructor ()
      ensures connections == []
    {
      connections := [];
    }

    /** The loop of get_connection: picks the first idle connection and erases the other idle ones. */
    method Scan() returns (chosen: Connection?)
      requires Distinct(connections)
      modifies `connections
      ensures Distinct(connections)
      ensures match FirstIdle(old(connections), InUse(old(connections)))
              case None => chosen == null && connections == old(connections)
              case Some(c) => chosen == c && connections == Filter(old(connections), InUse(old(connections)) + {c})
    {
      hide Filter, FirstIdle, Distinct;
      ghost var s, busy := connections, InUse(connections);
      ghost var pick: Option<Connection> := None;
      chosen := null;
      var i := 0;
      ghost var seen := 0;
      ScanStart(s, busy);
      while i < |connections|
        invariant Scanning(s, busy, seen, connections, i, pick)
        invariant i <= |connections| && seen <= |s|
        invariant if pick.None? then chosen == null else chosen == pick.value
        decreases |s| - seen
      {
        hide Scanning;
        ScanNext(s, busy, seen, connections, i, pick);
        assert connections[i] in s && (connections[i].inUse <==> connections[i] in busy);
        if connections[i].inUse {
          i := i + 1;
        } else if chosen == null {
          chosen := connections[i];
          pick := Some(connections[i]);
          i := i + 1;
        } else {
          connections := connections[..i] + connections[i + 1..];
        }
        seen := seen + 1;
      }
      ScanDone(s, busy, seen, connections, i, pick);
    }

    /** `get_connection` */
    method GetConnection() returns (c: Connection)
      requires Distinct(connections)
      modifies this, connections
      ensures Distinct(connections)
      ensures (connections, c) == Acquired(old(connections), old(InUse(connections)), c)
      ensures fresh(c) <==> old(FirstIdle(connections, InUse(connections))).None?
      ensures c.inUse && !c.reconnecting
      ensures forall x | x in old(connections) && x != c ::
                x.inUse == old(x.inUse) && x.reconnecting == old(x.reconnecting)
    {
      hide Filter, FirstIdle;
      var chosen := Scan();
      if chosen == null {
        c := new Connection();
        connections := connections + [c];
      } else {
        c := chosen;
      }
      c.reconnecting := false;
      c.inUse := true;
    }
  }

  lemma ScanStart(s: seq<Connection>, busy: set<Connection>)
    ensures Scanning(s, busy, 0, s, 0, None)
  {
    assert s[..0] == [];
  }

  /** What the loop keeps so far. */
  ghost function Keeping(busy: set<Connection>, pick: Option<Connection>): set<Connection> {
    match pick case None => busy case Some(c) => busy + {c}
  }

  /** The loop after `seen` connections of `s`: the first `i` of the vector are kept, the rest is
      still to be looked at. */
  ghost predicate Scanning(s: seq<Connection>, busy: set<Connection>, seen: nat, v: seq<Connection>, i: nat,
          pick: Option<Connection>) {
    && seen <= |s| && i <= |v| && v[i..] == s[seen..]
    && FirstIdle(s[..seen], busy) == pick
    && v[..i] == Filter(s[..seen], Keeping(busy, pick))
  }

  lemma ScanNext(s: seq<Connection>, busy: set<Connection>, seen: nat, v: seq<Connection>, i: nat,
          pick: Option<Connection>)
    requires Distinct(s) && Scanning(s, busy, seen, v, i, pick) && i < |v|
    ensures seen < |s| && v[i] == s[seen]
    ensures if v[i] in busy then Scanning(s, busy, seen + 1, v, i + 1, pick)
            else if pick.None? then Scanning(s, busy, seen + 1, v, i + 1, Some(v[i]))
            else Scanning(s, busy, seen + 1, v[..i] + v[i + 1..], i, pick)
  {
    hide Filter, FirstIdle;
    assert v[i] == v[i..][0] && s[seen] == s[seen..][0];
    assert v[i + 1..] == v[i..][1..] && s[seen + 1..] == s[seen..][1..];
    assert s[..seen + 1] == s[..seen] + [s[seen]] && v[..i + 1] == v[..i] + [v[i]];
    IdleAppend(s[..seen], s[seen], busy);
    FilterAppend(s[..seen], s[seen], Keeping(busy, pick));
    if pick.Some? {
      assert pick.value in s[..seen];
      assert (v[..i] + v[i + 1..])[..i] == v[..i] && (v[..i] + v[i + 1..])[i..] == v[i + 1..];
    } else {
      FilterAll(s[..seen], busy);
      FilterAll(s[..seen], busy + {v[i]});
      FilterAppend(s[..seen], s[seen], busy + {v[i]});
    }
  }

  lemma IdleAppend<T>(s: seq<T>, x: T, busy: set<T>)
    ensures FirstIdle(s + [x], busy) ==
            if FirstIdle(s, busy).Some? then FirstIdle(s, busy) else if x !in busy then Some(x) else None
  {
    assert (s + [x])[..|s|] == s;
  }

  lemma ScanDone(s: seq<Connection>, busy: set<Connection>, seen: nat, v: seq<Connection>, i: nat,
          pick: Option<Connection>)
    requires Distinct(s) && Scanning(s, busy, seen, v, i, pick) && i >= |v|
    ensures Distinct(v) && FirstIdle(s, busy) == pick
    ensures v == match pick case None => s case Some(c) => Filter(s, busy + {c})
  {
    hide Filter, FirstIdle;
    assert |s[seen..]| == |v[i..]|;
    assert s[..seen] == s && v[..i] == v;
    match pick
    case None => FilterAll(s, busy);
    case Some(c) => FilterDistinct(s, busy + {c});
  }

  // ---- Who holds what ----

  /** The vector, the connections in use, who holds them, and the number of connections made. */
  datatype World = World(vector: seq<nat>, busy: set<nat>, held: map<nat, nat>, made: nat)

  /** A request gets a connection for a new session; the completion of a session frees it. */
  datatype Event = Request(session: nat) | Complete(session: nat)

  predicate Allowed(w: World, e: Event) {
    match e
    case Request(s) => s !in w.held
    case Complete(s) => s in w.held
  }

  function Next(w: World, e: Event): World
    requires Allowed(w, e)
  {
    match e
    case Request(s) =>
      var (v, c) := Acquired(w.vector, w.busy, w.made);
      World(v, w.busy + {c}, w.held[s := c], if c == w.made then w.made + 1 else w.made)
    case Complete(s) =>
      w.(busy := w.busy - {w.held[s]}, held := w.held - {s})
  }

  predicate AllowedAll(w: World, es: seq<Event>)
    decreases |es|
  {
    es == [] || (Allowed(w, es[0]) && AllowedAll(Next(w, es[0]), es[1..]))
  }

  function Run(w: World, es: seq<Event>): World
    requires AllowedAll(w, es)
    decreases |es|
  {
    if es == [] then w else Run(Next(w, es[0]), es[1..])
  }

  const EMPTY := World([], {}, map[], 0)

  ghost predicate Inv(w: World) {
    && Distinct(w.vector)
    && (forall x | x in w.vector :: x < w.made)
    && (forall x | x in w.busy :: x in w.vector)
    && (forall s | s in w.held :: w.held[s] in w.busy)
    && (forall x | x in w.busy :: exists s | s in w.held :: w.held[s] == x)
    && (forall s, t | s in w.held && t in w.held && s != t :: w.held[s] != w.held[t])
  }

  lemma NextKeeps(w: World, e: Event)
    requires Inv(w) && Allowed(w, e)
    ensures Inv(Next(w, e))
  {
    hide Filter, FirstIdle, Acquired;
    var w' := Next(w, e);
    match e {
      case Request(s) =>
        AcquiredMeans(w.vector, w.busy, w.made);
        StillHeld(w, w', s);
        BusyStay(w.vector, w.busy, w.made);
      case Complete(s) =>
        forall x | x in w'.busy
          ensures exists t | t in w'.held :: w'.held[t] == x
        {
          var t :| t in w.held && w.held[t] == x;
          assert t in w'.held && w'.held[t] == x;
        }
    }
  }

  lemma StillHeld(w: World, w': World, s: nat)
    requires s !in w.held && s in w'.held && w'.held == w.held[s := w'.held[s]]
    requires w'.busy == w.busy + {w'.held[s]}
    requires forall x | x in w.busy :: exists t | t in w.held :: w.held[t] == x
    ensures forall x | x in w'.busy :: exists t | t in w'.held :: w'.held[t] == x
  {
    forall x | x in w'.busy
      ensures exists t | t in w'.held :: w'.held[t] == x
    {
      if x in w.busy {
        var t :| t in w.held && w.held[t] == x;
        assert t in w'.held && w'.held[t] == x;
      } else {
        assert s in w'.held;
      }
    }
  }

  lemma BusyStay(s: seq<nat>, busy: set<nat>, created: nat)
    requires forall x | x in busy :: x in s
    ensures forall x | x in busy :: x in Acquired(s, busy, created).0
  {}

  lemma {:induction false} RunKeeps(w: World, es: seq<Event>)
    requires Inv(w) && AllowedAll(w, es)
    ensures Inv(Run(w, es))
    decreases |es|
  {
    if es != [] {
      NextKeeps(w, es[0]);
      RunKeeps(Next(w, es[0]), es[1..]);
    }
  }

  /** Over all interleavings of requests and completions, no two outstanding sessions hold the same
      connection, a held connection is never dropped from the vector, and it is in use exactly while
      it is held. */
  lemma PoolExclusive(es: seq<Event>)
    requires AllowedAll(EMPTY, es)
    ensures var w := Run(EMPTY, es);
            && (forall s, t | s in w.held && t in w.held && s != t :: w.held[s] != w.held[t])
            && (forall s | s in w.held :: w.held[s] in w.vector)
            && w.busy == set s | s in w.held :: w.held[s]
  {
    RunKeeps(EMPTY, es);
    var w := Run(EMPTY, es);
    forall x | x in w.busy
      ensures x in set s | s in w.held :: w.held[s]
    {
      var t :| t in w.held && w.held[t] == x;
    }
  }
}
