/** The database connection pool's counter, shared by concurrent threads. */
module DbPool {
  import opened Sets

  /** Where a thread is inside dbTools::grab or release, and for which object. */
  datatype Pc =
    | Free
    | Waiting(o: nat)   // before the guard `usedCount > poolSize`
    | Passed(o: nat)    // past the guard, before the increment
    | Counted(o: nat)   // past the increment, connection not yet stored in the object

  /** `holding` are the objects whose `db` is set; `lost` counts the grabs whose connection never
      reached an object, because safe_grab asked again or gave up. */
  datatype World = World(threads: map<nat, Pc>, holding: set<nat>, used: int, lost: nat)

  datatype Event =
    | Ask(t: nat, o: nat)        // dbTools::grab is called
    | Check(t: nat)              // one test of the guard
    | Count(t: nat)              // ++usedCount
    | CheckAndCount(t: nat)      // the two as one step
    | Take(t: nat)               // the connection is stored in the object
    | Lose(t: nat, again: bool)  // the connection is dropped
    | Return(t: nat, o: nat)     // dbTools::release is called

  predicate Busy(w: World, o: nat) { exists t | t in w.threads :: w.threads[t] != Free && w.threads[t].o == o }

  /** A call finds its thread idle, and no thread is in the middle of a call on the same object. */
  predicate Enabled(w: World, e: Event) {
    && e.t in w.threads
    && match e
       case Ask(t, o) => w.threads[t].Free? && !Busy(w, o)
       case Check(t) => w.threads[t].Waiting?
       case Count(t) => w.threads[t].Passed?
       case CheckAndCount(t) => w.threads[t].Waiting?
       case Take(t) => w.threads[t].Counted?
       case Lose(t, _) => w.threads[t].Counted?
       case Return(t, o) => w.threads[t].Free? && !Busy(w, o)
  }

  function Set(w: World, t: nat, pc: Pc): World { w.(threads := w.threads[t := pc]) }

  /** grab returns at once when the object holds a connection, release when it holds none; a thread
      that finds the guard true sleeps and tests again. */
  function Apply(w: World, size: nat, e: Event): World
    requires Enabled(w, e)
  {
    match e
    case Ask(t, o) => if o in w.holding then w else Set(w, t, Waiting(o))
    case Check(t) => if w.used > size then w else Set(w, t, Passed(w.threads[t].o))
    case Count(t) => Set(w, t, Counted(w.threads[t].o)).(used := w.used + 1)
    case CheckAndCount(t) => if w.used > size then w else Set(w, t, Counted(w.threads[t].o)).(used := w.used + 1)
    case Take(t) => Set(w, t, Free).(holding := w.holding + {w.threads[t].o})
    case Lose(t, again) => Set(w, t, if again then Waiting(w.threads[t].o) else Free).(lost := w.lost + 1)
    case Return(t, o) => if o !in w.holding then w else w.(holding := w.holding - {o}, used := w.used - 1)
  }

  /** `w'` is where the events lead from `w`. */
  predicate Run(w: World, size: nat, run: seq<Event>, w': World)
    decreases |run|
  {
    if run == [] then w' == w else Enabled(w, run[0]) && Run(Apply(w, size, run[0]), size, run[1..], w')
  }

  function Idle(threads: set<nat>): World { World(map t | t in threads :: Free, {}, 0, 0) }

  function CountedThreads(w: World): set<nat> { set t | t in w.threads && w.threads[t].Counted? }

  function PassedThreads(w: World): set<nat> { set t | t in w.threads && w.threads[t].Passed? }

  // ---- The counter ----

  /** The counter is exact, one thread at most works on an object, and only on one that holds nothing. */
  ghost predicate Inv(w: World) {
    && Balanced(w)
    && (forall t | t in w.threads && w.threads[t] != Free :: w.threads[t].o !in w.holding)
    && forall t, u | t in w.threads && u in w.threads && w.threads[t] != Free && w.threads[u] != Free && t != u ::
         w.threads[t].o != w.threads[u].o
  }

  /** How the counted and passed threads change when thread `t` moves. */
  lemma SetMoves(w: World, t: nat, pc: Pc)
    requires t in w.threads
    ensures CountedThreads(Set(w, t, pc)) == CountedThreads(w) - {t} + if pc.Counted? then {t} else {}
    ensures PassedThreads(Set(w, t, pc)) == PassedThreads(w) - {t} + if pc.Passed? then {t} else {}
  {}

  lemma MoveSize(a: set<nat>, t: nat, into: bool)
    ensures |a - {t} + if into then {t} else {}| == |a| - (if t in a then 1 else 0) + if into then 1 else 0
  {
    assert t in a ==> a == (a - {t}) + {t};
    assert t !in a ==> a - {t} == a;
    assert (a - {t}) + {} == a - {t};
  }

  lemma Sizes(w: World, t: nat, pc: Pc)
    requires t in w.threads
    ensures |CountedThreads(Set(w, t, pc))| == |CountedThreads(w)| - (if w.threads[t].Counted? then 1 else 0)
        + if pc.Counted? then 1 else 0
    ensures |PassedThreads(Set(w, t, pc))| == |PassedThreads(w)| - (if w.threads[t].Passed? then 1 else 0)
        + if pc.Passed? then 1 else 0
  {
    SetMoves(w, t, pc);
    assert w.threads[t].Counted? <==> t in CountedThreads(w);
    assert w.threads[t].Passed? <==> t in PassedThreads(w);
    hide CountedThreads, PassedThreads, Set;
    MoveSize(CountedThreads(w), t, pc.Counted?);
    MoveSize(PassedThreads(w), t, pc.Passed?);
  }

  predicate Balanced(w: World) { w.used == |w.holding| + |CountedThreads(w)| + w.lost }

  function Pressure(w: World): int { w.used + |PassedThreads(w)| }

  /** The thread of the event after it. */
  function Next(w: World, size: nat, e: Event): Pc
    requires Enabled(w, e)
  {
    Apply(w, size, e).threads[e.t]
  }

  /** The sizes after an event, from the one thread that moves. */
  lemma EventSizes(w: World, size: nat, e: Event)
    requires Enabled(w, e)
    ensures var w', t, u := Apply(w, size, e), w.threads[e.t], Next(w, size, e);
            && w'.threads.Keys == w.threads.Keys && w'.lost >= w.lost
            && |CountedThreads(w')| == |CountedThreads(w)| - (if t.Counted? then 1 else 0)
                + (if u.Counted? then 1 else 0)
            && |PassedThreads(w')| == |PassedThreads(w)| - (if t.Passed? then 1 else 0) + (if u.Passed? then 1 else 0)
  {
    hide CountedThreads, PassedThreads, Busy;
    var u := Next(w, size, e);
    Sizes(w, e.t, u);
    assert Apply(w, size, e).threads == Set(w, e.t, u).threads;
    SameThreads(Apply(w, size, e), Set(w, e.t, u));
  }

  lemma BalanceKept(w: World, size: nat, e: Event)
    requires Inv(w) && Enabled(w, e)
    ensures Balanced(Apply(w, size, e))
  {
    hide CountedThreads, PassedThreads, Busy;
    EventSizes(w, size, e);
  }

  /** Only a test of the guard that finds it false adds to the pressure, by one. */
  lemma PressureKept(w: World, size: nat, e: Event)
    requires Enabled(w, e)
    ensures Pressure(Apply(w, size, e))
         <= Pressure(w) + if (e.Check? || e.CheckAndCount?) && w.used <= size then 1 else 0
  {
    hide CountedThreads, PassedThreads, Busy;
    EventSizes(w, size, e);
  }

  lemma SameThreads(a: World, b: World)
    requires a.threads == b.threads
    ensures CountedThreads(a) == CountedThreads(b) && PassedThreads(a) == PassedThreads(b)
  {}

  lemma InvKept(w: World, size: nat, e: Event)
    requires Inv(w) && Enabled(w, e)
    ensures Inv(Apply(w, size, e))
  {
    BalanceKept(w, size, e);
    hide Balanced;
  }

  lemma {:induction false} RunInv(w: World, size: nat, run: seq<Event>, w': World)
    requires Inv(w) && Run(w, size, run, w')
    ensures Inv(w') && w'.threads.Keys == w.threads.Keys && w'.lost >= w.lost
    decreases |run|
  {
    if run != [] {
      hide Inv, Apply, Enabled;
      InvKept(w, size, run[0]);
      EventSizes(w, size, run[0]);
      RunInv(Apply(w, size, run[0]), size, run[1..], w');
    }
  }

  lemma IdleInv(threads: set<nat>)
    ensures Inv(Idle(threads))
  {
    assert CountedThreads(Idle(threads)) == {};
  }

  /** Over all interleavings, while no thread is between the increment and the end of its call: the
      counter equals the number of objects holding a connection exactly when no grab was lost. */
  lemma CounterExact(threads: set<nat>, size: nat, run: seq<Event>, w: World)
    requires Run(Idle(threads), size, run, w) && (forall t | t in w.threads :: !w.threads[t].Counted?)
    ensures w.used == |w.holding| + w.lost
    ensures w.used == |w.holding| <==> w.lost == 0
  {
    IdleInv(threads);
    RunInv(Idle(threads), size, run, w);
    assert CountedThreads(w) == {};
  }

  // ---- Bounds ----

  /** The run tests and increments in one step. */
  predicate Atomic(run: seq<Event>) { forall i | 0 <= i < |run| :: !run[i].Check? && !run[i].Count? }

  lemma {:induction false} AtomicBound(w: World, size: nat, run: seq<Event>, w': World)
    requires Inv(w) && Atomic(run) && Run(w, size, run, w') && w.used <= size + 1 && PassedThreads(w) == {}
    ensures w'.used <= size + 1
    decreases |run|
  {
    if run != [] {
      hide Inv, Enabled, PassedThreads;
      assert Atomic(run[1..]) by { assert forall i | 0 <= i < |run| - 1 :: run[1..][i] == run[i + 1]; }
      assert !run[0].Check? && !run[0].Count?;
      InvKept(w, size, run[0]);
      EventSizes(w, size, run[0]);
      PassedNone(w, size, run[0]);
      AtomicBound(Apply(w, size, run[0]), size, run[1..], w');
    }
  }

  lemma PassedNone(w: World, size: nat, e: Event)
    requires Enabled(w, e) && PassedThreads(w) == {} && !e.Check?
    ensures PassedThreads(Apply(w, size, e)) == {}
  {
    forall t | t in w.threads ensures !w.threads[t].Passed? {
      assert t in PassedThreads(w) <==> w.threads[t].Passed?;
    }
  }

  /** With guard and increment in one step, the counter never exceeds poolSize + 1. */
  lemma AtomicNeverExceeds(threads: set<nat>, size: nat, run: seq<Event>, w: World)
    requires Atomic(run) && Run(Idle(threads), size, run, w)
    ensures w.used <= size + 1
  {
    IdleInv(threads);
    assert PassedThreads(Idle(threads)) == {};
    AtomicBound(Idle(threads), size, run, w);
  }

  /** The threads past the guard are fewer than all threads when one is not. */
  lemma SomeNotPassed(w: World, t: nat)
    requires t in w.threads && !w.threads[t].Passed?
    ensures |PassedThreads(w)| + 1 <= |w.threads.Keys|
  {
    SubsetSize(PassedThreads(w) + {t}, w.threads.Keys);
    assert t !in PassedThreads(w);
  }

  lemma ThreadStep(w: World, size: nat, e: Event)
    requires Inv(w) && Enabled(w, e) && Pressure(w) <= size + |w.threads.Keys|
    ensures var w' := Apply(w, size, e);
            Pressure(w') <= size + |w'.threads.Keys|
  {
    EventSizes(w, size, e);
    PressureKept(w, size, e);
    hide PassedThreads, CountedThreads, Apply, Enabled;
    if e.Check? || e.CheckAndCount? { SomeNotPassed(w, e.t); }
  }

  lemma {:induction false} ThreadBound(w: World, size: nat, run: seq<Event>, w': World)
    requires Inv(w) && Run(w, size, run, w') && Pressure(w) <= size + |w.threads.Keys|
    ensures Pressure(w') <= size + |w'.threads.Keys|
    decreases |run|
  {
    if run != [] {
      hide Inv, Enabled, PassedThreads, Apply;
      InvKept(w, size, run[0]);
      ThreadStep(w, size, run[0]);
      ThreadBound(Apply(w, size, run[0]), size, run[1..], w');
    }
  }

  /** Whatever the interleaving of the separate steps, the counter never exceeds poolSize plus the
      number of threads. */
  lemma NeverExceeds(threads: set<nat>, size: nat, run: seq<Event>, w: World)
    requires Run(Idle(threads), size, run, w)
    ensures w.used <= size + |threads|
  {
    IdleInv(threads);
    assert PassedThreads(Idle(threads)) == {};
    assert Idle(threads).threads.Keys == threads;
    ThreadBound(Idle(threads), size, run, w);
    RunInv(Idle(threads), size, run, w);
  }

  lemma RunCons(w: World, size: nat, e: Event, rest: seq<Event>, w': World)
    requires Enabled(w, e) && Run(Apply(w, size, e), size, rest, w')
    ensures Run(w, size, [e] + rest, w')
  {
    assert ([e] + rest)[1..] == rest;
  }

  lemma {:induction false} RunJoin(w: World, size: nat, a: seq<Event>, m: World, b: seq<Event>, w': World)
    requires Run(w, size, a, m) && Run(m, size, b, w')
    ensures Run(w, size, a + b, w')
    decreases |a|
  {
    if a == [] {
      assert a + b == b;
    } else {
      assert (a + b)[0] == a[0] && (a + b)[1..] == a[1..] + b;
      RunJoin(Apply(w, size, a[0]), size, a[1..], m, b, w');
    }
  }

  lemma RunOne(w: World, size: nat, e: Event)
    requires Enabled(w, e)
    ensures Run(w, size, [e], Apply(w, size, e))
  {
    hide Apply, Enabled;
    assert Run(Apply(w, size, e), size, [], Apply(w, size, e));
    RunCons(w, size, e, [], Apply(w, size, e));
  }
}
