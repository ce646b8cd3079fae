/** How far the pool's counter gets, and when a sleeping thread can still get through: the runs that
    attain the limits, and the exact conditions. */
module DbPoolLimits {
  import opened DbPool

  // ---- All threads in step ----

  /** A thread that works on object `o`, `k` steps after the call. */
  function PcAt(k: nat, o: nat): Pc {
    if k == 0 then Free else if k == 1 then Waiting(o) else if k == 2 then Passed(o) else Counted(o)
  }

  function Below(n: nat): (r: set<nat>)
    ensures forall o: nat :: o in r <==> o < n
  {
    if n == 0 then {} else Below(n - 1) + {n - 1}
  }

  /** Objects 0 to `base`-1 hold a connection; each thread `t` works on object `base`+t, and those in
      `done` are one step further than the others. */
  function Stage(threads: set<nat>, done: set<nat>, k: nat, base: nat, used: int): World {
    World(map t | t in threads :: PcAt(if t in done then k + 1 else k, base + t), Below(base), used, 0)
  }

  function StageEvent(k: nat, t: nat, base: nat): Event {
    if k == 0 then Ask(t, base + t) else if k == 1 then Check(t) else Count(t)
  }

  lemma StageStep(threads: set<nat>, done: set<nat>, t: nat, k: nat, base: nat, size: nat, used: int)
    requires t in threads && t !in done && k < 3 && (k == 1 ==> used <= size)
    ensures var w, e := Stage(threads, done, k, base, used), StageEvent(k, t, base);
            && Enabled(w, e)
            && Apply(w, size, e) == Stage(threads, done + {t}, k, base, used + if k == 2 then 1 else 0)
  {
    var w, e := Stage(threads, done, k, base, used), StageEvent(k, t, base);
    var w' := Stage(threads, done + {t}, k, base, used + if k == 2 then 1 else 0);
    assert base + t !in w.holding;
    assert w'.threads == w.threads[t := PcAt(k + 1, base + t)];
  }

  /** The threads that are not done take their step one after the other. */
  lemma {:induction false} Sweep(threads: set<nat>, done: set<nat>, k: nat, base: nat, size: nat, used: int)
    returns (run: seq<Event>)
    requires done <= threads && k < 3 && (k == 1 ==> used <= size)
    ensures Run(Stage(threads, done, k, base, used), size, run,
                Stage(threads, {}, k + 1, base, used + if k == 2 then |threads - done| else 0))
    decreases |threads - done|
  {
    hide Enabled, Apply;
    if threads - done == {} {
      run := [];
      assert threads == done;
      assert Stage(threads, done, k, base, used).threads == Stage(threads, {}, k + 1, base, used).threads;
    } else {
      hide Stage;
      var t :| t in threads - done;
      StageStep(threads, done, t, k, base, size, used);
      assert threads - (done + {t}) == threads - done - {t};
      var used' := used + if k == 2 then 1 else 0;
      var rest := Sweep(threads, done + {t}, k, base, size, used');
      run := [StageEvent(k, t, base)] + rest;
      RunCons(Stage(threads, done, k, base, used), size, StageEvent(k, t, base), rest,
          Stage(threads, {}, k + 1, base, used + if k == 2 then |threads - done| else 0));
    }
  }

  /** One thread alone can fill the pool and one more. */
  lemma {:induction false} Fill(threads: set<nat>, t: nat, n: nat, size: nat) returns (run: seq<Event>)
    requires t in threads && n <= size + 1
    ensures Run(Idle(threads), size, run, Stage(threads, {}, 0, n, n))
  {
    if n == 0 {
      run := [];
      assert Stage(threads, {}, 0, 0, 0) == Idle(threads);
    } else {
      hide Stage, Enabled, Apply;
      run := Fill(threads, t, n - 1, size);
      var more := FillOne(threads, t, n - 1, size);
      RunJoin(Idle(threads), size, run, Stage(threads, {}, 0, n - 1, n - 1), more, Stage(threads, {}, 0, n, n));
      run := run + more;
    }
  }

  lemma FillOne(threads: set<nat>, t: nat, n: nat, size: nat) returns (run: seq<Event>)
    requires t in threads && n <= size
    ensures Run(Stage(threads, {}, 0, n, n), size, run, Stage(threads, {}, 0, n + 1, n + 1))
  {
    hide Run;
    var w0, w4 := Stage(threads, {}, 0, n, n), Stage(threads, {}, 0, n + 1, n + 1);
    var w1 := Set(w0, t, Waiting(n));
    var w2 := Set(w0, t, Passed(n));
    var w3 := Set(w0, t, Counted(n)).(used := n + 1);
    assert Apply(w0, size, Ask(t, n)) == w1;
    assert Apply(w1, size, Check(t)) == w2;
    assert Apply(w2, size, Count(t)) == w3;
    assert Apply(w3, size, Take(t)) == w4 by {
      assert Set(w3, t, Free).threads == w4.threads;
      assert w3.holding + {n} == w4.holding;
    }
    hide Stage, Apply, Set, Enabled;
    RunOne(w3, size, Take(t));
    RunCons(w2, size, Count(t), [Take(t)], w4);
    RunCons(w1, size, Check(t), [Count(t)] + [Take(t)], w4);
    RunCons(w0, size, Ask(t, n), [Check(t)] + ([Count(t)] + [Take(t)]), w4);
    run := [Ask(t, n)] + ([Check(t)] + ([Count(t)] + [Take(t)]));
  }

  /** All threads past the guard before any counts: the counter reaches poolSize plus the number of
      threads, for every pool size and any threads. */
  lemma MaximumReached(threads: set<nat>, size: nat) returns (run: seq<Event>)
    requires threads != {}
    ensures exists w :: Run(Idle(threads), size, run, w) && w.used == size + |threads|
  {
    hide Run;
    var t :| t in threads;
    run := Fill(threads, t, size, size);
    var k := 0;
    while k < 3
      invariant k <= 3
      invariant Run(Idle(threads), size, run, Stage(threads, {}, k, size, if k < 3 then size else size + |threads|))
    {
      var used' := if k < 2 then size else size + |threads|;
      var more := Sweep(threads, {}, k, size, size, size);
      assert threads - {} == threads;
      var w, w' := Stage(threads, {}, k, size, size), Stage(threads, {}, k + 1, size, used');
      RunJoin(Idle(threads), size, run, w, more, w');
      run := run + more;
      k := k + 1;
    }
  }

  /** poolSize plus one bounds the counter over all interleavings of the separate steps iff there is
      at most one thread. */
  lemma BoundedIff(threads: set<nat>, size: nat)
    ensures (forall run, w | Run(Idle(threads), size, run, w) :: w.used <= size + 1) <==> |threads| <= 1
  {
    hide Run;
    if |threads| <= 1 {
      forall run, w | Run(Idle(threads), size, run, w) ensures w.used <= size + 1 {
        NeverExceeds(threads, size, run, w);
      }
    } else {
      var run := MaximumReached(threads, size);
      var w :| Run(Idle(threads), size, run, w) && w.used == size + |threads|;
    }
  }

  // ---- Losses ----

  /** Thread `t` waits for object 0 after `n` lost grabs, and nothing holds a connection. */
  function Lossy(threads: set<nat>, t: nat, n: nat): World
    requires t in threads
  {
    World(Idle(threads).threads[t := Waiting(0)], {}, n, n)
  }

  lemma LoseOne(threads: set<nat>, t: nat, n: nat, size: nat) returns (run: seq<Event>)
    requires t in threads && n <= size
    ensures Run(Lossy(threads, t, n), size, run, Lossy(threads, t, n + 1))
  {
    hide Run;
    var w0, w3 := Lossy(threads, t, n), Lossy(threads, t, n + 1);
    var w1 := Set(w0, t, Passed(0));
    var w2 := Set(w0, t, Counted(0)).(used := n + 1);
    assert Apply(w0, size, Check(t)) == w1;
    assert Apply(w1, size, Count(t)) == w2;
    assert Apply(w2, size, Lose(t, true)) == w3;
    hide Apply, Set, Enabled, Lossy;
    RunOne(w2, size, Lose(t, true));
    RunCons(w1, size, Count(t), [Lose(t, true)], w3);
    RunCons(w0, size, Check(t), [Count(t)] + [Lose(t, true)], w3);
    run := [Check(t)] + ([Count(t)] + [Lose(t, true)]);
  }

  /** Losses happen, up to one more than the pool size: then the counter is not the number of holding
      objects, and after the last of them it stays above poolSize although no object holds a
      connection. */
  lemma {:induction false} LossReached(threads: set<nat>, t: nat, n: nat, size: nat) returns (run: seq<Event>)
    requires t in threads && n <= size + 1
    ensures Run(Idle(threads), size, run, Lossy(threads, t, n))
    ensures Lossy(threads, t, n).lost == Lossy(threads, t, n).used == n && Lossy(threads, t, n).holding == {}
    ensures n == size + 1 ==> !Live(Lossy(threads, t, n), size)
  {
    if n == 0 {
      assert Apply(Idle(threads), size, Ask(t, 0)) == Lossy(threads, t, 0);
      RunOne(Idle(threads), size, Ask(t, 0));
      run := [Ask(t, 0)];
    } else {
      hide Enabled, Apply, Run;
      run := LossReached(threads, t, n - 1, size);
      var more := LoseOne(threads, t, n - 1, size);
      RunJoin(Idle(threads), size, run, Lossy(threads, t, n - 1), more, Lossy(threads, t, n));
      run := run + more;
    }
  }

  // ---- Who gets through ----

  predicate AllWaiting(w: World) { forall t | t in w.threads :: w.threads[t].Waiting? }

  /** The guard is true, and either lost grabs alone keep it so or nobody is left to release. */
  predicate Stuck(w: World, size: nat) { w.used > size && (w.lost > size || AllWaiting(w)) }

  lemma StuckStep(w: World, size: nat, e: Event)
    requires Inv(w) && Stuck(w, size) && Enabled(w, e)
    ensures Stuck(Apply(w, size, e), size)
    ensures w.threads[e.t].Waiting? ==> Apply(w, size, e) == w
    ensures forall t | t in w.threads && w.threads[t].Waiting? :: Apply(w, size, e).threads[t] == w.threads[t]
  {
    InvKept(w, size, e);
    EventSizes(w, size, e);
    hide CountedThreads, PassedThreads, Busy;
  }

  lemma {:induction false} StuckStays(w: World, size: nat, run: seq<Event>, w': World)
    requires Inv(w) && Stuck(w, size) && Run(w, size, run, w')
    ensures Stuck(w', size) && w'.threads.Keys == w.threads.Keys
    ensures forall t | t in w.threads && w.threads[t].Waiting? :: w'.threads[t] == w.threads[t]
    decreases |run|
  {
    if run != [] {
      hide Inv, Apply, Enabled, Stuck;
      InvKept(w, size, run[0]);
      StuckStep(w, size, run[0]);
      EventSizes(w, size, run[0]);
      StuckStays(Apply(w, size, run[0]), size, run[1..], w');
    }
  }

  /** A free thread can release what objects hold, and a thread past the increment can finish. */
  function Owed(w: World): nat { |w.holding| + 2 * |CountedThreads(w)| }

  lemma DrainStep(w: World, size: nat, t: nat) returns (e: Event)
    requires Inv(w) && t in w.threads && w.threads[t].Free? && w.lost <= size < w.used
    ensures Enabled(w, e)
    ensures var w' := Apply(w, size, e);
            w'.threads.Keys == w.threads.Keys && w'.threads[t].Free? && w'.lost == w.lost && Owed(w') < Owed(w)
  {
    if w.holding != {} {
      var o :| o in w.holding;
      assert !Busy(w, o);
      e := Return(t, o);
      SameThreads(w, Apply(w, size, e));
    } else {
      assert |CountedThreads(w)| > 0;
      var u :| u in CountedThreads(w);
      e := Take(u);
      EventSizes(w, size, e);
      assert |Apply(w, size, e).holding| == 1;
    }
  }

  lemma {:induction false} Drain(w: World, size: nat, t: nat) returns (run: seq<Event>, w': World)
    requires Inv(w) && t in w.threads && w.threads[t].Free? && w.lost <= size
    ensures Run(w, size, run, w') && w'.used <= size
    decreases Owed(w)
  {
    if w.used <= size {
      run, w' := [], w;
    } else {
      hide Inv, Owed, Enabled, Apply;
      var e := DrainStep(w, size, t);
      InvKept(w, size, e);
      run, w' := Drain(Apply(w, size, e), size, t);
      RunCons(w, size, e, run, w');
      run := [e] + run;
    }
  }

  /** A thread that is not asleep can end its call. */
  lemma {:induction false} Finish(w: World, size: nat, t: nat) returns (run: seq<Event>, w': World)
    requires Inv(w) && t in w.threads && !w.threads[t].Waiting? && w.lost <= size
    ensures Run(w, size, run, w') && Inv(w') && t in w'.threads && w'.threads[t].Free? && w'.lost == w.lost
    decreases match w.threads[t] case Free => 0 case Counted(_) => 1 case _ => 2
  {
    match w.threads[t]
    case Free => run, w' := [], w;
    case Counted(_) =>
      InvKept(w, size, Take(t));
      RunOne(w, size, Take(t));
      run, w' := [Take(t)], Apply(w, size, Take(t));
    case Passed(o) =>
      var m := Apply(w, size, Count(t));
      InvKept(w, size, Count(t));
      assert m.threads[t] == Counted(o);
      hide Inv;
      run, w' := Finish(m, size, t);
      RunCons(w, size, Count(t), run, w');
      run := [Count(t)] + run;
  }

  /** In the state `w` lost grabs do not fill the pool alone, and somebody is left to release. */
  predicate Live(w: World, size: nat) {
    w.used <= size || (w.lost <= size && exists t | t in w.threads :: !w.threads[t].Waiting?)
  }

  lemma LiveOpens(w: World, size: nat) returns (run: seq<Event>, w': World)
    requires Inv(w) && Live(w, size)
    ensures Run(w, size, run, w') && w'.used <= size
  {
    hide Inv;
    if w.used <= size {
      run, w' := [], w;
    } else {
      hide Run;
      var t :| t in w.threads && !w.threads[t].Waiting?;
      var m;
      run, m := Finish(w, size, t);
      var more;
      more, w' := Drain(m, size, t);
      RunJoin(w, size, run, m, more, w');
      run := run + more;
    }
  }

  /** The guard can become false again iff it is false now, or lost grabs alone do not fill the pool
      and some thread is not asleep in grab. */
  lemma GuardOpensIff(w: World, size: nat)
    requires Inv(w)
    ensures (exists run, w' :: Run(w, size, run, w') && w'.used <= size) <==> Live(w, size)
  {
    hide Run, Inv;
    if Live(w, size) {
      var run, w' := LiveOpens(w, size);
    } else {
      assert Stuck(w, size);
      forall run, w' | Run(w, size, run, w') ensures w'.used > size {
        StuckStays(w, size, run, w');
      }
    }
  }

  /** The thread asleep in grab gets past the guard in some continuation under the same condition,
      and in none otherwise. */
  lemma GetsThroughIff(w: World, size: nat, t: nat)
    requires Inv(w) && t in w.threads && w.threads[t].Waiting?
    ensures (exists run, w' :: Run(w, size, run, w') && Through(w', t)) <==> Live(w, size)
  {
    hide Run, Inv;
    if Live(w, size) {
      var run, w' := LiveGetsThrough(w, size, t);
    } else {
      assert Stuck(w, size);
      forall run, w' | Run(w, size, run, w') ensures !Through(w', t) {
        StuckStays(w, size, run, w');
      }
    }
  }

  predicate Through(w: World, t: nat) { t in w.threads && !w.threads[t].Waiting? }

  lemma LiveGetsThrough(w: World, size: nat, t: nat) returns (run: seq<Event>, w': World)
    requires Inv(w) && Live(w, size) && t in w.threads
    ensures Run(w, size, run, w') && Through(w', t)
  {
    hide Run, Inv;
    run, w' := LiveOpens(w, size);
    RunKeys(w, size, run, w');
    if w'.threads[t].Waiting? {
      var m := w';
      w' := Apply(m, size, Check(t));
      RunOne(m, size, Check(t));
      RunJoin(w, size, run, m, [Check(t)], w');
      run := run + [Check(t)];
    }
  }

  lemma RunKeys(w: World, size: nat, run: seq<Event>, w': World)
    requires Inv(w) && Run(w, size, run, w')
    ensures w'.threads.Keys == w.threads.Keys
  {
    RunInv(w, size, run, w');
  }

  /** Nothing has to be lost for that: for every pool size and any threads, a run without a loss ends
      with every thread asleep, and no enabled event changes that state. One thread alone does it by
      asking for one more object than the pool serves. */
  lemma DeadlockReached(threads: set<nat>, size: nat) returns (run: seq<Event>, w: World)
    requires threads != {}
    ensures Run(Idle(threads), size, run, w) && w.lost == 0 && AllWaiting(w) && w.threads.Keys == threads
    ensures !Live(w, size) && forall e | Enabled(w, e) :: Apply(w, size, e) == w
  {
    hide Run, Stage, Enabled, Inv, AllWaiting, Live;
    var t :| t in threads;
    var full := Stage(threads, {}, 0, size + 1, size + 1);
    var a := Fill(threads, t, size + 1, size);
    var b := Sweep(threads, {}, 0, size + 1, size, size + 1);
    w := Stage(threads, {}, 1, size + 1, size + 1);
    RunJoin(Idle(threads), size, a, full, b, w);
    run := a + b;
    IdleInv(threads);
    RunKeepsInv(Idle(threads), size, run, w);
    AllAsleep(threads, size);
    forall e | Enabled(w, e) ensures Apply(w, size, e) == w {
      AsleepStep(w, size, e);
    }
  }

  lemma AllAsleep(threads: set<nat>, size: nat)
    ensures var w := Stage(threads, {}, 1, size + 1, size + 1);
            w.lost == 0 && AllWaiting(w) && w.threads.Keys == threads && w.used > size && !Live(w, size)
  {}

  lemma AsleepStep(w: World, size: nat, e: Event)
    requires Inv(w) && AllWaiting(w) && w.used > size && Enabled(w, e)
    ensures Apply(w, size, e) == w
  {
    hide Inv, Apply;
    assert w.threads[e.t].Waiting?;
    StuckStep(w, size, e);
  }

  lemma RunKeepsInv(w: World, size: nat, run: seq<Event>, w': World)
    requires Inv(w) && Run(w, size, run, w')
    ensures Inv(w')
  {
    RunInv(w, size, run, w');
  }
}
