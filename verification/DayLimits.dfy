/** Which configurations keep every day row exact: the lag bound is necessary as well as sufficient. */
module DayLimits {
  import opened Aggregates
  import opened Rollup
  import opened StatAggregator
  import opened HistoryTheorems
  import opened DayTier

  /** Every run, from any samples, inserts only day rows that aggregate all samples of their day. */
  ghost predicate DaysStayExact(c: Config) {
    forall d, start, steps, k | GoodRun(c, d, start, steps) && k in End(c, d, start, steps).h.days ::
      IsAggregate(End(c, d, start, steps).h.days[k], DayWindow(Ever(d, steps), k))
  }

  /** The run, from empty tables, inserts a row for day `k` that misses a sample of the day. */
  ghost predicate Misses(c: Config, steps: seq<Step>, k: Key) {
    && GoodRun(c, map[], 0, steps) && k in End(c, map[], 0, steps).h.days
    && !IsAggregate(End(c, map[], 0, steps).h.days[k], DayWindow(Ever(map[], steps), k))
  }

  // ---- Runs from empty tables, step by step ----

  lemma StartEmpty(c: Config)
    requires Sound(c)
    ensures GoodRun(c, map[], 0, []) && Inv(c, End(c, map[], 0, []))
    ensures var w := End(c, map[], 0, []);
            && w.s.nextLow == w.s.nextMed == w.s.nextHigh == 0 && w.h.clock == 0
            && w.h.keptAm == 0 && w.h.days == map[] && w.s.ad == map[] && w.h.ever == map[]
  {
    hide View, Keep, Index, Inv;
    InitialInv(c, map[], 0);
    NothingCreated(c);
  }

  lemma NothingCreated(c: Config)
    ensures Created(c, map[], 0).ad == map[]
  {
    var s := Created(c, map[], 0);
    assert s.am == map[];
    assert s.ah == map[];
  }

  lemma OneMore(c: Config, steps: seq<Step>, st: Step)
    requires GoodRun(c, map[], 0, steps) && Enabled(c, End(c, map[], 0, steps), st)
    ensures GoodRun(c, map[], 0, steps + [st]) && Inv(c, End(c, map[], 0, steps + [st]))
    ensures End(c, map[], 0, steps + [st]) == Next(c, End(c, map[], 0, steps), st)
    ensures End(c, map[], 0, steps + [st]).h.ever == Ever(map[], steps + [st])
  {
    hide Next, Enabled, Inv, InitialWorld, Sound;
    var all := steps + [st];
    assert all[..|all| - 1] == steps;
    RunLast(c, InitialWorld(c, map[], 0), all);
    EndInv(c, map[], 0, all);
  }

  // ---- What a tick leaves behind ----

  /** No day row of day `day` or later. */
  ghost predicate DaysBelow(days: Table, day: int) { forall k | k in days :: Index(Day, k.ts) < day }

  lemma NewDaysBelow(c: Config, w: World, now: nat, day: int)
    requires CutAd(c, now) <= day
    ensures DaysBelow(NewAd(c, w.s, now), day)
  {}

  lemma AboveBelow(w: World, day: int, x: Key)
    requires w.s.ad == Keep(w.h.days, w.h.keptAd) && DaysBelow(w.h.days, day) && 0 < day == Index(Day, x.ts)
    ensures AboveMark(w.s.ad, x.series, BucketOf(Day, x).ts)
  {
    forall k | k in w.s.ad ensures k.ts < Start(Day, day) { StartIndex(Day, k.ts, day); }
  }

  /** In a state of the invariant, a closed hour with a sample that was not purged has its row, and the
      series a watermark. */
  lemma SampleRolled(c: Config, w: World, x: Key)
    requires Inv(c, w) && x in w.h.ever && w.h.keptAm <= Start(Day, Index(Day, x.ts))
    requires 0 < Index(Day, x.ts) && Index(Hour, x.ts) < w.h.closedAh
    ensures BucketOf(Hour, x) in w.s.ah && HasMark(w.s.ad, w.s.am, x.series)
  {
    hide View, Keep, DayRows;
    var ever, q := Lift(w.h.ever), Index(Day, x.ts);
    Nested(x.ts);
    assert x in ever;
    KeptRow(ever, Hour, w.h.closedAh, w.h.keptAh, x);
    KeptRow(ever, Minute, w.h.closedAm, w.h.keptAm, x);
    assert BucketOf(Minute, x) in w.s.am && BucketOf(Minute, x).series == x.series;
  }

  lemma Nested(ts: int)
    ensures 60 * Index(Hour, ts) <= Index(Minute, ts) < 60 * (Index(Hour, ts) + 1)
    ensures 24 * Index(Day, ts) <= Index(Hour, ts) < 24 * (Index(Day, ts) + 1)
    ensures Start(Day, Index(Day, ts)) <= Start(Hour, Index(Hour, ts)) <= Start(Minute, Index(Minute, ts))
  {
    IndexNests(Minute, Hour, ts);
    IndexNests(Hour, Day, ts);
    hide Index;
  }

  /** The last step of a failing run: the high timer fires, the day's cutoff is passed, one of its hours
      is closed, and the hour of another of its samples is not. */
  lemma HighMisses(c: Config, w: World, now: nat, x: Key)
    requires Inv(c, w) && w.s.nextHigh < now && x in w.h.ever && w.h.keptAm <= Start(Day, Index(Day, x.ts))
    requires 0 < Index(Day, x.ts) < CutAd(c, now) && DaysBelow(w.h.days, Index(Day, x.ts))
    requires Index(Hour, x.ts) < w.h.closedAh
    ensures var h, b := HighStep(c, w, now).h, BucketOf(Day, x);
            b in h.days && b in h.hoursAt && h.hoursAt[b] == w.h.closedAh
  {
    hide View, Keep, Index, Start, DayRows, DaysBelow, HighStep, AboveMark, HasMark, BucketOf, InvAm, InvAh;
    SampleRolled(c, w, x);
    AboveBelow(w, Index(Day, x.ts), x);
    FreezesOpenDay(c, w, now, x);
  }

  /** A tick up to its high step. */
  function BeforeHigh(c: Config, w: World, now: nat): World {
    MedStep(c, LowStep(c, ClockAt(w, now), now), now)
  }

  lemma LowLeaves(c: Config, w: World, now: nat)
    ensures var (s, h) := (LowStep(c, w, now).s, LowStep(c, w, now).h);
            && s.nextMed == w.s.nextMed && s.nextHigh == w.s.nextHigh
            && h.ever == w.h.ever && h.clock == w.h.clock && h.keptAm == w.h.keptAm && h.closedAh == w.h.closedAh
            && h.days == w.h.days
  {
    hide NewAm, Kept, CutAm, Purge;
  }

  /** The hour step, when it fires and when not. */
  function HoursClosed(c: Config, w: World, now: nat): int {
    if w.s.nextMed < now then CutAh(c, now) else w.h.closedAh
  }

  lemma MedLeaves(c: Config, w: World, now: nat)
    ensures var (s, h) := (MedStep(c, w, now).s, MedStep(c, w, now).h);
            && s.nextMed == (if w.s.nextMed < now then now + 3600000 else w.s.nextMed) && s.nextHigh == w.s.nextHigh
            && h.ever == w.h.ever && h.clock == w.h.clock && h.days == w.h.days
            && h.closedAh == HoursClosed(c, w, now)
            && h.keptAm == (if w.s.nextMed < now then Kept(w.h.keptAm, now, c.retAm) else w.h.keptAm)
  {
    hide NewAh, Kept, CutAh, Purge;
  }

  lemma TickParts(c: Config, w: World, now: nat)
    requires Sound(c) && Inv(c, w) && w.h.clock <= now
    ensures var m := BeforeHigh(c, w, now);
            && TickStep(c, w, now) == HighStep(c, m, now) && Inv(c, m)
            && m.s.nextMed == (if w.s.nextMed < now then now + 3600000 else w.s.nextMed) && m.s.nextHigh == w.s.nextHigh
            && m.h.ever == w.h.ever && m.h.days == w.h.days && m.h.closedAh == HoursClosed(c, w, now)
            && m.h.keptAm == (if w.s.nextMed < now then Kept(w.h.keptAm, now, c.retAm) else w.h.keptAm)
  {
    hide LowStep, MedStep, HighStep, Inv, Sound, Kept, CutAh;
    var w0 := ClockAt(w, now);
    ClockForward(c, w, now);
    LowKeeps(c, w0, now);
    LowLeaves(c, w0, now);
    MedKeeps(c, LowStep(c, w0, now), now);
    MedLeaves(c, LowStep(c, w0, now), now);
  }

  lemma KeptUpTo(kept: int, now: int, ret: nat, p: int)
    requires kept <= p && (ret > 0 ==> PurgeFrom(now, ret) <= p)
    ensures Kept(kept, now, ret) <= p
  {}

  /** A tick before the cutoff of day `day` inserts no row for it, and purges no minute from `kept` on. */
  lemma QuietTick(c: Config, w: World, now: nat, day: int, kept: int)
    requires Sound(c) && Inv(c, w) && w.h.clock <= now && w.h.keptAm <= kept && DaysBelow(w.h.days, day)
    requires c.retAm > 0 ==> PurgeFrom(now, c.retAm) <= kept
    requires w.s.nextHigh < now ==> CutAd(c, now) <= day
    ensures var (s, h) := (TickStep(c, w, now).s, TickStep(c, w, now).h);
            && h.keptAm <= kept && DaysBelow(h.days, day) && h.closedAh == HoursClosed(c, w, now) && h.ever == w.h.ever
            && s.nextMed == (if w.s.nextMed < now then now + 3600000 else w.s.nextMed)
            && s.nextHigh == (if w.s.nextHigh < now then now + 43200000 else w.s.nextHigh)
  {
    var m := BeforeHigh(c, w, now);
    TickParts(c, w, now);
    KeptUpTo(w.h.keptAm, now, c.retAm, kept);
    if w.s.nextHigh < now {
      NewDaysBelow(c, m, now, day);
      HighStepIs(c, m, now);
      hide BeforeHigh, HighStep, TickStep, Inv, Sound, NewAd, Kept, PurgeFrom, HoursClosed, CutAd, CutAh;
    } else {
      assert HighStep(c, m, now) == m;
      hide BeforeHigh, HighStep, TickStep, Inv, Sound, Kept, PurgeFrom, HoursClosed, CutAd, CutAh;
    }
  }

  /** A tick past the cutoff of a day one hour of which is closed inserts the day as it is. */
  lemma FailingTick(c: Config, w: World, now: nat, x: Key)
    requires Sound(c) && Inv(c, w) && w.h.clock <= now && w.s.nextHigh < now && x in w.h.ever
    requires 0 < Index(Day, x.ts) < CutAd(c, now) && DaysBelow(w.h.days, Index(Day, x.ts))
    requires Index(Hour, x.ts) < HoursClosed(c, w, now) && w.h.keptAm <= Start(Day, Index(Day, x.ts))
    requires w.s.nextMed < now && c.retAm > 0 ==> PurgeFrom(now, c.retAm) <= Start(Day, Index(Day, x.ts))
    ensures var h, b := TickStep(c, w, now).h, BucketOf(Day, x);
            b in h.days && b in h.hoursAt && h.hoursAt[b] == HoursClosed(c, w, now)
  {
    hide BeforeHigh, HighStep, TickStep, Inv, Sound, Index, Start, Kept, PurgeFrom, HoursClosed, DaysBelow, CutAd;
    hide BucketOf;
    TickParts(c, w, now);
    if w.s.nextMed < now { KeptUpTo(w.h.keptAm, now, c.retAm, Start(Day, Index(Day, x.ts))); }
    HighMisses(c, BeforeHigh(c, w, now), now, x);
  }

  /** Such a row misses the other sample. */
  lemma OpenHourMisses(c: Config, steps: seq<Step>, b: Key, y: Key)
    requires GoodRun(c, map[], 0, steps) && y in Ever(map[], steps) && BucketOf(Day, y) == b
    requires b in End(c, map[], 0, steps).h.days && b in End(c, map[], 0, steps).h.hoursAt
    requires End(c, map[], 0, steps).h.hoursAt[b] <= Index(Hour, y.ts)
    ensures Misses(c, steps, b)
  {
    hide IsAggregate, Run, InitialWorld, Sound, Possible, Inv, Index, Ever;
    InWindow(Ever(map[], steps), Day, y);
    assert y in DayWindow(Ever(map[], steps), b);
    DayRowExactIff(c, map[], 0, steps, b);
  }

  // ---- One tick that comes too early ----

  /** Two samples of one day on time, and a tick that finds the day's cutoff passed and only the first
      sample's hour closed. */
  lemma OneTickMisses(c: Config, x: Key, y: Key, now: nat) returns (steps: seq<Step>)
    requires Sound(c) && x.series == y.series && Index(Day, x.ts) == Index(Day, y.ts) && x.ts <= y.ts <= now
    requires 0 < Index(Day, x.ts) < CutAd(c, now) && Index(Hour, x.ts) < CutAh(c, now) <= Index(Hour, y.ts)
    requires c.retAm > 0 ==> PurgeFrom(now, c.retAm) <= Start(Day, Index(Day, x.ts))
    ensures steps == [Arrive(x.ts, x, 1.0), Arrive(y.ts, y, 5.0), TickAt(now)]
    ensures Misses(c, steps, BucketOf(Day, x))
  {
    hide Sound, Inv, GoodRun, TickStep, Index, CutAd, CutAh, PurgeFrom, Start, Misses, InitialWorld, Run, Possible;
    hide Ever;
    StartEmpty(c);
    DayPositive(x.ts);
    var a := [Arrive(x.ts, x, 1.0)];
    OneMore(c, [], a[0]);
    assert [] + [a[0]] == a;
    var b := a + [Arrive(y.ts, y, 5.0)];
    OneMore(c, a, Arrive(y.ts, y, 5.0));
    steps := b + [TickAt(now)];
    OneMore(c, b, TickAt(now));
    var w := End(c, map[], 0, b);
    NoneBelow(Index(Day, x.ts));
    FailingTick(c, w, now, x);
    TickKeepsEver(c, w, now);
    OpenHourMisses(c, steps, BucketOf(Day, x), y);
  }

  lemma NoneBelow(day: int)
    ensures DaysBelow(map[], day)
  {}

  lemma DayPositive(ts: int)
    requires 0 < Index(Day, ts)
    ensures 0 < ts && 0 < Start(Day, Index(Day, ts))
  {}

  /** The sample of hour `hour`, counted from the beginning. */
  function AtHour(hour: nat): Key { Key(Series(1, 1), hour * 3600000) }

  lemma HourNumbers(hour: nat)
    ensures Index(Hour, AtHour(hour).ts) == hour && Index(Day, AtHour(hour).ts) == hour / 24
    ensures Index(Minute, AtHour(hour).ts) == 60 * hour
  {
    Quotient(Hour, hour * 3600000, hour);
    Quotient(Day, hour * 3600000, hour / 24);
    Quotient(Minute, hour * 3600000, 60 * hour);
  }

  lemma PurgeBy(now: int, ret: nat, day: int)
    requires Index(Day, now) - ret <= day
    ensures PurgeFrom(now, ret) <= Start(Day, day)
  {}

  /** The cutoff counted in hours, as the queries have it: for every delay, a tick in the second hour
      after the first sample's own hour closed. */
  lemma HourUnitMisses(c: Config) returns (steps: seq<Step>, k: Key)
    requires Sound(c) && c.adUnit == Hour
    ensures Misses(c, steps, k)
  {
    hide Index, PurgeFrom, Start, Misses, AtHour;
    var first := 24 * (c.delayAd + 1);
    var x, y, t := AtHour(first), AtHour(first + 1), AtHour(first + 1 + c.delayAh);
    HourNumbers(first);
    HourNumbers(first + 1);
    HourNumbers(first + 1 + c.delayAh);
    assert (first + 1) / 24 == first / 24 == c.delayAd + 1;
    assert c.retAm > 0 ==> (first + 1 + c.delayAh) / 24 - c.retAm <= c.delayAd + 1;
    if c.retAm > 0 { PurgeBy(t.ts, c.retAm, c.delayAd + 1); }
    AtHours(first, first + 1);
    AtHours(first + 1, first + 1 + c.delayAh);
    steps := OneTickMisses(c, x, y, t.ts);
    k := BucketOf(Day, x);
  }

  lemma AtHours(a: nat, b: nat)
    requires a <= b
    ensures AtHour(a).ts <= AtHour(b).ts && AtHour(a).series == AtHour(b).series
  {}

  /** The cutoff counted in days, with an hour delay of more than the day delay. */
  lemma LongDelayMisses(c: Config) returns (steps: seq<Step>, k: Key)
    requires Sound(c) && c.adUnit == Day && c.delayAh > 24 * c.delayAd
    ensures Misses(c, steps, k)
  {
    hide Index, PurgeFrom, Start, Misses, AtHour;
    var late := if 25 + c.delayAh >= 48 + 24 * c.delayAd then 25 + c.delayAh else 48 + 24 * c.delayAd;
    var x, y, t := AtHour(24), AtHour(47), AtHour(late);
    HourNumbers(24);
    HourNumbers(47);
    HourNumbers(late);
    assert late / 24 >= 2 + c.delayAd;
    assert c.retAm > 0 ==> late / 24 - c.retAm <= 1;
    if c.retAm > 0 { PurgeBy(t.ts, c.retAm, 1); }
    AtHours(24, 47);
    AtHours(47, late);
    steps := OneTickMisses(c, x, y, t.ts);
    k := BucketOf(Day, x);
  }

  // ---- The boundary: the high timer fires between two hour steps ----

  /** The midnight at which the cutoff of day 1 passes. */
  function Midnight(c: Config): nat { 86400000 * (2 + c.delayAd) }

  /** Both samples are stored; the high timer is set half an hour before that midnight, and the hour
      timer earlier. */
  ghost predicate Ready(c: Config, steps: seq<Step>) {
    && GoodRun(c, map[], 0, steps) && Inv(c, End(c, map[], 0, steps))
    && var w := End(c, map[], 0, steps);
       && AtHour(24) in w.h.ever && AtHour(47) in w.h.ever
       && w.h.clock <= Midnight(c) - 1800000 == w.s.nextHigh && w.s.nextMed < Midnight(c) - 1800000
       && w.h.keptAm <= Start(Day, 1) && DaysBelow(w.h.days, 1)
  }

  lemma MidnightNumbers(c: Config)
    ensures var m, d := Midnight(c), c.delayAd;
            && Index(Day, m - 45000000) == Index(Day, m - 1800000) == 1 + d && Index(Day, m) == 2 + d
            && Index(Hour, m - 1800000) == 47 + 24 * d
  {
    hide Index;
    var m, d := Midnight(c), c.delayAd;
    Quotient(Day, m - 45000000, 1 + d);
    Quotient(Day, m - 1800000, 1 + d);
    Quotient(Day, m, 2 + d);
    Quotient(Hour, m - 1800000, 47 + 24 * d);
  }

  lemma BoundaryNumbers(c: Config)
    requires Sound(c) && c.adUnit == Day && c.delayAh == 24 * c.delayAd
    ensures var m := Midnight(c);
            && CutAd(c, m - 45000000) == CutAd(c, m - 1800000) == 1 && CutAd(c, m) == 2
            && CutAh(c, m - 1800000) == 47
            && (c.retAm > 0 ==> PurgeFrom(m - 45000000, c.retAm) <= Start(Day, 1))
            && (c.retAm > 0 ==> PurgeFrom(m - 1800000, c.retAm) <= Start(Day, 1))
  {
    hide Start, PurgeFrom, Index;
    var m := Midnight(c);
    MidnightNumbers(c);
    if c.retAm > 0 {
      PurgeBy(m - 45000000, c.retAm, 1);
      PurgeBy(m - 1800000, c.retAm, 1);
    }
  }

  /** The first tick, half a day and half an hour before midnight. */
  lemma FirstTick(c: Config, w: World)
    requires Sound(c) && c.adUnit == Day && c.delayAh == 24 * c.delayAd && Inv(c, w)
    requires w.h.clock <= Midnight(c) - 45000000 && w.s.nextMed == w.s.nextHigh == 0 == w.h.keptAm && w.h.days == map[]
    ensures var (s, h) := (TickStep(c, w, Midnight(c) - 45000000).s, TickStep(c, w, Midnight(c) - 45000000).h);
            && s.nextHigh == Midnight(c) - 1800000 && s.nextMed == Midnight(c) - 41400000
            && h.keptAm <= Start(Day, 1) && DaysBelow(h.days, 1) && h.ever == w.h.ever
  {
    hide TickStep, Inv, Sound, Index, PurgeFrom, CutAd, CutAh, HoursClosed;
    BoundaryNumbers(c);
    NoneBelow(1);
    QuietTick(c, w, Midnight(c) - 45000000, 1, Start(Day, 1));
  }

  lemma Stored(c: Config, steps: seq<Step>, x: Key, v: real)
    requires GoodRun(c, map[], 0, steps) && Inv(c, End(c, map[], 0, steps)) && End(c, map[], 0, steps).h.clock <= x.ts
    ensures var all, w := steps + [Arrive(x.ts, x, v)], End(c, map[], 0, steps);
            && GoodRun(c, map[], 0, all) && Inv(c, End(c, map[], 0, all))
            && var w' := End(c, map[], 0, all);
               && w'.h.ever == w.h.ever[x := v] && w'.h.clock == x.ts
               && w'.h.keptAm == w.h.keptAm && w'.h.days == w.h.days
               && w'.s.nextMed == w.s.nextMed && w'.s.nextHigh == w.s.nextHigh
  {
    hide Inv, GoodRun, InitialWorld, Run;
    OneMore(c, steps, Arrive(x.ts, x, v));
  }

  lemma Ticked(c: Config, steps: seq<Step>, now: nat)
    requires GoodRun(c, map[], 0, steps) && End(c, map[], 0, steps).h.clock <= now
    ensures var all, w := steps + [TickAt(now)], End(c, map[], 0, steps);
            && GoodRun(c, map[], 0, all) && Inv(c, End(c, map[], 0, all))
            && End(c, map[], 0, all) == TickStep(c, w, now) && TickStep(c, w, now).h.clock == now
            && End(c, map[], 0, all).h.ever == Ever(map[], all)
  {
    hide Inv, GoodRun, InitialWorld, Run;
    OneMore(c, steps, TickAt(now));
    TickClock(c, End(c, map[], 0, steps), now);
  }

  lemma TickClock(c: Config, w: World, now: nat)
    ensures TickStep(c, w, now).h.clock == now
  {
    hide NewAm, NewAh, NewAd, Kept, Purge, Stamp, CutAm, CutAh, CutAd;
  }

  /** Without a day delay the last sample comes after the first tick, otherwise before it. */
  lemma GetReady(c: Config) returns (steps: seq<Step>)
    requires Sound(c) && c.adUnit == Day && c.delayAh == 24 * c.delayAd
    ensures Ready(c, steps)
  {
    hide Inv, Sound, GoodRun, InitialWorld, Run, TickStep, Ever, DaysBelow, Start;
    StartEmpty(c);
    var x, y, t := AtHour(24), AtHour(47), Midnight(c) - 45000000;
    Stored(c, [], x, 1.0);
    steps := [] + [Arrive(x.ts, x, 1.0)];
    if c.delayAd == 0 {
      FirstTick(c, End(c, map[], 0, steps));
      Ticked(c, steps, t);
      steps := steps + [TickAt(t)];
      Stored(c, steps, y, 5.0);
      steps := steps + [Arrive(y.ts, y, 5.0)];
    } else {
      Stored(c, steps, y, 5.0);
      steps := steps + [Arrive(y.ts, y, 5.0)];
      FirstTick(c, End(c, map[], 0, steps));
      Ticked(c, steps, t);
      steps := steps + [TickAt(t)];
    }
  }

  /** The hour delay is exactly the day delay: the last hour step before midnight leaves the day's last
      hour open, and the day step at midnight comes without an hour step. */
  lemma EqualDelayMisses(c: Config) returns (steps: seq<Step>, k: Key)
    requires Sound(c) && c.adUnit == Day && c.delayAh == 24 * c.delayAd
    ensures Misses(c, steps, k)
  {
    hide Inv, Sound, GoodRun, InitialWorld, Run, TickStep, Ever, DaysBelow, CutAd, CutAh, PurgeFrom, Misses;
    hide Index, Start;
    var x, y, m := AtHour(24), AtHour(47), Midnight(c);
    k := BucketOf(Day, x);
    BoundaryNumbers(c);
    HourNumbers(24);
    HourNumbers(47);
    steps := GetReady(c);
    var w := End(c, map[], 0, steps);
    QuietTick(c, w, m - 1800000, 1, Start(Day, 1));
    Ticked(c, steps, m - 1800000);
    steps := steps + [TickAt(m - 1800000)];
    w := End(c, map[], 0, steps);
    FailingTick(c, w, m, x);
    TickKeepsEver(c, w, m);
    Ticked(c, steps, m);
    steps := steps + [TickAt(m)];
    OpenHourMisses(c, steps, k, y);
  }

  // ---- The condition on the configuration ----

  /** A configuration without the lag bound inserts a partial day in some run, although every sample
      arrives on time. */
  lemma LagNeeded(c: Config) returns (steps: seq<Step>, k: Key)
    requires Sound(c) && !DayLag(c)
    ensures Misses(c, steps, k)
  {
    if c.adUnit == Hour {
      steps, k := HourUnitMisses(c);
    } else if c.delayAh == 24 * c.delayAd {
      steps, k := EqualDelayMisses(c);
    } else {
      steps, k := LongDelayMisses(c);
    }
  }

  /** Every day row of every run is the aggregate of its day iff the day cutoff is counted in days and
      the day delay exceeds the hour delay by an hour. */
  lemma DaysExactIff(c: Config)
    requires Sound(c)
    ensures DaysStayExact(c) <==> DayLag(c)
  {
    hide IsAggregate, Sound, GoodRun, End;
    if DayLag(c) {
      forall d, start, steps, k | GoodRun(c, d, start, steps) && k in End(c, d, start, steps).h.days
        ensures IsAggregate(End(c, d, start, steps).h.days[k], DayWindow(Ever(d, steps), k))
      {
        DaysExact(c, d, start, steps, k);
      }
    } else {
      var steps, k := LagNeeded(c);
    }
  }

  // ---- For good, and under the default configuration ----

  /** No continuation repairs such a row. */
  lemma MissesForever(c: Config, steps: seq<Step>, k: Key, more: seq<Step>)
    requires Misses(c, steps, k) && Possible(c, End(c, map[], 0, steps), more)
    ensures Misses(c, steps + more, k)
  {
    hide IsAggregate, InitialWorld, Sound, Inv, Run, DayWindow, Index;
    var w := End(c, map[], 0, steps);
    EndInv(c, map[], 0, steps);
    RunSplit(c, InitialWorld(c, map[], 0), steps, more);
    DayRowsFrozen(c, w, more, k);
    DayRowExactIff(c, map[], 0, steps, k);
    DayRowExactIff(c, map[], 0, steps + more, k);
    var y :| y in DayWindow(Ever(map[], steps), k) && w.h.hoursAt[k] <= Index(Hour, y.ts);
    EverGrows(map[], steps, more);
    SameWindow(Ever(map[], steps), Ever(map[], steps + more), k, y);
  }

  lemma SameWindow(ever: map<Key, real>, ever': map<Key, real>, k: Key, y: Key)
    requires y in DayWindow(ever, k) && ever.Keys <= ever'.Keys
    ensures y in DayWindow(ever', k)
  {}

  lemma {:induction false} EverGrows(d: map<Key, real>, a: seq<Step>, b: seq<Step>)
    ensures Ever(d, a).Keys <= Ever(d, a + b).Keys
    decreases |b|
  {
    if b == [] {
      assert a + b == a;
    } else {
      var n := |b| - 1;
      assert (a + b)[..|a + b| - 1] == a + b[..n];
      EverGrows(d, a, b[..n]);
    }
  }

  /** The default configuration of the schema. */
  const DEFAULT := Config(30, 2, 1, 14, 60, 730, 0, Hour)

  /** A sample of 00:00 on day 2, a tick three hours later, and a sample of noon the same day. */
  const NIGHT := AtHour(48)
  const NOON := AtHour(60)
  const PARTIAL := [Arrive(NIGHT.ts, NIGHT, 1.0), TickAt(AtHour(51).ts), Arrive(NOON.ts, NOON, 5.0)]

  /** As written, the default configuration freezes a strictly partial day: after this run, and after
      every continuation of it, the row of day 2 is not the aggregate of the day's samples. */
  lemma AsWrittenPartialDay(more: seq<Step>)
    requires Possible(DEFAULT, End(DEFAULT, map[], 0, PARTIAL), more)
    ensures Misses(DEFAULT, PARTIAL + more, NIGHT)
  {
    hide Misses, Run, InitialWorld;
    PartialMisses();
    MissesForever(DEFAULT, PARTIAL, NIGHT, more);
  }

  lemma PartialMisses()
    ensures Misses(DEFAULT, PARTIAL, NIGHT)
  {
    hide Inv, Sound, GoodRun, InitialWorld, Run, TickStep, Ever, DaysBelow, CutAd, CutAh, PurgeFrom, Misses;
    hide Index, Start;
    hide AtHour;
    PartialNumbers();
    StartEmpty(DEFAULT);
    Stored(DEFAULT, [], NIGHT, 1.0);
    var steps := [] + [Arrive(NIGHT.ts, NIGHT, 1.0)];
    var w := End(DEFAULT, map[], 0, steps);
    NoneBelow(2);
    FailingTick(DEFAULT, w, AtHour(51).ts, NIGHT);
    TickKeepsEver(DEFAULT, w, AtHour(51).ts);
    Ticked(DEFAULT, steps, AtHour(51).ts);
    steps := steps + [TickAt(AtHour(51).ts)];
    OneMore(DEFAULT, steps, Arrive(NOON.ts, NOON, 5.0));
    steps := steps + [Arrive(NOON.ts, NOON, 5.0)];
    assert steps == PARTIAL;
    OpenHourMisses(DEFAULT, PARTIAL, NIGHT, NOON);
  }

  lemma PartialNumbers()
    ensures Sound(DEFAULT)
    ensures 0 < NIGHT.ts <= AtHour(51).ts <= NOON.ts
    ensures Index(Day, NIGHT.ts) == 2 && Index(Hour, NIGHT.ts) == 48 && Index(Hour, NOON.ts) == 60
    ensures CutAd(DEFAULT, AtHour(51).ts) == 50 && CutAh(DEFAULT, AtHour(51).ts) == 49
    ensures PurgeFrom(AtHour(51).ts, 60) <= 0 <= Start(Day, 2)
    ensures BucketOf(Day, NIGHT) == NIGHT == BucketOf(Day, NOON)
  {}
}
