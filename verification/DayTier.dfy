/** The day tier: with its cutoff counted in days, and with the cutoff counted in hours that the
    queries use. */
module DayTier {
  import opened Aggregates
  import opened Rollup
  import opened Sets
  import opened StatAggregator
  import opened HistoryTheorems

  function DayWindow(ever: map<Key, real>, k: Key): map<Key, real> {
    Window(ever, k.series, k.ts, k.ts + 86400000)
  }

  // ---- Either unit: a day row aggregates the hours closed when it was inserted ----

  function ClosedPart(ever: map<Key, real>, k: Key, hours: int): map<Key, real> {
    var day := DayWindow(ever, k);
    map x | x in day && Index(Hour, x.ts) < hours :: day[x]
  }

  lemma PartIsClosedPart(ever: map<Key, real>, k: Key, hours: int)
    requires BucketOf(Day, k) == k
    ensures DayPart(ever, k, hours) == Lift(ClosedPart(ever, k, hours))
  {
    GroupIsWindow(ever, Day, k);
    var l, r := DayPart(ever, k, hours), Lift(ClosedPart(ever, k, hours));
    forall x
      ensures x in l <==> x in r
    {
      assert x in Group(Lift(ever), Day, k) <==> x in Lift(DayWindow(ever, k));
    }
    assert l.Keys == r.Keys;
  }

  lemma PartSmaller(ever: map<Key, real>, k: Key, hours: int)
    ensures |ClosedPart(ever, k, hours)| <= |DayWindow(ever, k)|
    ensures |ClosedPart(ever, k, hours)| == |DayWindow(ever, k)| <==>
            forall x | x in DayWindow(ever, k) :: Index(Hour, x.ts) < hours
  {
    var part, day := ClosedPart(ever, k, hours), DayWindow(ever, k);
    assert part.Keys <= day.Keys;
    SubsetSize(part.Keys, day.Keys);
    if x :| x in day && hours <= Index(Hour, x.ts) {
      SubsetSize(part.Keys, day.Keys - {x});
      assert |day.Keys - {x}| == |day.Keys| - 1;
    } else {
      assert part == day;
    }
  }

  /** Each (series, day) gets at most one row, which never counts more than the day's samples; it
      is the day's aggregate iff no sample of the day lies in an hour that was still open when the
      row was inserted. */
  lemma DayRowExactIff(c: Config, d: map<Key, real>, start: nat, steps: seq<Step>, k: Key)
    requires GoodRun(c, d, start, steps) && k in End(c, d, start, steps).h.days
    ensures var h, day := End(c, d, start, steps).h, DayWindow(Ever(d, steps), k);
            && h.adLog[k] == 1
            && k in h.hoursAt
            && h.days[k].cnt <= |day|
            && (IsAggregate(h.days[k], day) <==> forall x | x in day :: Index(Hour, x.ts) < h.hoursAt[k])
  {
    hide View, Keep, Index, Run, DayPart, InvAm, InvAh;
    var h := End(c, d, start, steps).h;
    EndInv(c, d, start, steps);
    RowExactIff(h.ever, k, h.days[k], h.hoursAt[k]);
  }

  lemma RowExactIff(ever: map<Key, real>, k: Key, row: Row, hours: int)
    requires DayRow(ever, k, row, hours)
    ensures row.cnt <= |DayWindow(ever, k)|
    ensures IsAggregate(row, DayWindow(ever, k)) <==> forall x | x in DayWindow(ever, k) :: Index(Hour, x.ts) < hours
  {
    var part, day := ClosedPart(ever, k, hours), DayWindow(ever, k);
    PartIsClosedPart(ever, k, hours);
    FoldSome(Lift(part));
    FoldMeaning(part);
    PartSmaller(ever, k, hours);
    assert |part| <= |day|;
    assert day != map[];
    FoldMeaning(day);
    if forall x | x in day :: Index(Hour, x.ts) < hours {
      assert part == day;
    }
  }

  predicate SameDayRow(h: History, h': History, k: Key) {
    && k in h.days && k in h.hoursAt && k in h'.days && k in h'.hoursAt
    && h'.days[k] == h.days[k] && h'.hoursAt[k] == h.hoursAt[k]
  }

  /** Day rows are never corrected: a later run leaves them as they are. */
  lemma {:induction false} DayRowsFrozen(c: Config, w: World, steps: seq<Step>, k: Key)
    requires Sound(c) && Inv(c, w) && Possible(c, w, steps) && k in w.h.days
    ensures var h := Run(c, w, steps).h; SameDayRow(w.h, h, k)
    decreases |steps|
  {
    if steps != [] {
      var w' := Next(c, w, steps[0]);
      NextKeeps(c, w, steps[0]);
      StepFreezes(c, w, steps[0], k);
      DayRowsFrozen(c, w', steps[1..], k);
    }
  }

  lemma StepFreezes(c: Config, w: World, st: Step, k: Key)
    requires Sound(c) && Inv(c, w) && Enabled(c, w, st) && k in w.h.days
    ensures var h := Next(c, w, st).h; SameDayRow(w.h, h, k)
  {
    match st
    case Arrive(_, _, _) =>
    case TickAt(now) => TickFreezes(c, w, now, k);
    case Restart(_) =>
  }

  lemma TickFreezes(c: Config, w: World, now: nat, k: Key)
    requires Sound(c) && Inv(c, w) && w.h.clock <= now && k in w.h.days
    ensures var h := TickStep(c, w, now).h; SameDayRow(w.h, h, k)
  {
    hide LowStep, MedStep, HighStep, Inv, Sound;
    var w0 := ClockAt(w, now);
    ClockForward(c, w, now);
    LowKeeps(c, w0, now);
    LowKeepsDays(c, w0, now);
    var w1 := LowStep(c, w0, now);
    MedKeeps(c, w1, now);
    MedKeepsDays(c, w1, now);
    HighFreezes(c, MedStep(c, w1, now), now, k);
  }

  lemma LowKeepsDays(c: Config, w: World, now: nat)
    ensures LowStep(c, w, now).h.days == w.h.days && LowStep(c, w, now).h.hoursAt == w.h.hoursAt
  {
    hide Low, NewAm, Kept;
  }

  lemma MedKeepsDays(c: Config, w: World, now: nat)
    ensures MedStep(c, w, now).h.days == w.h.days && MedStep(c, w, now).h.hoursAt == w.h.hoursAt
  {
    hide Med, NewAh, Kept;
  }

  lemma HighFreezes(c: Config, w: World, now: nat, k: Key)
    requires Inv(c, w) && k in w.h.days
    ensures SameDayRow(w.h, HighStep(c, w, now).h, k)
  {
    hide High, NewAd, Kept, DayRow, InvAm, InvAh;
    if k in NewAd(c, w.s, now) {
      DayInserted(c, w, now, k);
    }
  }

  // ---- The cutoff counted in days ----

  /** The lag bound: hours have an hour more than their own delay to close before their day does. */
  predicate DayLag(c: Config) {
    c.adUnit == Day && c.delayAh + 1 <= 24 * c.delayAd
  }

  ghost predicate DaysClosed(h: History) {
    forall k | k in h.days && k in h.hoursAt :: 24 * (Index(Day, k.ts) + 1) <= h.hoursAt[k]
  }

  lemma HighClosesDays(c: Config, w: World, now: nat)
    requires DayLag(c) && Inv(c, w) && now <= w.s.nextMed && DaysClosed(w.h)
    ensures DaysClosed(HighStep(c, w, now).h)
  {
    hide View, Keep, Index, InvAm, InvAd;
    if w.s.nextHigh < now {
      Units(now);
      IndexMonotone(Hour, now, w.s.nextMed);
      var rows := NewAd(c, w.s, now);
      assert forall k | k in rows :: Index(Day, k.ts) < Index(Day, now) - c.delayAd;
    }
  }

  lemma TickClosesDays(c: Config, w: World, now: nat)
    requires Sound(c) && DayLag(c) && Inv(c, w) && w.h.clock <= now && DaysClosed(w.h)
    ensures DaysClosed(TickStep(c, w, now).h)
  {
    hide View, Keep, Index, NewAm, NewAh, NewAd, InvAm, InvAh, InvAd, HighStep;
    var w0 := ClockAt(w, now);
    ClockForward(c, w, now);
    LowKeeps(c, w0, now);
    var w1 := LowStep(c, w0, now);
    MedKeeps(c, w1, now);
    HighClosesDays(c, MedStep(c, w1, now), now);
  }

  lemma {:induction false} RunClosesDays(c: Config, w: World, steps: seq<Step>)
    requires Sound(c) && DayLag(c) && Inv(c, w) && Possible(c, w, steps) && DaysClosed(w.h)
    ensures DaysClosed(Run(c, w, steps).h)
    decreases |steps|
  {
    if steps != [] {
      NextKeeps(c, w, steps[0]);
      match steps[0] {
        case Arrive(_, _, _) =>
        case TickAt(now) => TickClosesDays(c, w, now);
        case Restart(_) =>
      }
      RunClosesDays(c, Next(c, w, steps[0]), steps[1..]);
    }
  }

  lemma CreatedDaysClosed(c: Config, d: map<Key, real>, start: nat)
    requires DayLag(c)
    ensures DaysClosed(InitialWorld(c, d, start).h)
  {
    Units(start);
    assert forall k | k in Created(c, d, start).ad :: Index(Day, k.ts) < Index(Day, start) - c.delayAd;
  }

  /** With the cutoff counted in days, every day row ever inserted is the aggregate of all samples
      ever stored in its day. */
  lemma DaysExact(c: Config, d: map<Key, real>, start: nat, steps: seq<Step>, k: Key)
    requires DayLag(c) && GoodRun(c, d, start, steps) && k in End(c, d, start, steps).h.days
    ensures IsAggregate(End(c, d, start, steps).h.days[k], DayWindow(Ever(d, steps), k))
  {
    var h := End(c, d, start, steps).h;
    CreatedDaysClosed(c, d, start);
    InitialInv(c, d, start);
    RunClosesDays(c, InitialWorld(c, d, start), steps);
    DayRowExactIff(c, d, start, steps, k);
    forall x | x in DayWindow(Ever(d, steps), k)
      ensures Index(Hour, x.ts) < h.hoursAt[k]
    {
      EndInv(c, d, start, steps);
      HourInDay(k.ts, x.ts);
    }
  }

  lemma HourInDay(day: int, ts: int)
    requires Aligned(Day, day) && day <= ts < day + 86400000
    ensures Index(Hour, ts) < 24 * (Index(Day, day) + 1)
  {}

  // ---- No day is missed, when the thread keeps ticking ----

  /** A year of hours outlives a day's closing delay, and am$ outlives it by two days. */
  predicate DaySound(c: Config) {
    Sound(c) && DayLag(c) && (c.retAm > 0 ==> c.delayAd + 2 <= c.retAm)
  }

  /** The default delays and retentions meet it, with the cutoff counted in days. */
  lemma DefaultIsDaySound()
    ensures DaySound(Config(30, 2, 1, 14, 60, 730, 0, Day))
  {}

  /** No two ticks are more than 12 hours apart. */
  predicate Prompt(c: Config, w: World, steps: seq<Step>)
    decreases |steps|
  {
    steps == [] ||
    ((steps[0].TickAt? ==> steps[0].now - w.h.lastTick <= 43200000) && Prompt(c, Next(c, w, steps[0]), steps[1..]))
  }

  /** `lag` bounds by how many days the day tier trails the last tick. */
  ghost predicate InvDay(c: Config, w: World, lag: nat) {
    var (s, h) := (w.s, w.h);
    && h.days == View(Lift(h.ever), Day, h.closedAd)
    && 24 * h.closedAd <= h.closedAh
    && (h.keptAh <= 0 || h.keptAh <= Start(Day, h.closedAd))
    && (c.retAm > 0 ==> h.keptAm <= 0 || h.keptAm <= PurgeFrom(h.lastTick, c.retAm))
    && (c.retAm == 0 ==> h.keptAm <= 0)
    && h.lastTick <= h.clock
    && Index(Day, s.nextHigh) - 1 - c.delayAd <= h.closedAd <= CutAd(c, h.clock)
    && Index(Day, h.lastTick) - lag - c.delayAd <= h.closedAd
  }

  lemma InitialDayView(c: Config, d: map<Key, real>, now: nat)
    requires DaySound(c) && Positive(d)
    ensures InvDay(c, InitialWorld(c, d, now), 1)
  {
    hide View, Keep, Create, Index, Start, Created, PurgeFrom;
    CreatedViews(c, d, now);
    CreatedDayView(c, d, now);
    CreatedTimers(c, d, now);
    DayStart(now);
  }

  lemma CreatedDayView(c: Config, d: map<Key, real>, now: nat)
    requires DaySound(c) && Positive(d)
    requires Created(c, d, now).ah == View(Lift(d), Hour, CutAh(c, now))
    ensures 24 * CutAd(c, now) <= CutAh(c, now)
    ensures Created(c, d, now).ad == View(Lift(d), Day, CutAd(c, now))
  {
    hide View, Create, Index;
    Units(now);
    ViewPositive(Lift(d), Hour, Day, CutAh(c, now));
    CreateIsView(View(Lift(d), Hour, CutAh(c, now)), Day, CutAd(c, now));
    ViewCompose(Lift(d), Hour, Day, CutAh(c, now), CutAd(c, now));
    CreatedAd(c, d, now);
  }

  lemma CreatedAd(c: Config, d: map<Key, real>, now: nat)
    ensures Created(c, d, now).ad == Create(Created(c, d, now).ah, Day, CutAd(c, now))
  {}

  lemma DayStart(now: nat)
    ensures Index(Day, 0) == 0 <= Index(Day, now)
    ensures forall x, y | x <= y :: Start(Day, x) <= Start(Day, y)
  {}

  /** Every series with a newly closed day still has a minute row of that day to seed from. */
  lemma DaySeeded(c: Config, w: World, now: nat, b: Key)
    requires DaySound(c) && Inv(c, w) && InvDay(c, w, 2) && w.h.lastTick == now
    requires b in BucketsOf(Lift(w.h.ever), Day) && 0 < Index(Day, b.ts)
    requires w.h.closedAd <= Index(Day, b.ts) && 24 * (Index(Day, b.ts) + 1) <= w.h.closedAh
    ensures HasMark(w.s.ad, w.s.am, b.series)
  {
    hide View, Keep, Index, DayRows;
    var h := w.h;
    GroupSome(Lift(h.ever), Day, b);
    var x :| x in Lift(h.ever) && BucketOf(Day, x) == b;
    var m := BucketOf(Minute, x);
    SeedKept(c, h, now, b.ts, x.ts);
    KeptRow(Lift(h.ever), Minute, h.closedAm, h.keptAm, x);
    assert m in w.s.am && m.series == b.series;
  }

  lemma KeptRow(ever: Table, t: Tier, cut: int, kept: int, x: Key)
    requires x in ever && 0 < Index(t, x.ts) < cut && kept <= Start(t, Index(t, x.ts))
    ensures BucketOf(t, x) in Keep(View(ever, t, cut), kept)
  {}

  lemma SeedKept(c: Config, h: History, now: nat, day: int, ts: int)
    requires DaySound(c) && Aligned(Day, day) && Index(Day, ts) == Index(Day, day)
    requires Index(Day, now) - 2 - c.delayAd <= h.closedAd <= Index(Day, day)
    requires c.retAm > 0 ==> h.keptAm <= 0 || h.keptAm <= PurgeFrom(now, c.retAm)
    requires c.retAm == 0 ==> h.keptAm <= 0
    requires 24 * (Index(Day, day) + 1) <= h.closedAh && h.closedAh * 60 <= h.closedAm
    requires 0 < Index(Day, day)
    ensures 0 < Index(Minute, ts) < h.closedAm
    ensures h.keptAm <= Start(Minute, Index(Minute, ts))
  {
    MinuteInDay(ts);
    DayStart(now);
    assert c.retAm > 0 ==> Start(Day, Index(Day, now) - c.retAm) <= day;
  }

  lemma MinuteInDay(ts: int)
    ensures 1440 * Index(Day, ts) <= Index(Minute, ts) < 1440 * (Index(Day, ts) + 1)
    ensures Start(Day, Index(Day, ts)) <= Start(Minute, Index(Minute, ts))
  {}

  /** The day insert adds exactly the days that closed since the last one. */
  lemma HighGrows(c: Config, w: World, now: nat)
    requires DaySound(c) && Inv(c, w) && InvDay(c, w, 2) && w.h.lastTick == w.h.clock == now <= w.s.nextMed
    ensures 24 * CutAd(c, now) <= w.h.closedAh
    ensures w.h.days + NewAd(c, w.s, now) == View(Lift(w.h.ever), Day, CutAd(c, now))
  {
    hide View, Keep, Index, Start, Insertion, DayRows, BucketsOf;
    var h := w.h;
    var c0, c1 := h.closedAd, CutAd(c, now);
    var full := View(Lift(h.ever), Hour, h.closedAh);
    DayCutClosed(c, w, now);
    ViewCompose(Lift(h.ever), Hour, Day, h.closedAh, c0);
    ViewCompose(Lift(h.ever), Hour, Day, h.closedAh, c1);
    AlignedDay(Day, h.keptAh);
    InsertionStep(full, w.s.ah, w.s.ad, Day, c0, c1, h.keptAh, h.keptAd);
    BetweenExtends(full, Day, c0, c1);
    forall b | b in Between(full, Day, c0, c1)
      ensures HasMark(w.s.ad, w.s.am, b.series)
    {
      ClosedDay(Lift(h.ever), full, c0, c1, b);
      DaySeeded(c, w, now, b);
    }
    SeedsSuffice(w.s.ah, w.s.ad, w.s.am, Day, c1);
  }

  lemma ClosedDay(ever: Table, full: Table, c0: int, c1: int, b: Key)
    requires b in Between(full, Day, c0, c1) && View(full, Day, c1) == View(ever, Day, c1)
    ensures b in BucketsOf(ever, Day) && 0 < Index(Day, b.ts) && c0 <= Index(Day, b.ts) < c1
  {
    assert b in View(full, Day, c1);
  }

  lemma SeedsSuffice(src: Table, dst: Table, seeds: Table, t: Tier, cut: int)
    requires forall b | b in Insertion(src, dst, src, t, cut) :: HasMark(dst, seeds, b.series)
    ensures Insertion(src, dst, seeds, t, cut) == Insertion(src, dst, src, t, cut)
  {
    var l, r := Insertion(src, dst, seeds, t, cut), Insertion(src, dst, src, t, cut);
    forall b | b in l
      ensures b in r
    {
      var x :| x in src && BucketOf(t, x) == b;
      assert x.series == b.series;
    }
    assert l.Keys == r.Keys;
  }

  lemma DayCutClosed(c: Config, w: World, now: nat)
    requires DaySound(c) && InvAh(c, w) && InvDay(c, w, 2) && w.h.clock == now <= w.s.nextMed
    ensures 24 * CutAd(c, now) <= w.h.closedAh && w.h.closedAd <= CutAd(c, now)
  {
    hide View, Keep, Index;
    Units(now);
    IndexMonotone(Hour, now, w.s.nextMed);
  }

  // ---- The day view in every prompt run ----

  lemma LowKeepsDay(c: Config, w: World, now: nat)
    requires DaySound(c) && Inv(c, w) && InvDay(c, w, 2)
    ensures InvDay(c, LowStep(c, w, now), 2)
  {
    hide View, Keep, Index, Start, Insertion, PurgeFrom, Inv;
  }

  lemma MedKeepsDay(c: Config, w: World, now: nat)
    requires DaySound(c) && Inv(c, w) && InvDay(c, w, 2) && w.h.lastTick == w.h.clock == now
    ensures InvDay(c, MedStep(c, w, now), 2)
  {
    HourCutGrows(c, w, now);
    hide View, Keep, Index, Start, Insertion, PurgeFrom, Inv;
  }

  lemma HourCutGrows(c: Config, w: World, now: nat)
    requires InvAh(c, w) && w.h.clock == now
    ensures w.h.closedAh <= CutAh(c, now)
  {}

  lemma HighKeepsDay(c: Config, w: World, now: nat)
    requires DaySound(c) && Inv(c, w) && InvDay(c, w, 2) && w.h.lastTick == w.h.clock == now <= w.s.nextMed
    ensures InvDay(c, HighStep(c, w, now), 1)
  {
    hide View, Keep, Index, Start, Insertion, Inv, PurgeFrom;
    HalfDay(c, now, w.s.nextHigh, w.h.closedAd);
    if w.s.nextHigh < now {
      HighRunsDay(c, w, now);
    }
  }

  lemma HighRunsDay(c: Config, w: World, now: nat)
    requires DaySound(c) && Inv(c, w) && InvDay(c, w, 2) && w.h.lastTick == w.h.clock == now <= w.s.nextMed
    requires w.s.nextHigh < now
    ensures InvDay(c, HighStep(c, w, now), 1)
  {
    hide View, Keep, Index, Start, Insertion, Inv, Purge, NewAd, PurgeFrom, HighStep;
    HighStepIs(c, w, now);
    HighGrows(c, w, now);
    DayStart(now);
    HalfDay(c, now, w.s.nextHigh, w.h.closedAd);
  }

  lemma HalfDay(c: Config, now: nat, nextHigh: int, closedAd: int)
    requires DaySound(c)
    ensures Index(Day, now + 43200000) <= Index(Day, now) + 1
    ensures now <= nextHigh ==> Index(Day, now) <= Index(Day, nextHigh)
    ensures c.retAh > 0 ==> PurgeFrom(now, c.retAh) <= Start(Day, CutAd(c, now))
    ensures closedAd <= CutAd(c, now) ==> Start(Day, closedAd) <= Start(Day, CutAd(c, now))
  {}

  lemma ClockKeepsDay(c: Config, w: World, now: nat)
    requires InvDay(c, w, 1) && c.adUnit == Day && w.h.clock <= now && now - w.h.lastTick <= 43200000
    ensures InvDay(c, ClockAt(w, now), 2)
  {
    hide View, Keep, Insertion;
  }

  lemma TickKeepsDay(c: Config, w: World, now: nat)
    requires DaySound(c) && Inv(c, w) && InvDay(c, w, 1)
    requires w.h.clock <= now && now - w.h.lastTick <= 43200000
    ensures InvDay(c, TickStep(c, w, now), 1)
  {
    hide View, Keep, Index, Insertion, InvAm, InvAh, InvAd, InvDay, HighStep, LowStep, MedStep;
    var w0 := ClockAt(w, now);
    ClockForward(c, w, now);
    ClockKeepsDay(c, w, now);
    LowKeeps(c, w0, now);
    LowKeepsDay(c, w0, now);
    var w1 := LowStep(c, w0, now);
    LastTickKept(c, w0, now);
    MedKeeps(c, w1, now);
    MedKeepsDay(c, w1, now);
    HighKeepsDay(c, MedStep(c, w1, now), now);
  }

  lemma LastTickKept(c: Config, w: World, now: nat)
    ensures LowStep(c, w, now).h.lastTick == w.h.lastTick
    ensures MedStep(c, LowStep(c, w, now), now).h.lastTick == w.h.lastTick
  {
    hide Low, Med, NewAm, NewAh, Kept;
  }

  lemma ArriveKeepsDay(c: Config, w: World, now: nat, k: Key, v: real)
    requires Sound(c) && Inv(c, w) && InvDay(c, w, 1) && c.adUnit == Day
    requires w.h.clock <= now && now - k.ts <= c.delayAm * 60000
    ensures InvDay(c, ArriveStep(w, now, k, v), 1)
  {
    hide View, Keep, Insertion, Index, Start, PurgeFrom, Inv, Lift;
    OnTime(c, w, now, k);
    LiftInsert(w.h.ever, k, v);
    Units(k.ts);
    HoursOfDay(k.ts);
    ViewFrame(Lift(w.h.ever), Day, w.h.closedAd, k, OfSample(v));
    IndexMonotone(Day, w.h.clock, now);
  }

  lemma HoursOfDay(ts: int)
    ensures Index(Hour, ts) < 24 * (Index(Day, ts) + 1)
  {
    IndexNests(Hour, Day, ts);
  }

  lemma RestartKeepsDay(c: Config, w: World, now: nat)
    requires InvDay(c, w, 1) && c.adUnit == Day && w.h.clock <= now
    ensures InvDay(c, RestartStep(w, now), 1)
  {
    hide View, Keep, Index, Start, PurgeFrom;
    IndexMonotone(Day, 0, w.s.nextHigh);
    IndexMonotone(Day, w.h.clock, now);
  }

  lemma {:induction false} RunKeepsDay(c: Config, w: World, steps: seq<Step>)
    requires DaySound(c) && Inv(c, w) && InvDay(c, w, 1) && Possible(c, w, steps) && Prompt(c, w, steps)
    ensures InvDay(c, Run(c, w, steps), 1)
    decreases |steps|
  {
    if steps != [] {
      NextKeeps(c, w, steps[0]);
      match steps[0] {
        case Arrive(now, k, v) => ArriveKeepsDay(c, w, now, k, v);
        case TickAt(now) => TickKeepsDay(c, w, now);
        case Restart(now) => RestartKeepsDay(c, w, now);
      }
      RunKeepsDay(c, Next(c, w, steps[0]), steps[1..]);
    }
  }

  /** With the cutoff counted in days and ticks at most 12 hours apart, the day rows ever inserted
      are exactly the direct group-by of all samples ever stored, for every day below a cutoff that
      trails the last tick by at most one day more than its delay. */
  lemma DaysComplete(c: Config, d: map<Key, real>, start: nat, steps: seq<Step>)
    requires DaySound(c) && GoodRun(c, d, start, steps) && Prompt(c, InitialWorld(c, d, start), steps)
    ensures var h := End(c, d, start, steps).h;
            && h.days == View(Lift(Ever(d, steps)), Day, h.closedAd)
            && Index(Day, h.lastTick) - 1 - c.delayAd <= h.closedAd
  {
    hide View, Index, Inv, Run;
    InitialInv(c, d, start);
    InitialDayView(c, d, start);
    RunKeepsDay(c, InitialWorld(c, d, start), steps);
    EverRecorded(c, d, start, steps);
  }

  // ---- The cutoff counted in hours, as the queries have it ----

  /** A cutoff past a day lets it in as soon as one of its hours has a row and the series a watermark. */
  lemma FreezesOpenDay(c: Config, w: World, now: nat, x: Key)
    requires w.s.nextHigh < now && Inv(c, w)
    requires BucketOf(Hour, x) in w.s.ah && HasMark(w.s.ad, w.s.am, x.series)
    requires 0 < Index(Day, x.ts) < CutAd(c, now) && AboveMark(w.s.ad, x.series, BucketOf(Day, x).ts)
    ensures var h, b := HighStep(c, w, now).h, BucketOf(Day, x);
            b in h.days && b in h.hoursAt && h.hoursAt[b] == w.h.closedAh
  {
    hide View, Keep, Fold, Index, InvAm, InvAh, DayRow;
    OpenDayInserted(w.s.ah, w.s.ad, w.s.am, CutAd(c, now), x);
  }

  lemma OpenDayInserted(ah: Table, ad: Table, am: Table, cut: int, x: Key)
    requires BucketOf(Hour, x) in ah && HasMark(ad, am, x.series)
    requires 0 < Index(Day, x.ts) < cut && AboveMark(ad, x.series, BucketOf(Day, x).ts)
    ensures BucketOf(Day, x) in Insertion(ah, ad, am, Day, cut)
  {
    hide GroupBy, Group, Fold, Start, Index;
    var b := BucketOf(Day, x);
    BucketNests(Hour, Day, x);
    assert b in BucketsOf(ah, Day);
    DayBucketPositive(x.ts);
    assert HasMark(ad, am, b.series) && AboveMark(ad, b.series, b.ts);
    assert b in GroupBy(ah, Day);
  }

  lemma DayBucketPositive(ts: int)
    requires 0 < Index(Day, ts)
    ensures 0 < Start(Day, Index(Day, ts))
  {}
}
