/** What every run of arrivals and ticks guarantees about the minute and hour tiers. */
module HistoryTheorems {
  import opened Aggregates
  import opened Rollup
  import opened StatAggregator

  /** All samples ever stored, by the arrivals alone. */
  function Ever(d: map<Key, real>, steps: seq<Step>): map<Key, real> {
    if steps == [] then d
    else match steps[|steps| - 1]
      case Arrive(_, k, v) => Ever(d, steps[..|steps| - 1])[k := v]
      case _ => Ever(d, steps[..|steps| - 1])
  }

  /** The samples of a series in a time window. */
  function Window(ever: map<Key, real>, s: Series, from: int, until: int): map<Key, real> {
    map k | k in ever && k.series == s && from <= k.ts < until :: ever[k]
  }

  /** The row a direct aggregate of the window would give. */
  ghost predicate IsAggregate(r: Row, samples: map<Key, real>) {
    Fold(Lift(samples)).Agg? && r == RowOf(Fold(Lift(samples)))
  }

  /** A run from freshly created tables. */
  predicate GoodRun(c: Config, d: map<Key, real>, start: nat, steps: seq<Step>) {
    Sound(c) && Positive(d) && Possible(c, InitialWorld(c, d, start), steps)
  }

  function End(c: Config, d: map<Key, real>, start: nat, steps: seq<Step>): World {
    Run(c, InitialWorld(c, d, start), steps)
  }

  // ---- Runs, one step at a time ----

  lemma {:induction false} RunSplit(c: Config, w: World, a: seq<Step>, b: seq<Step>)
    ensures Run(c, w, a + b) == Run(c, Run(c, w, a), b)
    ensures Possible(c, w, a + b) <==> Possible(c, w, a) && Possible(c, Run(c, w, a), b)
    decreases |a|
  {
    if a == [] {
      assert a + b == b;
    } else {
      assert (a + b)[0] == a[0] && (a + b)[1..] == a[1..] + b;
      RunSplit(c, Next(c, w, a[0]), a[1..], b);
    }
  }

  lemma RunLast(c: Config, w: World, steps: seq<Step>)
    requires steps != []
    ensures var n := |steps| - 1;
            && Run(c, w, steps) == Next(c, Run(c, w, steps[..n]), steps[n])
            && (Possible(c, w, steps) <==> Possible(c, w, steps[..n]) && Enabled(c, Run(c, w, steps[..n]), steps[n]))
  {
    var n := |steps| - 1;
    assert steps == steps[..n] + [steps[n]];
    RunSplit(c, w, steps[..n], [steps[n]]);
    var w' := Run(c, w, steps[..n]);
    assert Run(c, w', [steps[n]]) == Run(c, Next(c, w', steps[n]), []);
    assert Possible(c, Next(c, w', steps[n]), []);
  }

  lemma TickKeepsEver(c: Config, w: World, now: nat)
    ensures TickStep(c, w, now).h.ever == w.h.ever
  {
    var w0 := ClockAt(w, now);
    LowKeepsEver(c, w0, now);
    MedKeepsEver(c, LowStep(c, w0, now), now);
    HighKeepsEver(c, MedStep(c, LowStep(c, w0, now), now), now);
    hide LowStep, MedStep, HighStep;
  }

  lemma LowKeepsEver(c: Config, w: World, now: nat)
    ensures LowStep(c, w, now).h.ever == w.h.ever
  {
    hide Low, NewAm, Kept;
  }

  lemma MedKeepsEver(c: Config, w: World, now: nat)
    ensures MedStep(c, w, now).h.ever == w.h.ever
  {
    hide Med, NewAh, Kept;
  }

  lemma HighKeepsEver(c: Config, w: World, now: nat)
    ensures HighStep(c, w, now).h.ever == w.h.ever
  {
    hide High, NewAd, Kept, Stamp;
  }

  lemma {:induction false} EverRecorded(c: Config, d: map<Key, real>, start: nat, steps: seq<Step>)
    ensures End(c, d, start, steps).h.ever == Ever(d, steps)
    decreases |steps|
  {
    if steps != [] {
      var n := |steps| - 1;
      EverRecorded(c, d, start, steps[..n]);
      RunLast(c, InitialWorld(c, d, start), steps);
      if steps[n].TickAt? {
        TickKeepsEver(c, End(c, d, start, steps[..n]), steps[n].now);
      }
    }
  }

  lemma EndInv(c: Config, d: map<Key, real>, start: nat, steps: seq<Step>)
    requires GoodRun(c, d, start, steps)
    ensures Inv(c, End(c, d, start, steps))
    ensures End(c, d, start, steps).h.ever == Ever(d, steps)
  {
    InitialInv(c, d, start);
    RunKeeps(c, InitialWorld(c, d, start), steps);
    EverRecorded(c, d, start, steps);
  }

  // ---- Exactness ----

  /** The group of a bucket is a window of time. */
  lemma GroupIsWindow(ever: map<Key, real>, t: Tier, b: Key)
    requires BucketOf(t, b) == b
    ensures Group(Lift(ever), t, b) == Lift(Window(ever, b.series, b.ts, b.ts + Width(t)))
  {
    forall k | k in ever && k.series == b.series
      ensures BucketOf(t, k) == b <==> b.ts <= k.ts < b.ts + Width(t)
    {
      StartIndex(t, k.ts, Index(t, b.ts));
      StartIndex(t, k.ts, Index(t, b.ts) + 1);
    }
    var l, r := Group(Lift(ever), t, b), Lift(Window(ever, b.series, b.ts, b.ts + Width(t)));
    assert l.Keys == r.Keys;
  }

  lemma ViewRow(ever: map<Key, real>, t: Tier, cut: int, b: Key)
    requires b in View(Lift(ever), t, cut)
    ensures BucketOf(t, b) == b
    ensures IsAggregate(View(Lift(ever), t, cut)[b], Window(ever, b.series, b.ts, b.ts + Width(t)))
  {
    GroupSome(Lift(ever), t, b);
    GroupIsWindow(ever, t, b);
  }

  /** Every minute row and every hour row, whatever was purged, aggregates exactly the samples ever
      stored in its minute or hour. */
  lemma RowsExact(c: Config, d: map<Key, real>, start: nat, steps: seq<Step>)
    requires GoodRun(c, d, start, steps)
    ensures var s := End(c, d, start, steps).s;
            && (forall b | b in s.am :: IsAggregate(s.am[b], Window(Ever(d, steps), b.series, b.ts, b.ts + 60000)))
            && (forall b | b in s.ah :: IsAggregate(s.ah[b], Window(Ever(d, steps), b.series, b.ts, b.ts + 3600000)))
  {
    hide View, Inv;
    var w := End(c, d, start, steps);
    EndInv(c, d, start, steps);
    EndViews(c, w);
    forall b | b in w.s.am
      ensures IsAggregate(w.s.am[b], Window(Ever(d, steps), b.series, b.ts, b.ts + 60000))
    {
      ViewRow(w.h.ever, Minute, w.h.closedAm, b);
    }
    forall b | b in w.s.ah
      ensures IsAggregate(w.s.ah[b], Window(Ever(d, steps), b.series, b.ts, b.ts + 3600000))
    {
      ViewRow(w.h.ever, Hour, w.h.closedAh, b);
    }
  }

  /** The columns of such a row: the number of samples, their sum, their mean, their smallest and their
      largest value. */
  lemma AggregateMeans(r: Row, samples: map<Key, real>)
    requires IsAggregate(r, samples)
    ensures r.cnt == |samples| && r.sum == Total(samples) && r.avg * r.cnt as real == Total(samples)
    ensures forall k | k in samples :: r.min <= samples[k] <= r.max
    ensures (exists k | k in samples :: samples[k] == r.min) && (exists k | k in samples :: samples[k] == r.max)
  {
    hide Fold, Total, Lift;
    FoldSome(Lift(samples));
    LiftNone(samples);
    FoldMeaning(samples);
    MeanTimesCount(Fold(Lift(samples)));
  }

  lemma LiftNone(samples: map<Key, real>)
    ensures samples == map[] ==> Lift(samples) == map[]
  {}

  /** The three tables are suffixes of the samples and of their direct group-bys. */
  lemma EndViews(c: Config, w: World)
    requires Inv(c, w)
    ensures w.s.d == Keep(w.h.ever, w.h.keptD)
    ensures w.s.am == Keep(View(Lift(w.h.ever), Minute, w.h.closedAm), w.h.keptAm)
    ensures w.s.ah == Keep(View(Lift(w.h.ever), Hour, w.h.closedAh), w.h.keptAh)
    ensures w.h.minutes == View(Lift(w.h.ever), Minute, w.h.closedAm)
    ensures w.h.hours == View(Lift(w.h.ever), Hour, w.h.closedAh)
  {}

  /** No (series, bucket) is ever inserted twice, and every closed bucket that holds a sample is
      inserted, although purging an idle series resets its watermark. */
  lemma ExactlyOnce(c: Config, d: map<Key, real>, start: nat, steps: seq<Step>, b: Key)
    requires GoodRun(c, d, start, steps)
    ensures var h := End(c, d, start, steps).h;
            && h.amLog[b] == (if 0 < Index(Minute, b.ts) < h.closedAm && b in BucketsOf(Lift(Ever(d, steps)), Minute)
                then 1 else 0)
            && h.ahLog[b] == (if 0 < Index(Hour, b.ts) < h.closedAh && b in BucketsOf(Lift(Ever(d, steps)), Hour)
                then 1 else 0)
            && h.adLog[b] <= 1
  {
    hide View, Keep, Index, BucketsOf, DayRows;
    var w := End(c, d, start, steps);
    EndInv(c, d, start, steps);
    ViewLog(Lift(w.h.ever), Minute, w.h.closedAm, b);
    ViewLog(Lift(w.h.ever), Hour, w.h.closedAh, b);
  }

  lemma ViewLog(ever: Table, t: Tier, cut: int, b: Key)
    ensures multiset(View(ever, t, cut).Keys)[b] == if 0 < Index(t, b.ts) < cut && b in BucketsOf(ever, t) then 1 else 0
  {}

  /** Scheduler staleness: a tick leaves the minute tier at most one more delay behind, and the
      hour tier at most one more hour behind, whichever timers fired. */
  lemma Staleness(c: Config, d: map<Key, real>, start: nat, steps: seq<Step>, now: nat)
    requires GoodRun(c, d, start, steps + [TickAt(now)])
    ensures var h := End(c, d, start, steps + [TickAt(now)]).h;
            && Index(Minute, now) - 2 * c.delayAm <= h.closedAm <= CutAm(c, now)
            && Index(Hour, now) - 1 - c.delayAh <= h.closedAh <= CutAh(c, now)
  {
    hide View, Keep, Index, Run, Possible, DayRows, TickStep;
    var w0 := InitialWorld(c, d, start);
    RunSplit(c, w0, steps, [TickAt(now)]);
    EndInv(c, d, start, steps);
    LastStep(c, Run(c, w0, steps), TickAt(now));
    TickLag(c, Run(c, w0, steps), now);
  }

  lemma LastStep(c: Config, w: World, st: Step)
    ensures Run(c, w, [st]) == Next(c, w, st)
    ensures Possible(c, w, [st]) <==> Enabled(c, w, st)
  {
    assert Run(c, Next(c, w, st), []) == Next(c, w, st);
    assert Possible(c, Next(c, w, st), []);
  }

  lemma ThreeSteps(c: Config, w: World, x: Step, y: Step, z: Step)
    ensures var (w1, w2) := (Next(c, w, x), Next(c, Next(c, w, x), y));
            && Run(c, w, [x, y, z]) == Next(c, w2, z)
            && (Possible(c, w, [x, y, z]) <==> Enabled(c, w, x) && Enabled(c, w1, y) && Enabled(c, w2, z))
  {
    hide Next, Enabled;
    assert [x] + [y] == [x, y] && [x, y] + [z] == [x, y, z];
    LastStep(c, w, x);
    RunSplit(c, w, [x], [y]);
    LastStep(c, Next(c, w, x), y);
    RunSplit(c, w, [x, y], [z]);
    LastStep(c, Next(c, Next(c, w, x), y), z);
  }

  lemma TickLag(c: Config, w: World, now: nat)
    requires Sound(c) && Inv(c, w) && w.h.clock <= now
    ensures var h := TickStep(c, w, now).h;
            && Index(Minute, now) - 2 * c.delayAm <= h.closedAm <= CutAm(c, now)
            && Index(Hour, now) - 1 - c.delayAh <= h.closedAh <= CutAh(c, now)
  {
    hide View, Keep, Index, DayRows, Low, LowStep, Med, MedStep;
    var w0 := ClockAt(w, now);
    ClockForward(c, w, now);
    LowKeeps(c, w0, now);
    var w1 := LowStep(c, w0, now);
    MedKeeps(c, w1, now);
    var w2 := MedStep(c, w1, now);
    IndexMonotone(Minute, now, w1.s.nextLow);
    IndexMonotone(Hour, now, w2.s.nextMed);
    MedKeepsLow(c, w1, now);
  }

  lemma MedKeepsLow(c: Config, w: World, now: nat)
    ensures MedStep(c, w, now).h.closedAm == w.h.closedAm
  {}

  // ---- Purging ----

  /** The row inserted for the bucket `b` is the aggregate of all samples of the bucket. */
  ghost predicate IsCounted(rows: Table, ever: map<Key, real>, t: Tier, b: Key) {
    b in rows && IsAggregate(rows[b], Window(ever, b.series, b.ts, b.ts + Width(t)))
  }

  lemma ViewCounted(ever: map<Key, real>, t: Tier, cut: int, b: Key)
    requires b in View(Lift(ever), t, cut)
    ensures IsCounted(View(Lift(ever), t, cut), ever, t, b)
  {
    hide View, IsAggregate, Window, Lift;
    ViewRow(ever, t, cut, b);
  }

  /** Samples, or finer rows, of the bucket of `k` are counted before they are gone: the bucket is
      closed, it was inserted exactly once unless it is bucket 0, and its row is the aggregate of all
      samples of the bucket. */
  ghost predicate CountedOnce(ever: map<Key, real>, t: Tier, closed: int, log: multiset<Key>, rows: Table, k: Key) {
    && Index(t, k.ts) < closed
    && log[BucketOf(t, k)] == (if 0 < Index(t, k.ts) then 1 else 0)
    && (0 < Index(t, k.ts) ==> IsCounted(rows, ever, t, BucketOf(t, k)))
  }

  lemma ViewCountsOnce(ever: map<Key, real>, t: Tier, closed: int, log: multiset<Key>, rows: Table, k: Key)
    requires rows == View(Lift(ever), t, closed) && log == multiset(rows.Keys)
    requires k in ever && Index(t, k.ts) < closed
    ensures CountedOnce(ever, t, closed, log, rows, k)
  {
    Bucket0(t, k);
    StartIndex(t, BucketOf(t, k).ts, Index(t, k.ts));
    assert k in Lift(ever);
    assert BucketOf(t, k) in rows <==> 0 < Index(t, k.ts);
    hide View, IsCounted, Lift;
    if 0 < Index(t, k.ts) { ViewCounted(ever, t, closed, BucketOf(t, k)); }
  }

  /** What remains of a table holds nothing of the bucket of `k`. */
  predicate GoneAsAWhole<V>(full: map<Key, V>, rest: map<Key, V>, t: Tier, k: Key) {
    forall x | x in full && BucketOf(t, x) == BucketOf(t, k) :: x !in rest
  }

  /** A day-aligned purge never splits a bucket. */
  lemma GoneTogether<V>(full: map<Key, V>, t: Tier, kept: int, k: Key)
    requires Aligned(Day, kept) && k.ts < kept
    ensures GoneAsAWhole(full, Keep(full, kept), t, k)
  {
    AlignedDay(t, kept);
    forall x: Key | BucketOf(t, x) == BucketOf(t, k)
      ensures x.ts < kept
    {
      StartIndex(t, x.ts, Index(t, kept));
      StartIndex(t, k.ts, Index(t, kept));
    }
  }

  lemma InWindow(ever: map<Key, real>, t: Tier, k: Key)
    requires k in ever
    ensures var b := BucketOf(t, k); k in Window(ever, b.series, b.ts, b.ts + Width(t))
  {
    StartIndex(t, k.ts, Index(t, k.ts) + 1);
    StartIndex(t, k.ts, Index(t, k.ts));
  }

  /** Purging loses nothing: a sample that is gone from d$ was counted in its minute's row, among all
      samples of the minute, and the minute is gone as a whole. */
  lemma LosslessPurgeRaw(c: Config, d: map<Key, real>, start: nat, steps: seq<Step>, k: Key)
    requires GoodRun(c, d, start, steps)
    requires k in Ever(d, steps) && k !in End(c, d, start, steps).s.d
    ensures var (s, h) := (End(c, d, start, steps).s, End(c, d, start, steps).h);
            && CountedOnce(Ever(d, steps), Minute, h.closedAm, h.amLog, h.minutes, k)
            && GoneAsAWhole(Ever(d, steps), s.d, Minute, k)
    ensures var b := BucketOf(Minute, k); k in Window(Ever(d, steps), b.series, b.ts, b.ts + Width(Minute))
  {
    hide *;
    EndInv(c, d, start, steps);
    PurgedRaw(c, End(c, d, start, steps), k);
    InWindow(Ever(d, steps), Minute, k);
  }

  lemma PurgedRaw(c: Config, w: World, k: Key)
    requires Inv(c, w) && k in w.h.ever && k !in w.s.d
    ensures CountedOnce(w.h.ever, Minute, w.h.closedAm, w.h.amLog, w.h.minutes, k)
    ensures GoneAsAWhole(w.h.ever, w.s.d, Minute, k)
  {
    hide View, Index, Aligned, Start, BucketOf, InvAh, InvAd, CountedOnce, GoneAsAWhole;
    WholeBucket(Minute, w.h.keptD, w.h.closedAm, k);
    ViewCountsOnce(w.h.ever, Minute, w.h.closedAm, w.h.amLog, w.h.minutes, k);
    GoneTogether(w.h.ever, Minute, w.h.keptD, k);
  }

  /** The same one tier up: a minute row that is gone from am$ was counted in its hour's row, which
      aggregates all samples of the hour, those of the minute row included, and the hour is gone from
      am$ as a whole. */
  lemma LosslessPurgeMinutes(c: Config, d: map<Key, real>, start: nat, steps: seq<Step>, m: Key)
    requires GoodRun(c, d, start, steps)
    requires m in End(c, d, start, steps).h.minutes && m !in End(c, d, start, steps).s.am
    ensures var (s, h) := (End(c, d, start, steps).s, End(c, d, start, steps).h);
            && CountedOnce(Ever(d, steps), Hour, h.closedAh, h.ahLog, h.hours, m)
            && GoneAsAWhole(h.minutes, s.am, Hour, m)
            && IsCounted(h.minutes, Ever(d, steps), Minute, m)
    ensures BucketOf(Hour, m).ts <= m.ts && m.ts + 60000 <= BucketOf(Hour, m).ts + 3600000
  {
    hide *;
    EndInv(c, d, start, steps);
    PurgedMinute(c, End(c, d, start, steps), m);
  }

  lemma PurgedMinute(c: Config, w: World, m: Key)
    requires Inv(c, w) && m in w.h.minutes && m !in w.s.am
    ensures CountedOnce(w.h.ever, Hour, w.h.closedAh, w.h.ahLog, w.h.hours, m)
    ensures GoneAsAWhole(w.h.minutes, w.s.am, Hour, m)
    ensures IsCounted(w.h.minutes, w.h.ever, Minute, m)
    ensures BucketOf(Hour, m).ts <= m.ts && m.ts + 60000 <= BucketOf(Hour, m).ts + 3600000
  {
    hide View, Index, Aligned, Start, BucketOf, InvAd, GoneAsAWhole, IsCounted;
    WholeBucket(Hour, w.h.keptAm, w.h.closedAh, m);
    var k := MinuteSample(w.h.ever, w.h.closedAm, m);
    ViewCountsOnce(w.h.ever, Hour, w.h.closedAh, w.h.ahLog, w.h.hours, k);
    ViewCounted(w.h.ever, Minute, w.h.closedAm, m);
    GoneTogether(w.h.minutes, Hour, w.h.keptAm, m);
    MinuteInHour(m);
  }

  /** A minute row stems from some sample, of the same hour. */
  lemma MinuteSample(ever: map<Key, real>, cut: int, m: Key) returns (k: Key)
    requires m in View(Lift(ever), Minute, cut)
    ensures k in ever && BucketOf(Minute, k) == m
    ensures BucketOf(Hour, k) == BucketOf(Hour, m) && Index(Hour, k.ts) == Index(Hour, m.ts)
  {
    k :| k in Lift(ever) && BucketOf(Minute, k) == m;
    BucketNests(Minute, Hour, k);
  }

  lemma MinuteInHour(m: Key)
    requires BucketOf(Minute, m) == m
    ensures BucketOf(Hour, m).ts <= m.ts && m.ts + 60000 <= BucketOf(Hour, m).ts + 3600000
  {
    hide Index;
    var q, h := Index(Minute, m.ts), Index(Hour, m.ts);
    IndexNests(Minute, Hour, m.ts);
    assert 60 * h <= q < 60 * (h + 1);
  }

  lemma WholeBucket(t: Tier, kept: int, closed: int, k: Key)
    requires Aligned(Day, kept) && (kept <= 0 || kept <= Start(t, closed)) && k.ts < kept
    ensures Index(t, k.ts) < closed
  {
    StartIndex(t, k.ts, closed);
  }

  // ---- Incremental runs against one batch ----

  /** However many incremental runs filled am$ and ah$, they hold what one `create table` over all
      samples ever stored would hold at the last cutoff, as far back as rows are kept, iff no
      sample lies in bucket 0 (a bucket only `create table` fills). */
  lemma IncrementalEqualsBatch(c: Config, d: map<Key, real>, start: nat, steps: seq<Step>)
    requires GoodRun(c, d, start, steps)
    ensures var (s, h, ever) := (End(c, d, start, steps).s, End(c, d, start, steps).h, Lift(Ever(d, steps)));
            && (s.am == Keep(Create(ever, Minute, h.closedAm), h.keptAm) <==>
                forall k | k in ever && Index(Minute, k.ts) == 0 :: h.closedAm <= 0 || 0 < h.keptAm)
            && (s.ah == Keep(Create(ever, Hour, h.closedAh), h.keptAh) <==>
                forall k | k in ever && Index(Hour, k.ts) == 0 :: h.closedAh <= 0 || 0 < h.keptAh)
  {
    hide View, Keep, Create, Index;
    var w := End(c, d, start, steps);
    EndInv(c, d, start, steps);
    EndViews(c, w);
    KeptCreate(Lift(w.h.ever), Minute, w.h.closedAm, w.h.keptAm);
    KeptCreate(Lift(w.h.ever), Hour, w.h.closedAh, w.h.keptAh);
  }

  lemma KeptCreate(src: Table, t: Tier, cut: int, kept: int)
    ensures Keep(View(src, t, cut), kept) == Keep(Create(src, t, cut), kept) <==>
            forall k | k in src && Index(t, k.ts) == 0 :: cut <= 0 || 0 < kept
  {
    hide View, Create, Keep, Index;
    if k :| k in src && Index(t, k.ts) == 0 && 0 < cut && kept <= 0 {
      OnlyCreated(src, t, cut, k);
      Bucket0(t, k);
      KeptDiffers(View(src, t, cut), Create(src, t, cut), kept, BucketOf(t, k));
    } else {
      KeptViewIsCreate(src, t, cut, kept);
    }
  }

  lemma KeptDiffers(l: Table, r: Table, kept: int, b: Key)
    requires b in r && b !in l && kept <= b.ts
    ensures Keep(l, kept) != Keep(r, kept)
  {
    assert b in Keep(r, kept) && b !in Keep(l, kept);
  }

  lemma KeptViewIsCreate(src: Table, t: Tier, cut: int, kept: int)
    requires forall k | k in src && Index(t, k.ts) == 0 :: cut <= 0 || 0 < kept
    ensures Keep(View(src, t, cut), kept) == Keep(Create(src, t, cut), kept)
  {
    hide Index, GroupBy;
    forall b | b in Keep(Create(src, t, cut), kept)
      ensures b in View(src, t, cut)
    {
      CreatedKept(src, t, cut, kept, b);
    }
  }

  lemma CreatedKept(src: Table, t: Tier, cut: int, kept: int, b: Key)
    requires b in Keep(Create(src, t, cut), kept)
    requires forall k | k in src && Index(t, k.ts) == 0 :: cut <= 0 || 0 < kept
    ensures b in View(src, t, cut)
  {
    hide GroupBy;
    var k :| k in src && BucketOf(t, k) == b;
    StartIndex(t, b.ts, Index(t, k.ts));
    Bucket0(t, k);
  }

  lemma Bucket0(t: Tier, k: Key)
    ensures Index(t, k.ts) == 0 <==> BucketOf(t, k).ts == 0
    ensures 0 <= Index(t, k.ts)
  {}

  /** A sample of the first minute, and the first tick that finds it closed. */
  const FIRST := Key(Series(1, 1), 0)
  const EARLY := [Arrive(0, FIRST, 1.0), TickAt(1860000)]

  lemma TwoSteps(c: Config, w: World, x: Step, y: Step)
    ensures Run(c, w, [x, y]) == Next(c, Next(c, w, x), y)
    ensures Possible(c, w, [x, y]) <==> Enabled(c, w, x) && Enabled(c, Next(c, w, x), y)
  {
    hide Next, Enabled;
    assert [x] + [y] == [x, y];
    LastStep(c, w, x);
    RunSplit(c, w, [x], [y]);
    LastStep(c, Next(c, w, x), y);
  }

  /** The boundary is real: under the default delays an incremental run leaves the first minute out,
      and one `create table` at the same cutoff holds it. */
  lemma FirstMinuteDiffers()
    ensures var c := Config(30, 2, 1, 14, 60, 730, 0, Hour);
            var (s, h, ever) := (End(c, map[], 0, EARLY).s, End(c, map[], 0, EARLY).h, Lift(Ever(map[], EARLY)));
            GoodRun(c, map[], 0, EARLY) && s.am != Keep(Create(ever, Minute, h.closedAm), h.keptAm)
  {
    hide Create, View, Keep, Insertion, NewAm, NewAh, NewAd, Purge, Created;
    var c := Config(30, 2, 1, 14, 60, 730, 0, Hour);
    var w0 := InitialWorld(c, map[], 0);
    CreatedTimers(c, map[], 0);
    TwoSteps(c, w0, EARLY[0], EARLY[1]);
    EarlyEver();
    IncrementalEqualsBatch(c, map[], 0, EARLY);
  }

  lemma EarlyEver()
    ensures FIRST in Lift(Ever(map[], EARLY)) && Index(Minute, FIRST.ts) == 0
  {
    assert EARLY[..1] == [EARLY[0]] && [EARLY[0]][..0] == [];
  }

  /** The configuration the schema installs by default is covered. */
  lemma DefaultIsSound()
    ensures Sound(Config(30, 2, 1, 14, 60, 730, 0, Hour)) && Sound(Config(30, 2, 1, 14, 60, 730, 0, Day))
  {}
}
