/** No bucket is aggregated twice, whatever the closing delays of the coarser tiers, and whatever the
    unit of the day cutoff. */
module OnceTheorems {
  import opened Aggregates
  import opened Rollup
  import opened StatAggregator
  import opened HistoryTheorems

  /** Where a table is purged, samples are at most a day late and its source is kept for a shorter
      time. A table that is kept for ever needs nothing. */
  predicate OnceSound(c: Config) {
    && (c.retAm > 0 ==> c.delayAm <= 1440 && 0 < c.retD < c.retAm)
    && (c.retAh > 0 ==> 0 < c.retAm < c.retAh)
    && (c.retAd > 0 ==> 0 < c.retAh <= c.retAd)
  }

  /** Of the rows `all` ever inserted, each once, the table holds those from `kept` on. */
  ghost predicate Logged(tab: Table, all: Table, log: multiset<Key>, kept: int) {
    && log == multiset(all.Keys)
    && forall k :: k in tab <==> k in all && kept <= k.ts
  }

  lemma LogGrows(tab: Table, all: Table, log: multiset<Key>, kept: int, rows: Table)
    requires Logged(tab, all, log, kept) && rows.Keys !! tab.Keys && forall k | k in rows :: kept <= k.ts
    ensures Logged(tab + rows, all + rows, log + multiset(rows.Keys), kept)
  {
    assert all.Keys !! rows.Keys;
    HighLogs(all, rows);
  }

  lemma LogPurged(tab: Table, all: Table, log: multiset<Key>, kept: int, now: int, ret: nat)
    requires Logged(tab, all, log, kept)
    ensures Logged(Purge(tab, now, ret), all, log, Kept(kept, now, ret))
  {
    hide PurgeFrom;
  }

  /** Source rows from an aligned day on fall into buckets from that day on. */
  lemma BucketAbove(t: Tier, p: int, k: Key)
    requires Aligned(Day, p) && p <= k.ts
    ensures p <= BucketOf(t, k).ts
  {
    AlignedDay(t, p);
    StartIndex(t, k.ts, Index(t, p));
    StartMonotone(t, Index(t, p), Index(t, k.ts));
  }

  ghost predicate From<V>(tab: map<Key, V>, p: int) { forall k | k in tab :: p <= k.ts }

  lemma InsertedFrom(src: Table, dst: Table, seeds: Table, t: Tier, cut: int, p: int)
    requires Aligned(Day, p) && From(src, p)
    ensures From(Insertion(src, dst, seeds, t, cut), p)
  {
    forall b | b in Insertion(src, dst, seeds, t, cut)
      ensures p <= b.ts
    {
      var k :| k in src && BucketOf(t, k) == b;
      BucketAbove(t, p, k);
    }
  }

  ghost predicate OnceAm(c: Config, w: World) {
    var (s, h) := (w.s, w.h);
    && Logged(s.am, h.minutes, h.amLog, h.keptAm) && Aligned(Day, h.keptD)
    && (c.retAm == 0 ==> h.keptAm == 0)
    && (h.keptD <= 0 || (c.retD > 0 && h.keptD <= PurgeFrom(h.clock, c.retD)))
    && (c.retAm > 0 ==> h.keptAm <= h.keptD && From(s.d, h.keptD) && PurgeFrom(s.nextLow, c.retD + 1) <= h.keptD)
  }

  ghost predicate OnceAh(c: Config, w: World) {
    var (s, h) := (w.s, w.h);
    && Logged(s.ah, h.hours, h.ahLog, h.keptAh) && Aligned(Day, h.keptAm)
    && (c.retAh == 0 ==> h.keptAh == 0)
    && (c.retAh > 0 ==> h.keptAh <= h.keptAm && PurgeFrom(s.nextMed, c.retAm + 1) <= h.keptAm)
  }

  ghost predicate OnceAd(c: Config, w: World) {
    var (s, h) := (w.s, w.h);
    && Logged(s.ad, h.days, h.adLog, h.keptAd) && Aligned(Day, h.keptAh)
    && (c.retAd == 0 ==> h.keptAd == 0)
    && (c.retAd > 0 ==> h.keptAd <= h.keptAh)
  }

  ghost predicate Once(c: Config, w: World) { OnceAm(c, w) && OnceAh(c, w) && OnceAd(c, w) }

  lemma LoggedFrom(tab: Table, all: Table, log: multiset<Key>, kept: int)
    requires Logged(tab, all, log, kept)
    ensures From(tab, kept)
  {}

  /** New minute rows: fresh, and none falls behind what was purged. */
  lemma NewMinutes(c: Config, w: World, now: nat)
    requires OnceAm(c, w)
    ensures NewAm(c, w.s, now).Keys !! w.s.am.Keys && From(NewAm(c, w.s, now), w.h.keptAm)
  {
    hide Insertion, Logged, Aligned, PurgeFrom;
    InsertionFresh(Lift(w.s.d), w.s.am, Lift(w.s.d), Minute, CutAm(c, now));
    if c.retAm > 0 {
      InsertedFrom(Lift(w.s.d), w.s.am, Lift(w.s.d), Minute, CutAm(c, now), w.h.keptD);
    }
  }

  lemma NewHours(c: Config, w: World, now: nat)
    requires OnceSound(c) && OnceAm(c, w) && OnceAh(c, w)
    ensures NewAh(c, w.s, now).Keys !! w.s.ah.Keys && From(NewAh(c, w.s, now), w.h.keptAh)
  {
    hide Insertion, Logged, Aligned, PurgeFrom;
    InsertionFresh(w.s.am, w.s.ah, w.s.am, Hour, CutAh(c, now));
    if c.retAh > 0 {
      LoggedFrom(w.s.am, w.h.minutes, w.h.amLog, w.h.keptAm);
      InsertedFrom(w.s.am, w.s.ah, w.s.am, Hour, CutAh(c, now), w.h.keptAm);
    }
  }

  lemma NewDays(c: Config, w: World, now: nat)
    requires OnceSound(c) && OnceAh(c, w) && OnceAd(c, w)
    ensures NewAd(c, w.s, now).Keys !! w.s.ad.Keys && From(NewAd(c, w.s, now), w.h.keptAd)
  {
    hide Insertion, Logged, Aligned, PurgeFrom;
    InsertionFresh(w.s.ah, w.s.ad, w.s.am, Day, CutAd(c, now));
    if c.retAd > 0 {
      LoggedFrom(w.s.ah, w.h.hours, w.h.ahLog, w.h.keptAh);
      InsertedFrom(w.s.ah, w.s.ad, w.s.am, Day, CutAd(c, now), w.h.keptAh);
    }
  }

  // ---- One step ----

  lemma KeptFrom<V>(tab: map<Key, V>, kept: int, now: int, ret: nat)
    requires From(tab, kept) && Aligned(Day, kept)
    ensures From(Purge(tab, now, ret), Kept(kept, now, ret))
    ensures Aligned(Day, Kept(kept, now, ret)) && kept <= Kept(kept, now, ret)
  {}

  lemma PurgeTimes(a: int, b: int, m: nat, n: nat)
    requires Index(Day, a) - m <= Index(Day, b) - n
    ensures PurgeFrom(a, m) <= PurgeFrom(b, n)
  {}

  lemma LowOnce(c: Config, w: World, now: nat)
    requires OnceSound(c) && Once(c, w) && w.h.clock == now
    ensures Once(c, LowStep(c, w, now))
    ensures LowStep(c, w, now).h.clock == now <= LowStep(c, w, now).s.nextLow
  {
    LowOthers(c, w, now);
    if w.s.nextLow < now {
      LowOnceAm(c, w, now);
      LowStepIs(c, w, now);
      hide OnceAm, OnceAh, OnceAd, LowStep;
    }
  }

  lemma LowOthers(c: Config, w: World, now: nat)
    requires OnceAh(c, w) && OnceAd(c, w)
    ensures OnceAh(c, LowStep(c, w, now)) && OnceAd(c, LowStep(c, w, now))
  {
    hide NewAm, Purge, PurgeFrom, Kept, Aligned, Logged, CutAm;
  }

  lemma LowOnceAm(c: Config, w: World, now: nat)
    requires OnceSound(c) && OnceAm(c, w) && w.h.clock == now && w.s.nextLow < now
    ensures OnceAm(c, LowStep(c, w, now))
  {
    hide NewAm, Purge, PurgeFrom, Kept, Aligned, Index, Logged, From, CutAm, LowStep;
    LowStepIs(c, w, now);
    NewMinutes(c, w, now);
    LogAm(c, w, now);
    AlignedKept(w.h.keptD, now, c.retD);
    LowPurges(c, w.h.keptD, now);
    if c.retAm > 0 {
      KeptFrom(w.s.d, w.h.keptD, now, c.retD);
      MinutesLater(now, c.delayAm);
      PurgeTimes(now + c.delayAm * 60000, now, c.retD + 1, c.retD);
    }
  }

  lemma LogAm(c: Config, w: World, now: nat)
    requires Logged(w.s.am, w.h.minutes, w.h.amLog, w.h.keptAm)
    requires NewAm(c, w.s, now).Keys !! w.s.am.Keys && From(NewAm(c, w.s, now), w.h.keptAm)
    ensures Logged(w.s.am + NewAm(c, w.s, now), w.h.minutes + NewAm(c, w.s, now),
                   w.h.amLog + multiset(NewAm(c, w.s, now).Keys), w.h.keptAm)
  {
    hide NewAm, Logged;
    LogGrows(w.s.am, w.h.minutes, w.h.amLog, w.h.keptAm, NewAm(c, w.s, now));
  }

  lemma LowPurges(c: Config, kept: int, now: nat)
    requires kept <= 0 || (c.retD > 0 && kept <= PurgeFrom(now, c.retD))
    ensures Kept(kept, now, c.retD) <= 0 || (c.retD > 0 && Kept(kept, now, c.retD) <= PurgeFrom(now, c.retD))
    ensures c.retD > 0 ==> PurgeFrom(now, c.retD) <= Kept(kept, now, c.retD)
  {}

  lemma MedOnce(c: Config, w: World, now: nat)
    requires OnceSound(c) && Once(c, w) && w.h.clock == now <= w.s.nextLow
    ensures Once(c, MedStep(c, w, now))
    ensures MedStep(c, w, now).h.clock == now <= MedStep(c, w, now).s.nextMed
  {
    if w.s.nextMed < now {
      MedOnceAm(c, w, now);
      MedOnceAh(c, w, now);
      MedOther(c, w, now);
      MedStepIs(c, w, now);
      hide OnceAm, OnceAh, OnceAd, MedStep;
    }
  }

  lemma MedOther(c: Config, w: World, now: nat)
    requires OnceAd(c, w)
    ensures OnceAd(c, MedStep(c, w, now))
  {
    hide NewAh, Purge, PurgeFrom, Kept, Aligned, Logged, CutAh;
  }

  lemma MedPurge(c: Config, w: World, now: nat)
    requires OnceSound(c) && OnceAm(c, w) && now <= w.s.nextLow
    ensures Aligned(Day, w.h.keptAm) ==> Aligned(Day, Kept(w.h.keptAm, now, c.retAm))
    ensures c.retAm > 0 ==> PurgeFrom(now, c.retAm) <= Kept(w.h.keptAm, now, c.retAm) <= w.h.keptD
    ensures c.retAm == 0 ==> Kept(w.h.keptAm, now, c.retAm) == w.h.keptAm
    ensures w.h.keptAm <= Kept(w.h.keptAm, now, c.retAm)
  {
    hide Logged, Index, Start, PurgeFrom, Aligned;
    if Aligned(Day, w.h.keptAm) { AlignedKept(w.h.keptAm, now, c.retAm); }
    IndexMonotone(Day, now, w.s.nextLow);
    if c.retAm > 0 { PurgeTimes(now, w.s.nextLow, c.retAm, c.retD + 1); }
  }

  lemma MedOnceAm(c: Config, w: World, now: nat)
    requires OnceSound(c) && OnceAm(c, w) && now <= w.s.nextLow && w.s.nextMed < now
    ensures OnceAm(c, MedStep(c, w, now))
  {
    hide NewAh, Purge, PurgeFrom, Kept, Aligned, Logged, From, CutAh;
    LogPurged(w.s.am, w.h.minutes, w.h.amLog, w.h.keptAm, now, c.retAm);
    MedPurge(c, w, now);
  }

  lemma MedOnceAh(c: Config, w: World, now: nat)
    requires OnceSound(c) && OnceAm(c, w) && OnceAh(c, w) && now <= w.s.nextLow && w.s.nextMed < now
    ensures OnceAh(c, MedStep(c, w, now))
  {
    hide NewAh, Purge, PurgeFrom, Kept, Aligned, Logged, From, CutAh, Index, MedStep, OnceAm;
    MedStepIs(c, w, now);
    NewHours(c, w, now);
    LogAh(c, w, now);
    MedPurge(c, w, now);
    HourLater(now);
    PurgeTimes(now + 3600000, now, c.retAm + 1, c.retAm);
  }

  lemma LogAh(c: Config, w: World, now: nat)
    requires Logged(w.s.ah, w.h.hours, w.h.ahLog, w.h.keptAh)
    requires NewAh(c, w.s, now).Keys !! w.s.ah.Keys && From(NewAh(c, w.s, now), w.h.keptAh)
    ensures Logged(w.s.ah + NewAh(c, w.s, now), w.h.hours + NewAh(c, w.s, now),
                   w.h.ahLog + multiset(NewAh(c, w.s, now).Keys), w.h.keptAh)
  {
    hide NewAh, Logged;
    LogGrows(w.s.ah, w.h.hours, w.h.ahLog, w.h.keptAh, NewAh(c, w.s, now));
  }

  lemma HighOnce(c: Config, w: World, now: nat)
    requires OnceSound(c) && Once(c, w) && w.h.clock == now <= w.s.nextMed
    ensures Once(c, HighStep(c, w, now))
  {
    if w.s.nextHigh < now {
      HighOther(c, w, now);
      HighOnceAh(c, w, now);
      HighOnceAd(c, w, now);
      hide OnceAm, OnceAh, OnceAd, HighStep;
    }
  }

  lemma HighOther(c: Config, w: World, now: nat)
    requires OnceAm(c, w)
    ensures OnceAm(c, HighStep(c, w, now))
  {
    hide NewAd, Purge, PurgeFrom, Kept, Aligned, Logged, CutAd, From, Stamp;
  }

  lemma HighPurge(c: Config, w: World, now: nat)
    requires OnceSound(c) && OnceAh(c, w) && OnceAd(c, w) && now <= w.s.nextMed
    ensures Aligned(Day, Kept(w.h.keptAh, now, c.retAh))
    ensures c.retAh > 0 ==> Kept(w.h.keptAh, now, c.retAh) <= w.h.keptAm
    ensures c.retAh == 0 ==> Kept(w.h.keptAh, now, c.retAh) == w.h.keptAh
    ensures c.retAd > 0 ==> Kept(w.h.keptAd, now, c.retAd) <= Kept(w.h.keptAh, now, c.retAh)
    ensures c.retAd == 0 ==> Kept(w.h.keptAd, now, c.retAd) == w.h.keptAd
  {
    hide Logged, Index, Start, PurgeFrom, Aligned;
    AlignedKept(w.h.keptAh, now, c.retAh);
    IndexMonotone(Day, now, w.s.nextMed);
    if c.retAh > 0 { PurgeTimes(now, w.s.nextMed, c.retAh, c.retAm + 1); }
    if c.retAd > 0 { PurgeTimes(now, now, c.retAd, c.retAh); }
  }

  lemma HighOnceAh(c: Config, w: World, now: nat)
    requires OnceSound(c) && OnceAh(c, w) && OnceAd(c, w) && now <= w.s.nextMed && w.s.nextHigh < now
    ensures OnceAh(c, HighStep(c, w, now))
  {
    LogPurged(w.s.ah, w.h.hours, w.h.ahLog, w.h.keptAh, now, c.retAh);
    HighPurge(c, w, now);
    hide NewAd, Purge, PurgeFrom, Kept, Aligned, Logged, CutAd, Stamp, OnceAd;
  }

  lemma HighOnceAd(c: Config, w: World, now: nat)
    requires OnceSound(c) && OnceAh(c, w) && OnceAd(c, w) && now <= w.s.nextMed && w.s.nextHigh < now
    ensures OnceAd(c, HighStep(c, w, now))
  {
    hide NewAd, Purge, PurgeFrom, Kept, Aligned, Logged, From, CutAd, Stamp, OnceAh;
    var rows := NewAd(c, w.s, now);
    NewDays(c, w, now);
    LogAd(c, w, now);
    LogPurged(w.s.ad + rows, w.h.days + rows, w.h.adLog + multiset(rows.Keys), w.h.keptAd, now, c.retAd);
    HighPurge(c, w, now);
  }

  lemma LogAd(c: Config, w: World, now: nat)
    requires Logged(w.s.ad, w.h.days, w.h.adLog, w.h.keptAd)
    requires NewAd(c, w.s, now).Keys !! w.s.ad.Keys && From(NewAd(c, w.s, now), w.h.keptAd)
    ensures Logged(w.s.ad + NewAd(c, w.s, now), w.h.days + NewAd(c, w.s, now),
                   w.h.adLog + multiset(NewAd(c, w.s, now).Keys), w.h.keptAd)
  {
    hide NewAd, Logged;
    LogGrows(w.s.ad, w.h.days, w.h.adLog, w.h.keptAd, NewAd(c, w.s, now));
  }

  lemma ClockOnce(c: Config, w: World, now: nat)
    requires Once(c, w) && w.h.clock <= now
    ensures Once(c, ClockAt(w, now)) && ClockAt(w, now).h.clock == now
  {
    hide Logged, From, Aligned, Index, PurgeFrom;
    PurgeLater(c.retD, w.h.clock, now);
  }

  lemma TickOnce(c: Config, w: World, now: nat)
    requires OnceSound(c) && Once(c, w) && w.h.clock <= now
    ensures Once(c, TickStep(c, w, now))
  {
    hide Once, LowStep, MedStep, HighStep, OnceSound;
    ClockOnce(c, w, now);
    var w0 := ClockAt(w, now);
    LowOnce(c, w0, now);
    MedOnce(c, LowStep(c, w0, now), now);
    HighOnce(c, MedStep(c, LowStep(c, w0, now), now), now);
  }

  lemma ArriveOnce(c: Config, w: World, now: nat, k: Key, v: real)
    requires OnceSound(c) && Once(c, w) && w.h.clock <= now && now - k.ts <= c.delayAm * 60000
    ensures Once(c, ArriveStep(w, now, k, v))
  {
    hide Logged, Aligned, Index, PurgeFrom;
    PurgeLater(c.retD, w.h.clock, now);
    if c.retAm > 0 && w.h.keptD > 0 { LateInTime(c, now, k); }
  }

  /** A sample at most a day late is not behind the raw table's purge. */
  lemma LateInTime(c: Config, now: nat, k: Key)
    requires c.retD > 0 && c.delayAm <= 1440 && now - k.ts <= c.delayAm * 60000
    ensures PurgeFrom(now, c.retD) <= k.ts
  {}

  lemma RestartOnce(c: Config, w: World, now: nat)
    requires Once(c, w) && w.h.clock <= now
    ensures Once(c, RestartStep(w, now))
  {
    hide Logged, From, Aligned, Index, PurgeFrom;
    PurgeLater(c.retD, w.h.clock, now);
    PurgeLater(c.retD + 1, 0, w.s.nextLow);
    PurgeLater(c.retAm + 1, 0, w.s.nextMed);
  }

  lemma InitialOnce(c: Config, d: map<Key, real>, now: nat)
    requires OnceSound(c)
    ensures Once(c, InitialWorld(c, d, now))
  {
    hide Created, Index;
    CreatedTimers(c, d, now);
    InitialTimes(c);
  }

  lemma InitialTimes(c: Config)
    ensures PurgeFrom(0, c.retD + 1) <= 0 && PurgeFrom(0, c.retAm + 1) <= 0
  {}

  lemma {:induction false} RunOnce(c: Config, w: World, steps: seq<Step>)
    requires OnceSound(c) && Once(c, w) && Possible(c, w, steps)
    ensures Once(c, Run(c, w, steps))
    decreases |steps|
  {
    if steps != [] {
      hide Once, OnceSound, TickStep, ArriveStep;
      match steps[0] {
        case Arrive(now, k, v) => ArriveOnce(c, w, now, k, v);
        case TickAt(now) => TickOnce(c, w, now);
        case Restart(now) => RestartOnce(c, w, now);
      }
      RunOnce(c, Next(c, w, steps[0]), steps[1..]);
    }
  }

  /** In every run from freshly created tables, no (series, bucket) is ever inserted twice into am$, ah$
      or ad$, although purging every row of an idle series resets its watermark. The closing delays of
      the hour and day tiers do not matter. */
  lemma AtMostOnce(c: Config, d: map<Key, real>, start: nat, steps: seq<Step>, b: Key)
    requires OnceSound(c) && Possible(c, InitialWorld(c, d, start), steps)
    ensures var h := End(c, d, start, steps).h; h.amLog[b] <= 1 && h.ahLog[b] <= 1 && h.adLog[b] <= 1
  {
    hide Run, InitialWorld, OnceSound, Possible;
    InitialOnce(c, d, start);
    RunOnce(c, InitialWorld(c, d, start), steps);
  }
}
