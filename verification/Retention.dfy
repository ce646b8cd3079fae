/** What a tick inserts and deletes, in days, hours, minutes and milliseconds, and how long rows stay. */
module Retention {
  import opened Aggregates
  import opened Rollup
  import opened StatAggregator
  import opened HistoryTheorems

  // ---- One tick ----

  /** The rows of `before` from day `now`/86400000 - `ret` on are left, or all of them if `ret` is 0. */
  ghost predicate Leaves<V(!new)>(before: map<Key, V>, after: map<Key, V>, now: int, ret: nat) {
    && (ret == 0 ==> after == before)
    && (ret > 0 ==> forall k :: k in after <==> k in before && (now / 86400000 - ret) * 86400000 <= k.ts)
    && forall k | k in after :: k in before && after[k] == before[k]
  }

  lemma PurgeLeaves<V(!new)>(tab: map<Key, V>, now: int, ret: nat)
    ensures Leaves(tab, Purge(tab, now, ret), now, ret)
  {}

  lemma LowDoes(c: Config, s: Store, now: nat)
    ensures var s' := Low(c, s, now);
            && s'.ah == s.ah && s'.ad == s.ad && s'.nextMed == s.nextMed && s'.nextHigh == s.nextHigh
            && if s.nextLow < now then
                 && Leaves(s.d, s'.d, now, c.retD) && s'.am == s.am + NewAm(c, s, now)
                 && s'.nextLow == now + c.delayAm * 60000
               else s' == s
  {
    hide NewAm, Purge, Leaves;
    PurgeLeaves(s.d, now, c.retD);
  }

  lemma MedDoes(c: Config, s: Store, now: nat)
    ensures var s' := Med(c, s, now);
            && s'.d == s.d && s'.ad == s.ad && s'.nextLow == s.nextLow && s'.nextHigh == s.nextHigh
            && if s.nextMed < now then
                 && Leaves(s.am, s'.am, now, c.retAm) && s'.ah == s.ah + NewAh(c, s, now)
                 && s'.nextMed == now + 3600000
               else s' == s
  {
    hide NewAh, Purge, Leaves;
    PurgeLeaves(s.am, now, c.retAm);
  }

  lemma HighDoes(c: Config, s: Store, now: nat)
    ensures var s' := High(c, s, now);
            && s'.d == s.d && s'.am == s.am && s'.nextLow == s.nextLow && s'.nextMed == s.nextMed
            && if s.nextHigh < now then
                 && Leaves(s.ah, s'.ah, now, c.retAh) && Leaves(s.ad + NewAd(c, s, now), s'.ad, now, c.retAd)
                 && s'.nextHigh == now + 43200000
               else s' == s
  {
    hide NewAd, Purge, Leaves;
    PurgeLeaves(s.ah, now, c.retAh);
    PurgeLeaves(s.ad + NewAd(c, s, now), now, c.retAd);
  }

  /** Each table after a tick: what its timer inserted into it, less what the timer of the tier above
      deleted; a timer that is not due leaves its tables alone. */
  lemma TickLeaves(c: Config, s: Store, now: nat)
    ensures var s' := Tick(c, s, now);
            var (low, med) := (Low(c, s, now), Med(c, Low(c, s, now), now));
            && (if s.nextLow < now then Leaves(s.d, s'.d, now, c.retD) else s'.d == s.d)
            && low.am == (if s.nextLow < now then s.am + NewAm(c, s, now) else s.am)
            && (if s.nextMed < now then Leaves(low.am, s'.am, now, c.retAm) else s'.am == low.am)
            && med.ah == (if s.nextMed < now then s.ah + NewAh(c, low, now) else s.ah)
            && (if s.nextHigh < now then Leaves(med.ah, s'.ah, now, c.retAh) else s'.ah == med.ah)
            && (if s.nextHigh < now then Leaves(s.ad + NewAd(c, med, now), s'.ad, now, c.retAd) else s'.ad == s.ad)
            && s'.nextLow == (if s.nextLow < now then now + c.delayAm * 60000 else s.nextLow)
            && s'.nextMed == (if s.nextMed < now then now + 3600000 else s.nextMed)
            && s'.nextHigh == (if s.nextHigh < now then now + 43200000 else s.nextHigh)
  {
    hide NewAm, NewAh, NewAd, Low, Med, High, Leaves;
    LowDoes(c, s, now);
    MedDoes(c, Low(c, s, now), now);
    HighDoes(c, Med(c, Low(c, s, now), now), now);
  }

  /** A row is inserted for a bucket that holds a source row, lies before the cutoff and above the
      watermark, of a series the watermark query knows. */
  lemma InsertedIff(src: Table, dst: Table, seeds: Table, t: Tier, cut: int, b: Key)
    ensures b in Insertion(src, dst, seeds, t, cut) <==>
            && (exists k :: k in src && k.series == b.series && Start(t, Index(t, k.ts)) == b.ts)
            && Index(t, b.ts) < cut && 0 < b.ts && (forall k | k in dst && k.series == b.series :: k.ts < b.ts)
            && ((exists k :: k in dst && k.series == b.series) || (exists k :: k in seeds && k.series == b.series))
  {
    BucketIff(src, t, b);
    hide BucketsOf, Start, Index;
  }

  lemma BucketIff(src: Table, t: Tier, b: Key)
    ensures b in BucketsOf(src, t) <==> exists k :: k in src && k.series == b.series && Start(t, Index(t, k.ts)) == b.ts
  {
    hide Start, Index;
    if k :| k in src && k.series == b.series && Start(t, Index(t, k.ts)) == b.ts {
      assert BucketOf(t, k) == b;
    }
  }

  lemma NewMinuteIff(c: Config, s: Store, now: nat, b: Key)
    ensures b in NewAm(c, s, now) <==>
            && (exists k :: k in s.d && k.series == b.series && k.ts / 60000 * 60000 == b.ts)
            && b.ts / 60000 < now / 60000 - c.delayAm && 0 < b.ts
            && (forall k | k in s.am && k.series == b.series :: k.ts < b.ts)
  {
    InsertedIff(Lift(s.d), s.am, Lift(s.d), Minute, CutAm(c, now), b);
    hide Insertion;
    if k :| k in s.d && k.series == b.series && k.ts / 60000 * 60000 == b.ts {
      assert k in Lift(s.d) && Start(Minute, Index(Minute, k.ts)) == b.ts;
    }
  }

  lemma NewHourIff(c: Config, s: Store, now: nat, b: Key)
    ensures b in NewAh(c, s, now) <==>
            && (exists k :: k in s.am && k.series == b.series && k.ts / 3600000 * 3600000 == b.ts)
            && b.ts / 3600000 < now / 3600000 - c.delayAh && 0 < b.ts
            && (forall k | k in s.ah && k.series == b.series :: k.ts < b.ts)
  {
    InsertedIff(s.am, s.ah, s.am, Hour, CutAh(c, now), b);
    hide Insertion;
    if k :| k in s.am && k.series == b.series && k.ts / 3600000 * 3600000 == b.ts {
      assert Start(Hour, Index(Hour, k.ts)) == b.ts;
    }
  }

  /** The day cutoff in the hours the query counts, or in days. */
  lemma NewDayIff(c: Config, s: Store, now: nat, b: Key)
    requires c.adUnit != Minute
    ensures b in NewAd(c, s, now) <==>
            && (exists k :: k in s.ah && k.series == b.series && k.ts / 86400000 * 86400000 == b.ts)
            && b.ts / 86400000 < (if c.adUnit == Hour then now / 3600000 else now / 86400000) - c.delayAd && 0 < b.ts
            && (forall k | k in s.ad && k.series == b.series :: k.ts < b.ts)
            && ((exists k :: k in s.ad && k.series == b.series) || (exists k :: k in s.am && k.series == b.series))
  {
    InsertedIff(s.ah, s.ad, s.am, Day, CutAd(c, now), b);
    hide Insertion;
    if k :| k in s.ah && k.series == b.series && k.ts / 86400000 * 86400000 == b.ts {
      assert Start(Day, Index(Day, k.ts)) == b.ts;
    }
  }

  /** A restart keeps the tables and sets the timers to 0, so that each is due at the next tick. */
  lemma RestartRolls(c: Config, w: World, now: nat, later: nat)
    requires 0 < later
    ensures var s := RestartStep(w, now).s;
            && s.d == w.s.d && s.am == w.s.am && s.ah == w.s.ah && s.ad == w.s.ad
            && var s' := Tick(c, s, later);
            s'.nextLow == later + c.delayAm * 60000 && s'.nextMed == later + 3600000 && s'.nextHigh == later + 43200000
  {
    hide Tick;
    TickLeaves(c, RestartStep(w, now).s, later);
  }

  /** The tables as first created: the buckets before the cutoff that hold a row of the table below. */
  lemma CreatedIff(c: Config, d: map<Key, real>, now: nat, b: Key)
    requires c.adUnit != Minute
    ensures var s := Created(c, d, now);
            && s.d == d && s.nextLow == 0 && s.nextMed == 0 && s.nextHigh == 0
            && (b in s.am <==>
                && b.ts / 60000 < now / 60000 - c.delayAm
                && exists k | k in d :: k.series == b.series && k.ts / 60000 * 60000 == b.ts)
            && (b in s.ah <==>
                && b.ts / 3600000 < now / 3600000 - c.delayAh
                && exists k | k in s.am :: k.series == b.series && k.ts / 3600000 * 3600000 == b.ts)
            && (b in s.ad <==>
                && b.ts / 86400000 < (if c.adUnit == Hour then now / 3600000 else now / 86400000) - c.delayAd
                && exists k | k in s.ah :: k.series == b.series && k.ts / 86400000 * 86400000 == b.ts)
  {
    var s := Created(c, d, now);
    MadeIff(Lift(d), Minute, CutAm(c, now), b);
    MadeIff(s.am, Hour, CutAh(c, now), b);
    MadeIff(s.ah, Day, CutAd(c, now), b);
    hide Create;
    assert forall k :: k in Lift(d) <==> k in d;
  }

  lemma MadeIff(src: Table, t: Tier, cut: int, b: Key)
    ensures b in Create(src, t, cut) <==>
            Index(t, b.ts) < cut && exists k | k in src :: k.series == b.series && Start(t, Index(t, k.ts)) == b.ts
  {
    BucketIff(src, t, b);
    hide BucketsOf, Start, Index;
  }

  // ---- Runs ----

  /** `kept` is at least the deletion of a timer that last fired at `last`, and no more than one at the
      clock's time. */
  predicate Due(kept: int, last: int, clock: int, ret: nat) {
    if ret == 0 then kept == 0
    else
      && (last / 86400000 - ret) * 86400000 <= kept
      && (kept <= 0 || kept <= (clock / 86400000 - ret) * 86400000)
  }

  predicate AllDue(c: Config, w: World) {
    && Due(w.h.keptD, w.s.nextLow - c.delayAm * 60000, w.h.clock, c.retD)
    && Due(w.h.keptAm, w.s.nextMed - 3600000, w.h.clock, c.retAm)
    && Due(w.h.keptAh, w.s.nextHigh - 43200000, w.h.clock, c.retAh)
    && Due(w.h.keptAd, w.s.nextHigh - 43200000, w.h.clock, c.retAd)
  }

  lemma DueFires(kept: int, last: int, clock: int, ret: nat)
    requires Due(kept, last, clock, ret)
    ensures Due(Kept(kept, clock, ret), clock, clock, ret)
  {}

  lemma DueLater(kept: int, last: int, clock: int, ret: nat, last': int, clock': int)
    requires Due(kept, last, clock, ret) && last' <= last && clock <= clock'
    ensures Due(kept, last', clock', ret)
  {
    Floors(last', last);
    Floors(clock, clock');
  }

  lemma Floors(a: int, b: int)
    requires a <= b
    ensures a / 86400000 <= b / 86400000
  {}

  lemma LowStepKept(c: Config, w: World, now: nat)
    ensures var (w', fired) := (LowStep(c, w, now), w.s.nextLow < now);
            && w'.h.clock == w.h.clock && w'.s.nextMed == w.s.nextMed && w'.s.nextHigh == w.s.nextHigh
            && w'.h.keptAm == w.h.keptAm && w'.h.keptAh == w.h.keptAh && w'.h.keptAd == w.h.keptAd
            && w'.h.keptD == (if fired then Kept(w.h.keptD, now, c.retD) else w.h.keptD)
            && w'.s.nextLow == (if fired then now + c.delayAm * 60000 else w.s.nextLow)
  {
    hide NewAm, Purge, Kept, CutAm;
  }

  lemma LowDue(c: Config, w: World)
    requires AllDue(c, w)
    ensures var w' := LowStep(c, w, w.h.clock); AllDue(c, w') && w'.h.clock == w.h.clock <= w'.s.nextLow
  {
    hide LowStep, Kept, Due;
    LowStepKept(c, w, w.h.clock);
    DueFires(w.h.keptD, w.s.nextLow - c.delayAm * 60000, w.h.clock, c.retD);
  }

  lemma MedStepKept(c: Config, w: World, now: nat)
    ensures var (w', fired) := (MedStep(c, w, now), w.s.nextMed < now);
            && w'.h.clock == w.h.clock && w'.s.nextLow == w.s.nextLow && w'.s.nextHigh == w.s.nextHigh
            && w'.h.keptD == w.h.keptD && w'.h.keptAh == w.h.keptAh && w'.h.keptAd == w.h.keptAd
            && w'.h.keptAm == (if fired then Kept(w.h.keptAm, now, c.retAm) else w.h.keptAm)
            && w'.s.nextMed == (if fired then now + 3600000 else w.s.nextMed)
  {
    hide NewAh, Purge, Kept, CutAh;
  }

  lemma MedDue(c: Config, w: World)
    requires AllDue(c, w)
    ensures var w' := MedStep(c, w, w.h.clock);
            AllDue(c, w') && w'.h.clock == w.h.clock <= w'.s.nextMed && w'.s.nextLow == w.s.nextLow
  {
    hide MedStep, Kept, Due;
    MedStepKept(c, w, w.h.clock);
    DueFires(w.h.keptAm, w.s.nextMed - 3600000, w.h.clock, c.retAm);
  }

  lemma HighStepKept(c: Config, w: World, now: nat)
    ensures var (w', fired) := (HighStep(c, w, now), w.s.nextHigh < now);
            && w'.h.clock == w.h.clock && w'.s.nextLow == w.s.nextLow && w'.s.nextMed == w.s.nextMed
            && w'.h.keptD == w.h.keptD && w'.h.keptAm == w.h.keptAm
            && w'.h.keptAh == (if fired then Kept(w.h.keptAh, now, c.retAh) else w.h.keptAh)
            && w'.h.keptAd == (if fired then Kept(w.h.keptAd, now, c.retAd) else w.h.keptAd)
            && w'.s.nextHigh == (if fired then now + 43200000 else w.s.nextHigh)
  {
    hide NewAd, Purge, Kept, Stamp, CutAd;
  }

  lemma HighDue(c: Config, w: World)
    requires AllDue(c, w)
    ensures var w' := HighStep(c, w, w.h.clock);
            && AllDue(c, w') && w'.h.clock == w.h.clock <= w'.s.nextHigh
            && w'.s.nextLow == w.s.nextLow && w'.s.nextMed == w.s.nextMed
  {
    hide HighStep, Kept, Due;
    HighStepKept(c, w, w.h.clock);
    DueFires(w.h.keptAh, w.s.nextHigh - 43200000, w.h.clock, c.retAh);
    DueFires(w.h.keptAd, w.s.nextHigh - 43200000, w.h.clock, c.retAd);
  }

  lemma TickDue(c: Config, w: World, now: nat)
    requires AllDue(c, w) && w.h.clock <= now
    ensures AllDue(c, TickStep(c, w, now))
    ensures var s := TickStep(c, w, now).s; now <= s.nextLow && now <= s.nextMed && now <= s.nextHigh
  {
    hide LowStep, MedStep, HighStep, AllDue;
    var w0 := ClockAt(w, now);
    ClockDue(c, w, now);
    LowDue(c, w0);
    MedDue(c, LowStep(c, w0, now));
    HighDue(c, MedStep(c, LowStep(c, w0, now), now));
  }

  lemma ClockDue(c: Config, w: World, now: nat)
    requires AllDue(c, w) && w.h.clock <= now
    ensures AllDue(c, ClockAt(w, now)) && ClockAt(w, now).h.clock == now
  {
    hide Due;
    DueLater(w.h.keptD, w.s.nextLow - c.delayAm * 60000, w.h.clock, c.retD, w.s.nextLow - c.delayAm * 60000, now);
    DueLater(w.h.keptAm, w.s.nextMed - 3600000, w.h.clock, c.retAm, w.s.nextMed - 3600000, now);
    DueLater(w.h.keptAh, w.s.nextHigh - 43200000, w.h.clock, c.retAh, w.s.nextHigh - 43200000, now);
    DueLater(w.h.keptAd, w.s.nextHigh - 43200000, w.h.clock, c.retAd, w.s.nextHigh - 43200000, now);
  }

  lemma NextDue(c: Config, w: World, st: Step)
    requires AllDue(c, w) && w.h.clock <= st.now
    ensures AllDue(c, Next(c, w, st))
  {
    if st.TickAt? {
      TickDue(c, w, st.now);
    } else {
      hide Due;
      var s' := Next(c, w, st).s;
      DueLater(w.h.keptD, w.s.nextLow - c.delayAm * 60000, w.h.clock, c.retD, s'.nextLow - c.delayAm * 60000, st.now);
      DueLater(w.h.keptAm, w.s.nextMed - 3600000, w.h.clock, c.retAm, s'.nextMed - 3600000, st.now);
      DueLater(w.h.keptAh, w.s.nextHigh - 43200000, w.h.clock, c.retAh, s'.nextHigh - 43200000, st.now);
      DueLater(w.h.keptAd, w.s.nextHigh - 43200000, w.h.clock, c.retAd, s'.nextHigh - 43200000, st.now);
    }
  }

  lemma {:induction false} RunDue(c: Config, w: World, steps: seq<Step>)
    requires AllDue(c, w) && Possible(c, w, steps)
    ensures AllDue(c, Run(c, w, steps))
    decreases |steps|
  {
    if steps != [] {
      hide AllDue, Next;
      NextDue(c, w, steps[0]);
      RunDue(c, Next(c, w, steps[0]), steps[1..]);
    }
  }

  lemma EndDue(c: Config, d: map<Key, real>, start: nat, steps: seq<Step>)
    requires GoodRun(c, d, start, steps)
    ensures AllDue(c, End(c, d, start, steps)) && Inv(c, End(c, d, start, steps))
    ensures End(c, d, start, steps).h.ever == Ever(d, steps)
  {
    hide Inv, Run, Possible, Created;
    CreatedTimers(c, d, start);
    EndInv(c, d, start, steps);
    RunDue(c, InitialWorld(c, d, start), steps);
  }

  /** What the invariant says of the four tables: a suffix of what was stored or inserted. */
  lemma Suffixes(c: Config, w: World)
    requires Inv(c, w)
    ensures forall k :: k in w.s.d <==> k in w.h.ever && w.h.keptD <= k.ts
    ensures forall k :: k in w.s.am <==> k in w.h.minutes && w.h.keptAm <= k.ts
    ensures forall k :: k in w.s.ah <==> k in w.h.hours && w.h.keptAh <= k.ts
    ensures forall k :: k in w.s.ad <==> k in w.h.days && w.h.keptAd <= k.ts
  {
    hide View, Lift, Index, DayRows;
  }

  /** In every run: what is gone from a table is older than its retention, counted in whole days from the
      clock, and where the retention is 0 nothing is ever gone. */
  lemma NothingEarly(c: Config, d: map<Key, real>, start: nat, steps: seq<Step>, k: Key)
    requires GoodRun(c, d, start, steps)
    ensures var (s, h) := (End(c, d, start, steps).s, End(c, d, start, steps).h);
            && (k in Ever(d, steps) && k !in s.d ==> c.retD > 0 && k.ts < (h.clock / 86400000 - c.retD) * 86400000)
            && (k in h.minutes && k !in s.am ==> c.retAm > 0 && k.ts < (h.clock / 86400000 - c.retAm) * 86400000)
            && (k in h.hours && k !in s.ah ==> c.retAh > 0 && k.ts < (h.clock / 86400000 - c.retAh) * 86400000)
            && (k in h.days && k !in s.ad ==> c.retAd > 0 && k.ts < (h.clock / 86400000 - c.retAd) * 86400000)
  {
    hide Inv, Run, InitialWorld, GoodRun;
    EndDue(c, d, start, steps);
    Suffixes(c, End(c, d, start, steps));
  }

  /** After a tick at `now`, no row is older than its retention plus the slack of the timer that deletes
      it: delay_am minutes, one hour, or twelve hours. */
  lemma NothingOverdue(c: Config, d: map<Key, real>, start: nat, steps: seq<Step>, now: nat, k: Key)
    requires GoodRun(c, d, start, steps + [TickAt(now)])
    ensures var s := End(c, d, start, steps + [TickAt(now)]).s;
            && (c.retD > 0 && k in s.d ==> ((now - c.delayAm * 60000) / 86400000 - c.retD) * 86400000 <= k.ts)
            && (c.retAm > 0 && k in s.am ==> ((now - 3600000) / 86400000 - c.retAm) * 86400000 <= k.ts)
            && (c.retAh > 0 && k in s.ah ==> ((now - 43200000) / 86400000 - c.retAh) * 86400000 <= k.ts)
            && (c.retAd > 0 && k in s.ad ==> ((now - 43200000) / 86400000 - c.retAd) * 86400000 <= k.ts)
  {
    hide Inv, Run, InitialWorld, Sound, Positive, TickStep;
    var all := steps + [TickAt(now)];
    var w0 := InitialWorld(c, d, start);
    EndDue(c, d, start, all);
    RunSplit(c, w0, steps, [TickAt(now)]);
    LastStep(c, Run(c, w0, steps), TickAt(now));
    EndDue(c, d, start, steps);
    TickDue(c, End(c, d, start, steps), now);
    Suffixes(c, End(c, d, start, all));
    Overdue(c, End(c, d, start, all), now);
  }

  lemma Overdue(c: Config, w: World, now: nat)
    requires AllDue(c, w) && now <= w.s.nextLow && now <= w.s.nextMed && now <= w.s.nextHigh
    ensures c.retD > 0 ==> ((now - c.delayAm * 60000) / 86400000 - c.retD) * 86400000 <= w.h.keptD
    ensures c.retAm > 0 ==> ((now - 3600000) / 86400000 - c.retAm) * 86400000 <= w.h.keptAm
    ensures c.retAh > 0 ==> ((now - 43200000) / 86400000 - c.retAh) * 86400000 <= w.h.keptAh
    ensures c.retAd > 0 ==> ((now - 43200000) / 86400000 - c.retAd) * 86400000 <= w.h.keptAd
  {
    Floors(now - c.delayAm * 60000, w.s.nextLow - c.delayAm * 60000);
    Floors(now - 3600000, w.s.nextMed - 3600000);
    Floors(now - 43200000, w.s.nextHigh - 43200000);
  }
}
