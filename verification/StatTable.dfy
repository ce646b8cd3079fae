/** The rollup thread's objects: one table set per data type, changed in place by every tick. */
module StatTable {
  import opened Aggregates
  import opened Rollup
  import opened StatAggregator

  /** The entry of `tables` for one data type, together with its d$, am$, ah$ and ad$ tables. */
  class AggregData {
    const c: Config
    var d: map<Key, real>
    var am: Table
    var ah: Table
    var ad: Table
    var nextLow: nat
    var nextMed: nat
    var nextHigh: nat
    ghost var h: History

    ghost function Abs(): World
      reads this
    {
      World(Store(d, am, ah, ad, nextLow, nextMed, nextHigh), h)
    }

    /** Every table agrees with the history of all samples (see StatAggregator.Inv). */
    ghost predicate Valid()
      reads this
    {
      Sound(c) && Inv(c, Abs())
    }

    /** Creates the aggregate tables of a data type seen for the first time. */
    constructor (c: Config, d: map<Key, real>, now: nat)
      requires Sound(c) && Positive(d)
      ensures this.c == c && Abs() == InitialWorld(c, d, now) && Valid()
    {
      InitialInv(c, d, now);
      var am' := Create(Lift(d), Minute, CutAm(c, now));
      var ah' := Create(am', Hour, CutAh(c, now));
      this.c := c;
      this.d := d;
      am, ah, ad := am', ah', Create(ah', Day, CutAd(c, now));
      nextLow, nextMed, nextHigh := 0, 0, 0;
      h := InitialWorld(c, d, now).h;
    }

    /** The entry a restarted backend builds over tables that exist already; `w` is where the backend
        before it left them. */
    constructor Reopen(c: Config, d: map<Key, real>, am: Table, ah: Table, ad: Table, now: nat, ghost w: World)
      requires Sound(c) && Inv(c, w) && w.h.clock <= now && w.s.d == d && w.s.am == am && w.s.ah == ah && w.s.ad == ad
      ensures this.c == c && Abs() == RestartStep(w, now) && Valid()
    {
      RestartKeeps(c, w, now);
      this.c, this.d, this.am, this.ah, this.ad := c, d, am, ah, ad;
      nextLow, nextMed, nextHigh := 0, 0, 0;
      h := RestartStep(w, now).h;
    }

    /** Stores one sample; a sample with the same key replaces the value. */
    method Arrive(now: nat, k: Key, v: real)
      requires Valid() && h.clock <= now && now - k.ts <= c.delayAm * 60000
      modifies this
      ensures Valid() && Abs() == ArriveStep(old(Abs()), now, k, v)
    {
      ArriveKeeps(c, Abs(), now, k, v);
      h := ArriveStep(Abs(), now, k, v).h;
      d := d[k := v];
    }

    method RollMinutes(now: nat)
      modifies this
      ensures Abs() == LowStep(c, old(Abs()), now)
    {
      hide Insertion, Lift, PurgeFrom, Keep, Index, CutAm, CutAh, CutAd, Kept, Stamp;
      if nextLow < now {
        h := LowStep(c, Abs(), now).h;
        am := am + Insertion(Lift(d), am, Lift(d), Minute, CutAm(c, now));
        if c.retD > 0 {
          d := Keep(d, PurgeFrom(now, c.retD));
        }
        nextLow := now + c.delayAm * 60000;
      }
    }

    method RollHours(now: nat)
      modifies this
      ensures Abs() == MedStep(c, old(Abs()), now)
    {
      hide Insertion, Lift, PurgeFrom, Keep, Index, CutAm, CutAh, CutAd, Kept, Stamp;
      if nextMed < now {
        h := MedStep(c, Abs(), now).h;
        ah := ah + Insertion(am, ah, am, Hour, CutAh(c, now));
        if c.retAm > 0 {
          am := Keep(am, PurgeFrom(now, c.retAm));
        }
        nextMed := now + 3600000;
      }
    }

    method RollDays(now: nat)
      modifies this
      ensures Abs() == HighStep(c, old(Abs()), now)
    {
      hide Insertion, Lift, PurgeFrom, Keep, Index, CutAm, CutAh, CutAd, Kept, Stamp;
      if nextHigh < now {
        h := HighStep(c, Abs(), now).h;
        ad := ad + Insertion(ah, ad, am, Day, CutAd(c, now));
        if c.retAh > 0 {
          ah := Keep(ah, PurgeFrom(now, c.retAh));
        }
        if c.retAd > 0 {
          ad := Keep(ad, PurgeFrom(now, c.retAd));
        }
        nextHigh := now + 43200000;
      }
    }

    /** One pass of the thread over this data type. */
    method Tick(now: nat)
      requires Valid() && h.clock <= now
      modifies this
      ensures Valid() && Abs() == TickStep(c, old(Abs()), now)
    {
      TickKeeps(c, Abs(), now);
      h := ClockAt(Abs(), now).h;
      RollMinutes(now);
      RollHours(now);
      RollDays(now);
    }
  }

  /** All data types; one reading of the clock serves a whole pass. */
  class Aggregator {
    var tables: seq<AggregData>

    ghost predicate Valid()
      reads this, tables
    {
      && (forall i | 0 <= i < |tables| :: tables[i].Valid())
      && (forall i, j | 0 <= i < j < |tables| :: tables[i] != tables[j])
    }

    method Pass(now: nat)
      requires Valid() && forall i | 0 <= i < |tables| :: tables[i].h.clock <= now
      modifies tables
      ensures Valid() && tables == old(tables)
      ensures forall i | 0 <= i < |tables| :: tables[i].Abs() == TickStep(tables[i].c, old(tables[i].Abs()), now)
    {
      hide Inv, Sound, TickStep;
      var n := 0;
      while n < |tables|
        invariant 0 <= n <= |tables| && Valid()
        invariant forall i | 0 <= i < n :: tables[i].Abs() == TickStep(tables[i].c, old(tables[i].Abs()), now)
        invariant forall i | n <= i < |tables| :: tables[i].Abs() == old(tables[i].Abs())
      {
        tables[n].Tick(now);
        n := n + 1;
      }
    }
  }
}
