/** The rollup thread for one data type: four tables, three timers, day-based retention, and the
    invariant that ties every table to the history of all samples ever stored. */
module StatAggregator {
  import opened Aggregates
  import opened Rollup

  /** A row of c$data_configs. `adUnit` is the unit in which the day tier's cutoff is counted:
      the queries count it in hours, although they compare it with a day index. */
  datatype Config = Config(delayAm: nat, delayAh: nat, delayAd: nat,
                           retD: nat, retAm: nat, retAh: nat, retAd: nat, adUnit: Tier)

  function CutAm(c: Config, now: int): int { Index(Minute, now) - c.delayAm }
  function CutAh(c: Config, now: int): int { Index(Hour, now) - c.delayAh }
  function CutAd(c: Config, now: int): int { Index(c.adUnit, now) - c.delayAd }

  datatype Store = Store(d: map<Key, real>, am: Table, ah: Table, ad: Table,
                         nextLow: nat, nextMed: nat, nextHigh: nat)

  function PurgeFrom(now: int, ret: nat): int { Start(Day, Index(Day, now) - ret) }

  /** `delete ... where timestamp < ...`, skipped when the retention is 0. */
  function Purge<V>(tab: map<Key, V>, now: int, ret: nat): map<Key, V> {
    if ret > 0 then Keep(tab, PurgeFrom(now, ret)) else tab
  }

  function NewAm(c: Config, s: Store, now: int): Table {
    Insertion(Lift(s.d), s.am, Lift(s.d), Minute, CutAm(c, now))
  }

  function NewAh(c: Config, s: Store, now: int): Table {
    Insertion(s.am, s.ah, s.am, Hour, CutAh(c, now))
  }

  /** base_ad seeds its watermarks from am$, not from the table it reads. */
  function NewAd(c: Config, s: Store, now: int): Table {
    Insertion(s.ah, s.ad, s.am, Day, CutAd(c, now))
  }

  function Low(c: Config, s: Store, now: nat): Store {
    if s.nextLow < now then
      s.(am := s.am + NewAm(c, s, now), d := Purge(s.d, now, c.retD), nextLow := now + c.delayAm * 60000)
    else s
  }

  function Med(c: Config, s: Store, now: nat): Store {
    if s.nextMed < now then
      s.(ah := s.ah + NewAh(c, s, now), am := Purge(s.am, now, c.retAm), nextMed := now + 3600000)
    else s
  }

  function High(c: Config, s: Store, now: nat): Store {
    if s.nextHigh < now then
      s.(ad := Purge(s.ad + NewAd(c, s, now), now, c.retAd), ah := Purge(s.ah, now, c.retAh),
         nextHigh := now + 43200000)
    else s
  }

  function Tick(c: Config, s: Store, now: nat): Store {
    High(c, Med(c, Low(c, s, now), now), now)
  }

  /** The tables as `create table ... as select` first builds them. */
  function Created(c: Config, d: map<Key, real>, now: int): Store {
    var am := Create(Lift(d), Minute, CutAm(c, now));
    var ah := Create(am, Hour, CutAh(c, now));
    Store(d, am, ah, Create(ah, Day, CutAd(c, now)), 0, 0, 0)
  }

  // ---- Histories ----

  /** What happened so far: every sample ever stored (last value per key), every key and every row ever
      inserted into an aggregate table, the hour cutoff in force when a day row was inserted, and the
      last cutoff and the furthest purge of each table. */
  datatype History = History(ever: map<Key, real>, clock: nat, lastTick: nat,
                             closedAm: int, closedAh: int, closedAd: int,
                             keptD: int, keptAm: int, keptAh: int, keptAd: int,
                             amLog: multiset<Key>, ahLog: multiset<Key>, adLog: multiset<Key>,
                             minutes: Table, hours: Table, days: Table, hoursAt: map<Key, int>)

  datatype World = World(s: Store, h: History)

  function Kept(kept: int, now: int, ret: nat): int {
    if ret > 0 && kept < PurgeFrom(now, ret) then PurgeFrom(now, ret) else kept
  }

  function LowStep(c: Config, w: World, now: nat): World {
    if w.s.nextLow < now then
      World(Low(c, w.s, now),
            w.h.(closedAm := CutAm(c, now), keptD := Kept(w.h.keptD, now, c.retD),
                 amLog := w.h.amLog + multiset(NewAm(c, w.s, now).Keys), minutes := w.h.minutes + NewAm(c, w.s, now)))
    else w
  }

  function MedStep(c: Config, w: World, now: nat): World {
    if w.s.nextMed < now then
      World(Med(c, w.s, now),
            w.h.(closedAh := CutAh(c, now), keptAm := Kept(w.h.keptAm, now, c.retAm),
                 ahLog := w.h.ahLog + multiset(NewAh(c, w.s, now).Keys), hours := w.h.hours + NewAh(c, w.s, now)))
    else w
  }

  function HighStep(c: Config, w: World, now: nat): World {
    if w.s.nextHigh < now then
      var rows := NewAd(c, w.s, now);
      World(High(c, w.s, now),
            w.h.(closedAd := CutAd(c, now),
                 keptAh := Kept(w.h.keptAh, now, c.retAh), keptAd := Kept(w.h.keptAd, now, c.retAd),
                 adLog := w.h.adLog + multiset(rows.Keys), days := w.h.days + rows,
                 hoursAt := w.h.hoursAt + Stamp(rows, w.h.closedAh)))
    else w
  }

  function Stamp(rows: Table, hours: int): (r: map<Key, int>)
    ensures r.Keys == rows.Keys
  {
    map k | k in rows :: hours
  }

  function ClockAt(w: World, now: nat): World { w.(h := w.h.(clock := now, lastTick := now)) }

  function TickStep(c: Config, w: World, now: nat): World {
    HighStep(c, MedStep(c, LowStep(c, ClockAt(w, now), now), now), now)
  }

  /** `insert into d$... on duplicate key update` */
  function ArriveStep(w: World, now: nat, k: Key, v: real): World {
    World(w.s.(d := w.s.d[k := v]), w.h.(ever := w.h.ever[k := v], clock := now))
  }

  function InitialWorld(c: Config, d: map<Key, real>, now: nat): World {
    var s := Created(c, d, now);
    World(s, History(d, now, now, CutAm(c, now), CutAh(c, now), CutAd(c, now), 0, 0, 0, 0,
                     multiset(s.am.Keys), multiset(s.ah.Keys), multiset(s.ad.Keys),
                     s.am, s.ah, s.ad, Stamp(s.ad, CutAh(c, now))))
  }

  /** The backend starts again: the tables are still there, and the timers start at 0. */
  function RestartStep(w: World, now: nat): World {
    World(w.s.(nextLow := 0, nextMed := 0, nextHigh := 0), w.h.(clock := now))
  }

  datatype Step = Arrive(now: nat, key: Key, value: real) | TickAt(now: nat) | Restart(now: nat)

  function Next(c: Config, w: World, st: Step): World {
    match st
    case Arrive(now, k, v) => ArriveStep(w, now, k, v)
    case TickAt(now) => TickStep(c, w, now)
    case Restart(now) => RestartStep(w, now)
  }

  /** The clock never runs back, and a sample is at most `delay_am` minutes late. */
  predicate Enabled(c: Config, w: World, st: Step) {
    w.h.clock <= st.now && (st.Arrive? ==> st.now - st.key.ts <= c.delayAm * 60000)
  }

  function Run(c: Config, w: World, steps: seq<Step>): World
    decreases |steps|
  {
    if steps == [] then w else Run(c, Next(c, w, steps[0]), steps[1..])
  }

  predicate Possible(c: Config, w: World, steps: seq<Step>)
    decreases |steps|
  {
    steps == [] || (Enabled(c, w, steps[0]) && Possible(c, Next(c, w, steps[0]), steps[1..]))
  }

  /** The delays leave time for one tier to fill before the next one closes, and a table keeps its
      rows longer than the table it is filled from (0 keeps them for ever). */
  predicate Sound(c: Config) {
    && c.adUnit != Minute
    && 2 * c.delayAm <= 60 * c.delayAh
    && (c.retD > 0 ==> c.delayAm <= 1440 * c.retD)
    && (c.retAm > 0 ==> c.delayAm <= 1440 && 0 < c.retD < c.retAm && c.delayAh <= 24 * c.retAm)
    && (c.retAh > 0 ==> 0 < c.retAm < c.retAh)
    && (c.retAd > 0 ==> 0 < c.retAh <= c.retAd)
  }

  /** Every stored sample lies in a positive bucket of every tier. */
  predicate Positive(d: map<Key, real>) { forall k | k in d :: 0 < Index(Day, k.ts) }

  // ---- The invariant ----

  ghost predicate InvAm(c: Config, w: World) {
    var (s, h) := (w.s, w.h);
    && s.d == Keep(h.ever, h.keptD)
    && s.am == Keep(View(Lift(h.ever), Minute, h.closedAm), h.keptAm)
    && h.minutes == View(Lift(h.ever), Minute, h.closedAm) && h.amLog == multiset(h.minutes.Keys)
    && h.keptAm <= h.keptD && Aligned(Day, h.keptD) && Aligned(Day, h.keptAm)
    && (h.keptD <= 0 || h.keptD <= Start(Minute, h.closedAm))
    && Index(Minute, s.nextLow) - 2 * c.delayAm <= h.closedAm <= CutAm(c, h.clock)
    && (c.retD > 0 && c.delayAm <= 1440 ==> PurgeFrom(s.nextLow, c.retD + 1) <= h.keptD)
  }

  ghost predicate InvAh(c: Config, w: World) {
    var (s, h) := (w.s, w.h);
    && s.ah == Keep(View(Lift(h.ever), Hour, h.closedAh), h.keptAh)
    && h.hours == View(Lift(h.ever), Hour, h.closedAh) && h.ahLog == multiset(h.hours.Keys)
    && h.closedAh * 60 <= h.closedAm
    && h.keptAh <= h.keptAm && Aligned(Day, h.keptAh)
    && (h.keptAm <= 0 || h.keptAm <= Start(Hour, h.closedAh))
    && Index(Hour, s.nextMed) - 1 - c.delayAh <= h.closedAh <= CutAh(c, h.clock)
    && (c.retAm > 0 ==> PurgeFrom(s.nextMed, c.retAm + 1) <= h.keptAm)
  }

  /** The samples of day `k` that lie in hours below `hours`. */
  function DayPart(ever: map<Key, real>, k: Key, hours: int): Table {
    Part(Lift(ever), Hour, Day, hours, k)
  }

  /** A day row aggregates the hours that were closed when it was inserted. */
  ghost predicate DayRow(ever: map<Key, real>, k: Key, row: Row, hours: int) {
    && BucketOf(Day, k) == k && 0 < Index(Day, k.ts)
    && Fold(DayPart(ever, k, hours)).Agg?
    && row == RowOf(Fold(DayPart(ever, k, hours)))
  }

  ghost predicate DayRows(ever: map<Key, real>, closed: int, days: Table, hoursAt: map<Key, int>) {
    && hoursAt.Keys == days.Keys
    && forall k | k in days :: hoursAt[k] <= closed && DayRow(ever, k, days[k], hoursAt[k])
  }

  ghost predicate InvAd(c: Config, w: World) {
    var (s, h) := (w.s, w.h);
    && DayRows(h.ever, h.closedAh, h.days, h.hoursAt)
    && s.ad == Keep(h.days, h.keptAd)
    && h.adLog == multiset(h.days.Keys)
    && h.keptAd <= h.keptAh && Aligned(Day, h.keptAd)
  }

  ghost predicate Inv(c: Config, w: World) {
    InvAm(c, w) && InvAh(c, w) && InvAd(c, w)
  }

  // ---- The invariant holds in every run ----

  lemma AlignedDay(t: Tier, p: int)
    requires Aligned(Day, p)
    ensures Aligned(t, p)
  {
    var d := Index(Day, p);
    Quotient(t, p, match t case Minute => 1440 * d case Hour => 24 * d case Day => d);
  }

  lemma PurgeKept<V>(full: map<Key, V>, kept: int, now: int, ret: nat)
    requires Aligned(Day, kept)
    ensures Purge(Keep(full, kept), now, ret) == Keep(full, Kept(kept, now, ret))
    ensures Aligned(Day, Kept(kept, now, ret)) && kept <= Kept(kept, now, ret)
  {}

  lemma LiftKeep(d: map<Key, real>, p: int)
    ensures Lift(Keep(d, p)) == Keep(Lift(d), p)
  {}

  /** One incremental run on a purged source and a purged target. */
  lemma Grow(full: Table, src: Table, dst: Table, t: Tier, c0: int, c1: int, p: int, q: int)
    requires src == Keep(full, p) && dst == Keep(View(full, t, c0), q)
    requires q <= p && Aligned(Day, p) && (p <= 0 || p <= Start(t, c0)) && c0 <= c1
    ensures var rows := Insertion(src, dst, src, t, c1);
            && dst + rows == Keep(View(full, t, c1), q)
            && View(full, t, c0) + rows == View(full, t, c1)
            && multiset(View(full, t, c0).Keys) + multiset(rows.Keys) == multiset(View(full, t, c1).Keys)
  {
    AlignedDay(t, p);
    InsertionStep(full, src, dst, t, c0, c1, p, q);
    BetweenExtends(full, t, c0, c1);
    var rows, v0, v1 := Between(full, t, c0, c1), View(full, t, c0), View(full, t, c1);
    forall b | b in rows
      ensures q <= b.ts
    {
      GroupSome(full, t, b);
      StartMonotone(t, c0, Index(t, b.ts));
    }
    assert v1.Keys == v0.Keys + rows.Keys;
    KeepUnion(v0, rows, q);
  }

  lemma KeepUnion(a: Table, b: Table, q: int)
    requires forall k | k in b :: q <= k.ts
    ensures Keep(a + b, q) == Keep(a, q) + b
  {
    var l, r := Keep(a + b, q), Keep(a, q) + b;
    assert l.Keys == r.Keys;
  }

  lemma LowKeeps(c: Config, w: World, now: nat)
    requires Sound(c) && Inv(c, w) && w.h.clock == now
    ensures Inv(c, LowStep(c, w, now))
    ensures LowStep(c, w, now).h.clock == now <= LowStep(c, w, now).s.nextLow
  {
    hide View, Insertion, Keep, Lift, Aligned, Index, Start, PurgeFrom, DayRows;
    if w.s.nextLow < now {
      StartMonotone(Minute, w.h.closedAm, CutAm(c, now));
      LowTimers(c, w.h.keptD, now);
      LowKeepsAm(c, w, now);
      assert InvAh(c, LowStep(c, w, now)) by {
        CutGrows(c, w, now);
        PurgeKept(w.h.ever, w.h.keptD, now, c.retD);
      }
      assert InvAd(c, LowStep(c, w, now));
    }
  }

  lemma CutGrows(c: Config, w: World, now: nat)
    requires InvAm(c, w) && w.h.clock == now
    ensures w.h.closedAm <= CutAm(c, now)
  {}

  lemma LowStepIs(c: Config, w: World, now: nat)
    requires w.s.nextLow < now
    ensures var (s, h) := (LowStep(c, w, now).s, LowStep(c, w, now).h);
            && s.d == Purge(w.s.d, now, c.retD) && s.am == w.s.am + NewAm(c, w.s, now)
            && s.nextLow == now + c.delayAm * 60000
            && h.ever == w.h.ever && h.clock == w.h.clock && h.keptAm == w.h.keptAm
            && h.closedAm == CutAm(c, now) && h.keptD == Kept(w.h.keptD, now, c.retD)
            && h.amLog == w.h.amLog + multiset(NewAm(c, w.s, now).Keys) && h.minutes == w.h.minutes + NewAm(c, w.s, now)
  {
    hide NewAm, Purge, Kept, CutAm;
  }

  lemma LowKeepsAm(c: Config, w: World, now: nat)
    requires Sound(c) && InvAm(c, w) && w.h.clock == now && w.s.nextLow < now
    ensures InvAm(c, LowStep(c, w, now))
  {
    hide View, Insertion, Keep, Lift, Aligned, Index, Start, PurgeFrom, NewAm, GroupBy, LowStep;
    LowStepIs(c, w, now);
    LowGrows(c, w, now);
    PurgeKept(w.h.ever, w.h.keptD, now, c.retD);
    LowTimers(c, w.h.keptD, now);
    StartMonotone(Minute, w.h.closedAm, CutAm(c, now));
  }

  lemma LowGrows(c: Config, w: World, now: nat)
    requires InvAm(c, w) && w.h.clock == now
    ensures var v0, v1 := View(Lift(w.h.ever), Minute, w.h.closedAm), View(Lift(w.h.ever), Minute, CutAm(c, now));
            && w.s.am + NewAm(c, w.s, now) == Keep(v1, w.h.keptAm)
            && v0 + NewAm(c, w.s, now) == v1
            && multiset(v0.Keys) + multiset(NewAm(c, w.s, now).Keys) == multiset(v1.Keys)
  {
    var h := w.h;
    LiftKeep(h.ever, h.keptD);
    Grow(Lift(h.ever), Lift(w.s.d), w.s.am, Minute, h.closedAm, CutAm(c, now), h.keptD, h.keptAm);
  }

  lemma LowTimers(c: Config, kept: int, now: nat)
    requires Sound(c)
    ensures Index(Minute, now + c.delayAm * 60000) == Index(Minute, now) + c.delayAm
    ensures c.retD > 0 ==> PurgeFrom(now, c.retD) <= Start(Minute, CutAm(c, now))
    ensures c.retD > 0 && c.delayAm <= 1440 ==>
              PurgeFrom(now + c.delayAm * 60000, c.retD + 1) <= Kept(kept, now, c.retD)
  {
    hide Index;
    MinutesLater(now, c.delayAm);
    Units(now);
  }

  lemma MinutesLater(now: int, n: nat)
    ensures Index(Minute, now + n * 60000) == Index(Minute, now) + n
    ensures n <= 1440 ==> Index(Day, now + n * 60000) <= Index(Day, now) + 1
  {
    Quotient(Minute, now + n * 60000, Index(Minute, now) + n);
    if n <= 1440 {
      IndexMonotone(Day, now + n * 60000, now + 86400000);
      Quotient(Day, now + 86400000, Index(Day, now) + 1);
    }
  }

  lemma MedKeeps(c: Config, w: World, now: nat)
    requires Sound(c) && Inv(c, w) && w.h.clock == now <= w.s.nextLow
    ensures Inv(c, MedStep(c, w, now))
    ensures MedStep(c, w, now).h.clock == now <= MedStep(c, w, now).s.nextMed
  {
    if w.s.nextMed < now {
      MedKeepsAm(c, w, now);
      MedKeepsAh(c, w, now);
      MedKeepsAd(c, w, now);
      MedStepIs(c, w, now);
      hide InvAm, InvAh, InvAd, MedStep;
    }
  }

  lemma MedKeepsAm(c: Config, w: World, now: nat)
    requires Sound(c) && Inv(c, w) && w.h.clock == now <= w.s.nextLow && w.s.nextMed < now
    ensures InvAm(c, MedStep(c, w, now))
  {
    hide View, Keep, Lift, Aligned, Index, Start, PurgeFrom, Purge, InvAh, InvAd, MedStep;
    MedStepIs(c, w, now);
    MedTimers(c, w, now);
    PurgeKept(View(Lift(w.h.ever), Minute, w.h.closedAm), w.h.keptAm, now, c.retAm);
  }

  lemma MedKeepsAd(c: Config, w: World, now: nat)
    requires Inv(c, w) && w.h.clock == now && w.s.nextMed < now
    ensures InvAd(c, MedStep(c, w, now))
  {
    hide View, Keep, Lift, Aligned, DayRow, Purge, NewAh, Kept, CutAh, InvAm, MedStep;
    MedStepIs(c, w, now);
  }

  lemma MedStepIs(c: Config, w: World, now: nat)
    requires w.s.nextMed < now
    ensures var (s, h) := (MedStep(c, w, now).s, MedStep(c, w, now).h);
            && s.am == Purge(w.s.am, now, c.retAm) && s.ah == w.s.ah + NewAh(c, w.s, now)
            && s.nextMed == now + 3600000 && s.d == w.s.d && s.nextLow == w.s.nextLow && h.keptD == w.h.keptD
            && h.minutes == w.h.minutes && h.amLog == w.h.amLog && s.ad == w.s.ad && h.adLog == w.h.adLog
            && h.days == w.h.days && h.hoursAt == w.h.hoursAt && h.keptAd == w.h.keptAd
            && h.ever == w.h.ever && h.clock == w.h.clock && h.keptAh == w.h.keptAh && h.closedAm == w.h.closedAm
            && h.closedAh == CutAh(c, now) && h.keptAm == Kept(w.h.keptAm, now, c.retAm)
            && h.ahLog == w.h.ahLog + multiset(NewAh(c, w.s, now).Keys) && h.hours == w.h.hours + NewAh(c, w.s, now)
  {
    hide NewAh, Purge, Kept, CutAh;
  }

  lemma MedKeepsAh(c: Config, w: World, now: nat)
    requires Sound(c) && Inv(c, w) && w.h.clock == now <= w.s.nextLow && w.s.nextMed < now
    ensures InvAh(c, MedStep(c, w, now))
  {
    hide View, Keep, Lift, Aligned, Index, Start, PurgeFrom, Purge, Kept, NewAh, MedStep, InvAm, InvAd, Sound;
    MedStepIs(c, w, now);
    MedTimers(c, w, now);
    MedGrows(c, w, now);
    AlignedKept(w.h.keptAm, now, c.retAm);
  }

  lemma AlignedKept(kept: int, now: int, ret: nat)
    requires Aligned(Day, kept)
    ensures Aligned(Day, Kept(kept, now, ret)) && kept <= Kept(kept, now, ret)
    ensures ret == 0 ==> Kept(kept, now, ret) == kept
  {}

  lemma MedGrows(c: Config, w: World, now: nat)
    requires Inv(c, w) && w.h.clock == now && CutAh(c, now) * 60 <= w.h.closedAm
    ensures var v0, v1 := View(Lift(w.h.ever), Hour, w.h.closedAh), View(Lift(w.h.ever), Hour, CutAh(c, now));
            && w.s.ah + NewAh(c, w.s, now) == Keep(v1, w.h.keptAh)
            && v0 + NewAh(c, w.s, now) == v1
            && multiset(v0.Keys) + multiset(NewAh(c, w.s, now).Keys) == multiset(v1.Keys)
  {
    var h := w.h;
    var ever, c1 := Lift(h.ever), CutAh(c, now);
    var full := View(ever, Minute, h.closedAm);
    ViewCompose(ever, Minute, Hour, h.closedAm, h.closedAh);
    ViewCompose(ever, Minute, Hour, h.closedAm, c1);
    Grow(full, w.s.am, w.s.ah, Hour, h.closedAh, c1, h.keptAm, h.keptAh);
  }

  lemma MedTimers(c: Config, w: World, now: nat)
    requires Sound(c) && InvAm(c, w) && InvAh(c, w) && w.h.clock == now <= w.s.nextLow
    ensures CutAh(c, now) * 60 <= w.h.closedAm
    ensures Kept(w.h.keptAm, now, c.retAm) <= 0 || Kept(w.h.keptAm, now, c.retAm) <= Start(Hour, CutAh(c, now))
    ensures Kept(w.h.keptAm, now, c.retAm) <= w.h.keptD && Aligned(Day, w.h.keptAm)
    ensures c.retAm > 0 ==> PurgeFrom(now + 3600000, c.retAm + 1) <= Kept(w.h.keptAm, now, c.retAm)
    ensures Index(Hour, now + 3600000) == Index(Hour, now) + 1
  {
    hide View, Insertion, Keep, Lift, Aligned, Index, Start, PurgeFrom;
    MedArithmetic(c, w.s.nextLow, now, w.h.closedAm);
    StartMonotone(Hour, w.h.closedAh, CutAh(c, now));
  }

  /** A day is 24 hours and 1440 minutes. */
  lemma Units(x: int)
    ensures 60 * Index(Hour, x) <= Index(Minute, x)
    ensures 24 * Index(Day, x) <= Index(Hour, x)
    ensures 1440 * Index(Day, x) <= Index(Minute, x)
  {}

  lemma IndexMonotone(t: Tier, x: int, y: int)
    requires x <= y
    ensures Index(t, x) <= Index(t, y)
  {}

  lemma MedArithmetic(c: Config, nextLow: int, now: nat, closedAm: int)
    requires Sound(c) && now <= nextLow && Index(Minute, nextLow) - 2 * c.delayAm <= closedAm
    ensures CutAh(c, now) * 60 <= closedAm
    ensures c.retAm > 0 ==> PurgeFrom(now, c.retAm) <= Start(Hour, CutAh(c, now))
    ensures c.retAm > 0 ==> PurgeFrom(now, c.retAm) <= PurgeFrom(nextLow, c.retD + 1)
    ensures PurgeFrom(now + 3600000, c.retAm + 1) <= PurgeFrom(now, c.retAm)
    ensures Index(Hour, now + 3600000) == Index(Hour, now) + 1
  {
    hide Index;
    Units(now);
    IndexMonotone(Minute, now, nextLow);
    IndexMonotone(Day, now, nextLow);
    HourLater(now);
  }

  lemma HourLater(now: int)
    ensures Index(Hour, now + 3600000) == Index(Hour, now) + 1
    ensures Index(Day, now + 3600000) <= Index(Day, now) + 1
  {}

  lemma HighKeeps(c: Config, w: World, now: nat)
    requires Sound(c) && Inv(c, w) && w.h.clock == now <= w.s.nextMed
    ensures Inv(c, HighStep(c, w, now))
  {
    hide View, Insertion, Keep, Lift, Aligned, Index, Start, PurgeFrom, DayRows;
    if w.s.nextHigh < now {
      HighTimers(c, w, now);
      HighKeepsDays(c, w, now);
      HighKeepsAh(c, w, now);
      assert InvAm(c, HighStep(c, w, now));
    }
  }

  lemma HighStepIs(c: Config, w: World, now: nat)
    requires w.s.nextHigh < now
    ensures var (s, h) := (HighStep(c, w, now).s, HighStep(c, w, now).h);
            && s.am == w.s.am && s.ah == Purge(w.s.ah, now, c.retAh)
            && s.ad == Purge(w.s.ad + NewAd(c, w.s, now), now, c.retAd) && s.nextHigh == now + 43200000
            && s.nextMed == w.s.nextMed && s.nextLow == w.s.nextLow
            && h.ever == w.h.ever && h.clock == w.h.clock && h.lastTick == w.h.lastTick
            && h.closedAh == w.h.closedAh && h.closedAd == CutAd(c, now)
            && h.keptAm == w.h.keptAm && h.keptAh == Kept(w.h.keptAh, now, c.retAh)
            && h.days == w.h.days + NewAd(c, w.s, now)
  {
    hide NewAd, Purge, Kept, CutAd, Stamp;
  }

  lemma HighKeepsAh(c: Config, w: World, now: nat)
    requires Sound(c) && Inv(c, w) && w.h.clock == now <= w.s.nextMed && w.s.nextHigh < now
    ensures InvAh(c, HighStep(c, w, now))
  {
    hide View, Insertion, Keep, Lift, Aligned, Index, Start, PurgeFrom;
    PurgeKept(View(Lift(w.h.ever), Hour, w.h.closedAh), w.h.keptAh, now, c.retAh);
    HighTimers(c, w, now);
  }

  lemma HighKeepsDays(c: Config, w: World, now: nat)
    requires Sound(c) && Inv(c, w) && w.h.clock == now <= w.s.nextMed && w.s.nextHigh < now
    ensures InvAd(c, HighStep(c, w, now))
  {
    hide View, Insertion, Keep, Lift, Aligned, Index, Start, PurgeFrom, Purge, Kept, DayRow, DayRows, NewAd, InvAm;
    var rows := NewAd(c, w.s, now);
    HighTimers(c, w, now);
    forall k | k in rows
      ensures k !in w.h.days && DayRow(w.h.ever, k, rows[k], w.h.closedAh) && w.h.keptAd <= k.ts
    {
      DayInserted(c, w, now, k);
    }
    DaysGrow(w.h, w.s.ad, rows, now, c.retAd);
    hide InvAh, Stamp;
  }

  /** New day rows, inserted and purged together. */
  lemma DaysGrow(h: History, ad: Table, rows: Table, now: nat, ret: nat)
    requires DayRows(h.ever, h.closedAh, h.days, h.hoursAt) && ad == Keep(h.days, h.keptAd) && Aligned(Day, h.keptAd)
    requires forall k | k in rows ::
               k !in h.days && DayRow(h.ever, k, rows[k], h.closedAh) && h.keptAd <= k.ts
    ensures DayRows(h.ever, h.closedAh, h.days + rows, h.hoursAt + Stamp(rows, h.closedAh))
    ensures Purge(ad + rows, now, ret) == Keep(h.days + rows, Kept(h.keptAd, now, ret))
    ensures Aligned(Day, Kept(h.keptAd, now, ret))
    ensures multiset(h.days.Keys) + multiset(rows.Keys) == multiset((h.days + rows).Keys)
  {
    hide DayRows, DayRow, Keep, Aligned, Purge, Kept;
    KeepUnion(h.days, rows, h.keptAd);
    PurgeKept(h.days + rows, h.keptAd, now, ret);
    HighLogs(h.days, rows);
    MoreDayRows(h.ever, h.closedAh, h.days, h.hoursAt, rows);
  }

  lemma MoreDayRows(ever: map<Key, real>, closed: int, days: Table, hoursAt: map<Key, int>, rows: Table)
    requires DayRows(ever, closed, days, hoursAt)
    requires forall k | k in rows :: DayRow(ever, k, rows[k], closed)
    ensures DayRows(ever, closed, days + rows, hoursAt + Stamp(rows, closed))
  {
    hide DayRow;
    var all, at := days + rows, hoursAt + Stamp(rows, closed);
    forall k | k in all
      ensures at[k] <= closed && DayRow(ever, k, all[k], at[k])
    {
      if k in rows {
        assert DayRow(ever, k, rows[k], closed);
      } else {
        assert DayRow(ever, k, days[k], hoursAt[k]);
      }
    }
  }

  lemma HighLogs(days: Table, rows: Table)
    requires days.Keys !! rows.Keys
    ensures multiset(days.Keys) + multiset(rows.Keys) == multiset((days + rows).Keys)
  {
    assert (days + rows).Keys == days.Keys + rows.Keys;
  }

  lemma HighTimers(c: Config, w: World, now: nat)
    requires Sound(c) && InvAh(c, w) && InvAd(c, w) && now <= w.s.nextMed
    ensures Kept(w.h.keptAh, now, c.retAh) <= w.h.keptAm
    ensures Kept(w.h.keptAd, now, c.retAd) <= Kept(w.h.keptAh, now, c.retAh)
  {
    hide View, Insertion, Keep, Lift, Aligned, Index, Start, PurgeFrom;
    HighArithmetic(c, w.s.nextMed, now);
  }

  lemma HighArithmetic(c: Config, nextMed: int, now: nat)
    requires Sound(c) && now <= nextMed
    ensures c.retAh > 0 ==> PurgeFrom(now, c.retAh) <= PurgeFrom(nextMed, c.retAm + 1)
    ensures c.retAd > 0 ==> PurgeFrom(now, c.retAd) <= PurgeFrom(now, c.retAh)
  {}

  /** A day row is new, and aggregates every closed hour of its day. */
  lemma DayInserted(c: Config, w: World, now: nat, k: Key)
    requires Inv(c, w) && k in NewAd(c, w.s, now)
    ensures k !in w.h.days && DayRow(w.h.ever, k, NewAd(c, w.s, now)[k], w.h.closedAh) && w.h.keptAd <= k.ts
  {
    var h := w.h;
    var hours := View(Lift(h.ever), Hour, h.closedAh);
    GroupSome(w.s.ah, Day, k);
    BucketOfKeep(hours, Day, h.keptAh, k);
    DayAboveMark(w, k);
    GroupOfKeep(hours, Day, h.keptAh, k);
    CoarseFold(Lift(h.ever), Hour, Day, h.closedAh, k);
  }

  lemma DayAboveMark(w: World, k: Key)
    requires w.s.ad == Keep(w.h.days, w.h.keptAd) && w.h.keptAd <= w.h.keptAh <= k.ts
    requires AboveMark(w.s.ad, k.series, k.ts) && BucketOf(Day, k) == k
    ensures k !in w.h.days && 0 < Index(Day, k.ts)
  {
    assert k in w.h.days ==> k in w.s.ad;
  }

  lemma ClockForward(c: Config, w: World, now: nat)
    requires Inv(c, w) && w.h.clock <= now
    ensures Inv(c, ClockAt(w, now))
  {}

  lemma TickKeeps(c: Config, w: World, now: nat)
    requires Sound(c) && Inv(c, w) && w.h.clock <= now
    ensures Inv(c, TickStep(c, w, now))
  {
    hide View, Keep, Lift, Aligned, Start, PurgeFrom, DayRows, Low, LowStep, Med, MedStep, High, HighStep;
    var w0 := ClockAt(w, now);
    ClockForward(c, w, now);
    LowKeeps(c, w0, now);
    MedKeeps(c, LowStep(c, w0, now), now);
    HighKeeps(c, MedStep(c, LowStep(c, w0, now), now), now);
  }

  lemma ArriveKeeps(c: Config, w: World, now: nat, k: Key, v: real)
    requires Sound(c) && Inv(c, w) && w.h.clock <= now && now - k.ts <= c.delayAm * 60000
    ensures Inv(c, ArriveStep(w, now, k, v))
  {
    hide View, Keep, Lift, Index, Start, Aligned, PurgeFrom, DayRow;
    var h, w' := w.h, ArriveStep(w, now, k, v);
    IndexMonotone(Minute, h.clock, now);
    IndexMonotone(Hour, h.clock, now);
    OnTime(c, w, now, k);
    LiftInsert(h.ever, k, v);
    ViewFrame(Lift(h.ever), Minute, h.closedAm, k, OfSample(v));
    ViewFrame(Lift(h.ever), Hour, h.closedAh, k, OfSample(v));
    KeepInsert(h.ever, k, v, h.keptD);
    forall x | x in h.days
      ensures DayRow(w'.h.ever, x, h.days[x], h.hoursAt[x])
    {
      DayRowFrame(h.ever, x, h.days[x], h.hoursAt[x], k, v);
    }
  }

  lemma DayRowFrame(ever: map<Key, real>, x: Key, row: Row, hours: int, k: Key, v: real)
    requires DayRow(ever, x, row, hours) && hours <= Index(Hour, k.ts)
    ensures DayRow(ever[k := v], x, row, hours)
  {
    LiftInsert(ever, k, v);
    PartFrame(Lift(ever), Hour, Day, hours, x, k, OfSample(v));
  }

  /** A sample that is on time lands in open buckets, and in no purged day. */
  lemma OnTime(c: Config, w: World, now: nat, k: Key)
    requires Inv(c, w) && w.h.clock <= now && now - k.ts <= c.delayAm * 60000
    ensures w.h.closedAm <= Index(Minute, k.ts) && w.h.closedAh <= Index(Hour, k.ts)
    ensures w.h.keptD <= k.ts
  {
    assert CutAm(c, w.h.clock) <= CutAm(c, now) <= Index(Minute, k.ts);
    IndexNests(Minute, Hour, k.ts);
    StartMonotone(Minute, w.h.closedAm, Index(Minute, k.ts));
  }

  lemma LiftInsert(d: map<Key, real>, k: Key, v: real)
    ensures Lift(d[k := v]) == Lift(d)[k := OfSample(v)]
  {}

  lemma KeepInsert(d: map<Key, real>, k: Key, v: real, p: int)
    requires p <= k.ts
    ensures Keep(d[k := v], p) == Keep(d, p)[k := v]
  {}

  lemma PartFrame(src: Table, f: Tier, c: Tier, cf: int, b: Key, k: Key, r: Row)
    requires cf <= Index(f, k.ts)
    ensures Part(src[k := r], f, c, cf, b) == Part(src, f, c, cf, b)
  {
    var l, l' := Part(src, f, c, cf, b), Part(src[k := r], f, c, cf, b);
    assert l.Keys == l'.Keys;
  }

  lemma RestartKeeps(c: Config, w: World, now: nat)
    requires Inv(c, w) && w.h.clock <= now
    ensures Inv(c, RestartStep(w, now))
  {
    hide View, Keep, Lift, Aligned, Index, DayRows, PurgeFrom;
    IndexMonotone(Minute, 0, w.s.nextLow);
    IndexMonotone(Hour, 0, w.s.nextMed);
    IndexMonotone(Minute, w.h.clock, now);
    IndexMonotone(Hour, w.h.clock, now);
    PurgeLater(c.retD + 1, 0, w.s.nextLow);
    PurgeLater(c.retAm + 1, 0, w.s.nextMed);
  }

  lemma PurgeLater(ret: nat, a: int, b: int)
    requires a <= b
    ensures PurgeFrom(a, ret) <= PurgeFrom(b, ret)
  {
    IndexMonotone(Day, a, b);
  }

  lemma NextKeeps(c: Config, w: World, st: Step)
    requires Sound(c) && Inv(c, w) && Enabled(c, w, st)
    ensures Inv(c, Next(c, w, st))
  {
    match st
    case Arrive(now, k, v) => ArriveKeeps(c, w, now, k, v);
    case TickAt(now) => TickKeeps(c, w, now);
    case Restart(now) => RestartKeeps(c, w, now);
  }

  lemma {:induction false} RunKeeps(c: Config, w: World, steps: seq<Step>)
    requires Sound(c) && Inv(c, w) && Possible(c, w, steps)
    ensures Inv(c, Run(c, w, steps))
    decreases |steps|
  {
    if steps != [] {
      NextKeeps(c, w, steps[0]);
      RunKeeps(c, Next(c, w, steps[0]), steps[1..]);
    }
  }

  // ---- The tables as first created ----

  /** The first `create table` agrees with the incremental view iff bucket 0 holds nothing below
      the cutoff. */
  lemma CreateIsView(src: Table, t: Tier, cut: int)
    ensures Create(src, t, cut) == View(src, t, cut) <==> forall k | k in src && Index(t, k.ts) == 0 :: cut <= 0
  {
    hide Create, View, Index;
    if k :| k in src && Index(t, k.ts) == 0 && 0 < cut {
      OnlyCreated(src, t, cut, k);
    } else {
      forall b | b in Create(src, t, cut)
        ensures 0 < BucketIndex(t, b)
      {
        CreatedIndex(src, t, cut, b);
      }
      SameRows(src, t, cut);
    }
  }

  function BucketIndex(t: Tier, b: Key): int { Index(t, b.ts) }

  lemma OnlyCreated(src: Table, t: Tier, cut: int, k: Key)
    requires k in src && Index(t, k.ts) == 0 && 0 < cut
    ensures BucketOf(t, k) in Create(src, t, cut) && BucketOf(t, k) !in View(src, t, cut)
  {
    hide GroupBy;
    assert BucketOf(t, k) in BucketsOf(src, t);
  }

  lemma CreatedIndex(src: Table, t: Tier, cut: int, b: Key)
    requires b in Create(src, t, cut) && forall k | k in src && Index(t, k.ts) == 0 :: cut <= 0
    ensures 0 < Index(t, b.ts)
  {
    hide GroupBy;
    var k :| k in src && BucketOf(t, k) == b;
    StartIndex(t, b.ts, Index(t, k.ts));
  }

  lemma SameRows(src: Table, t: Tier, cut: int)
    requires forall b | b in Create(src, t, cut) :: 0 < BucketIndex(t, b)
    ensures Create(src, t, cut) == View(src, t, cut)
  {
    hide GroupBy, Index;
    forall b | b in Create(src, t, cut) ensures b in View(src, t, cut) {
      assert 0 < BucketIndex(t, b);
    }
  }

  /** The created tables are the views of the samples. */
  lemma CreatedViews(c: Config, d: map<Key, real>, now: nat)
    requires Sound(c) && Positive(d)
    ensures CutAh(c, now) * 60 <= CutAm(c, now)
    ensures Created(c, d, now).am == View(Lift(d), Minute, CutAm(c, now))
    ensures Created(c, d, now).ah == View(Lift(d), Hour, CutAh(c, now))
  {
    hide Create, View, Keep, Index, GroupBy;
    var am := View(Lift(d), Minute, CutAm(c, now));
    Units(now);
    forall k | k in d
      ensures 0 < Index(Minute, k.ts) && 0 < Index(Hour, k.ts)
    {
      Units(k.ts);
    }
    CreateIsView(Lift(d), Minute, CutAm(c, now));
    ViewPositive(Lift(d), Minute, Hour, CutAm(c, now));
    CreateIsView(am, Hour, CutAh(c, now));
    ViewCompose(Lift(d), Minute, Hour, CutAm(c, now), CutAh(c, now));
  }

  lemma KeepAll<V>(m: map<Key, V>)
    ensures Keep(m, 0) == m
  {}

  lemma InitialInv(c: Config, d: map<Key, real>, now: nat)
    requires Sound(c) && Positive(d)
    ensures Inv(c, InitialWorld(c, d, now))
  {
    hide View, Keep, Created, Index, Aligned, Start, DayRows;
    var w := InitialWorld(c, d, now);
    CreatedViews(c, d, now);
    KeepAll(d);
    KeepAll(w.s.am);
    KeepAll(w.s.ah);
    KeepAll(w.s.ad);
    CreatedTimers(c, d, now);
    InitialDays(c, d, now);
  }

  lemma CreatedTimers(c: Config, d: map<Key, real>, now: nat)
    ensures var s := Created(c, d, now); s.d == d && s.nextLow == s.nextMed == s.nextHigh == 0
    ensures Aligned(Day, 0)
    ensures Index(Minute, 0) <= Index(Minute, now) && Index(Hour, 0) <= Index(Hour, now)
    ensures PurgeFrom(0, c.retD + 1) <= 0 && PurgeFrom(0, c.retAm + 1) <= 0
  {}

  lemma ViewPositive(src: Table, f: Tier, c: Tier, cut: int)
    requires Finer(f, c) && forall k | k in src :: 0 < Index(c, k.ts)
    ensures forall k | k in View(src, f, cut) :: 0 < Index(c, k.ts)
  {
    forall b | b in View(src, f, cut)
      ensures 0 < Index(c, b.ts)
    {
      var k :| k in src && BucketOf(f, k) == b;
      IndexNests(f, c, k.ts);
    }
  }

  lemma InitialDays(c: Config, d: map<Key, real>, now: nat)
    requires Positive(d) && Created(c, d, now).ah == View(Lift(d), Hour, CutAh(c, now))
    ensures var ad := Created(c, d, now).ad; DayRows(d, CutAh(c, now), ad, Stamp(ad, CutAh(c, now)))
  {
    hide View, DayRow;
    var ah, ad := Created(c, d, now).ah, Created(c, d, now).ad;
    assert ad == Create(ah, Day, CutAd(c, now));
    ViewPositive(Lift(d), Hour, Day, CutAh(c, now));
    forall k | k in ad
      ensures DayRow(d, k, ad[k], CutAh(c, now))
    {
      InitialDay(c, d, now, k);
    }
  }

  lemma InitialDay(c: Config, d: map<Key, real>, now: nat, k: Key)
    requires k in Create(View(Lift(d), Hour, CutAh(c, now)), Day, CutAd(c, now))
    requires forall x | x in View(Lift(d), Hour, CutAh(c, now)) :: 0 < Index(Day, x.ts)
    ensures DayRow(d, k, Create(View(Lift(d), Hour, CutAh(c, now)), Day, CutAd(c, now))[k], CutAh(c, now))
  {
    var ah := View(Lift(d), Hour, CutAh(c, now));
    GroupSome(ah, Day, k);
    var x :| x in ah && BucketOf(Day, x) == k;
    CoarseFold(Lift(d), Hour, Day, CutAh(c, now), k);
  }
}
