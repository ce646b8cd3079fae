/** One rollup query (`base_am`, `base_ah`, `base_ad`) and its `create table` twin, as functions
    on tables, and the laws that make an incremental run agree with a direct group-by. */
module Rollup {
  import opened Aggregates
  import opened Sets

  datatype Tier = Minute | Hour | Day

  /** Milliseconds in a bucket of the tier. */
  function Width(t: Tier): Pos {
    match t case Minute => 60000 case Hour => 3600000 case Day => 86400000
  }

  /** floor(timestamp / width) */
  function Index(t: Tier, ts: int): int {
    match t case Minute => ts / 60000 case Hour => ts / 3600000 case Day => ts / 86400000
  }

  function Start(t: Tier, index: int): int {
    match t case Minute => index * 60000 case Hour => index * 3600000 case Day => index * 86400000
  }

  lemma StartIndex(t: Tier, ts: int, i: int)
    ensures Index(t, Start(t, i)) == i
    ensures Start(t, Index(t, ts)) <= ts < Start(t, Index(t, ts) + 1)
    ensures i <= Index(t, ts) <==> Start(t, i) <= ts
  {}

  /** The primary key of the row a source row is aggregated into. */
  function BucketOf(t: Tier, k: Key): (b: Key)
    ensures b.series == k.series && b.ts == Start(t, Index(t, k.ts)) && Index(t, b.ts) == Index(t, k.ts)
  {
    Key(k.series, Start(t, Index(t, k.ts)))
  }

  function Group(src: Table, t: Tier, b: Key): (g: Table)
    ensures g.Keys <= src.Keys
  {
    map k | k in src && BucketOf(t, k) == b :: src[k]
  }

  function BucketsOf(src: Table, t: Tier): set<Key> {
    set k | k in src :: BucketOf(t, k)
  }

  lemma GroupSome(src: Table, t: Tier, b: Key)
    requires b in BucketsOf(src, t)
    ensures Fold(Group(src, t, b)).Agg?
    ensures BucketOf(t, b) == b
  {
    var k :| k in src && BucketOf(t, k) == b;
    assert k in Group(src, t, b);
    FoldSome(Group(src, t, b));
  }

  function BucketRow(src: Table, t: Tier, b: Key): Row
    requires b in BucketsOf(src, t)
  {
    GroupSome(src, t, b);
    RowOf(Fold(Group(src, t, b)))
  }

  /** The direct group-by: every bucket of the source. */
  function GroupBy(src: Table, t: Tier): (r: Table)
    ensures r.Keys == BucketsOf(src, t)
  {
    map b | b in BucketsOf(src, t) :: BucketRow(src, t, b)
  }

  /** `create table ... as select ... group by`: the buckets whose index is below the cutoff. */
  function Create(src: Table, t: Tier, cut: int): Table {
    var g := GroupBy(src, t);
    map b | b in g && Index(t, b.ts) < cut :: g[b]
  }

  /** The buckets below the cutoff, except bucket 0, which no incremental run ever inserts. */
  function View(src: Table, t: Tier, cut: int): Table {
    var g := GroupBy(src, t);
    map b | b in g && 0 < Index(t, b.ts) < cut :: g[b]
  }

  /** The rows from timestamp `from` on. */
  function Keep<V>(tab: map<Key, V>, from: int): map<Key, V> {
    map k | k in tab && from <= k.ts :: tab[k]
  }

  /** `ts` lies above the series' watermark: the largest of 0 and its timestamps in `dst`. */
  predicate AboveMark(dst: Table, s: Series, ts: int) {
    0 < ts && forall k | k in dst && k.series == s :: k.ts < ts
  }

  /** The watermark subquery joins on the series of `dst` and of the table it seeds zeros from. */
  predicate HasMark(dst: Table, seeds: Table, s: Series) {
    (exists k | k in dst :: k.series == s) || (exists k | k in seeds :: k.series == s)
  }

  /** The rows one `insert into dst select ... from src` run adds. */
  function Insertion(src: Table, dst: Table, seeds: Table, t: Tier, cut: int): (r: Table)
    ensures r.Keys <= BucketsOf(src, t)
  {
    var g := GroupBy(src, t);
    map b | b in g && Index(t, b.ts) < cut && AboveMark(dst, b.series, b.ts) && HasMark(dst, seeds, b.series) :: g[b]
  }

  // ---- Laws ----

  /** The inserted rows never collide with the primary key of a stored row. */
  lemma InsertionFresh(src: Table, dst: Table, seeds: Table, t: Tier, cut: int)
    ensures Insertion(src, dst, seeds, t, cut).Keys !! dst.Keys
  {}

  /** A group that the kept suffix cannot cut is unchanged by the purge. */
  lemma GroupOfKeep(full: Table, t: Tier, p: int, b: Key)
    requires p <= b.ts
    ensures Group(Keep(full, p), t, b) == Group(full, t, b)
  {
    forall k | k in full && BucketOf(t, k) == b
      ensures p <= k.ts
    {
      StartIndex(t, k.ts, 0);
    }
  }

  /** Timestamp `p` does not fall inside a bucket. */
  predicate Aligned(t: Tier, p: int) { Start(t, Index(t, p)) == p }

  lemma BucketOfKeep(full: Table, t: Tier, p: int, b: Key)
    requires Aligned(t, p)
    ensures b in BucketsOf(Keep(full, p), t) <==> b in BucketsOf(full, t) && p <= b.ts
  {
    if b in BucketsOf(full, t) && p <= b.ts {
      var k :| k in full && BucketOf(t, k) == b;
      StartIndex(t, k.ts, 0);
      assert k in Keep(full, p);
    }
    if b in BucketsOf(Keep(full, p), t) {
      var k :| k in Keep(full, p) && BucketOf(t, k) == b;
      StartIndex(t, k.ts, Index(t, p));
      StartIndex(t, p, 0);
      assert k in full;
      assert Index(t, p) <= Index(t, k.ts);
      StartMonotone(t, Index(t, p), Index(t, k.ts));
    }
  }

  lemma StartMonotone(t: Tier, i: int, j: int)
    requires i <= j
    ensures Start(t, i) <= Start(t, j)
  {}

  /** The watermark law. A source purged up to an aligned `p` and a target purged up to `q <= p`
      that holds every bucket below `c0`: a run with cutoff `c1` adds exactly the buckets from
      `c0` to `c1`, each aggregated from all its rows. */
  lemma InsertionStep(full: Table, src: Table, dst: Table, t: Tier, c0: int, c1: int, p: int, q: int)
    requires src == Keep(full, p) && dst == Keep(View(full, t, c0), q)
    requires q <= p && Aligned(t, p) && (p <= 0 || p <= Start(t, c0)) && c0 <= c1
    ensures Insertion(src, dst, src, t, c1) == Between(full, t, c0, c1)
  {
    var r, e := Insertion(src, dst, src, t, c1), Between(full, t, c0, c1);
    forall b | b in r
      ensures b in e && r[b] == e[b]
    {
      InsertedIsBetween(full, src, dst, t, c0, c1, p, q, b);
    }
    forall b | b in e
      ensures b in r
    {
      BetweenIsInserted(full, src, dst, t, c0, c1, p, q, b);
    }
    hide *;
    assert r.Keys == e.Keys;
    SameTable(e, r);
  }

  lemma InsertedIsBetween(full: Table, src: Table, dst: Table, t: Tier, c0: int, c1: int, p: int, q: int, b: Key)
    requires src == Keep(full, p) && dst == Keep(View(full, t, c0), q)
    requires q <= p && Aligned(t, p)
    requires b in Insertion(src, dst, src, t, c1)
    ensures b in Between(full, t, c0, c1)
    ensures Insertion(src, dst, src, t, c1)[b] == Between(full, t, c0, c1)[b]
  {
    BucketOfKeep(full, t, p, b);
    InsertedAbove(full, dst, t, c0, p, q, b);
    GroupOfKeep(full, t, p, b);
  }

  function Between(full: Table, t: Tier, c0: int, c1: int): Table {
    var g := GroupBy(full, t);
    map b | b in g && 0 < Index(t, b.ts) && c0 <= Index(t, b.ts) < c1 :: g[b]
  }

  lemma InsertedAbove(full: Table, dst: Table, t: Tier, c0: int, p: int, q: int, b: Key)
    requires dst == Keep(View(full, t, c0), q) && q <= p <= b.ts
    requires b in BucketsOf(full, t) && AboveMark(dst, b.series, b.ts)
    ensures 0 < Index(t, b.ts) && c0 <= Index(t, b.ts)
  {
    GroupSome(full, t, b);
    assert 0 < Index(t, b.ts) < c0 ==> b in View(full, t, c0);
  }

  lemma BetweenIsInserted(full: Table, src: Table, dst: Table, t: Tier, c0: int, c1: int, p: int, q: int, b: Key)
    requires src == Keep(full, p) && dst == Keep(View(full, t, c0), q)
    requires Aligned(t, p) && (p <= 0 || p <= Start(t, c0))
    requires b in Between(full, t, c0, c1)
    ensures b in Insertion(src, dst, src, t, c1)
  {
    GroupSome(full, t, b);
    StartMonotone(t, c0, Index(t, b.ts));
    BucketOfKeep(full, t, p, b);
    MarkBelow(full, dst, t, c0, q, b);
    var k :| k in src && BucketOf(t, k) == b;
    assert k.series == b.series;
  }

  lemma MarkBelow(full: Table, dst: Table, t: Tier, c0: int, q: int, b: Key)
    requires dst == Keep(View(full, t, c0), q) && BucketOf(t, b) == b
    requires 0 < Index(t, b.ts) && c0 <= Index(t, b.ts)
    ensures AboveMark(dst, b.series, b.ts)
  {
    forall x | x in dst
      ensures x.ts < b.ts
    {
      assert x in BucketsOf(full, t) && Index(t, x.ts) < c0;
      GroupSome(full, t, x);
      StartMonotone(t, Index(t, x.ts) + 1, Index(t, b.ts));
    }
  }

  lemma BetweenExtends(full: Table, t: Tier, c0: int, c1: int)
    requires c0 <= c1
    ensures View(full, t, c0) + Between(full, t, c0, c1) == View(full, t, c1)
    ensures View(full, t, c0).Keys !! Between(full, t, c0, c1).Keys
  {}

  /** A row that lands in a bucket at or above the cutoff leaves the closed buckets alone. */
  lemma ViewFrame(src: Table, t: Tier, cut: int, k: Key, r: Row)
    requires cut <= Index(t, k.ts)
    ensures View(src[k := r], t, cut) == View(src, t, cut)
  {
    var v, v' := View(src, t, cut), View(src[k := r], t, cut);
    forall b: Key
      ensures b in v <==> b in v'
      ensures b in v ==> v[b] == v'[b]
    {
      if Index(t, b.ts) < cut {
        FrameBucket(src, t, cut, k, r, b);
      }
    }
  }

  lemma FrameBucket(src: Table, t: Tier, cut: int, k: Key, r: Row, b: Key)
    requires Index(t, b.ts) < cut <= Index(t, k.ts)
    ensures b in BucketsOf(src[k := r], t) <==> b in BucketsOf(src, t)
    ensures Group(src[k := r], t, b) == Group(src, t, b)
  {
    var src' := src[k := r];
    assert BucketOf(t, k) != b;
    if b in BucketsOf(src, t) {
      var x :| x in src && BucketOf(t, x) == b;
      assert x in src';
    }
    if b in BucketsOf(src', t) {
      var x :| x in src' && BucketOf(t, x) == b;
      assert x in src;
    }
  }

  // ---- Aggregating aggregates ----

  predicate Finer(f: Tier, c: Tier) {
    (f == Minute && c == Hour) || (f == Hour && c == Day)
  }

  function Ratio(f: Tier, c: Tier): Pos
    requires Finer(f, c)
  {
    if f == Minute then 60 else 24
  }

  /** Floor divisions nest. */
  lemma IndexNests(f: Tier, c: Tier, ts: int)
    requires Finer(f, c)
    ensures Index(c, Start(f, Index(f, ts))) == Index(c, ts)
    ensures Index(c, ts) == Index(f, ts) / Ratio(f, c)
  {
    var q := Index(f, ts);
    var h := q / Ratio(f, c);
    if f == Minute {
      assert 3600000 * h <= 60000 * q <= ts < 3600000 * (h + 1);
    } else {
      assert 86400000 * h <= 3600000 * q <= ts < 86400000 * (h + 1);
    }
    Quotient(c, ts, h);
    Quotient(c, Start(f, q), h);
  }

  lemma Quotient(t: Tier, ts: int, i: int)
    requires Start(t, i) <= ts < Start(t, i + 1)
    ensures Index(t, ts) == i
  {}

  lemma BucketNests(f: Tier, c: Tier, k: Key)
    requires Finer(f, c)
    ensures BucketOf(c, BucketOf(f, k)) == BucketOf(c, k)
  {
    IndexNests(f, c, k.ts);
  }

  /** Folding the aggregates of all buckets of a table folds the table. */
  lemma {:induction false} FoldGroupBy(g: Table, t: Tier)
    ensures Fold(GroupBy(g, t)) == Fold(g)
    decreases |g|
  {
    if g == map[] {
      assert GroupBy(g, t) == map[];
    } else {
      var k := First(g.Keys);
      var b := BucketOf(t, k);
      var part, rest := Group(g, t, b), Rest(g, t, b);
      assert k in part && b in GroupBy(g, t);
      RestSplits(g, t, b);
      GroupAndRest(g, t, b);
      FoldUnion(part, rest);
      FoldGroupBy(rest, t);
      FoldPick(GroupBy(g, t), b);
      GroupSome(g, t, b);
    }
  }

  function Rest(g: Table, t: Tier, b: Key): (r: Table)
    ensures r.Keys <= g.Keys
  {
    map k | k in g && BucketOf(t, k) != b :: g[k]
  }

  lemma GroupAndRest(g: Table, t: Tier, b: Key)
    ensures Group(g, t, b) + Rest(g, t, b) == g
  {
    var u := Group(g, t, b) + Rest(g, t, b);
    assert u.Keys == g.Keys;
  }

  lemma RestSplits(g: Table, t: Tier, b: Key)
    requires b in BucketsOf(g, t)
    ensures |Rest(g, t, b)| < |g|
    ensures Without(GroupBy(g, t), b) == GroupBy(Rest(g, t, b), t)
  {
    RestSmaller(g, t, b);
    RestBuckets(g, t, b);
    var all, rest := GroupBy(g, t), GroupBy(Rest(g, t, b), t);
    forall x | x in rest
      ensures rest[x] == all[x]
    {
      RestGroup(g, t, b, x);
    }
    SameTable(Without(all, b), rest);
  }

  lemma SameTable(l: Table, r: Table)
    requires l.Keys == r.Keys && forall k | k in r :: l[k] == r[k]
    ensures l == r
  {}

  lemma RestSmaller(g: Table, t: Tier, b: Key)
    requires b in BucketsOf(g, t)
    ensures |Rest(g, t, b)| < |g|
  {
    var k :| k in g && BucketOf(t, k) == b;
    SubsetSize(Rest(g, t, b).Keys, g.Keys - {k});
    assert |g.Keys - {k}| == |g.Keys| - 1;
  }

  lemma RestBuckets(g: Table, t: Tier, b: Key)
    ensures BucketsOf(Rest(g, t, b), t) == BucketsOf(g, t) - {b}
  {
    forall x | x in BucketsOf(g, t) && x != b
      ensures x in BucketsOf(Rest(g, t, b), t)
    {
      var y :| y in g && BucketOf(t, y) == x;
      assert y in Rest(g, t, b);
    }
  }

  lemma RestGroup(g: Table, t: Tier, b: Key, x: Key)
    requires x != b
    ensures Group(Rest(g, t, b), t, x) == Group(g, t, x)
  {
    var l, r := Group(Rest(g, t, b), t, x), Group(g, t, x);
    assert l.Keys == r.Keys;
  }

  /** The rows of the coarse bucket `b` that lie in fine buckets below `cf`. */
  function Part(src: Table, f: Tier, c: Tier, cf: int, b: Key): (g: Table)
    ensures g.Keys <= src.Keys
  {
    map k | k in src && BucketOf(c, k) == b && Index(f, k.ts) < cf :: src[k]
  }

  /** One coarse group of the fine view is the fine group-by of that part of the coarse group. */
  lemma CoarseGroup(src: Table, f: Tier, c: Tier, cf: int, b: Key)
    requires Finer(f, c) && 0 < Index(c, b.ts)
    ensures Group(View(src, f, cf), c, b) == GroupBy(Part(src, f, c, cf, b), f)
  {
    hide Part, Fold, RowOf, BucketOf, Index;
    var l, r := Group(View(src, f, cf), c, b), GroupBy(Part(src, f, c, cf, b), f);
    forall m: Key
      ensures m in l <==> m in r
      ensures m in r ==> l[m] == r[m]
    {
      FineInCoarse(src, f, c, cf, b, m);
    }
  }

  lemma FineInCoarse(src: Table, f: Tier, c: Tier, cf: int, b: Key, m: Key)
    requires Finer(f, c) && 0 < Index(c, b.ts)
    ensures m in Group(View(src, f, cf), c, b) <==> m in BucketsOf(Part(src, f, c, cf, b), f)
    ensures m in BucketsOf(Part(src, f, c, cf, b), f) ==> Group(Part(src, f, c, cf, b), f, m) == Group(src, f, m)
  {
    if m in BucketsOf(Part(src, f, c, cf, b), f) {
      var x :| x in Part(src, f, c, cf, b) && BucketOf(f, x) == m;
      assert x in src;
      IndexNests(f, c, x.ts);
      BucketNests(f, c, x);
      assert m in View(src, f, cf);
      PartGroup(src, f, c, cf, b, m);
    }
    if m in Group(View(src, f, cf), c, b) {
      assert m in BucketsOf(src, f);
      var x :| x in src && BucketOf(f, x) == m;
      BucketNests(f, c, x);
      assert x in Part(src, f, c, cf, b);
    }
  }

  lemma PartGroup(src: Table, f: Tier, c: Tier, cf: int, b: Key, m: Key)
    requires Finer(f, c) && BucketOf(c, m) == b && Index(f, m.ts) < cf
    ensures Group(Part(src, f, c, cf, b), f, m) == Group(src, f, m)
  {
    forall x | x in src && BucketOf(f, x) == m
      ensures x in Part(src, f, c, cf, b)
    {
      BucketNests(f, c, x);
    }
    var l, r := Group(Part(src, f, c, cf, b), f, m), Group(src, f, m);
    assert l.Keys == r.Keys;
  }

  /** Aggregating the fine rows of a coarse bucket aggregates the samples behind them. */
  lemma CoarseFold(src: Table, f: Tier, c: Tier, cf: int, b: Key)
    requires Finer(f, c) && 0 < Index(c, b.ts)
    ensures Fold(Group(View(src, f, cf), c, b)) == Fold(Part(src, f, c, cf, b))
  {
    CoarseGroup(src, f, c, cf, b);
    FoldGroupBy(Part(src, f, c, cf, b), f);
  }

  /** Below a coarse cutoff whose fine buckets are all closed, the part is the whole bucket. */
  lemma PartIsGroup(src: Table, f: Tier, c: Tier, cf: int, b: Key)
    requires Finer(f, c) && (Index(c, b.ts) + 1) * Ratio(f, c) <= cf
    ensures Part(src, f, c, cf, b) == Group(src, c, b)
  {
    forall k | k in src && BucketOf(c, k) == b
      ensures Index(f, k.ts) < cf
    {
      IndexNests(f, c, k.ts);
    }
  }

  /** The coarse view of the fine view is the coarse view of the samples, as long as every fine
      bucket of a closed coarse bucket is closed. */
  lemma ViewCompose(src: Table, f: Tier, c: Tier, cf: int, cc: int)
    requires Finer(f, c) && cc * Ratio(f, c) <= cf
    ensures View(View(src, f, cf), c, cc) == View(src, c, cc)
  {
    hide View, Finer, Ratio, Index;
    var l, r := View(View(src, f, cf), c, cc), View(src, c, cc);
    forall b: Key
      ensures b in l <==> b in r
      ensures b in l ==> l[b] == r[b]
    {
      ComposedBucket(src, f, c, cf, cc, b);
    }
  }

  lemma ComposedBucket(src: Table, f: Tier, c: Tier, cf: int, cc: int, b: Key)
    requires Finer(f, c) && cc * Ratio(f, c) <= cf
    ensures var l, r := View(View(src, f, cf), c, cc), View(src, c, cc);
            (b in l <==> b in r) && (b in l ==> l[b] == r[b])
  {
    var v := View(src, f, cf);
    if 0 < Index(c, b.ts) < cc {
      RatioMonotone(f, c, Index(c, b.ts) + 1, cc);
      PartIsGroup(src, f, c, cf, b);
      CoarseFold(src, f, c, cf, b);
      BucketByFold(src, c, b);
      BucketByFold(v, c, b);
    }
  }

  lemma BucketByFold(src: Table, t: Tier, b: Key)
    ensures b in BucketsOf(src, t) <==> Fold(Group(src, t, b)).Agg?
  {
    FoldSome(Group(src, t, b));
    if b in BucketsOf(src, t) {
      GroupSome(src, t, b);
    } else {
      assert forall k | k in src :: BucketOf(t, k) in BucketsOf(src, t);
    }
  }

  lemma RatioMonotone(f: Tier, c: Tier, i: int, j: int)
    requires Finer(f, c) && i <= j
    ensures i * Ratio(f, c) <= j * Ratio(f, c)
  {}
}
