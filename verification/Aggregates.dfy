/** The statistic tables of the backend and the SQL aggregate functions that roll them up.
    A table is a map from its primary key (series, timestamp) to the aggregate columns. */
module Aggregates {

  /** What a statistic is about: the host_id or serv_id column, and the res_id column. */
  datatype Series = Series(owner: nat, res: nat)

  /** The primary key of every d$, am$, ah$ and ad$ table; `ts` counts milliseconds. */
  datatype Key = Key(series: Series, ts: nat)

  type Pos = n: nat | 0 < n witness 1

  /** The five columns kept for one value column: avg_, min_, max_, sum_ and cnt_. */
  datatype Row = Row(avg: real, min: real, max: real, sum: real, cnt: Pos)

  type Table = map<Key, Row>

  /** The result of aggregating a group, before avg_ is computed; Nothing for an empty group. */
  datatype Agg = Nothing | Agg(sum: real, cnt: Pos, min: real, max: real)

  function Min(a: real, b: real): real { if a <= b then a else b }
  function Max(a: real, b: real): real { if a <= b then b else a }

  function Combine(a: Agg, b: Agg): Agg {
    match (a, b)
    case (Nothing, _) => b
    case (_, Nothing) => a
    case (Agg(s, c, lo, hi), Agg(s', c', lo', hi')) => Agg(s + s', c + c', Min(lo, lo'), Max(hi, hi'))
  }

  lemma CombineLaws(a: Agg, b: Agg, c: Agg)
    ensures Combine(a, b) == Combine(b, a)
    ensures Combine(a, Combine(b, c)) == Combine(Combine(a, b), c)
  {}

  /** A raw value as the row its own aggregate would be. */
  function OfSample(v: real): Row { Row(v, v, v, v, 1) }

  /** sum(sum_), sum(cnt_), min(min_) and max(max_) look at these columns of a row. */
  function OfRow(r: Row): Agg { Agg(r.sum, r.cnt, r.min, r.max) }

  /** The inserted row: avg_ is sum/cnt. */
  function RowOf(a: Agg): Row
    requires a.Agg?
  {
    Row(a.sum / a.cnt as real, a.min, a.max, a.sum, a.cnt)
  }

  // ---- A total order on keys, so that a group can be folded deterministically ----

  predicate Before(a: Key, b: Key) {
    a.series.owner < b.series.owner ||
    (a.series.owner == b.series.owner &&
     (a.series.res < b.series.res || (a.series.res == b.series.res && a.ts <= b.ts)))
  }

  lemma HasFirst(ks: set<Key>) returns (k: Key)
    requires ks != {}
    ensures k in ks && forall x | x in ks :: Before(k, x)
  {
    var y :| y in ks;
    if ks == {y} {
      k := y;
    } else {
      var k' := HasFirst(ks - {y});
      k := if Before(k', y) then k' else y;
      assert forall x | x in ks :: x == y || x in ks - {y};
    }
  }

  function First(ks: set<Key>): (k: Key)
    requires ks != {}
    ensures k in ks
  {
    assert exists k :: k in ks && forall x | x in ks :: Before(k, x) by { var _ := HasFirst(ks); }
    var k :| k in ks && forall x | x in ks :: Before(k, x);
    k
  }

  function Without(m: Table, k: Key): (r: Table)
    ensures r.Keys == m.Keys - {k}
    ensures k in m ==> |r| == |m| - 1
  {
    m - {k}
  }

  /** The aggregate of all rows of a group. */
  function Fold(m: Table): Agg
    decreases |m|
  {
    if m == map[] then Nothing
    else
      var k := First(m.Keys);
      Combine(OfRow(m[k]), Fold(Without(m, k)))
  }

  /** The order in which the rows of a group are visited does not matter. */
  lemma {:induction false} FoldPick(m: Table, k: Key)
    requires k in m
    ensures Fold(m) == Combine(OfRow(m[k]), Fold(Without(m, k)))
    decreases |m|
  {
    hide First, Combine, OfRow;
    var f := First(m.Keys);
    if f != k {
      hide Without;
      var m1, m2 := Without(m, f), Without(m, k);
      WithoutSwap(m, f, k);
      FoldPick(m1, k);
      FoldPick(m2, f);
      var rest := Fold(Without(m1, k));
      CombineLaws(OfRow(m[f]), OfRow(m[k]), rest);
      CombineLaws(OfRow(m[k]), OfRow(m[f]), rest);
    }
  }

  /** `r` is `m` without the keys `j` and `k`. */
  ghost predicate Drops(m: Table, r: Table, j: Key, k: Key) {
    && (forall x :: x in r <==> x in m && x != j && x != k)
    && forall x | x in r :: r[x] == m[x]
  }

  lemma WithoutDrops(m: Table, j: Key, k: Key)
    ensures Drops(m, Without(Without(m, j), k), j, k)
  {}

  lemma SameDrops(m: Table, l: Table, r: Table, j: Key, k: Key)
    requires Drops(m, l, j, k) && Drops(m, r, k, j)
    ensures l == r
  {}

  lemma WithoutSwap(m: Table, j: Key, k: Key)
    ensures Without(Without(m, j), k) == Without(Without(m, k), j)
  {
    hide *;
    WithoutDrops(m, j, k);
    WithoutDrops(m, k, j);
    SameDrops(m, Without(Without(m, j), k), Without(Without(m, k), j), j, k);
  }

  lemma WithoutUnion(a: Table, b: Table, k: Key)
    requires a.Keys !! b.Keys && k in a
    ensures Without(a + b, k) == Without(a, k) + b
  {
    assert (a + b).Keys == a.Keys + b.Keys;
    assert a + b - {k} == (a - {k}) + b;
  }

  /** Aggregating a disjoint union combines the aggregates of its parts. */
  lemma {:induction false} FoldUnion(a: Table, b: Table)
    requires a.Keys !! b.Keys
    ensures Fold(a + b) == Combine(Fold(a), Fold(b))
    decreases |a|
  {
    if a == map[] {
      hide Fold;
      FoldSome(a);
      assert a + b == b;
    } else {
      hide Fold, Combine;
      var k :| k in a;
      FoldUnion(Without(a, k), b);
      UnionStep(a, b, a + b, k);
    }
  }

  lemma UnionStep(a: Table, b: Table, u: Table, k: Key)
    requires a.Keys !! b.Keys && u == a + b && k in a
    requires Fold(Without(a, k) + b) == Combine(Fold(Without(a, k)), Fold(b))
    ensures Fold(u) == Combine(Fold(a), Fold(b))
  {
    hide *;
    WithoutUnion(a, b, k);
    FoldPick(a, k);
    FoldPick(u, k);
    CombineLaws(OfRow(a[k]), Fold(Without(a, k)), Fold(b));
  }

  lemma FoldSome(m: Table)
    ensures Fold(m).Nothing? <==> m == map[]
  {}

  // ---- What the aggregate of raw samples means ----

  function Lift(d: map<Key, real>): (t: Table)
    ensures t.Keys == d.Keys
  {
    map k | k in d :: OfSample(d[k])
  }

  /** The sum of the values of `d`. */
  ghost function Total(d: map<Key, real>): real
    decreases |d|
  {
    if d == map[] then 0.0
    else
      var k :| k in d;
      d[k] + Total(d - {k})
  }

  /** The order of summation does not matter. */
  lemma {:induction false} TotalPick(d: map<Key, real>, k: Key)
    requires k in d
    ensures Total(d) == d[k] + Total(d - {k})
    decreases |d|
  {
    var f :| f in d && Total(d) == d[f] + Total(d - {f});
    if f != k {
      TotalPick(d - {f}, k);
      TotalPick(d - {k}, f);
      assert d - {f} - {k} == d - {k} - {f};
    }
  }

  /** `a` counts the samples of `d`, sums them, and bounds them tightly. */
  ghost predicate Summarises(a: Agg, d: map<Key, real>) {
    && a.Agg?
    && a.cnt == |d|
    && a.sum == Total(d)
    && (forall k | k in d :: a.min <= d[k] <= a.max)
    && (exists k | k in d :: d[k] == a.min)
    && (exists k | k in d :: d[k] == a.max)
  }

  /** The aggregate of a non-empty group of raw samples. */
  lemma {:induction false} FoldMeaning(d: map<Key, real>)
    requires d != map[]
    ensures Summarises(Fold(Lift(d)), d)
    decreases |d|
  {
    var l, k := Lift(d), First(d.Keys);
    var d' := d - {k};
    TotalPick(d, k);
    WithoutLift(d, d', k);
    FoldPick(l, k);
    if d' == map[] {
      assert d.Keys == {k};
      assert k in d && d[k] == d[k];
    } else {
      FoldMeaning(d');
      MeaningStep(d, d', k, Fold(Lift(d')));
    }
  }

  lemma WithoutLift(d: map<Key, real>, d': map<Key, real>, k: Key)
    requires d'.Keys == d.Keys - {k} && forall x | x in d' :: d'[x] == d[x]
    ensures Without(Lift(d), k) == Lift(d')
  {
    var l, r := Without(Lift(d), k), Lift(d');
    assert l.Keys == r.Keys;
  }

  /** A summary extended by one more sample. */
  lemma MeaningStep(d: map<Key, real>, d': map<Key, real>, k: Key, rest: Agg)
    requires k in d && d' == d - {k} && Total(d) == d[k] + Total(d') && Summarises(rest, d')
    ensures Summarises(Combine(OfRow(OfSample(d[k])), rest), d)
  {
    assert d.Keys == d'.Keys + {k} && forall x | x in d' :: d'[x] == d[x];
    var lo :| lo in d' && d'[lo] == rest.min;
    var hi :| hi in d' && d'[hi] == rest.max;
    assert d[lo] == rest.min && d[hi] == rest.max;
    assert |d.Keys| == |d'.Keys| + 1;
    assert |d| == |d.Keys| && |d'| == |d'.Keys|;
  }

  /** avg_ is the true mean. */
  lemma MeanTimesCount(a: Agg)
    requires a.Agg?
    ensures RowOf(a).avg * RowOf(a).cnt as real == RowOf(a).sum
  {
    var n := a.cnt as real;
    assert (a.sum / n) * n == a.sum;
  }
}
