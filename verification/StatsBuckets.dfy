/**
 `downsampleStats` (service/stats.go:116-159): statistics in time buckets, one average per bucket and direction.
 Integers are unbounded; Go's division truncates toward zero.
 */
module StatsBuckets {

  datatype Stat = Stat(dateTime: int, resource: string, tag: string, direction: bool, traffic: int)

  /** The buckets between two times. */
  datatype Grid = Grid(timeMin: int, timeMax: int, buckets: nat)

  predicate ValidGrid(g: Grid) {
    g.buckets > 0 && g.timeMin <= g.timeMax
  }

  function Span(g: Grid): (r: nat)
    requires ValidGrid(g)
    ensures r > 0
  {
    var span := (g.timeMax - g.timeMin) / g.buckets;
    if span == 0 then 1 else span
  }

  function Start(g: Grid, i: nat): int
    requires ValidGrid(g)
  {
    g.timeMin + i * Span(g)
  }

  function End(g: Grid, i: nat): int
    requires ValidGrid(g)
  {
    if i == g.buckets - 1 then g.timeMax + 1 else Start(g, i + 1)
  }

  predicate InCell(g: Grid, r: Stat, i: nat, dir: bool)
    requires ValidGrid(g)
  {
    Start(g, i) <= r.dateTime < End(g, i) && r.direction == dir
  }

  predicate InGrid(g: Grid, stats: seq<Stat>) {
    forall k :: 0 <= k < |stats| ==> g.timeMin <= stats[k].dateTime <= g.timeMax
  }

  function Sum(g: Grid, stats: seq<Stat>, i: nat, dir: bool): int
    requires ValidGrid(g)
  {
    if stats == [] then 0
    else
      var r := stats[|stats| - 1];
      Sum(g, stats[..|stats| - 1], i, dir) + if InCell(g, r, i, dir) then r.traffic else 0
  }

  function Count(g: Grid, stats: seq<Stat>, i: nat, dir: bool): nat
    requires ValidGrid(g)
  {
    if stats == [] then 0
    else
      var r := stats[|stats| - 1];
      Count(g, stats[..|stats| - 1], i, dir) + if InCell(g, r, i, dir) then 1 else 0
  }

  /** Go's integer division. */
  function Quotient(a: int, b: nat): int
    requires b > 0
  {
    if a >= 0 then a / b else -((-a) / b)
  }

  function Average(g: Grid, stats: seq<Stat>, i: nat, dir: bool): int
    requires ValidGrid(g)
  {
    if Count(g, stats, i, dir) > 0 then Quotient(Sum(g, stats, i, dir), Count(g, stats, i, dir)) else 0
  }

  function Row(g: Grid, stats: seq<Stat>, i: nat, dir: bool): Stat
    requires ValidGrid(g) && stats != []
  {
    Stat(Start(g, i), stats[0].resource, stats[0].tag, dir, Average(g, stats, i, dir))
  }

  /** The rows of a bucket stand at its beginning, at equal distances from the first input row on. */
  lemma RowTimes(g: Grid, stats: seq<Stat>, i: nat, dir: bool)
    requires ValidGrid(g) && stats != [] && i < g.buckets
    ensures Row(g, stats, 0, dir).dateTime == g.timeMin
    ensures Row(g, stats, i + 1, dir).dateTime - Row(g, stats, i, dir).dateTime ==
      (if (g.timeMax - g.timeMin) / g.buckets == 0 then 1 else (g.timeMax - g.timeMin) / g.buckets)
    ensures forall r: Stat :: InCell(g, r, i, dir) ==> Row(g, stats, i, dir).dateTime <= r.dateTime && r.direction == dir
  {
    hide Average;
    assert (i + 1) * Span(g) == i * Span(g) + Span(g);
  }

  predicate ByTime(stats: seq<Stat>) {
    forall i, j :: 0 <= i < j < |stats| ==> stats[i].dateTime <= stats[j].dateTime
  }

  function GridOf(stats: seq<Stat>, maxRows: nat): Grid
    requires stats != []
  {
    Grid(stats[0].dateTime, stats[|stats| - 1].dateTime, maxRows / 2)
  }

  // ---------------------------------------------------------------- the loops

  /** `sort.Slice` promises an order by time and nothing about rows of equal time. */
  method SortByTime(stats: seq<Stat>) returns (sorted: seq<Stat>)
    ensures ByTime(sorted) && multiset(sorted) == multiset(stats)
  {
    hide ByTime;
    NothingByTime();
    sorted := [];
    for i := 0 to |stats|
      invariant ByTime(sorted) && multiset(sorted) == multiset(stats[..i])
    {
      var k := 0;
      while k < |sorted| && sorted[k].dateTime <= stats[i].dateTime
        invariant 0 <= k <= |sorted|
        invariant k > 0 ==> sorted[k - 1].dateTime <= stats[i].dateTime
      {
        k := k + 1;
      }
      assert stats[..i + 1] == stats[..i] + [stats[i]];
      Inserted(sorted, stats[i], k);
      sorted := sorted[..k] + [stats[i]] + sorted[k..];
    }
    assert stats[..|stats|] == stats;
  }

  lemma Inserted(sorted: seq<Stat>, x: Stat, k: nat)
    requires ByTime(sorted) && k <= |sorted|
    requires k > 0 ==> sorted[k - 1].dateTime <= x.dateTime
    requires k < |sorted| ==> x.dateTime < sorted[k].dateTime
    ensures ByTime(sorted[..k] + [x] + sorted[k..])
    ensures multiset(sorted[..k] + [x] + sorted[k..]) == multiset(sorted) + multiset{x}
  {
    hide ByTime;
    var before, after := sorted[..k], sorted[k..];
    SlicesByTime(sorted, x, k);
    JoinedByTime(before, [x]);
    JoinedByTime(before + [x], after);
    assert sorted == before + after;
    SameContents(before, x, after);
  }

  lemma SameContents(before: seq<Stat>, x: Stat, after: seq<Stat>)
    ensures multiset(before + [x] + after) == multiset(before + after) + multiset{x}
  {
    assert multiset(before + [x]) == multiset(before) + multiset{x};
  }

  lemma NothingByTime()
    ensures ByTime([])
  {
  }

  lemma SlicesByTime(sorted: seq<Stat>, x: Stat, k: nat)
    requires ByTime(sorted) && k <= |sorted|
    ensures ByTime(sorted[..k]) && ByTime(sorted[k..]) && ByTime([x])
  {
  }

  lemma JoinedByTime(a: seq<Stat>, b: seq<Stat>)
    requires ByTime(a) && ByTime(b)
    requires a != [] && b != [] ==> a[|a| - 1].dateTime <= b[0].dateTime
    ensures ByTime(a + b)
  {
    forall i, j | 0 <= i < j < |a + b|
      ensures (a + b)[i].dateTime <= (a + b)[j].dateTime
    {
      if i < |a| <= j {
        assert a[i].dateTime <= a[|a| - 1].dateTime && b[0].dateTime <= b[j - |a|].dateTime;
      }
    }
  }

  method CellAverage(g: Grid, stats: seq<Stat>, i: nat, dir: bool) returns (avg: int)
    requires ValidGrid(g)
    ensures avg == Average(g, stats, i, dir)
  {
    hide InCell, Quotient;
    var sum, count := 0, 0;
    for k := 0 to |stats|
      invariant sum == Sum(g, stats[..k], i, dir) && count == Count(g, stats[..k], i, dir)
    {
      assert stats[..k + 1][..k] == stats[..k];
      if InCell(g, stats[k], i, dir) {
        sum := sum + stats[k].traffic;
        count := count + 1;
      }
    }
    assert stats[..|stats|] == stats;
    avg := 0;
    if count > 0 {
      avg := Quotient(sum, count);
    }
  }

  /** Asked for fewer than two rows there is no bucket, and with more input than that the source panics.
      `sorted` is the order the rows were put into. */
  method DownsampleStats(stats: seq<Stat>, maxRows: int) returns (r: seq<Stat>, sorted: seq<Stat>)
    requires |stats| <= maxRows || maxRows >= 2
    ensures |stats| <= maxRows ==> r == stats
    ensures |stats| > maxRows ==> |r| == maxRows / 2 * 2
    ensures |stats| > maxRows ==> sorted != [] && Labelled(r, sorted[0])
    ensures |stats| > maxRows ==>
      && ByTime(sorted) && multiset(sorted) == multiset(stats) && sorted != []
      && var g := GridOf(sorted, maxRows);
         && ValidGrid(g) && InGrid(g, sorted)
         && |r| == 2 * g.buckets
         && forall i :: 0 <= i < g.buckets ==> r[2 * i] == Row(g, sorted, i, false) && r[2 * i + 1] == Row(g, sorted, i, true)
  {
    if |stats| <= maxRows {
      return stats, stats;
    }
    sorted := SortByTime(stats);
    assert |multiset(sorted)| == |sorted| && |multiset(stats)| == |stats|;
    var g := GridOf(sorted, maxRows);
    r := Buckets(g, sorted);
  }

  /** All rows bear the labels of the first input row; download and upload take turns. */
  predicate Labelled(rows: seq<Stat>, first: Stat) {
    forall k :: 0 <= k < |rows| ==>
      rows[k].resource == first.resource && rows[k].tag == first.tag && (rows[k].direction <==> k % 2 == 1)
  }

  method Buckets(g: Grid, stats: seq<Stat>) returns (r: seq<Stat>)
    requires ValidGrid(g) && stats != []
    ensures |r| == 2 * g.buckets && Labelled(r, stats[0])
    ensures forall i :: 0 <= i < g.buckets ==> r[2 * i] == Row(g, stats, i, false) && r[2 * i + 1] == Row(g, stats, i, true)
  {
    hide Average, Start;
    r := [];
    for i := 0 to g.buckets
      invariant |r| == 2 * i && Labelled(r, stats[0])
      invariant forall k :: 0 <= k < i ==> r[2 * k] == Row(g, stats, k, false) && r[2 * k + 1] == Row(g, stats, k, true)
    {
      var down := CellAverage(g, stats, i, false);
      var up := CellAverage(g, stats, i, true);
      r := r + [Stat(Start(g, i), stats[0].resource, stats[0].tag, false, down),
                Stat(Start(g, i), stats[0].resource, stats[0].tag, true, up)];
    }
  }

  // ---------------------------------------------------------------- every row in exactly one cell

  function BucketOf(g: Grid, time: int): (i: nat)
    requires ValidGrid(g) && g.timeMin <= time <= g.timeMax
    ensures i < g.buckets
  {
    var i := (time - g.timeMin) / Span(g);
    if i >= g.buckets - 1 then g.buckets - 1 else i
  }

  lemma QuotientIff(x: nat, d: nat, i: nat)
    requires d > 0
    ensures i <= x / d <==> i * d <= x
    ensures x / d < i <==> x < i * d
  {
    var q, r := x / d, x % d;
    assert x == q * d + r;
    if i <= q {
      assert q * d == i * d + (q - i) * d;
      assert (q - i) * d >= 0;
    } else {
      assert i * d == q * d + (i - q) * d;
      LargerProduct(i - q, d);
    }
  }

  lemma LargerProduct(k: nat, d: nat)
    requires k >= 1
    ensures k * d >= d
  {
    assert k * d == d + (k - 1) * d;
    assert (k - 1) * d >= 0;
  }

  /** A time of the grid lies in exactly one bucket, also when the span is forced to one. */
  lemma ExactlyOneBucket(g: Grid, time: int, i: nat)
    requires ValidGrid(g) && g.timeMin <= time <= g.timeMax && i < g.buckets
    ensures Start(g, i) <= time < End(g, i) <==> i == BucketOf(g, time)
  {
    hide Span;
    var x, d := time - g.timeMin, Span(g);
    QuotientIff(x, d, i);
    QuotientIff(x, d, i + 1);
  }

  lemma OneCell(g: Grid, r: Stat, i: nat, dir: bool)
    requires ValidGrid(g) && g.timeMin <= r.dateTime <= g.timeMax && i < g.buckets
    ensures InCell(g, r, i, dir) <==> i == BucketOf(g, r.dateTime) && dir == r.direction
  {
    ExactlyOneBucket(g, r.dateTime, i);
  }

  /** The emitted rows are in the order of time. */
  lemma RowsInOrder(g: Grid, stats: seq<Stat>, i: nat, j: nat)
    requires ValidGrid(g) && stats != [] && i <= j
    ensures Row(g, stats, i, false).dateTime == Row(g, stats, i, true).dateTime <= Row(g, stats, j, false).dateTime
  {
    assert j * Span(g) == i * Span(g) + (j - i) * Span(g);
    assert (j - i) * Span(g) >= 0;
  }

  // ---------------------------------------------------------------- averages

  lemma {:induction false} SumWithin(g: Grid, stats: seq<Stat>, i: nat, dir: bool, lo: int, hi: int)
    requires ValidGrid(g)
    requires forall k :: 0 <= k < |stats| && InCell(g, stats[k], i, dir) ==> lo <= stats[k].traffic <= hi
    ensures lo * Count(g, stats, i, dir) <= Sum(g, stats, i, dir) <= hi * Count(g, stats, i, dir)
  {
    if stats != [] {
      var before := stats[..|stats| - 1];
      SumWithin(g, before, i, dir, lo, hi);
      OneTimesMore(lo, Count(g, before, i, dir));
      OneTimesMore(hi, Count(g, before, i, dir));
    }
  }

  lemma OneTimesMore(x: int, n: nat)
    ensures x * (n + 1) == x * n + x
  {
  }

  lemma QuotientWithin(a: int, b: nat, lo: int, hi: int)
    requires b > 0 && lo * b <= a <= hi * b
    ensures lo <= Quotient(a, b) <= hi
  {
    var x: nat := if a >= 0 then a else -a;
    if a >= 0 {
      NatQuotientWithin(x, b, lo, hi);
    } else {
      NegatedProduct(lo, b);
      NegatedProduct(hi, b);
      NatQuotientWithin(x, b, -hi, -lo);
    }
  }

  lemma NatQuotientWithin(x: nat, b: nat, lo: int, hi: int)
    requires b > 0 && lo * b <= x <= hi * b
    ensures lo <= x / b <= hi
  {
    var q := x / b;
    QuotientBounds(x, b);
    Between(q, q * b, b, x, lo, hi);
  }

  lemma NegatedProduct(x: int, b: int)
    ensures (-x) * b == -(x * b)
  {
  }

  lemma QuotientBounds(a: nat, b: nat)
    requires b > 0
    ensures a / b * b <= a < a / b * b + b
  {
    assert a == a / b * b + a % b;
  }

  /** A truncated quotient stays within integer bounds of the exact one. */
  lemma Between(q: nat, qb: int, b: nat, a: int, lo: int, hi: int)
    requires b > 0 && qb == q * b && qb <= a < qb + b && lo * b <= a <= hi * b
    ensures lo <= q <= hi
  {
    if q < lo {
      ProductsApart(lo, q, b);
    } else if hi < q {
      ProductsApart(q, hi, b);
    }
  }

  lemma ProductsApart(x: int, y: int, b: nat)
    requires x > y
    ensures x * b >= y * b + b
  {
    LargerProduct(x - y, b);
    assert x * b == y * b + (x - y) * b;
  }

  /** The average of a cell with rows lies between any bounds of its rows. */
  lemma AverageWithin(g: Grid, stats: seq<Stat>, i: nat, dir: bool, lo: int, hi: int)
    requires ValidGrid(g) && Count(g, stats, i, dir) > 0
    requires forall k :: 0 <= k < |stats| && InCell(g, stats[k], i, dir) ==> lo <= stats[k].traffic <= hi
    ensures lo <= Average(g, stats, i, dir) <= hi
  {
    hide Quotient, InCell;
    SumWithin(g, stats, i, dir, lo, hi);
    QuotientWithin(Sum(g, stats, i, dir), Count(g, stats, i, dir), lo, hi);
  }

  // ---------------------------------------------------------------- traffic over all cells

  function TotalTraffic(stats: seq<Stat>): int {
    if stats == [] then 0 else TotalTraffic(stats[..|stats| - 1]) + stats[|stats| - 1].traffic
  }

  function SumOfCells(g: Grid, stats: seq<Stat>, n: nat): int
    requires ValidGrid(g)
  {
    if n == 0 then 0 else SumOfCells(g, stats, n - 1) + Sum(g, stats, n - 1, false) + Sum(g, stats, n - 1, true)
  }

  function CountOfCells(g: Grid, stats: seq<Stat>, n: nat): nat
    requires ValidGrid(g)
  {
    if n == 0 then 0 else CountOfCells(g, stats, n - 1) + Count(g, stats, n - 1, false) + Count(g, stats, n - 1, true)
  }

  /** What the averages stand for: each counted as often as its cell has rows. */
  function Weighted(g: Grid, stats: seq<Stat>, n: nat): int
    requires ValidGrid(g)
  {
    if n == 0 then 0
    else Weighted(g, stats, n - 1)
         + Average(g, stats, n - 1, false) * Count(g, stats, n - 1, false)
         + Average(g, stats, n - 1, true) * Count(g, stats, n - 1, true)
  }

  lemma {:induction false} OneRowMore(g: Grid, stats: seq<Stat>, n: nat)
    requires ValidGrid(g) && stats != [] && InGrid(g, stats) && n <= g.buckets
    ensures var before, r := stats[..|stats| - 1], stats[|stats| - 1];
      && SumOfCells(g, stats, n) == SumOfCells(g, before, n) + (if BucketOf(g, r.dateTime) < n then r.traffic else 0)
      && CountOfCells(g, stats, n) == CountOfCells(g, before, n) + (if BucketOf(g, r.dateTime) < n then 1 else 0)
  {
    hide InCell, BucketOf;
    if n > 0 {
      OneRowMore(g, stats, n - 1);
      OneCell(g, stats[|stats| - 1], n - 1, false);
      OneCell(g, stats[|stats| - 1], n - 1, true);
    }
  }

  /** The cells take in every row once: their sums and counts add up to those of all rows. */
  lemma {:induction false} CellsPartitionRows(g: Grid, stats: seq<Stat>)
    requires ValidGrid(g) && InGrid(g, stats)
    ensures SumOfCells(g, stats, g.buckets) == TotalTraffic(stats)
    ensures CountOfCells(g, stats, g.buckets) == |stats|
  {
    if stats == [] {
      NoRows(g, g.buckets);
    } else {
      OneRowMore(g, stats, g.buckets);
      CellsPartitionRows(g, stats[..|stats| - 1]);
    }
  }

  lemma {:induction false} NoRows(g: Grid, n: nat)
    requires ValidGrid(g)
    ensures SumOfCells(g, [], n) == 0 && CountOfCells(g, [], n) == 0
  {
    if n > 0 {
      NoRows(g, n - 1);
    }
  }

  predicate NonNegative(stats: seq<Stat>) {
    forall k :: 0 <= k < |stats| ==> stats[k].traffic >= 0
  }

  lemma {:induction false} SumNonNegative(g: Grid, stats: seq<Stat>, i: nat, dir: bool)
    requires ValidGrid(g) && NonNegative(stats)
    ensures Sum(g, stats, i, dir) >= 0
    ensures Count(g, stats, i, dir) == 0 ==> Sum(g, stats, i, dir) == 0
  {
    if stats != [] {
      SumNonNegative(g, stats[..|stats| - 1], i, dir);
    }
  }

  lemma CellLoss(g: Grid, stats: seq<Stat>, i: nat, dir: bool)
    requires ValidGrid(g) && NonNegative(stats)
    ensures var w := Average(g, stats, i, dir) * Count(g, stats, i, dir);
      && w <= Sum(g, stats, i, dir)
      && Sum(g, stats, i, dir) - w <= Count(g, stats, i, dir)
      && (Count(g, stats, i, dir) > 0 ==> Sum(g, stats, i, dir) - w < Count(g, stats, i, dir))
  {
    SumNonNegative(g, stats, i, dir);
    if Count(g, stats, i, dir) > 0 {
      QuotientBounds(Sum(g, stats, i, dir), Count(g, stats, i, dir));
    }
  }

  lemma {:induction false} LossOfCells(g: Grid, stats: seq<Stat>, n: nat)
    requires ValidGrid(g) && NonNegative(stats)
    ensures Weighted(g, stats, n) <= SumOfCells(g, stats, n)
    ensures SumOfCells(g, stats, n) - Weighted(g, stats, n) <= CountOfCells(g, stats, n)
    ensures CountOfCells(g, stats, n) > 0 ==> SumOfCells(g, stats, n) - Weighted(g, stats, n) < CountOfCells(g, stats, n)
  {
    hide Average;
    if n > 0 {
      LossOfCells(g, stats, n - 1);
      CellLoss(g, stats, n - 1, false);
      CellLoss(g, stats, n - 1, true);
    }
  }

  /** The averages, weighted by the rows behind them, never exceed the traffic and miss less than one byte
      a row. */
  lemma AveragesAccountForTraffic(g: Grid, stats: seq<Stat>)
    requires ValidGrid(g) && InGrid(g, stats) && NonNegative(stats) && stats != []
    ensures Weighted(g, stats, g.buckets) <= TotalTraffic(stats) < Weighted(g, stats, g.buckets) + |stats|
  {
    CellsPartitionRows(g, stats);
    LossOfCells(g, stats, g.buckets);
  }
}
