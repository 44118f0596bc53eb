/** Reading a container's series back: which table is read, and what its points say about history. */
module Series {
  import opened Common
  import opened RollupModel
  import opened RollupHistory
  import opened SampleStore

  datatype Point = Point(cpu: real, cpuMax: real, mem: real, memMax: real)

  /** int64(span / maxPoints), not below the minimum; `from` and `to` in nanoseconds. */
  function BucketSeconds(from: Time, to: Time, maxPoints: int, minimum: int): int {
    var n := if maxPoints <= 0 then 400 else maxPoints;
    var b := SqlDiv(to - from, n * SECOND);
    if b < minimum then minimum else b
  }

  predicate UsesRaw(now: Time, from: Time) { now - from <= DAY }

  function Slot(ts: int, b: int): int
    requires b > 0
  {
    SqlDiv(ts, b) * b
  }

  function Wanted(id: string, lo: int, hi: int): ContainerSample -> bool {
    (r: ContainerSample) => r.series == id && lo <= r.ts < hi
  }

  function InSlot(b: int, slot: int): ContainerSample -> bool
    requires b > 0
  {
    (r: ContainerSample) => Slot(r.ts, b) == slot
  }

  /** The raw query: points by slot, over the wanted rows. */
  function RawPoints(raw: seq<ContainerSample>, id: string, lo: int, hi: int, b: int): map<int, Point>
    requires b > 0
  {
    var rows := Where(raw, Wanted(id, lo, hi));
    map slot | slot in (set r | r in rows :: Slot(r.ts, b)) ::
      var g := Where(rows, InSlot(b, slot)); Point(Avg(g, CPU), Most(g, CPU), Avg(g, MEM), Most(g, MEM))
  }

  datatype Stamped = Stamped(ts: int, row: ContainerRow)

  /** The 5-minute rows of a container in [lo, hi), by time. */
  function Scan(rows: map<RowKey, ContainerRow>, id: string, lo: int, hi: int): seq<Stamped>
    decreases hi - lo
  {
    if lo >= hi then []
    else (if (id, lo) in rows then [Stamped(lo, rows[(id, lo)])] else []) + Scan(rows, id, lo + 1, hi)
  }

  function InSlotOf(b: int, slot: int): Stamped -> bool
    requires b > 0
  {
    (x: Stamped) => Slot(x.ts, b) == slot
  }

  const CPU_AVG: Stamped -> real := (x: Stamped) => x.row.cpuAvg
  const CPU_MAX: Stamped -> real := (x: Stamped) => x.row.cpuMax
  const MEM_AVG: Stamped -> real := (x: Stamped) => x.row.memAvg
  const MEM_MAX: Stamped -> real := (x: Stamped) => x.row.memMax

  /** The 5-minute query. */
  function RolledPoints(rows: map<RowKey, ContainerRow>, id: string, lo: int, hi: int, b: int): map<int, Point>
    requires b > 0
  {
    var list := Scan(rows, id, lo, hi);
    map slot | slot in (set x | x in list :: Slot(x.ts, b)) ::
      var g := Where(list, InSlotOf(b, slot));
      Point(Avg(g, CPU_AVG), Most(g, CPU_MAX), Avg(g, MEM_AVG), Most(g, MEM_MAX))
  }

  function ContainerSeries(db: Db, now: Time, id: string, from: Time, to: Time, maxPoints: int): map<int, Point> {
    if UsesRaw(now, from)
    then RawPoints(db.containers.raw, id, Unix(from), Unix(to), BucketSeconds(from, to, maxPoints, 15))
    else RolledPoints(db.containers.rows, id, Unix(from), Unix(to), BucketSeconds(from, to, maxPoints, 300))
  }

  // Averages and maxima of groups.

  lemma {:induction false} MostIsLargest<A>(g: seq<A>, col: A -> real, x: A)
    requires x in g
    ensures col(x) <= Most(g, col)
  {
    if |g| > 1 && x != g[0] { MostIsLargest(g[1..], col, x); }
    if |g| > 1 && x in g[1..] { MostIsLargest(g[1..], col, x); }
  }

  lemma {:induction false} MostIsReached<A>(g: seq<A>, col: A -> real) returns (x: A)
    requires g != []
    ensures x in g && col(x) == Most(g, col)
  {
    x := g[0];
    if |g| > 1 {
      var y := MostIsReached(g[1..], col);
      if col(g[0]) < Most(g[1..], col) { x := y; }
    }
  }

  lemma {:induction false} SumIsBounded<A>(g: seq<A>, col: A -> real, bound: real)
    requires forall x | x in g :: col(x) <= bound
    ensures Sum(g, col) <= bound * |g| as real
  {
    if g != [] {
      assert g[0] in g;
      SumIsBounded(g[1..], col, bound);
      assert bound * |g| as real == bound + bound * |g[1..]| as real;
    }
  }

  /** An average never exceeds the maximum of a column that dominates it row by row. */
  lemma AvgBelowMost<A>(g: seq<A>, col: A -> real, top: A -> real)
    requires g != [] && forall x | x in g :: col(x) <= top(x)
    ensures Avg(g, col) <= Most(g, top)
  {
    forall x | x in g ensures col(x) <= Most(g, top) { MostIsLargest(g, top, x); }
    SumIsBounded(g, col, Most(g, top));
    DivideBound(Sum(g, col), Most(g, top), |g| as real);
  }

  lemma DivideBound(s: real, m: real, n: real)
    requires n > 0.0 && s <= m * n
    ensures s / n <= m
  {
    assert s / n * n == s;
  }

  lemma InScan(rows: map<RowKey, ContainerRow>, id: string, lo: int, hi: int, x: Stamped)
    ensures x in Scan(rows, id, lo, hi) <==> lo <= x.ts < hi && (id, x.ts) in rows && rows[(id, x.ts)] == x.row
    decreases hi - lo
  {
    if lo < hi { InScan(rows, id, lo + 1, hi, x); }
  }

  // What the points say.

  /** Whenever the raw table is chosen, it still has every row of the window: the points are those over the
      whole history. `now` is no earlier than any rollup so far. */
  lemma RawSeriesIsComplete(
    h: History<ContainerValue, ContainerRow>, now: Time, id: string, from: Time, to: Time, b: int)
    requires Inv(h, ContainerAggregate) && h.latest <= now
    requires UsesRaw(now, from) && b > 0
    ensures Where(h.tier.raw, Wanted(id, Unix(from), Unix(to))) == Where(h.all, Wanted(id, Unix(from), Unix(to)))
    ensures RawPoints(h.tier.raw, id, Unix(from), Unix(to), b) == RawPoints(h.all, id, Unix(from), Unix(to), b)
  {
    UnixGrows(h.latest - DAY, from);
    WhereWhere(h.all, Since(h.rawFloor), Wanted(id, Unix(from), Unix(to)), Wanted(id, Unix(from), Unix(to)));
  }

  /** On the raw path no point's average exceeds its maximum. */
  lemma {:induction false} RawPointsAreOrdered(
    raw: seq<ContainerSample>, id: string, lo: int, hi: int, b: int, slot: int)
    requires b > 0 && slot in RawPoints(raw, id, lo, hi, b)
    ensures var p := RawPoints(raw, id, lo, hi, b)[slot]; p.cpu <= p.cpuMax && p.mem <= p.memMax
  {
    var rows := Where(raw, Wanted(id, lo, hi));
    var g := Where(rows, InSlot(b, slot));
    var r :| r in rows && Slot(r.ts, b) == slot;
    InWhere(rows, InSlot(b, slot), r);
    AvgBelowMost(g, CPU, CPU);
    AvgBelowMost(g, MEM, MEM);
  }

  /** Every kept row's averages stay below its maxima. */
  lemma {:induction false} RowsAreOrdered(h: History<ContainerValue, ContainerRow>, key: RowKey)
    requires Inv(h, ContainerAggregate) && key in h.tier.rows
    ensures h.tier.rows[key].cpuAvg <= h.tier.rows[key].cpuMax && h.tier.rows[key].memAvg <= h.tier.rows[key].memMax
  {
    var g := Where(h.all, OfKey(key));
    var r :| r in h.all && KeyOfRaw(r) == key;
    InWhere(h.all, OfKey(key), r);
    AvgBelowMost(g, CPU, CPU);
    AvgBelowMost(g, MEM, MEM);
  }

  /** On the 5-minute path, too, though there the point averages averages and takes maxima of maxima. */
  lemma {:induction false} RolledPointsAreOrdered(
    h: History<ContainerValue, ContainerRow>, id: string, lo: int, hi: int, b: int, slot: int)
    requires Inv(h, ContainerAggregate) && b > 0 && slot in RolledPoints(h.tier.rows, id, lo, hi, b)
    ensures var p := RolledPoints(h.tier.rows, id, lo, hi, b)[slot]; p.cpu <= p.cpuMax && p.mem <= p.memMax
  {
    var list := Scan(h.tier.rows, id, lo, hi);
    var g := Where(list, InSlotOf(b, slot));
    var x :| x in list && Slot(x.ts, b) == slot;
    InWhere(list, InSlotOf(b, slot), x);
    forall y | y in g ensures CPU_AVG(y) <= CPU_MAX(y) && MEM_AVG(y) <= MEM_MAX(y) {
      InWhere(list, InSlotOf(b, slot), y);
      InScan(h.tier.rows, id, lo, hi, y);
      RowsAreOrdered(h, (id, y.ts));
    }
    AvgBelowMost(g, CPU_AVG, CPU_MAX);
    AvgBelowMost(g, MEM_AVG, MEM_MAX);
  }

  /** A sample ever taken whose bucket starts in the window, is rolled up and still retained. */
  ghost predicate Covered(h: History<ContainerValue, ContainerRow>, id: string, lo: int, hi: int, r: ContainerSample) {
    && r in h.all && r.series == id && lo <= BucketOf(r.ts) < hi && h.keepFloor <= BucketOf(r.ts) < h.watermark
  }

  lemma {:induction false} PeakIsASample(
    h: History<ContainerValue, ContainerRow>, id: string, lo: int, hi: int, b: int, slot: int)
    returns (r: ContainerSample)
    requires Inv(h, ContainerAggregate) && b > 0 && slot in RolledPoints(h.tier.rows, id, lo, hi, b)
    ensures Covered(h, id, lo, hi, r) && r.v.cpu == RolledPoints(h.tier.rows, id, lo, hi, b)[slot].cpuMax
  {
    var list := Scan(h.tier.rows, id, lo, hi);
    var g := Where(list, InSlotOf(b, slot));
    var w :| w in list && Slot(w.ts, b) == slot;
    InWhere(list, InSlotOf(b, slot), w);
    var x := MostIsReached(g, CPU_MAX);
    InWhere(list, InSlotOf(b, slot), x);
    InScan(h.tier.rows, id, lo, hi, x);
    var key := (id, x.ts);
    var s :| s in h.all && KeyOfRaw(s) == key;
    InWhere(h.all, OfKey(key), s);
    r := MostIsReached(Where(h.all, OfKey(key)), CPU);
    InWhere(h.all, OfKey(key), r);
  }

  lemma {:induction false} SampleIsBelowAPeak(
    h: History<ContainerValue, ContainerRow>, id: string, lo: int, hi: int, b: int, r: ContainerSample)
    returns (slot: int)
    requires Inv(h, ContainerAggregate) && b > 0 && Covered(h, id, lo, hi, r)
    ensures slot in RolledPoints(h.tier.rows, id, lo, hi, b)
    ensures r.v.cpu <= RolledPoints(h.tier.rows, id, lo, hi, b)[slot].cpuMax
  {
    var key := KeyOfRaw(r);
    assert InAll(h.all, key) && key in h.tier.rows;
    var x := Stamped(key.1, h.tier.rows[key]);
    var list := Scan(h.tier.rows, id, lo, hi);
    InScan(h.tier.rows, id, lo, hi, x);
    slot := Slot(x.ts, b);
    InWhere(list, InSlotOf(b, slot), x);
    MostIsLargest(Where(list, InSlotOf(b, slot)), CPU_MAX, x);
    InWhere(h.all, OfKey(key), r);
    MostIsLargest(Where(h.all, OfKey(key)), CPU, r);
  }

  /** On the 5-minute path the largest CPUMax is the largest raw CPU ever sampled in the covered buckets,
      long after those samples were deleted, and whatever the slot width. */
  lemma {:induction false} PeakSurvivesRollup(
    h: History<ContainerValue, ContainerRow>, id: string, lo: int, hi: int, b: int, level: real)
    requires Inv(h, ContainerAggregate) && b > 0
    ensures (exists slot :: slot in RolledPoints(h.tier.rows, id, lo, hi, b)
                            && RolledPoints(h.tier.rows, id, lo, hi, b)[slot].cpuMax >= level)
       <==> (exists r :: Covered(h, id, lo, hi, r) && r.v.cpu >= level)
  {
    if slot :| slot in RolledPoints(h.tier.rows, id, lo, hi, b)
               && RolledPoints(h.tier.rows, id, lo, hi, b)[slot].cpuMax >= level {
      var r := PeakIsASample(h, id, lo, hi, b, slot);
    }
    if r :| Covered(h, id, lo, hi, r) && r.v.cpu >= level {
      var slot := SampleIsBelowAPeak(h, id, lo, hi, b, r);
    }
  }

  // The query as a whole.

  /** Whichever table answers, no point's average exceeds its maximum, and the raw answer is the one the whole
      history would give. */
  lemma {:induction false} SeriesAgreesWithHistory(
    db: Db, h: History<ContainerValue, ContainerRow>, now: Time, id: string, from: Time, to: Time, maxPoints: int)
    requires Inv(h, ContainerAggregate) && db.containers == h.tier && h.latest <= now
    ensures UsesRaw(now, from) ==> (
              ContainerSeries(db, now, id, from, to, maxPoints) ==
              RawPoints(h.all, id, Unix(from), Unix(to), BucketSeconds(from, to, maxPoints, 15)))
    ensures forall slot | slot in ContainerSeries(db, now, id, from, to, maxPoints) ::
              var p := ContainerSeries(db, now, id, from, to, maxPoints)[slot]; p.cpu <= p.cpuMax && p.mem <= p.memMax
  {
    var series := ContainerSeries(db, now, id, from, to, maxPoints);
    var b := BucketSeconds(from, to, maxPoints, if UsesRaw(now, from) then 15 else 300);
    if UsesRaw(now, from) { RawSeriesIsComplete(h, now, id, from, to, b); }
    forall slot | slot in series
      ensures series[slot].cpu <= series[slot].cpuMax && series[slot].mem <= series[slot].memMax
    {
      if UsesRaw(now, from) {
        RawPointsAreOrdered(h.tier.raw, id, Unix(from), Unix(to), b, slot);
      } else {
        RolledPointsAreOrdered(h, id, Unix(from), Unix(to), b, slot);
      }
    }
  }
}
