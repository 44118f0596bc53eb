/** What the points of a container's series say, in terms of the samples ever taken. */
module SeriesMeaning {
  import opened Common
  import opened RollupModel
  import opened RollupHistory
  import opened SampleStore
  import opened Series

  /** How many elements satisfy `p`, and what they add up to in a column. */
  function Number<A>(s: seq<A>, p: A -> bool): nat {
    if s == [] then 0 else (if p(s[0]) then 1 else 0) + Number(s[1..], p)
  }

  function Total<A>(s: seq<A>, p: A -> bool, col: A -> real): real {
    if s == [] then 0.0 else (if p(s[0]) then col(s[0]) else 0.0) + Total(s[1..], p, col)
  }

  lemma {:induction false} FilteredAddsUp<A>(s: seq<A>, p: A -> bool, col: A -> real)
    ensures |Where(s, p)| == Number(s, p) && Sum(Where(s, p), col) == Total(s, p, col)
  {
    if s != [] {
      FilteredAddsUp(s[1..], p, col);
      if p(s[0]) { assert Where(s, p)[1..] == Where(s[1..], p); }
    }
  }

  lemma {:induction false} SameTotals<A>(s: seq<A>, p: A -> bool, q: A -> bool, col: A -> real)
    requires forall x | x in s :: p(x) <==> q(x)
    ensures Number(s, p) == Number(s, q) && Total(s, p, col) == Total(s, q, col)
  {
    if s != [] {
      assert s[0] in s;
      SameTotals(s[1..], p, q, col);
    }
  }

  /** The sample is the container's own, was taken in the window and falls into the slot. */
  predicate Own(r: ContainerSample, id: string, from: Time, to: Time, b: int, slot: int)
    requires b > 0
  {
    r.series == id && from / SECOND <= r.ts < to / SECOND && r.ts / b * b == slot
  }

  /** The slot's point, for a column and its average and maximum over the container's own samples. */
  ghost predicate Describes(
    all: seq<ContainerSample>, id: string, from: Time, to: Time, b: int, slot: int,
    col: ContainerSample -> real, avg: real, most: real)
    requires b > 0
  {
    var own := (r: ContainerSample) => Own(r, id, from, to, b, slot);
    && avg * Number(all, own) as real == Total(all, own, col)
    && (exists r :: r in all && Own(r, id, from, to, b, slot) && col(r) == most)
    && (forall r | r in all && Own(r, id, from, to, b, slot) :: col(r) <= most)
  }

  lemma SlotOfASample(ts: int, b: int)
    requires b > 0 && ts >= 0
    ensures Slot(ts, b) == ts / b * b
  {}

  /** The rows a raw point is made of are the container's own samples in its slot. */
  lemma {:induction false} RawGroup(
    all: seq<ContainerSample>, id: string, from: Time, to: Time, b: int, slot: int)
    requires b > 0 && forall r | r in all :: r.ts >= 0
    ensures var own := (r: ContainerSample) => Own(r, id, from, to, b, slot);
      Where(Where(all, Wanted(id, Unix(from), Unix(to))), InSlot(b, slot)) == Where(all, own)
  {
    var own := (r: ContainerSample) => Own(r, id, from, to, b, slot);
    forall r | r in all ensures own(r) <==> Wanted(id, Unix(from), Unix(to))(r) && InSlot(b, slot)(r) {
      SlotOfASample(r.ts, b);
    }
    WhereWhere(all, Wanted(id, Unix(from), Unix(to)), InSlot(b, slot), own);
  }

  lemma {:induction false} GroupDescribes(
    all: seq<ContainerSample>, id: string, from: Time, to: Time, b: int, slot: int, g: seq<ContainerSample>,
    col: ContainerSample -> real)
    requires b > 0 && g != []
    requires g == Where(all, (r: ContainerSample) => Own(r, id, from, to, b, slot))
    ensures Describes(all, id, from, to, b, slot, col, Avg(g, col), Most(g, col))
  {
    hide Own, Avg, Most, Where, Sum, Number, Total;
    var own := (r: ContainerSample) => Own(r, id, from, to, b, slot);
    FilteredAddsUp(all, own, col);
    AvgTimesCount(g, col);
    forall r ensures r in g <==> r in all && Own(r, id, from, to, b, slot) { InWhere(all, own, r); }
    forall r | r in g ensures col(r) <= Most(g, col) { MostIsLargest(g, col, r); }
    var top := MostIsReached(g, col);
  }

  /** The points of a raw table: which slots have one, and what it says of CPU and memory. */
  lemma {:induction false} RawPointsMean(
    all: seq<ContainerSample>, id: string, from: Time, to: Time, b: int, slot: int)
    requires b > 0 && forall r | r in all :: r.ts >= 0
    ensures var points := RawPoints(all, id, Unix(from), Unix(to), b);
      && (slot in points <==> exists r :: r in all && Own(r, id, from, to, b, slot))
      && (slot in points ==>
            Describes(all, id, from, to, b, slot,
              (r: ContainerSample) => r.v.cpu, points[slot].cpu, points[slot].cpuMax))
      && (slot in points ==>
            Describes(all, id, from, to, b, slot,
              (r: ContainerSample) => r.v.mem, points[slot].mem, points[slot].memMax))
  {
    var rows := Where(all, Wanted(id, Unix(from), Unix(to)));
    var g := Where(rows, InSlot(b, slot));
    var own := (r: ContainerSample) => Own(r, id, from, to, b, slot);
    RawGroup(all, id, from, to, b, slot);
    forall r ensures r in g <==> r in all && Own(r, id, from, to, b, slot) { InWhere(all, own, r); }
    forall r ensures r in g <==> r in rows && Slot(r.ts, b) == slot { InWhere(rows, InSlot(b, slot), r); }
    if g != [] {
      assert g[0] in g;
      GroupDescribes(all, id, from, to, b, slot, g, CPU);
      GroupDescribes(all, id, from, to, b, slot, g, MEM);
    }
  }

  /** The raw path of ContainerSeries, for a window that began at most 24 hours ago: exactly the slots in which the
      container itself was sampled have a point, and its averages and maxima are those of its own samples of the
      window, of all that were ever taken. */
  lemma {:induction false} RawSeriesMeans(
    db: Db, h: History<ContainerValue, ContainerRow>, now: Time, id: string, from: Time, to: Time, maxPoints: int,
    slot: int)
    requires Inv(h, ContainerAggregate) && db.containers == h.tier && h.latest <= now
    requires now - from <= 24 * 3600 * SECOND
    ensures var series, b := ContainerSeries(db, now, id, from, to, maxPoints), BucketSeconds(from, to, maxPoints, 15);
      && (slot in series <==> exists r :: r in h.all && Own(r, id, from, to, b, slot))
      && (slot in series ==>
            Describes(h.all, id, from, to, b, slot,
              (r: ContainerSample) => r.v.cpu, series[slot].cpu, series[slot].cpuMax))
      && (slot in series ==>
            Describes(h.all, id, from, to, b, slot,
              (r: ContainerSample) => r.v.mem, series[slot].mem, series[slot].memMax))
  {
    hide RawPoints, RolledPoints, Describes;
    RawSeriesIsComplete(h, now, id, from, to, BucketSeconds(from, to, maxPoints, 15));
    RawPointsMean(h.all, id, from, to, BucketSeconds(from, to, maxPoints, 15), slot);
  }

  /** Samples of other containers, and rows of other containers, change nothing. */
  lemma {:induction false} OthersChangeNothing(
    db: Db, other: Db, now: Time, id: string, from: Time, to: Time, maxPoints: int)
    requires var mine := (r: ContainerSample) => r.series == id;
      Where(db.containers.raw, mine) == Where(other.containers.raw, mine)
    requires forall t :: (id, t) in db.containers.rows <==> (id, t) in other.containers.rows
    requires forall t | (id, t) in db.containers.rows :: db.containers.rows[(id, t)] == other.containers.rows[(id, t)]
    ensures ContainerSeries(db, now, id, from, to, maxPoints) == ContainerSeries(other, now, id, from, to, maxPoints)
  {
    var mine := (r: ContainerSample) => r.series == id;
    var wanted := Wanted(id, Unix(from), Unix(to));
    WhereWhere(db.containers.raw, mine, wanted, wanted);
    WhereWhere(other.containers.raw, mine, wanted, wanted);
    SameScan(db.containers.rows, other.containers.rows, id, Unix(from), Unix(to));
  }

  lemma {:induction false} SameScan(
    rows: map<RowKey, ContainerRow>, other: map<RowKey, ContainerRow>, id: string, lo: int, hi: int)
    requires forall t :: (id, t) in rows <==> (id, t) in other
    requires forall t | (id, t) in rows :: rows[(id, t)] == other[(id, t)]
    ensures Scan(rows, id, lo, hi) == Scan(other, id, lo, hi)
    decreases hi - lo
  {
    if lo < hi { SameScan(rows, other, id, lo + 1, hi); }
  }

  // The 5-minute path.

  /** The five minutes from `t` on have a row of the container, lie in the window and fall into the slot. */
  predicate OwnRow(rows: map<RowKey, ContainerRow>, id: string, from: Time, to: Time, b: int, slot: int, t: int)
    requires b > 0
  {
    (id, t) in rows && from / SECOND <= t < to / SECOND && t / b * b == slot
  }

  /** As in every run: no sample is stored with a negative time. */
  predicate SinceEpoch(rows: map<RowKey, ContainerRow>) { forall key | key in rows :: key.1 >= 0 }

  /** How many such rows there are from `lo` up to `hi`, and what their averages add up to. */
  function RowNumber(
    rows: map<RowKey, ContainerRow>, id: string, from: Time, to: Time, b: int, slot: int, lo: int, hi: int): nat
    requires b > 0
    decreases hi - lo
  {
    if lo >= hi then 0 else
      (if OwnRow(rows, id, from, to, b, slot, lo) then 1 else 0)
      + RowNumber(rows, id, from, to, b, slot, lo + 1, hi)
  }

  function RowTotal(
    rows: map<RowKey, ContainerRow>, id: string, from: Time, to: Time, b: int, slot: int, col: ContainerRow -> real,
    lo: int, hi: int): real
    requires b > 0
    decreases hi - lo
  {
    if lo >= hi then 0.0 else
      (if OwnRow(rows, id, from, to, b, slot, lo) then col(rows[(id, lo)]) else 0.0)
      + RowTotal(rows, id, from, to, b, slot, col, lo + 1, hi)
  }

  lemma {:induction false} ScanAddsUp(
    rows: map<RowKey, ContainerRow>, id: string, from: Time, to: Time, b: int, slot: int, col: ContainerRow -> real,
    stamped: Stamped -> real, lo: int)
    requires b > 0 && Unix(from) <= lo && SinceEpoch(rows) && forall x :: stamped(x) == col(x.row)
    ensures var g := Where(Scan(rows, id, lo, Unix(to)), InSlotOf(b, slot));
      && |g| == RowNumber(rows, id, from, to, b, slot, lo, Unix(to))
      && Sum(g, stamped) == RowTotal(rows, id, from, to, b, slot, col, lo, Unix(to))
    decreases Unix(to) - lo
  {
    if lo < Unix(to) {
      var rest := Scan(rows, id, lo + 1, Unix(to));
      ScanAddsUp(rows, id, from, to, b, slot, col, stamped, lo + 1);
      if (id, lo) in rows {
        SlotOfASample(lo, b);
        var x := Stamped(lo, rows[(id, lo)]);
        assert Scan(rows, id, lo, Unix(to)) == [x] + rest;
        FilterFirst(x, rest, InSlotOf(b, slot), stamped);
      } else {
        assert Scan(rows, id, lo, Unix(to)) == [] + rest == rest;
      }
    }
  }

  lemma FilterFirst<A>(x: A, rest: seq<A>, p: A -> bool, col: A -> real)
    ensures |Where([x] + rest, p)| == (if p(x) then 1 else 0) + |Where(rest, p)|
    ensures Sum(Where([x] + rest, p), col) == (if p(x) then col(x) else 0.0) + Sum(Where(rest, p), col)
  {
    assert ([x] + rest)[1..] == rest;
    if p(x) { assert ([x] + Where(rest, p))[1..] == Where(rest, p); }
  }

  /** The rows a 5-minute point is made of. */
  lemma {:induction false} RolledPointIs(
    rows: map<RowKey, ContainerRow>, id: string, from: Time, to: Time, b: int, slot: int)
    requires b > 0 && SinceEpoch(rows)
    ensures var points, g := RolledPoints(rows, id, Unix(from), Unix(to), b),
                             Where(Scan(rows, id, Unix(from), Unix(to)), InSlotOf(b, slot));
      && (slot in points <==> exists t :: OwnRow(rows, id, from, to, b, slot, t))
      && (slot in points ==> g != [])
      && (slot in points ==> (
            points[slot] == Point(Avg(g, CPU_AVG), Most(g, CPU_MAX), Avg(g, MEM_AVG), Most(g, MEM_MAX))))
      && (forall x :: x in g <==> OwnRow(rows, id, from, to, b, slot, x.ts) && rows[(id, x.ts)] == x.row)
  {
    var list := Scan(rows, id, Unix(from), Unix(to));
    var g := Where(list, InSlotOf(b, slot));
    forall x ensures x in g <==> OwnRow(rows, id, from, to, b, slot, x.ts) && rows[(id, x.ts)] == x.row {
      InWhere(list, InSlotOf(b, slot), x);
      InScan(rows, id, Unix(from), Unix(to), x);
      if x.ts >= 0 { SlotOfASample(x.ts, b); }
    }
    if t :| OwnRow(rows, id, from, to, b, slot, t) {
      var x := Stamped(t, rows[(id, t)]);
      assert x in g;
      InWhere(list, InSlotOf(b, slot), x);
    }
    if slot in RolledPoints(rows, id, Unix(from), Unix(to), b) {
      var x :| x in list && Slot(x.ts, b) == slot;
      InWhere(list, InSlotOf(b, slot), x);
      assert OwnRow(rows, id, from, to, b, slot, x.ts);
    }
  }

  /** A 5-minute column is averaged, and another one's maximum taken, over the container's rows in the slot. */
  ghost predicate DescribesRows(
    rows: map<RowKey, ContainerRow>, id: string, from: Time, to: Time, b: int, slot: int,
    avgCol: ContainerRow -> real, maxCol: ContainerRow -> real, avg: real, most: real)
    requires b > 0
  {
    && avg * RowNumber(rows, id, from, to, b, slot, from / SECOND, to / SECOND) as real
       == RowTotal(rows, id, from, to, b, slot, avgCol, from / SECOND, to / SECOND)
    && (exists t :: OwnRow(rows, id, from, to, b, slot, t) && maxCol(rows[(id, t)]) == most)
    && (forall t | OwnRow(rows, id, from, to, b, slot, t) :: maxCol(rows[(id, t)]) <= most)
  }

  lemma {:induction false} RowsDescribe(
    rows: map<RowKey, ContainerRow>, id: string, from: Time, to: Time, b: int, slot: int, g: seq<Stamped>,
    avgCol: ContainerRow -> real, avgs: Stamped -> real, maxCol: ContainerRow -> real, tops: Stamped -> real)
    requires b > 0 && SinceEpoch(rows) && g != []
    requires forall x :: avgs(x) == avgCol(x.row)
    requires forall x :: tops(x) == maxCol(x.row)
    requires g == Where(Scan(rows, id, Unix(from), Unix(to)), InSlotOf(b, slot))
    requires forall x :: x in g <==> OwnRow(rows, id, from, to, b, slot, x.ts) && rows[(id, x.ts)] == x.row
    ensures DescribesRows(rows, id, from, to, b, slot, avgCol, maxCol, Avg(g, avgs), Most(g, tops))
  {
    hide Avg, Most, Where, Sum, RowNumber, RowTotal, Scan;
    ScanAddsUp(rows, id, from, to, b, slot, avgCol, avgs, Unix(from));
    AvgTimesCount(g, avgs);
    var top := MostIsReached(g, tops);
    forall t | OwnRow(rows, id, from, to, b, slot, t) ensures maxCol(rows[(id, t)]) <= Most(g, tops) {
      MostIsLargest(g, tops, Stamped(t, rows[(id, t)]));
    }
  }

  /** The points of a 5-minute table. */
  lemma {:induction false} RolledPointsMean(
    rows: map<RowKey, ContainerRow>, id: string, from: Time, to: Time, b: int, slot: int)
    requires b > 0 && SinceEpoch(rows)
    ensures var points := RolledPoints(rows, id, Unix(from), Unix(to), b);
      && (slot in points <==> exists t :: OwnRow(rows, id, from, to, b, slot, t))
      && (slot in points ==> DescribesRows(rows, id, from, to, b, slot, (x: ContainerRow) => x.cpuAvg,
                                           (x: ContainerRow) => x.cpuMax, points[slot].cpu, points[slot].cpuMax))
      && (slot in points ==> DescribesRows(rows, id, from, to, b, slot, (x: ContainerRow) => x.memAvg,
                                           (x: ContainerRow) => x.memMax, points[slot].mem, points[slot].memMax))
  {
    RolledPointIs(rows, id, from, to, b, slot);
    hide RolledPoints, Avg, Most, Where, Scan, DescribesRows, OwnRow;
    var g := Where(Scan(rows, id, Unix(from), Unix(to)), InSlotOf(b, slot));
    if slot in RolledPoints(rows, id, Unix(from), Unix(to), b) {
      RowsDescribe(rows, id, from, to, b, slot, g, (x: ContainerRow) => x.cpuAvg, CPU_AVG,
                   (x: ContainerRow) => x.cpuMax, CPU_MAX);
      RowsDescribe(rows, id, from, to, b, slot, g, (x: ContainerRow) => x.memAvg, MEM_AVG,
                   (x: ContainerRow) => x.memMax, MEM_MAX);
    }
  }

  /** The 5-minute path of ContainerSeries, for a window that began more than 24 hours ago: exactly the slots in which
      the container has rows have a point; it averages their averages and takes the largest of their maxima. */
  lemma {:induction false} RolledSeriesMeans(
    db: Db, h: History<ContainerValue, ContainerRow>, now: Time, id: string, from: Time, to: Time, maxPoints: int,
    slot: int)
    requires Inv(h, ContainerAggregate) && db.containers == h.tier
    requires now - from > 24 * 3600 * SECOND
    ensures var series, b := ContainerSeries(db, now, id, from, to, maxPoints), BucketSeconds(from, to, maxPoints, 300);
      var rows := db.containers.rows;
      && (slot in series <==> exists t :: OwnRow(rows, id, from, to, b, slot, t))
      && (slot in series ==> DescribesRows(rows, id, from, to, b, slot, (x: ContainerRow) => x.cpuAvg,
                                           (x: ContainerRow) => x.cpuMax, series[slot].cpu, series[slot].cpuMax))
      && (slot in series ==> DescribesRows(rows, id, from, to, b, slot, (x: ContainerRow) => x.memAvg,
                                           (x: ContainerRow) => x.memMax, series[slot].mem, series[slot].memMax))
  {
    hide RawPoints, RolledPoints, DescribesRows, OwnRow;
    forall key | key in h.tier.rows ensures key.1 >= 0 {
      var r :| r in h.all && KeyOfRaw(r) == key;
      BucketBounds(r.ts);
    }
    RolledPointsMean(db.containers.rows, id, from, to, BucketSeconds(from, to, maxPoints, 300), slot);
  }

  /** What a 5-minute row itself says: averages and maxima of all the container's samples ever taken in its five
      minutes. */
  lemma {:induction false} RowMeans(h: History<ContainerValue, ContainerRow>, id: string, t: int)
    requires Inv(h, ContainerAggregate) && (id, t) in h.tier.rows
    ensures var row := h.tier.rows[(id, t)]; var end := (t + 300) * SECOND;
      && Describes(h.all, id, t * SECOND, end, 300, t, (r: ContainerSample) => r.v.cpu, row.cpuAvg, row.cpuMax)
      && Describes(h.all, id, t * SECOND, end, 300, t, (r: ContainerSample) => r.v.mem, row.memAvg, row.memMax)
  {
    var key := (id, t);
    var g := Where(h.all, OfKey(key));
    var own := (r: ContainerSample) => Own(r, id, t * SECOND, (t + 300) * SECOND, 300, t);
    forall r | r in h.all ensures OfKey<ContainerValue>(key)(r) <==> own(r) { OwnInFiveMinutes(r, id, t); }
    WhereSame(h.all, OfKey(key), own);
    var r :| r in h.all && KeyOfRaw(r) == key;
    InWhere(h.all, OfKey(key), r);
    GroupDescribes(h.all, id, t * SECOND, (t + 300) * SECOND, 300, t, g, CPU);
    GroupDescribes(h.all, id, t * SECOND, (t + 300) * SECOND, 300, t, g, MEM);
  }

  lemma OwnInFiveMinutes(r: ContainerSample, id: string, t: int)
    requires r.ts >= 0
    ensures KeyOfRaw(r) == (id, t) <==> Own(r, id, t * SECOND, (t + 300) * SECOND, 300, t)
  {
    BucketBounds(r.ts);
  }
}
