/** How many points a series has: the exact condition under which it keeps to the number asked for, and one more. */
module SeriesBudget {
  import opened Common
  import opened RollupModel
  import opened RollupHistory
  import opened SampleStore
  import opened Series

  /** The slots that times in [lo, hi) can fall into, for lo >= 0. */
  function SlotSpan(lo: int, hi: int, b: int): int
    requires b > 0 && 0 <= lo
  {
    if lo >= hi then 0 else (hi - 1) / b - lo / b + 1
  }

  lemma {:induction false} QuotientAtMost(x: int, b: int, q: int)
    requires b > 0
    ensures x / b <= q <==> x < (q + 1) * b
  {
    if x / b <= q { TimesMonotone(x / b + 1, q + 1, b); } else { TimesMonotone(q + 1, x / b, b); }
  }

  lemma TimesMonotone(x: int, y: int, b: int)
    requires b > 0 && x <= y
    ensures x * b <= y * b
  {}

  lemma {:induction false} SlotsAreFew(xs: set<int>, b: int, first: int, count: nat)
    requires b > 0 && forall x | x in xs :: x % b == 0 && first <= x / b < first + count
    ensures |xs| <= count
    decreases count
  {
    if count == 0 {
      assert forall x :: x !in xs;
      assert xs == {};
    } else {
      var top := (first + count - 1) * b;
      var rest := xs - {top};
      forall x | x in rest ensures first <= x / b < first + count - 1 {
        assert x == x / b * b;
      }
      SlotsAreFew(rest, b, first, count - 1);
      assert xs <= rest + {top};
      CardinalityOfOneMore(xs, rest, top);
    }
  }

  lemma CardinalityOfOneMore(xs: set<int>, rest: set<int>, x: int)
    requires rest == xs - {x}
    ensures |xs| <= |rest| + 1
  {
    if x in xs { assert xs == rest + {x}; } else { assert xs == rest; }
  }

  lemma {:induction false} SlotBetween(ts: int, lo: int, hi: int, b: int)
    requires b > 0 && 0 <= lo <= ts < hi
    ensures Slot(ts, b) % b == 0 && lo / b <= Slot(ts, b) / b <= (hi - 1) / b
  {
    var q := ts / b;
    MultipleOf(q, b);
    QuotientAtMost(lo, b, q);
    QuotientAtMost(ts, b, (hi - 1) / b);
    QuotientAtMost(hi - 1, b, (hi - 1) / b);
    QuotientAtMost(ts, b, q);
  }

  lemma {:induction false} MultipleOf(q: int, b: int)
    requires b > 0
    ensures q * b % b == 0 && q * b / b == q
  {
    QuotientAtMost(q * b, b, q);
    if q * b / b < q { QuotientAtMost(q * b, b, q - 1); }
  }

  lemma SlotSpanGrows(lo: int, hi: int, b: int)
    requires b > 0 && 0 <= lo < hi
    ensures SlotSpan(lo, hi, b) >= 1
  {
    QuotientAtMost(lo, b, (hi - 1) / b);
    QuotientAtMost(hi - 1, b, (hi - 1) / b);
  }

  /** Slots of times in a window number at most its slot span. */
  lemma SlotsFitSpan(slots: set<int>, lo: int, hi: int, b: int)
    requires b > 0 && 0 <= lo
    requires forall slot | slot in slots :: exists ts :: lo <= ts < hi && Slot(ts, b) == slot
    ensures |slots| <= SlotSpan(lo, hi, b)
  {
    if lo < hi {
      forall slot | slot in slots ensures slot % b == 0 && lo / b <= slot / b <= (hi - 1) / b {
        var ts :| lo <= ts < hi && Slot(ts, b) == slot;
        SlotBetween(ts, lo, hi, b);
      }
      QuotientAtMost(lo, b, (hi - 1) / b);
      QuotientAtMost(hi - 1, b, (hi - 1) / b);
      SlotsAreFew(slots, b, lo / b, SlotSpan(lo, hi, b));
    } else {
      assert forall slot :: slot !in slots;
      assert slots == {};
    }
  }

  lemma RowOfSlot(
    rows: map<RowKey, ContainerRow>, id: string, lo: int, hi: int, b: int, slot: int) returns (x: Stamped)
    requires b > 0 && slot in RolledPoints(rows, id, lo, hi, b)
    ensures lo <= x.ts < hi && (id, x.ts) in rows && Slot(x.ts, b) == slot
  {
    x :| x in Scan(rows, id, lo, hi) && Slot(x.ts, b) == slot;
    InScan(rows, id, lo, hi, x);
  }

  lemma {:induction false} PointsFitSpan(
    raw: seq<ContainerSample>, rows: map<RowKey, ContainerRow>, id: string, lo: int, hi: int, b: int)
    requires b > 0 && 0 <= lo
    ensures |RawPoints(raw, id, lo, hi, b)| <= SlotSpan(lo, hi, b)
    ensures |RolledPoints(rows, id, lo, hi, b)| <= SlotSpan(lo, hi, b)
  {
    var keys, rolled := RawPoints(raw, id, lo, hi, b).Keys, RolledPoints(rows, id, lo, hi, b).Keys;
    forall slot | slot in keys ensures exists ts :: lo <= ts < hi && Slot(ts, b) == slot {
      var r :| r in Where(raw, Wanted(id, lo, hi)) && Slot(r.ts, b) == slot;
      InWhere(raw, Wanted(id, lo, hi), r);
    }
    forall slot | slot in rolled ensures exists ts :: lo <= ts < hi && Slot(ts, b) == slot {
      var x := RowOfSlot(rows, id, lo, hi, b, slot);
    }
    SlotsFitSpan(keys, lo, hi, b);
    SlotsFitSpan(rolled, lo, hi, b);
  }

  /** A window of `span` seconds from `lo` on has at most n + 1 slots. */
  predicate FitsFrom(lo: int, span: int, n: int, b: int)
    requires b > 0
  {
    lo >= 0 ==> SlotSpan(lo, lo + span, b) <= n + 1
  }

  /** Wherever a window of `span` seconds starts it has at most n + 1 slots, exactly when n slots and one
      second cover it. */
  lemma {:induction false} SlotBudget(span: int, n: int, b: int)
    requires b > 0 && span > 0 && n >= 0
    ensures (forall lo :: FitsFrom(lo, span, n, b)) <==> span <= n * b + 1
  {
    if span <= n * b + 1 {
      forall lo ensures FitsFrom(lo, span, n, b) {
        if lo >= 0 {
          var q := lo / b;
          QuotientAtMost(lo, b, q);
          assert (q + n + 1) * b == (q + 1) * b + n * b;
          QuotientAtMost(lo + span - 1, b, q + n);
        }
      }
    }
    if forall lo :: FitsFrom(lo, span, n, b) {
      assert FitsFrom(b - 1, span, n, b);
      QuotientAtMost(b - 1, b, 0);
      QuotientAtMost(b + span - 2, b, n);
      assert (n + 1) * b == n * b + b;
    }
  }

  /** The width asked for is never coarser than needed: above the minimum, maxPoints slots of it fit into the
      window, and of one second more they would not. */
  lemma WidthIsTight(from: Time, to: Time, maxPoints: int, minimum: int)
    requires from <= to && maxPoints > 0 && minimum > 0
    ensures var b := BucketSeconds(from, to, maxPoints, minimum);
            b == minimum || (b > minimum && b * (maxPoints * SECOND) <= to - from < (b + 1) * (maxPoints * SECOND))
  {
    assert maxPoints * SECOND > 0;
    var b := (to - from) / (maxPoints * SECOND);
    assert to - from == b * (maxPoints * SECOND) + (to - from) % (maxPoints * SECOND);
  }

  // Calls that keep the budget.

  /** bucketSeconds reads a count that is not positive as 400. */
  function Asked(maxPoints: int): nat { if maxPoints <= 0 then 400 else maxPoints }

  function Width(now: Time, from: Time, to: Time, maxPoints: int): int {
    BucketSeconds(from, to, maxPoints, if UsesRaw(now, from) then 15 else 300)
  }

  lemma SlotsFit(lo: int, span: int, n: int, b: int)
    requires b > 0 && lo >= 0 && n >= 0 && span <= n * b + 1
    ensures SlotSpan(lo, lo + span, b) <= n + 1
  {
    if span > 0 {
      SlotBudget(span, n, b);
      assert FitsFrom(lo, span, n, b);
    }
  }

  lemma {:induction false} SeriesWithin(db: Db, now: Time, id: string, from: Time, to: Time, maxPoints: int, bound: nat)
    requires Unix(from) >= 0 && SlotSpan(Unix(from), Unix(to), Width(now, from, to, maxPoints)) <= bound
    ensures |ContainerSeries(db, now, id, from, to, maxPoints)| <= bound
  {
    PointsFitSpan(db.containers.raw, db.containers.rows, id, Unix(from), Unix(to), Width(now, from, to, maxPoints));
  }

  /** Whatever the table holds: at most one point more than asked for, if the window's seconds fit into the slots
      asked for and one second. */
  lemma {:induction false} SeriesKeepsBudget(db: Db, now: Time, id: string, from: Time, to: Time, maxPoints: int)
    requires from >= 0 && Unix(to) - Unix(from) <= Asked(maxPoints) * Width(now, from, to, maxPoints) + 1
    ensures |ContainerSeries(db, now, id, from, to, maxPoints)| <= Asked(maxPoints) + 1
  {
    SlotsFit(Unix(from), Unix(to) - Unix(from), Asked(maxPoints), Width(now, from, to, maxPoints));
    SeriesWithin(db, now, id, from, to, maxPoints, Asked(maxPoints) + 1);
  }

  /** A window of a whole number of seconds, wherever it starts, fits if the points asked for divide it or the
      minimum width applies. */
  lemma {:induction false} BudgetIsKept(from: Time, span: int, maxPoints: int, minimum: int)
    requires minimum > 0 && span > 0
    requires span % Asked(maxPoints) == 0 || span / Asked(maxPoints) < minimum
    ensures span <= Asked(maxPoints) * BucketSeconds(from, from + span * SECOND, maxPoints, minimum)
    ensures Unix(from + span * SECOND) - Unix(from) == span
  {
    var n := Asked(maxPoints);
    WholeSeconds(span, n);
    var k := span / n;
    if k < minimum {
      QuotientAtMost(span, n, k);
      TimesMonotone(k + 1, minimum, n);
    }
  }

  lemma {:induction false} WholeSeconds(span: int, n: int)
    requires n > 0 && span >= 0
    ensures span * SECOND / (n * SECOND) == span / n
  {
    var q := span / n;
    QuotientAtMost(span, n, q);
    assert n * SECOND > 0;
    assert (q + 1) * (n * SECOND) == ((q + 1) * n) * SECOND;
    QuotientAtMost(span * SECOND, n * SECOND, q);
    assert q * (n * SECOND) == (q * n) * SECOND;
    if span * SECOND / (n * SECOND) < q { QuotientAtMost(span * SECOND, n * SECOND, q - 1); }
  }

  lemma {:induction false} WholeWindowKeepsBudget(
    db: Db, now: Time, id: string, from: Time, span: int, maxPoints: int)
    requires from >= 0 && span > 0
    requires span % Asked(maxPoints) == 0 || span / Asked(maxPoints) < if UsesRaw(now, from) then 15 else 300
    ensures |ContainerSeries(db, now, id, from, from + span * SECOND, maxPoints)| <= Asked(maxPoints) + 1
  {
    BudgetIsKept(from, span, maxPoints, if UsesRaw(now, from) then 15 else 300);
    SeriesKeepsBudget(db, now, id, from, from + span * SECOND, maxPoints);
  }

  /** Any window, to the nanosecond, that the minimum width covers. */
  lemma {:induction false} ShortWindowKeepsBudget(db: Db, now: Time, id: string, from: Time, to: Time, maxPoints: int)
    requires from >= 0
    requires to - from <= Asked(maxPoints) * (if UsesRaw(now, from) then 15 else 300) * SECOND
    ensures |ContainerSeries(db, now, id, from, to, maxPoints)| <= Asked(maxPoints) + 1
  {
    var n, minimum := Asked(maxPoints), if UsesRaw(now, from) then 15 else 300;
    SecondsBetween(from, to, n * minimum);
    TimesMonotone(minimum, Width(now, from, to, maxPoints), n);
    SeriesKeepsBudget(db, now, id, from, to, maxPoints);
  }

  lemma SecondsBetween(from: Time, to: Time, count: int)
    requires to - from <= count * SECOND
    ensures Unix(to) - Unix(from) <= count
  {}

  /** The ranges a chart can be asked for, in seconds, and the points it asks for. */
  const CHART_RANGES := {3600, 21600, 86400, 604800, 2592000}

  const CHART_POINTS := 400

  /** None of them exceeds its budget, at any moment and whichever table answers. */
  lemma {:induction false} ChartsKeepBudget(db: Db, now: Time, id: string, from: Time, range: int)
    requires from >= 0 && range in CHART_RANGES
    ensures |ContainerSeries(db, now, id, from, from + range * SECOND, CHART_POINTS)| <= CHART_POINTS + 1
  {
    WholeWindowKeepsBudget(db, now, id, from, range, CHART_POINTS);
  }

  // Tables that use up every slot.

  predicate HasSlot(xs: set<int>, q: int, b: int) { q * b in xs }

  lemma {:induction false} SlotsAreMany(xs: set<int>, b: int, first: int, count: nat)
    requires b > 0 && forall q | first <= q < first + count :: HasSlot(xs, q, b)
    ensures |xs| >= count
    decreases count
  {
    if count > 0 {
      var last := first + count - 1;
      var rest := xs - {last * b};
      assert HasSlot(xs, last, b);
      forall q | first <= q < last ensures HasSlot(rest, q, b) {
        assert HasSlot(xs, q, b);
        if q * b == last * b { MultipleOf(q, b); MultipleOf(last, b); }
      }
      SlotsAreMany(rest, b, first, count - 1);
      assert xs == rest + {last * b};
    }
  }

  const Idle := ContainerValue(0.0, 0.0, 0.0, 0.0, 0.0, 0.0, 0.0)

  /** A sample a second. */
  function EverySecond(id: string, lo: int, hi: int): seq<ContainerSample>
    requires lo <= hi
  {
    seq(hi - lo, i => Raw(id, lo + i, Idle))
  }

  lemma {:induction false} SlotStart(lo: int, hi: int, b: int, q: int) returns (ts: int)
    requires b > 0 && 0 <= lo < hi && lo / b <= q <= (hi - 1) / b
    ensures lo <= ts < hi && Slot(ts, b) == q * b
  {
    if q == lo / b {
      ts := lo;
    } else {
      ts := q * b;
      MultipleOf(q, b);
      QuotientAtMost(lo, b, q - 1);
      QuotientAtMost(hi - 1, b, q - 1);
    }
  }

  lemma {:induction false} EverySecondReaches(id: string, lo: int, hi: int, b: int)
    requires b > 0 && 0 <= lo < hi
    ensures |RawPoints(EverySecond(id, lo, hi), id, lo, hi, b)| == SlotSpan(lo, hi, b)
  {
    SlotSpanGrows(lo, hi, b);
    var raw := EverySecond(id, lo, hi);
    var keys := RawPoints(raw, id, lo, hi, b).Keys;
    forall q | lo / b <= q < lo / b + SlotSpan(lo, hi, b) ensures HasSlot(keys, q, b) {
      var ts := SlotStart(lo, hi, b, q);
      var r := raw[ts - lo];
      assert r in raw;
      InWhere(raw, Wanted(id, lo, hi), r);
    }
    SlotsAreMany(keys, b, lo / b, SlotSpan(lo, hi, b));
    PointsFitSpan(raw, map[], id, lo, hi, b);
  }

  function RawDb(raw: seq<ContainerSample>): Db {
    Db(0, Tier(raw, map[]), Tier([], map[]), Tier([], map[]), map[])
  }

  /** A sample every five seconds, the shortest interval that can be configured. */
  function EveryFiveSeconds(id: string, lo: int, count: nat): seq<ContainerSample> {
    seq(count, i => Raw(id, lo + 5 * i, Idle))
  }

  lemma FiveSecondsReach(j: nat, q: nat) returns (i: nat)
    requires j <= q < j + 428
    ensures i < 1280 && 15 * j + 14 <= 15 * j + 14 + 5 * i < 15 * j + 14 + 6399
    ensures Slot(15 * j + 14 + 5 * i, 15) == q * 15
  {
    i := if q == j then 0 else 3 * (q - j) - 2;
    assert (15 * j + 14 + 5 * i) / 15 == q;
  }

  lemma SlotIsFilled(raw: seq<ContainerSample>, r: ContainerSample, id: string, lo: int, hi: int, b: int)
    requires b > 0 && r in raw && r.series == id && lo <= r.ts < hi
    ensures Slot(r.ts, b) in RawPoints(raw, id, lo, hi, b)
  {
    InWhere(raw, Wanted(id, lo, hi), r);
  }

  lemma FiveSecondsFill(id: string, j: nat, q: nat)
    requires j <= q < j + 428
    ensures var lo := 15 * j + 14; HasSlot(RawPoints(EveryFiveSeconds(id, lo, 1280), id, lo, lo + 6399, 15).Keys, q, 15)
  {
    hide RawPoints, Slot;
    var lo := 15 * j + 14;
    var i := FiveSecondsReach(j, q);
    var raw := EveryFiveSeconds(id, lo, 1280);
    assert raw[i] in raw;
    SlotIsFilled(raw, raw[i], id, lo, lo + 6399, 15);
  }

  lemma SlotsOfTheSpan(j: nat)
    ensures SlotSpan(15 * j + 14, 15 * j + 14 + 6399, 15) == 428
  {}

  lemma {:induction false} FiveSecondsFillMany(id: string, j: nat)
    ensures var lo := 15 * j + 14;
      |RawPoints(EveryFiveSeconds(id, lo, 1280), id, lo, lo + 6399, 15).Keys| >= 428
  {
    hide *;
    var lo := 15 * j + 14;
    var keys := RawPoints(EveryFiveSeconds(id, lo, 1280), id, lo, lo + 6399, 15).Keys;
    forall q | j <= q < j + 428 ensures HasSlot(keys, q, 15) { FiveSecondsFill(id, j, q); }
    SlotsAreMany(keys, 15, j, 428);
  }

  /** From any quarter of a minute's last second on, 1280 samples at that interval fill 428 slots of 15 seconds. */
  lemma {:induction false} FiveSecondsFillSlots(id: string, j: nat)
    ensures var lo := 15 * j + 14;
      |RawPoints(EveryFiveSeconds(id, lo, 1280), id, lo, lo + 6399, 15)| == 428
  {
    hide *;
    var lo := 15 * j + 14;
    FiveSecondsFillMany(id, j);
    SlotsOfTheSpan(j);
    PointsFitSpan(EveryFiveSeconds(id, lo, 1280), map[], id, lo, lo + 6399, 15);
  }

  /** 6399 such seconds, asked for in 400 points, come as 428. */
  lemma {:induction false} BudgetCanBeMissed(id: string, j: nat)
    ensures var lo := 15 * j + 14;
      var from, to := lo * SECOND, (lo + 6399) * SECOND;
      |ContainerSeries(RawDb(EveryFiveSeconds(id, lo, 1280)), to, id, from, to, 400)| == 428
  {
    hide RawPoints;
    var lo := 15 * j + 14;
    FiveSecondsFillSlots(id, j);
    assert Unix(lo * SECOND) == lo && Unix((lo + 6399) * SECOND) == lo + 6399;
  }

  // The exact condition, for a window of whole seconds read `age` after it began.

  function SeriesFrom(db: Db, id: string, from: Time, age: int, span: int, maxPoints: int): map<int, Point> {
    ContainerSeries(db, from + age, id, from, from + span * SECOND, maxPoints)
  }

  function SpanWidth(age: int, span: int, maxPoints: int): int {
    BucketSeconds(0, span * SECOND, maxPoints, if age <= DAY then 15 else 300)
  }

  lemma WidthIgnoresStart(from: Time, age: int, span: int, maxPoints: int)
    ensures Width(from + age, from, from + span * SECOND, maxPoints) == SpanWidth(age, span, maxPoints)
    ensures Unix(from + span * SECOND) == Unix(from) + span
  {}

  /** From the raw table every start and every content keep the budget exactly when the slots asked for and one
      second cover the span. */
  lemma {:induction false} RawBudgetExactly(id: string, age: int, span: int, maxPoints: int)
    requires age <= DAY && span > 0
    ensures (forall db: Db, from: Time | from >= 0 ::
               |SeriesFrom(db, id, from, age, span, maxPoints)| <= Asked(maxPoints) + 1)
            <==> span <= Asked(maxPoints) * SpanWidth(age, span, maxPoints) + 1
  {
    var n, b := Asked(maxPoints), SpanWidth(age, span, maxPoints);
    if span <= n * b + 1 {
      forall db: Db, from: Time | from >= 0 ensures |SeriesFrom(db, id, from, age, span, maxPoints)| <= n + 1 {
        WidthIgnoresStart(from, age, span, maxPoints);
        SeriesKeepsBudget(db, from + age, id, from, from + span * SECOND, maxPoints);
      }
    } else {
      SlotBudget(span, n, b);
      var lo :| !FitsFrom(lo, span, n, b);
      RawSeriesReaches(id, lo, age, span, maxPoints);
      assert |SeriesFrom(RawDb(EverySecond(id, lo, lo + span)), id, lo * SECOND, age, span, maxPoints)| > n + 1;
    }
  }

  lemma {:induction false} RawSeriesReaches(id: string, lo: int, age: int, span: int, maxPoints: int)
    requires age <= DAY && span > 0 && lo >= 0
    ensures |SeriesFrom(RawDb(EverySecond(id, lo, lo + span)), id, lo * SECOND, age, span, maxPoints)|
            == SlotSpan(lo, lo + span, SpanWidth(age, span, maxPoints))
  {
    hide SeriesFrom, RawPoints;
    SeriesIsRaw(RawDb(EverySecond(id, lo, lo + span)), id, lo, age, span, maxPoints);
    EverySecondReaches(id, lo, lo + span, SpanWidth(age, span, maxPoints));
  }

  lemma {:induction false} SeriesIsRaw(db: Db, id: string, lo: int, age: int, span: int, maxPoints: int)
    requires age <= DAY
    ensures |SeriesFrom(db, id, lo * SECOND, age, span, maxPoints)|
            == |RawPoints(db.containers.raw, id, lo, lo + span, SpanWidth(age, span, maxPoints))|
  {
    hide RawPoints;
    WidthIgnoresStart(lo * SECOND, age, span, maxPoints);
    assert Unix(lo * SECOND) == lo;
  }

  // The 5-minute table has rows at multiples of 300 only, which helps a little.

  predicate OnGrid(rows: map<RowKey, ContainerRow>) { forall key | key in rows :: key.1 % BUCKET == 0 }

  lemma KeysAreOnGrid(rows: map<RowKey, ContainerRow>, key: RowKey)
    requires OnGrid(rows) && key in rows
    ensures key.1 % BUCKET == 0
  {}

  lemma HistoryIsOnGrid(h: History<ContainerValue, ContainerRow>)
    requires Inv(h, ContainerAggregate)
    ensures OnGrid(h.tier.rows)
  {
    forall key | key in h.tier.rows ensures key.1 % BUCKET == 0 {
      var r :| r in h.all && KeyOfRaw(r) == key;
      MultipleOf(r.ts / BUCKET, BUCKET);
    }
  }

  /** The distance between the first and the last multiple of 300 a window of so many seconds can hold. */
  function GridSpan(span: int): int { (span - 1) / BUCKET * BUCKET }

  /** The first and the last multiple of 300 in [lo, lo + span). */
  function GridFirst(lo: int): int { (lo + BUCKET - 1) / BUCKET * BUCKET }

  function GridLast(lo: int, span: int): int { (lo + span - 1) / BUCKET * BUCKET }

  lemma GridEnds(lo: int, span: int)
    requires lo >= 0 && span > 0
    ensures lo <= GridFirst(lo) && GridLast(lo, span) < lo + span
    ensures GridLast(lo, span) - GridFirst(lo) <= GridSpan(span)
  {}

  lemma GridHolds(lo: int, span: int, ts: int)
    requires lo >= 0 && span > 0 && lo <= ts < lo + span && ts % BUCKET == 0
    ensures GridFirst(lo) <= ts <= GridLast(lo, span)
  {}

  lemma {:induction false} GridSlots(
    rows: map<RowKey, ContainerRow>, id: string, lo: int, span: int, b: int, slot: int)
    requires OnGrid(rows) && lo >= 0 && span > 0 && b > 0 && slot in RolledPoints(rows, id, lo, lo + span, b)
    ensures exists ts :: GridFirst(lo) <= ts < GridLast(lo, span) + 1 && Slot(ts, b) == slot
  {
    hide *;
    var x := RowOfSlot(rows, id, lo, lo + span, b, slot);
    KeysAreOnGrid(rows, (id, x.ts));
    GridHolds(lo, span, x.ts);
  }

  lemma {:induction false} GridPointsFitSpan(
    rows: map<RowKey, ContainerRow>, id: string, lo: int, span: int, b: int, n: nat)
    requires OnGrid(rows) && lo >= 0 && span > 0 && b > 0 && GridSpan(span) <= n * b
    ensures |RolledPoints(rows, id, lo, lo + span, b)| <= n + 1
  {
    var keys := RolledPoints(rows, id, lo, lo + span, b).Keys;
    forall slot | slot in keys
      ensures exists ts :: GridFirst(lo) <= ts < GridLast(lo, span) + 1 && Slot(ts, b) == slot
    {
      GridSlots(rows, id, lo, span, b, slot);
    }
    GridCount(keys, lo, span, b, n);
  }

  lemma {:induction false} GridCount(keys: set<int>, lo: int, span: int, b: int, n: nat)
    requires lo >= 0 && span > 0 && b > 0 && GridSpan(span) <= n * b
    requires forall slot | slot in keys ::
      exists ts :: GridFirst(lo) <= ts < GridLast(lo, span) + 1 && Slot(ts, b) == slot
    ensures |keys| <= n + 1
  {
    var first, last := GridFirst(lo), GridLast(lo, span);
    GridEnds(lo, span);
    SlotsFitSpan(keys, first, last + 1, b);
    SlotsFit(first, last + 1 - first, n, b);
  }

  // A start that is as bad as any: the slots a step of d crosses, summed over b steps, are d.

  function Crossed(j: int, d: int, b: int): int
    requires b > 0
  {
    (j + 1) * d / b - j * d / b
  }

  lemma {:induction false} CrossedInAll(d: int, b: int, n: int, m: nat)
    requires b > 0 && forall j | 0 <= j < m :: Crossed(j, d, b) <= n
    ensures m * d / b <= m * n
  {
    if m > 0 {
      CrossedInAll(d, b, n, m - 1);
      assert Crossed(m - 1, d, b) <= n;
      assert m * n == (m - 1) * n + n;
    } else {
      assert 0 * d == 0 && 0 * n == 0;
    }
  }

  lemma {:induction false} StepsAreBounded(d: int, b: int, n: int)
    requires b > 0 && forall j | 0 <= j < b :: Crossed(j, d, b) <= n
    ensures d <= n * b
  {
    CrossedInAll(d, b, n, b);
    MultipleOf(d, b);
    assert b * d == d * b && b * n == n * b;
  }

  lemma {:induction false} SomeStepCrossesMore(d: int, b: int, n: int) returns (j: nat)
    requires b > 0 && d > n * b
    ensures j < b && Crossed(j, d, b) > n
  {
    if forall j | 0 <= j < b :: Crossed(j, d, b) <= n { StepsAreBounded(d, b, n); }
    j :| 0 <= j < b && Crossed(j, d, b) > n;
  }

  const Quiet := ContainerAggregate([])

  function GridKeys(id: string, first: int, last: int): set<RowKey> {
    set ts | first <= ts <= last && ts % BUCKET == 0 :: (id, ts)
  }

  /** A row in every bucket from `first` to `last`. */
  function EveryBucket(id: string, first: int, last: int): map<RowKey, ContainerRow> {
    map key | key in GridKeys(id, first, last) :: Quiet
  }

  lemma {:induction false} GridSlotStart(first: int, last: int, b: int, q: int) returns (ts: int)
    requires b >= BUCKET && 0 <= first <= last && first % BUCKET == 0 && last % BUCKET == 0
    requires first / b <= q <= last / b
    ensures first <= ts <= last && ts % BUCKET == 0 && Slot(ts, b) == q * b
  {
    if q == first / b { return first; }
    if q == last / b { return last; }
    ts := (q * b + BUCKET - 1) / BUCKET * BUCKET;
    assert q * b <= ts < q * b + BUCKET;
    assert (q + 1) * b == q * b + b;
    QuotientAtMost(ts, b, q);
    QuotientAtMost(ts, b, q - 1);
    QuotientAtMost(first, b, q - 1);
    QuotientAtMost(last, b, q);
  }

  lemma {:induction false} EveryBucketReaches(id: string, first: int, last: int, hi: int, b: int)
    requires b >= BUCKET && 0 <= first <= last < hi && first % BUCKET == 0 && last % BUCKET == 0
    ensures |RolledPoints(EveryBucket(id, first, last), id, first, hi, b)| >= last / b - first / b + 1
  {
    var rows := EveryBucket(id, first, last);
    var keys := RolledPoints(rows, id, first, hi, b).Keys;
    forall q | first / b <= q < first / b + (last / b - first / b + 1) ensures HasSlot(keys, q, b) {
      var ts := GridSlotStart(first, last, b, q);
      InScan(rows, id, first, hi, Stamped(ts, Quiet));
    }
    SlotSpanGrows(first, last + 1, b);
    SlotsAreMany(keys, b, first / b, last / b - first / b + 1);
  }

  function RowsDb(rows: map<RowKey, ContainerRow>): Db {
    Db(0, Tier([], rows), Tier([], map[]), Tier([], map[]), map[])
  }

  lemma {:induction false} SeriesIsRolled(db: Db, id: string, from: Time, age: int, span: int, maxPoints: int)
    requires age > DAY
    ensures |SeriesFrom(db, id, from, age, span, maxPoints)|
            == |RolledPoints(db.containers.rows, id, Unix(from), Unix(from) + span, SpanWidth(age, span, maxPoints))|
  {
    hide RolledPoints;
    WidthIgnoresStart(from, age, span, maxPoints);
  }

  /** The window of a step that crosses too much, with a row in every bucket. */
  lemma {:induction false} WorstStart(id: string, age: int, span: int, maxPoints: int, j: nat)
    requires age > DAY && span > 0
    requires Crossed(j, GridSpan(span), SpanWidth(age, span, maxPoints)) > Asked(maxPoints)
    ensures var lo := j * GridSpan(span);
      && lo >= 0
      && |SeriesFrom(RowsDb(EveryBucket(id, lo, lo + GridSpan(span))), id, lo * SECOND, age, span, maxPoints)|
         > Asked(maxPoints) + 1
  {
    hide SeriesFrom, RolledPoints;
    var d, b := GridSpan(span), SpanWidth(age, span, maxPoints);
    var lo := j * d;
    StepsStayOnGrid(j, span);
    assert (j + 1) * d == lo + d;
    EveryBucketReaches(id, lo, lo + d, lo + span, b);
    SeriesIsRolledFrom(RowsDb(EveryBucket(id, lo, lo + d)), id, lo, age, span, maxPoints);
  }

  lemma {:induction false} SeriesIsRolledFrom(db: Db, id: string, lo: int, age: int, span: int, maxPoints: int)
    requires age > DAY
    ensures |SeriesFrom(db, id, lo * SECOND, age, span, maxPoints)|
            == |RolledPoints(db.containers.rows, id, lo, lo + span, SpanWidth(age, span, maxPoints))|
  {
    hide SeriesFrom, RolledPoints;
    SeriesIsRolled(db, id, lo * SECOND, age, span, maxPoints);
    assert Unix(lo * SECOND) == lo;
  }

  lemma StepsStayOnGrid(j: nat, span: int)
    requires span > 0
    ensures j * GridSpan(span) >= 0 && j * GridSpan(span) % BUCKET == 0
    ensures (j * GridSpan(span) + GridSpan(span)) % BUCKET == 0 && 0 <= GridSpan(span) < span
  {
    var k := (span - 1) / BUCKET;
    assert j * (k * BUCKET) == (j * k) * BUCKET && (j * k) * BUCKET + k * BUCKET == (j * k + k) * BUCKET;
    MultipleOf(j * k, BUCKET);
    MultipleOf(j * k + k, BUCKET);
  }

  /** From the 5-minute table every start and every content on the grid keep the budget exactly when the slots asked
      for cover the distance the window's buckets can be apart. */
  lemma {:induction false} RolledBudgetExactly(id: string, age: int, span: int, maxPoints: int)
    requires age > DAY && span > 0
    ensures (forall db: Db, from: Time | from >= 0 && OnGrid(db.containers.rows) ::
               |SeriesFrom(db, id, from, age, span, maxPoints)| <= Asked(maxPoints) + 1)
            <==> GridSpan(span) <= Asked(maxPoints) * SpanWidth(age, span, maxPoints)
  {
    if GridSpan(span) <= Asked(maxPoints) * SpanWidth(age, span, maxPoints) {
      forall db: Db, from: Time | from >= 0 && OnGrid(db.containers.rows)
        ensures |SeriesFrom(db, id, from, age, span, maxPoints)| <= Asked(maxPoints) + 1
      {
        RolledBudgetKept(db, id, from, age, span, maxPoints);
      }
    } else {
      RolledBudgetMissed(id, age, span, maxPoints);
    }
  }

  lemma {:induction false} RolledBudgetKept(db: Db, id: string, from: Time, age: int, span: int, maxPoints: int)
    requires age > DAY && span > 0 && from >= 0 && OnGrid(db.containers.rows)
    requires GridSpan(span) <= Asked(maxPoints) * SpanWidth(age, span, maxPoints)
    ensures |SeriesFrom(db, id, from, age, span, maxPoints)| <= Asked(maxPoints) + 1
  {
    hide SeriesFrom, RolledPoints;
    SeriesIsRolled(db, id, from, age, span, maxPoints);
    GridPointsFitSpan(db.containers.rows, id, Unix(from), span, SpanWidth(age, span, maxPoints), Asked(maxPoints));
  }

  lemma {:induction false} RolledBudgetMissed(id: string, age: int, span: int, maxPoints: int)
    requires age > DAY && span > 0 && GridSpan(span) > Asked(maxPoints) * SpanWidth(age, span, maxPoints)
    ensures exists db: Db, from: Time ::
      from >= 0 && OnGrid(db.containers.rows)
      && |SeriesFrom(db, id, from, age, span, maxPoints)| > Asked(maxPoints) + 1
  {
    hide SeriesFrom, RolledPoints;
    var d := GridSpan(span);
    var j := SomeStepCrossesMore(d, SpanWidth(age, span, maxPoints), Asked(maxPoints));
    WorstStart(id, age, span, maxPoints, j);
    var db := RowsDb(EveryBucket(id, j * d, j * d + d));
    assert OnGrid(db.containers.rows);
    assert |SeriesFrom(db, id, j * d * SECOND, age, span, maxPoints)| > Asked(maxPoints) + 1;
  }
}
