/** Incremental rollup equals one batch aggregation over everything ever inserted. */
module RollupHistory {
  import opened Common
  import opened RollupModel

  /** A tier with its watermark and its history: every row inserted (and not replaced) so far, the highest
      raw and retention limits pruned at so far, and the latest clock reading of a rollup. */
  datatype History<V, R> = History(
    tier: Tier<V, R>, watermark: int, all: seq<Raw<V>>, rawFloor: int, keepFloor: int, latest: Time)

  function Fresh<V, R>(): History<V, R> { History(Tier([], map[]), 0, [], 0, 0, 0) }

  /** An insert; `replace` makes it INSERT OR REPLACE on (series, ts), as the host and mount tables do. */
  datatype Op<V> = Insert(r: Raw<V>, replace: bool) | Roll(now: Time, retention: int)

  function NotAt<V>(r: Raw<V>): Raw<V> -> bool {
    (x: Raw<V>) => !(x.series == r.series && x.ts == r.ts)
  }

  function Put<V>(s: seq<Raw<V>>, r: Raw<V>, replace: bool): seq<Raw<V>> {
    (if replace then Where(s, NotAt(r)) else s) + [r]
  }

  function Max(a: int, b: int): int { if a >= b then a else b }

  function Apply<V(==), R>(h: History<V, R>, op: Op<V>, agg: seq<Raw<V>> -> R): History<V, R> {
    match op
    case Insert(r, replace) =>
      h.(tier := h.tier.(raw := Put(h.tier.raw, r, replace)), all := Put(h.all, r, replace))
    case Roll(now, retention) =>
      History(RollTier(h.tier, h.watermark, now, retention, agg), NextWatermark(h.watermark, now), h.all,
              Max(h.rawFloor, RawCutoff(now)), Max(h.keepFloor, RetentionCutoff(now, retention)), Max(h.latest, now))
  }

  function Run<V(==), R>(ops: seq<Op<V>>, agg: seq<Raw<V>> -> R): History<V, R> {
    if ops == [] then Fresh() else Apply(Run(ops[..|ops| - 1], agg), ops[|ops| - 1], agg)
  }

  /** Rows come in at or above the watermark of the moment; the retention is at least one bucket long
      (configuration demands a day). The clock may step back. */
  ghost predicate Admissible<V, R>(h: History<V, R>, op: Op<V>) {
    match op
    case Insert(r, _) => r.ts >= h.watermark
    case Roll(_, retention) => retention >= BUCKET * SECOND
  }

  ghost predicate AllAdmissible<V, R>(ops: seq<Op<V>>, agg: seq<Raw<V>> -> R) {
    forall i | 0 <= i < |ops| :: Admissible(Run(ops[..i], agg), ops[i])
  }

  ghost predicate InAll<V>(all: seq<Raw<V>>, key: RowKey) {
    exists r :: r in all && KeyOfRaw(r) == key
  }

  /** The 5-minute table is the batch result: one row for every bucket of the whole history that lies below
      the watermark and above retention, holding the aggregate of all its samples. */
  ghost predicate IsBatch<V, R>(h: History<V, R>, agg: seq<Raw<V>> -> R) {
    && (forall key :: key in h.tier.rows <==> h.keepFloor <= key.1 < h.watermark && InAll(h.all, key))
    && (forall key | key in h.tier.rows :: h.tier.rows[key] == agg(Where(h.all, OfKey(key))))
  }

  ghost predicate Inv<V, R>(h: History<V, R>, agg: seq<Raw<V>> -> R) {
    && h.watermark >= 0 && h.watermark % BUCKET == 0
    && h.rawFloor <= h.watermark && h.keepFloor <= h.watermark
    && h.rawFloor <= Max(0, Unix(h.latest - DAY))
    && (forall r | r in h.all :: r.ts >= 0)
    && h.tier.raw == Where(h.all, Since(h.rawFloor))
    && IsBatch(h, agg)
  }

  // Inserting.

  lemma PutKeepsGroup<V>(all: seq<Raw<V>>, r: Raw<V>, replace: bool, key: RowKey)
    requires KeyOfRaw(r) != key
    ensures Where(Put(all, r, replace), OfKey(key)) == Where(all, OfKey(key))
    ensures InAll(Put(all, r, replace), key) <==> InAll(all, key)
  {
    var kept := if replace then Where(all, NotAt(r)) else all;
    if replace {
      WhereWhere(all, NotAt(r), OfKey(key), OfKey(key));
    }
    WhereConcat(kept, [r], OfKey(key));
    assert forall x | x in all && KeyOfRaw(x) == key :: NotAt(r)(x);
    forall x ensures x in kept <==> x in all && (replace ==> NotAt(r)(x)) {
      InWhere(all, NotAt(r), x);
    }
    if InAll(all, key) {
      var x :| x in all && KeyOfRaw(x) == key;
      assert NotAt(r)(x) && x in kept;
      assert x in Put(all, r, replace);
    }
    if InAll(Put(all, r, replace), key) {
      var x :| x in Put(all, r, replace) && KeyOfRaw(x) == key;
      assert x != r && x in kept && x in all;
    }
  }

  lemma PutAbove<V>(all: seq<Raw<V>>, r: Raw<V>, replace: bool, floor: int)
    requires r.ts >= floor
    ensures Put(Where(all, Since(floor)), r, replace) == Where(Put(all, r, replace), Since(floor))
  {
    var kept := if replace then Where(all, NotAt(r)) else all;
    WhereConcat(kept, [r], Since(floor));
    if replace {
      var both := (x: Raw<V>) => x.ts >= floor && !(x.series == r.series && x.ts == r.ts);
      WhereWhere(all, Since(floor), NotAt(r), both);
      WhereWhere(all, NotAt(r), Since(floor), both);
    }
  }

  lemma InsertKeepsInv<V, R>(h: History<V, R>, r: Raw<V>, replace: bool, agg: seq<Raw<V>> -> R)
    requires Inv(h, agg) && r.ts >= h.watermark
    ensures Inv(Apply(h, Insert(r, replace), agg), agg)
  {
    PutAbove(h.all, r, replace, h.rawFloor);
    BoundarySplitsNoBucket(r.ts, h.watermark);
    forall key: RowKey | key.1 < h.watermark
      ensures Where(Put(h.all, r, replace), OfKey(key)) == Where(h.all, OfKey(key))
      ensures InAll(Put(h.all, r, replace), key) <==> InAll(h.all, key)
    {
      PutKeepsGroup(h.all, r, replace, key);
    }
    forall x | x in Put(h.all, r, replace) ensures x.ts >= 0 { InWhere(h.all, NotAt(r), x); }
  }

  // Rolling up.

  /** In a whole number of buckets not yet pruned, the raw table still has every sample of a bucket. */
  lemma GroupIsWhole<V>(all: seq<Raw<V>>, floor: int, from: int, to: int, key: RowKey)
    requires forall r | r in all :: r.ts >= 0
    requires floor <= from <= key.1 < to && from % BUCKET == 0 && to % BUCKET == 0
    ensures Where(Where(all, Since(floor)), InGroup(key, from, to)) == Where(all, OfKey(key))
  {
    forall r | r in all ensures OfKey<V>(key)(r) <==> Since(floor)(r) && InGroup(key, from, to)(r) {
      BoundarySplitsNoBucket(r.ts, from);
      BoundarySplitsNoBucket(r.ts, to);
    }
    WhereWhere(all, Since(floor), InGroup(key, from, to), OfKey(key));
  }

  lemma KeysOfWindow<V>(all: seq<Raw<V>>, floor: int, from: int, to: int, key: RowKey)
    requires forall r | r in all :: r.ts >= 0
    requires floor <= from && from % BUCKET == 0 && to % BUCKET == 0
    ensures key in Keys(Where(all, Since(floor)), from, to) <==> from <= key.1 < to && InAll(all, key)
  {
    var raw := Where(all, Since(floor));
    forall r | r in all
      ensures from <= r.ts < to <==> from <= BucketOf(r.ts) < to
      ensures r in raw <==> r.ts >= floor
    {
      BoundarySplitsNoBucket(r.ts, from);
      BoundarySplitsNoBucket(r.ts, to);
      InWhere(all, Since(floor), r);
    }
    forall r | r in raw ensures r in all { InWhere(all, Since(floor), r); }
  }

  /** One aggregation over [watermark, to) is exact for the buckets it covers. */
  lemma AggregationIsExact<V, R>(h: History<V, R>, to: int, agg: seq<Raw<V>> -> R)
    requires Inv(h, agg) && h.watermark < to && to % BUCKET == 0
    ensures var got := Aggregated(h.tier.raw, h.watermark, to, agg);
      && (forall key :: key in got <==> h.watermark <= key.1 < to && InAll(h.all, key))
      && (forall key | key in got :: got[key] == agg(Where(h.all, OfKey(key))))
  {
    forall key
      ensures key in Keys(h.tier.raw, h.watermark, to) <==> h.watermark <= key.1 < to && InAll(h.all, key)
    {
      KeysOfWindow(h.all, h.rawFloor, h.watermark, to, key);
    }
    forall key | key in Keys(h.tier.raw, h.watermark, to)
      ensures Where(h.tier.raw, InGroup(key, h.watermark, to)) == Where(h.all, OfKey(key))
    {
      GroupIsWhole(h.all, h.rawFloor, h.watermark, to, key);
    }
  }

  /** No raw row is deleted before it is counted: both pruning limits stay at or below the watermark. */
  lemma PruningStaysBelowWatermark(watermark: int, now: Time, retention: int)
    requires retention >= BUCKET * SECOND
    ensures RawCutoff(now) <= NextWatermark(watermark, now)
    ensures RetentionCutoff(now, retention) <= NextWatermark(watermark, now)
  {
    CutoffIsABoundary(now);
    UnixGrows(now - retention, now - BUCKET * SECOND);
    assert Unix(now - BUCKET * SECOND) == Unix(now) - BUCKET;
  }

  lemma RollKeepsRaw<V>(all: seq<Raw<V>>, floor: int, cutoff: int)
    ensures Where(Where(all, Since(floor)), Since(cutoff)) == Where(all, Since(Max(floor, cutoff)))
  {
    WhereWhere(all, Since(floor), Since(cutoff), Since(Max(floor, cutoff)));
  }

  lemma {:induction false} RollKeepsBatch<V, R>(h: History<V, R>, now: Time, retention: int, agg: seq<Raw<V>> -> R)
    requires Inv(h, agg) && retention >= BUCKET * SECOND
    ensures IsBatch(Apply(h, Roll(now, retention), agg), agg)
  {
    hide Where, InAll, Keys, OfKey, Aggregated;
    CutoffIsABoundary(now);
    if Cutoff(now) > h.watermark {
      AggregationIsExact(h, Cutoff(now), agg);
    }
  }

  lemma RollKeepsInv<V, R>(h: History<V, R>, now: Time, retention: int, agg: seq<Raw<V>> -> R)
    requires Inv(h, agg) && retention >= BUCKET * SECOND
    ensures Inv(Apply(h, Roll(now, retention), agg), agg)
  {
    RollKeepsBatch(h, now, retention, agg);
    PruningStaysBelowWatermark(h.watermark, now, retention);
    RollKeepsRaw(h.all, h.rawFloor, RawCutoff(now));
    UnixGrows(h.latest - DAY, Max(h.latest, now) - DAY);
    UnixGrows(now - DAY, Max(h.latest, now) - DAY);
    CutoffIsABoundary(now);
  }

  /** After any run of inserts and rollups, clock steps back included, the 5-minute table is the batch
      aggregate of the whole history, and the raw table all of it above the pruning limit. */
  lemma {:induction false} IncrementalIsBatch<V, R>(ops: seq<Op<V>>, agg: seq<Raw<V>> -> R)
    requires AllAdmissible(ops, agg)
    ensures Inv(Run(ops, agg), agg)
  {
    if ops != [] {
      var n := |ops| - 1;
      assert forall i | 0 <= i < n :: ops[..n][..i] == ops[..i] && ops[..n][i] == ops[i];
      IncrementalIsBatch(ops[..n], agg);
      assert Admissible(Run(ops[..n], agg), ops[n]);
      match ops[n]
      case Insert(r, replace) => InsertKeepsInv(Run(ops[..n], agg), r, replace, agg);
      case Roll(now, retention) => RollKeepsInv(Run(ops[..n], agg), now, retention, agg);
    }
  }

  // Late samples.

  /** A run that goes on from `h`. */
  function Continued<V(==), R>(h: History<V, R>, ops: seq<Op<V>>, agg: seq<Raw<V>> -> R): History<V, R> {
    if ops == [] then h else Apply(Continued(h, ops[..|ops| - 1], agg), ops[|ops| - 1], agg)
  }

  /** The same 5-minute table and watermark, and the same raw rows from the watermark on. */
  ghost predicate AlikeFromWatermark<V, R>(g: History<V, R>, h: History<V, R>) {
    && g.tier.rows == h.tier.rows && g.watermark == h.watermark
    && Where(g.tier.raw, Since(g.watermark)) == Where(h.tier.raw, Since(h.watermark))
  }

  lemma PutBelow<V>(all: seq<Raw<V>>, r: Raw<V>, replace: bool, floor: int)
    requires r.ts < floor
    ensures Where(Put(all, r, replace), Since(floor)) == Where(all, Since(floor))
  {
    var kept := if replace then Where(all, NotAt(r)) else all;
    WhereConcat(kept, [r], Since(floor));
    if replace { WhereWhere(all, NotAt(r), Since(floor), Since(floor)); }
  }

  lemma InsertKeepsAlike<V, R>(g: History<V, R>, h: History<V, R>, r: Raw<V>, replace: bool, agg: seq<Raw<V>> -> R)
    requires AlikeFromWatermark(g, h)
    ensures AlikeFromWatermark(Apply(g, Insert(r, replace), agg), Apply(h, Insert(r, replace), agg))
  {
    if r.ts >= h.watermark {
      PutAbove(g.tier.raw, r, replace, h.watermark);
      PutAbove(h.tier.raw, r, replace, h.watermark);
    } else {
      PutBelow(g.tier.raw, r, replace, h.watermark);
      PutBelow(h.tier.raw, r, replace, h.watermark);
    }
  }

  /** Deleting below `cutoff` leaves the rows from a higher watermark on determined by those from the lower one on. */
  lemma PrunedAlike<V>(a: seq<Raw<V>>, b: seq<Raw<V>>, low: int, cutoff: int, high: int)
    requires low <= high && Where(a, Since(low)) == Where(b, Since(low))
    ensures Where(Where(a, Since(cutoff)), Since(high)) == Where(Where(b, Since(cutoff)), Since(high))
  {
    var top := Max(cutoff, high);
    WhereWhere(a, Since(cutoff), Since(high), Since(top));
    WhereWhere(b, Since(cutoff), Since(high), Since(top));
    WhereWhere(a, Since(low), Since(top), Since(top));
    WhereWhere(b, Since(low), Since(top), Since(top));
  }

  lemma RollKeepsAlike<V, R>(g: History<V, R>, h: History<V, R>, now: Time, retention: int, agg: seq<Raw<V>> -> R)
    requires AlikeFromWatermark(g, h)
    ensures AlikeFromWatermark(Apply(g, Roll(now, retention), agg), Apply(h, Roll(now, retention), agg))
  {
    hide Where, Aggregated, KeptRows;
    PrunedRowsAreBelow(g.tier.raw, h.watermark, h.watermark, Cutoff(now), agg);
    PrunedRowsAreBelow(h.tier.raw, h.watermark, h.watermark, Cutoff(now), agg);
    PrunedAlike(g.tier.raw, h.tier.raw, h.watermark, RawCutoff(now), NextWatermark(h.watermark, now));
  }

  lemma {:induction false} ContinuedAlike<V, R>(
    g: History<V, R>, h: History<V, R>, ops: seq<Op<V>>, agg: seq<Raw<V>> -> R)
    requires AlikeFromWatermark(g, h)
    ensures AlikeFromWatermark(Continued(g, ops, agg), Continued(h, ops, agg))
  {
    if ops != [] {
      hide Apply, AlikeFromWatermark;
      var n := |ops| - 1;
      ContinuedAlike(g, h, ops[..n], agg);
      match ops[n]
      case Insert(r, replace) =>
        InsertKeepsAlike(Continued(g, ops[..n], agg), Continued(h, ops[..n], agg), r, replace, agg);
      case Roll(now, retention) =>
        RollKeepsAlike(Continued(g, ops[..n], agg), Continued(h, ops[..n], agg), now, retention, agg);
    }
  }

  /** The hypothesis on inserts is needed: whatever is inserted, replaced or rolled up later, a sample inserted or
      replaced below the watermark changes no 5-minute row at any time. */
  lemma {:induction false} LateInsertIsNeverCounted<V, R>(
    h: History<V, R>, late: Raw<V>, replace: bool, ops: seq<Op<V>>, agg: seq<Raw<V>> -> R)
    requires late.ts < h.watermark
    ensures var with, without := Continued(Apply(h, Insert(late, replace), agg), ops, agg), Continued(h, ops, agg);
      with.tier.rows == without.tier.rows && with.watermark == without.watermark
  {
    PutBelow(h.tier.raw, late, replace, h.watermark);
    ContinuedAlike(Apply(h, Insert(late, replace), agg), h, ops, agg);
  }
}
