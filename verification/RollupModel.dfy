/** One raw table with its 5-minute table, and what Rollup does to them. Generic in the measured values `V`
    and the aggregate `R` of a group, since containers, host and mounts are treated alike. */
module RollupModel {
  import opened Common

  const BUCKET: int := 300
  const DAY: int := 86_400 * SECOND  // rawWindow

  /** `series` is the container id, the mount, or "" for the host. Timestamps are in seconds. */
  datatype Raw<V> = Raw(series: string, ts: int, v: V)

  type RowKey = (string, int)

  datatype Tier<V, R> = Tier(raw: seq<Raw<V>>, rows: map<RowKey, R>)

  /** SQLite's integer division truncates towards zero. */
  function SqlDiv(a: int, b: int): int
    requires b > 0
  {
    if a >= 0 then a / b else -(-a / b)
  }

  function BucketOf(ts: int): int { SqlDiv(ts, BUCKET) * BUCKET }

  function KeyOfRaw<V>(r: Raw<V>): RowKey { (r.series, BucketOf(r.ts)) }

  function Where<A>(s: seq<A>, p: A -> bool): seq<A> {
    if s == [] then []
    else if p(s[0]) then [s[0]] + Where(s[1..], p)
    else Where(s[1..], p)
  }

  function InGroup<V>(key: RowKey, from: int, to: int): Raw<V> -> bool {
    (r: Raw<V>) => KeyOfRaw(r) == key && from <= r.ts < to
  }

  function OfKey<V>(key: RowKey): Raw<V> -> bool {
    (r: Raw<V>) => KeyOfRaw(r) == key
  }

  function Since<V>(cutoff: int): Raw<V> -> bool {
    (r: Raw<V>) => r.ts >= cutoff
  }

  function Keys<V(==)>(raw: seq<Raw<V>>, from: int, to: int): set<RowKey> {
    set r | r in raw && from <= r.ts < to :: KeyOfRaw(r)
  }

  /** SELECT ... WHERE ts >= from AND ts < to GROUP BY series, (ts / 300) * 300. */
  function Aggregated<V(==), R>(raw: seq<Raw<V>>, from: int, to: int, agg: seq<Raw<V>> -> R): map<RowKey, R> {
    map key | key in Keys(raw, from, to) :: agg(Where(raw, InGroup(key, from, to)))
  }

  function KeptRows<R>(rows: map<RowKey, R>, cutoff: int): map<RowKey, R> {
    map key | key in rows && key.1 >= cutoff :: rows[key]
  }

  // The instants of one Rollup call.

  /** Unix time of now, truncated to five minutes. */
  function Cutoff(now: Time): int { now / (BUCKET * SECOND) * BUCKET }

  function RawCutoff(now: Time): int {
    var c := Unix(now - DAY);
    if c > Cutoff(now) then Cutoff(now) else c
  }

  function RetentionCutoff(now: Time, retention: int): int { Unix(now - retention) }

  function NextWatermark(watermark: int, now: Time): int {
    if Cutoff(now) > watermark then Cutoff(now) else watermark
  }

  /** Aggregation (INSERT OR REPLACE), raw pruning and retention pruning of one tier. */
  function RollTier<V(==), R>(t: Tier<V, R>, watermark: int, now: Time, retention: int, agg: seq<Raw<V>> -> R)
    : Tier<V, R>
  {
    var rows := if Cutoff(now) > watermark then t.rows + Aggregated(t.raw, watermark, Cutoff(now), agg) else t.rows;
    Tier(Where(t.raw, Since(RawCutoff(now))), KeptRows(rows, RetentionCutoff(now, retention)))
  }

  // Lists under filters.

  lemma {:induction false} InWhere<A>(s: seq<A>, p: A -> bool, x: A)
    ensures x in Where(s, p) <==> x in s && p(x)
  {
    if s != [] { InWhere(s[1..], p, x); }
  }

  lemma {:induction false} WhereSame<A>(s: seq<A>, p: A -> bool, q: A -> bool)
    requires forall x | x in s :: p(x) <==> q(x)
    ensures Where(s, p) == Where(s, q)
  {
    if s != [] {
      assert s[0] in s;
      WhereSame(s[1..], p, q);
    }
  }

  /** Filtering a filtered list is one filter, if the two conditions together amount to it. */
  lemma {:induction false} WhereWhere<A>(s: seq<A>, p: A -> bool, q: A -> bool, both: A -> bool)
    requires forall x | x in s :: both(x) <==> p(x) && q(x)
    ensures Where(Where(s, p), q) == Where(s, both)
  {
    if s != [] {
      assert s[0] in s;
      WhereWhere(s[1..], p, q, both);
    }
  }

  lemma {:induction false} WhereConcat<A>(a: seq<A>, b: seq<A>, p: A -> bool)
    ensures Where(a + b, p) == Where(a, p) + Where(b, p)
  {
    if a == [] {
      assert a + b == b;
    } else {
      WhereConcat(a[1..], b, p);
      assert (a + b)[1..] == a[1..] + b;
    }
  }

  /** Rows pruned at `cutoff` play no part in a window that starts at or above it. */
  lemma {:induction false} PrunedRowsAreBelow<V, R>(
    raw: seq<Raw<V>>, cutoff: int, from: int, to: int, agg: seq<Raw<V>> -> R)
    requires cutoff <= from
    ensures Aggregated(Where(raw, Since(cutoff)), from, to, agg) == Aggregated(raw, from, to, agg)
  {
    var kept := Where(raw, Since(cutoff));
    forall r ensures r in kept <==> r in raw && r.ts >= cutoff { InWhere(raw, Since(cutoff), r); }
    assert Keys(kept, from, to) == Keys(raw, from, to);
    forall key ensures Where(kept, InGroup(key, from, to)) == Where(raw, InGroup(key, from, to)) {
      WhereWhere(raw, Since(cutoff), InGroup(key, from, to), InGroup(key, from, to));
    }
  }

  // Buckets.

  lemma BucketBounds(ts: int)
    requires ts >= 0
    ensures BucketOf(ts) <= ts < BucketOf(ts) + BUCKET && BucketOf(ts) % BUCKET == 0 && BucketOf(ts) >= 0
  {}

  /** A boundary splits no bucket: times from 0 lie on the same side of it as their buckets. */
  lemma BoundarySplitsNoBucket(ts: int, boundary: int)
    requires ts >= 0 && boundary % BUCKET == 0
    ensures ts < boundary <==> BucketOf(ts) < boundary
  {
    BucketBounds(ts);
    var q, b := boundary / BUCKET, ts / BUCKET;
    assert boundary == q * BUCKET && BucketOf(ts) == b * BUCKET;
  }

  lemma CutoffIsABoundary(now: Time)
    ensures Cutoff(now) % BUCKET == 0
    ensures Cutoff(now) <= Unix(now) < Cutoff(now) + BUCKET
  {
    var n := now / SECOND;
    assert now / (BUCKET * SECOND) == n / BUCKET;
  }

  /** Both pruning limits and the aggregation limit only grow with the clock. */
  lemma CutoffsGrow(t1: Time, t2: Time, retention: int)
    requires t1 <= t2
    ensures Cutoff(t1) <= Cutoff(t2) && RawCutoff(t1) <= RawCutoff(t2)
    ensures RetentionCutoff(t1, retention) <= RetentionCutoff(t2, retention)
  {
    UnixGrows(t1 - DAY, t2 - DAY);
    UnixGrows(t1 - retention, t2 - retention);
    assert t1 / (BUCKET * SECOND) <= t2 / (BUCKET * SECOND);
  }

  lemma UnixGrows(t1: Time, t2: Time)
    requires t1 <= t2
    ensures Unix(t1) <= Unix(t2)
  {}
}
