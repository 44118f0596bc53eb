/** When rollups run does not matter: an earlier one is absorbed by a later one. */
module RollupSchedule {
  import opened Common
  import opened RollupModel

  /** Everything a rollup reads or writes of one tier. */
  datatype State<V, R> = State(tier: Tier<V, R>, watermark: int)

  function Roll<V(==), R>(s: State<V, R>, now: Time, retention: int, agg: seq<Raw<V>> -> R): State<V, R> {
    State(RollTier(s.tier, s.watermark, now, retention, agg), NextWatermark(s.watermark, now))
  }

  /** A window cut at a boundary aggregates piece by piece. */
  lemma WindowsJoin<V, R>(raw: seq<Raw<V>>, from: int, mid: int, to: int, agg: seq<Raw<V>> -> R)
    requires 0 <= from <= mid <= to && mid % BUCKET == 0
    ensures Aggregated(raw, from, to, agg) == Aggregated(raw, from, mid, agg) + Aggregated(raw, mid, to, agg)
  {
    hide Where, BucketOf;
    var whole := Aggregated(raw, from, to, agg);
    var low, high := Aggregated(raw, from, mid, agg), Aggregated(raw, mid, to, agg);
    forall r | r in raw && r.ts >= 0 ensures r.ts < mid <==> KeyOfRaw(r).1 < mid { BoundarySplitsNoBucket(r.ts, mid); }
    assert Keys(raw, from, to) == Keys(raw, from, mid) + Keys(raw, mid, to);
    forall key | key in whole ensures whole[key] == if key in high then high[key] else low[key] {
      forall r | r in raw && KeyOfRaw(r) == key && from <= r.ts < to
        ensures r.ts < mid <==> key.1 < mid {}
      if key in high {
        assert key.1 >= mid;
        WhereSame(raw, InGroup(key, from, to), InGroup(key, mid, to));
      } else {
        assert key.1 < mid;
        WhereSame(raw, InGroup(key, from, to), InGroup(key, from, mid));
      }
    }
  }

  lemma RawCutoffBelowCutoff(now: Time)
    ensures RawCutoff(now) <= Cutoff(now)
  {}

  lemma PruneTwice<R>(rows: map<RowKey, R>, early: map<RowKey, R>, late: map<RowKey, R>, r1: int, r2: int)
    requires r1 <= r2
    ensures KeptRows(KeptRows(rows + early, r1) + late, r2) == KeptRows(rows + (early + late), r2)
  {}

  /** The rows a tier gains at a limit `to`. */
  function Gain<V(==), R>(raw: seq<Raw<V>>, watermark: int, to: int, agg: seq<Raw<V>> -> R): map<RowKey, R> {
    if to > watermark then Aggregated(raw, watermark, to, agg) else map[]
  }

  lemma {:induction false} GainsJoin<V, R>(
    raw: seq<Raw<V>>, cutoff: int, w: int, c1: int, c2: int, agg: seq<Raw<V>> -> R)
    requires 0 <= w && cutoff <= c1 <= c2 && c1 % BUCKET == 0
    ensures var w1 := if c1 > w then c1 else w;
      Gain(raw, w, c1, agg) + Gain(Where(raw, Since(cutoff)), w1, c2, agg) == Gain(raw, w, c2, agg)
  {
    var w1 := if c1 > w then c1 else w;
    PrunedRowsAreBelow(raw, cutoff, w1, c2, agg);
    if c1 > w { WindowsJoin(raw, w, c1, c2, agg); }
    if c1 == c2 { assert Gain(Where(raw, Since(cutoff)), w1, c2, agg) == map[]; }
  }

  lemma RowsOfRoll<V, R>(s: State<V, R>, now: Time, retention: int, agg: seq<Raw<V>> -> R)
    ensures Roll(s, now, retention, agg).tier.rows
         == KeptRows(s.tier.rows + Gain(s.tier.raw, s.watermark, Cutoff(now), agg), RetentionCutoff(now, retention))
  {}

  /** Rows added by the later call, over what the earlier call left. */
  lemma RowsAgree<V, R>(s: State<V, R>, t1: Time, t2: Time, retention: int, agg: seq<Raw<V>> -> R)
    requires s.watermark >= 0 && t1 <= t2
    ensures Roll(Roll(s, t1, retention, agg), t2, retention, agg).tier.rows == Roll(s, t2, retention, agg).tier.rows
  {
    CutoffsGrow(t1, t2, retention);
    CutoffIsABoundary(t1);
    RawCutoffBelowCutoff(t1);
    var s1 := Roll(s, t1, retention, agg);
    var early := Gain(s.tier.raw, s.watermark, Cutoff(t1), agg);
    var late := Gain(s1.tier.raw, s1.watermark, Cutoff(t2), agg);
    GainsJoin(s.tier.raw, RawCutoff(t1), s.watermark, Cutoff(t1), Cutoff(t2), agg);
    PruneTwice(s.tier.rows, early, late, RetentionCutoff(t1, retention), RetentionCutoff(t2, retention));
    RowsOfRoll(s, t1, retention, agg);
    RowsOfRoll(s1, t2, retention, agg);
    RowsOfRoll(s, t2, retention, agg);
  }

  /** Rollup at t1 and again at t2 leaves what Rollup at t2 alone leaves: raw rows, 5-minute rows and
      watermark. With t1 == t2, a repeat changes nothing. */
  lemma EarlierRollIsAbsorbed<V, R>(s: State<V, R>, t1: Time, t2: Time, retention: int, agg: seq<Raw<V>> -> R)
    requires s.watermark >= 0 && t1 <= t2
    ensures Roll(Roll(s, t1, retention, agg), t2, retention, agg) == Roll(s, t2, retention, agg)
  {
    RowsAgree(s, t1, t2, retention, agg);
    CutoffsGrow(t1, t2, retention);
    WhereWhere(s.tier.raw, Since(RawCutoff(t1)), Since(RawCutoff(t2)), Since(RawCutoff(t2)));
  }

  /** Any schedule of rollups with a clock that never steps back ends like its last rollup alone. */
  lemma {:induction false} OnlyTheLastRollMatters<V, R>(
    s: State<V, R>, times: seq<Time>, retention: int, agg: seq<Raw<V>> -> R)
    requires s.watermark >= 0 && times != []
    requires forall i, j | 0 <= i < j < |times| :: times[i] <= times[j]
    ensures RollAll(s, times, retention, agg) == Roll(s, times[|times| - 1], retention, agg)
  {
    var n := |times| - 1;
    if n > 0 {
      OnlyTheLastRollMatters(s, times[..n], retention, agg);
      EarlierRollIsAbsorbed(s, times[n - 1], times[n], retention, agg);
    }
  }

  function RollAll<V(==), R>(s: State<V, R>, times: seq<Time>, retention: int, agg: seq<Raw<V>> -> R): State<V, R> {
    if times == [] then s
    else Roll(RollAll(s, times[..|times| - 1], retention, agg), times[|times| - 1], retention, agg)
  }
}
