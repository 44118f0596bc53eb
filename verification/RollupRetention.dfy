/** Which rows the tables hold after any run of inserts and rollups, told from the rollups' clock readings. */
module RollupRetention {
  import opened Common
  import opened RollupModel
  import opened RollupHistory
  import opened SampleStore

  /** Some rollup of the run came after the five minutes from `t` on had ended. */
  ghost predicate Closed<V>(ops: seq<Op<V>>, t: int) {
    exists i :: 0 <= i < |ops| && ops[i].Roll? && t + 300 <= ops[i].now / SECOND
  }

  /** No rollup of the run found `t` older than its retention. */
  ghost predicate Retained<V>(ops: seq<Op<V>>, t: int) {
    forall i | 0 <= i < |ops| && ops[i].Roll? :: t >= (ops[i].now - ops[i].retention) / SECOND
  }

  /** No rollup of the run found `t` more than a day old. */
  ghost predicate Recent<V>(ops: seq<Op<V>>, t: int) {
    forall i | 0 <= i < |ops| && ops[i].Roll? :: t >= (ops[i].now - 86_400 * SECOND) / SECOND
  }

  lemma OneMoreRoll<V>(ops: seq<Op<V>>, t: int)
    requires ops != []
    ensures var front, last := ops[..|ops| - 1], ops[|ops| - 1];
      && (Closed(ops, t) <==> Closed(front, t) || (last.Roll? && t + 300 <= last.now / SECOND))
      && (Retained(ops, t)
          <==> Retained(front, t) && (last.Roll? ==> t >= (last.now - last.retention) / SECOND))
      && (Recent(ops, t) <==> Recent(front, t) && (last.Roll? ==> t >= (last.now - 86_400 * SECOND) / SECOND))
  {
    var front, last := ops[..|ops| - 1], ops[|ops| - 1];
    assert forall i | 0 <= i < |front| :: front[i] == ops[i];
    if Closed(front, t) {
      var i :| 0 <= i < |front| && front[i].Roll? && t + 300 <= front[i].now / SECOND;
      assert ops[i].Roll?;
    }
  }

  /** A bucket lies below the limit of a rollup exactly when it has ended. */
  lemma BelowCutoffExactlyWhenEnded(t: int, now: Time)
    requires t % 300 == 0
    ensures t < Cutoff(now) <==> t + 300 <= now / SECOND
  {
    CutoffIsABoundary(now);
    var q, c := t / 300, Cutoff(now) / 300;
    assert t == q * 300 && Cutoff(now) == c * 300;
  }

  /** The raw limit is always a day ago: that is below the aggregation limit. */
  lemma RawCutoffIsADayAgo(now: Time)
    ensures RawCutoff(now) == (now - 86_400 * SECOND) / SECOND
  {
    CutoffIsABoundary(now);
  }

  /** The three limits a history carries, in terms of the run. */
  lemma {:induction false} LimitsOfARun<V, R>(ops: seq<Op<V>>, agg: seq<Raw<V>> -> R, t: int)
    ensures var h := Run(ops, agg);
      && (t >= 0 && t % 300 == 0 ==> (t < h.watermark <==> Closed(ops, t)))
      && (t >= 0 ==> (t >= h.keepFloor <==> Retained(ops, t)))
      && (t >= 0 ==> (t >= h.rawFloor <==> Recent(ops, t)))
  {
    if ops != [] {
      var front, last := ops[..|ops| - 1], ops[|ops| - 1];
      LimitsOfARun(front, agg, t);
      OneMoreRoll(ops, t);
      hide Closed, Retained, Recent, RollTier, RawCutoff, Cutoff;
      if last.Roll? {
        RawCutoffIsADayAgo(last.now);
        if t % 300 == 0 { BelowCutoffExactlyWhenEnded(t, last.now); }
      }
    }
  }

  /** Some sample of the history falls into the five minutes of the key. */
  ghost predicate Sampled<V>(all: seq<Raw<V>>, key: RowKey) {
    exists r :: r in all && r.series == key.0 && key.1 <= r.ts < key.1 + 300
  }

  lemma SampledIsInAll<V>(all: seq<Raw<V>>, key: RowKey)
    requires forall r | r in all :: r.ts >= 0
    ensures InAll(all, key) <==> key.1 >= 0 && key.1 % 300 == 0 && Sampled(all, key)
  {
    if InAll(all, key) {
      var r :| r in all && KeyOfRaw(r) == key;
      BucketBounds(r.ts);
    }
    if key.1 >= 0 && key.1 % 300 == 0 && Sampled(all, key) {
      var r :| r in all && r.series == key.0 && key.1 <= r.ts < key.1 + 300;
      BucketBounds(r.ts);
      SameBucket(key.1, BucketOf(r.ts), r.ts);
      assert KeyOfRaw(r) == key;
    }
  }

  lemma SameBucket(s: int, t: int, ts: int)
    requires s % 300 == 0 && t % 300 == 0 && s <= ts < s + 300 && t <= ts < t + 300
    ensures s == t
  {
    var p, q := s / 300, t / 300;
    assert s == p * 300 && t == q * 300;
  }

  lemma {:induction false} RowsAndRun<V, R>(ops: seq<Op<V>>, agg: seq<Raw<V>> -> R, key: RowKey)
    requires Inv(Run(ops, agg), agg)
    ensures var h := Run(ops, agg);
      key in h.tier.rows <==>
        key.1 >= 0 && key.1 % 300 == 0 && Sampled(h.all, key) && Closed(ops, key.1) && Retained(ops, key.1)
  {
    hide Closed, Retained, Sampled, Run, InAll;
    var h := Run(ops, agg);
    SampledIsInAll(h.all, key);
    LimitsOfARun(ops, agg, key.1);
  }

  lemma {:induction false} RawRowsAndRun<V, R>(ops: seq<Op<V>>, agg: seq<Raw<V>> -> R, r: Raw<V>)
    requires Inv(Run(ops, agg), agg)
    ensures var h := Run(ops, agg); r in h.tier.raw <==> r in h.all && Recent(ops, r.ts)
  {
    hide Recent, Run, IsBatch;
    var h := Run(ops, agg);
    InWhere(h.all, Since(h.rawFloor), r);
    if r in h.all { LimitsOfARun(ops, agg, r.ts); }
  }

  /** After any run the 5-minute table has exactly the rows of the five minutes in which something was sampled, that
      some rollup found ended and that no rollup found older than its retention. */
  lemma RowsOfARun<V, R>(ops: seq<Op<V>>, agg: seq<Raw<V>> -> R, key: RowKey)
    requires AllAdmissible(ops, agg)
    ensures var h := Run(ops, agg);
      key in h.tier.rows <==>
        key.1 >= 0 && key.1 % 300 == 0 && Sampled(h.all, key) && Closed(ops, key.1) && Retained(ops, key.1)
  {
    IncrementalIsBatch(ops, agg);
    RowsAndRun(ops, agg, key);
  }

  /** And the raw table exactly the samples that no rollup found more than a day old. */
  lemma RawRowsOfARun<V, R>(ops: seq<Op<V>>, agg: seq<Raw<V>> -> R, r: Raw<V>)
    requires AllAdmissible(ops, agg)
    ensures var h := Run(ops, agg); r in h.tier.raw <==> r in h.all && Recent(ops, r.ts)
  {
    IncrementalIsBatch(ops, agg);
    RawRowsAndRun(ops, agg, r);
  }

  /** The same for the store's container tables, after any run of transactions of which some fail. */
  lemma {:induction false} StoreKeepsRows(txs: seq<Tx>, key: RowKey, r: ContainerSample)
    requires AllTimely(txs)
    ensures var db, ops := After(txs), ContainerOps(txs); var all := Run(ops, ContainerAggregate).all;
      && (key in db.containers.rows <==>
            key.1 >= 0 && key.1 % 300 == 0 && Sampled(all, key) && Closed(ops, key.1) && Retained(ops, key.1))
      && (r in db.containers.raw <==> r in all && Recent(ops, r.ts))
  {
    hide After, ContainerOps, HostOps, MountOps, Run, Inv, Closed, Retained, Sampled, Recent;
    StoreRunIsBatch(txs);
    RowsAndRun(ContainerOps(txs), ContainerAggregate, key);
    RawRowsAndRun(ContainerOps(txs), ContainerAggregate, r);
  }

  /** INSERT OR REPLACE leaves one row at the second of the series, the new one, and every other row. */
  lemma PutReplaces<V>(s: seq<Raw<V>>, r: Raw<V>)
    ensures forall x :: x in Put(s, r, true) <==> x == r || (x in s && (x.series != r.series || x.ts != r.ts))
    ensures forall i, j | 0 <= i < |Put(s, r, true)| && 0 <= j < |Put(s, r, true)| && Put(s, r, true)[i] == r
                          && Put(s, r, true)[j].series == r.series && Put(s, r, true)[j].ts == r.ts :: i == j
  {
    var kept := Where(s, NotAt(r));
    forall x ensures x in kept <==> x in s && NotAt(r)(x) { InWhere(s, NotAt(r), x); }
    forall i | 0 <= i < |kept| ensures kept[i].series != r.series || kept[i].ts != r.ts {
      InWhere(s, NotAt(r), kept[i]);
    }
  }

  /** A rollup deletes an alert exactly when it is resolved and was so before the retention began; the others stay
      as they are. */
  lemma AlertsOfARollup(db: Db, now: Time, retention: int, id: int)
    ensures var after := Rolled(db, now, retention).alerts;
      && (id in after <==>
            id in db.alerts
            && (db.alerts[id].state.Resolved? ==> db.alerts[id].resolvedAt >= (now - retention) / SECOND))
      && (id in after ==> after[id] == db.alerts[id])
  {}
}
