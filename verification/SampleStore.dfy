/** The sample tables of the store and the Rollup transaction over them. */
module SampleStore {
  import opened Common
  import opened RollupModel
  import opened RollupHistory
  import opened AlertModel

  datatype ContainerValue = ContainerValue(
    cpu: real, mem: real, memLimit: real, netRx: real, netTx: real, blkRead: real, blkWrite: real)

  datatype ContainerRow = ContainerRow(
    cpuAvg: real, cpuMax: real, memAvg: real, memMax: real, memLimit: real, netRxAvg: real, netRxMax: real,
    netTxAvg: real, netTxMax: real, blkReadAvg: real, blkReadMax: real, blkWriteAvg: real, blkWriteMax: real,
    samples: nat)

  datatype HostValue = HostValue(
    cpu: real, load1: real, load5: real, load15: real, memUsed: real, memTotal: real, swapUsed: real, swapTotal: real,
    netRx: real, netTx: real, cpuTemp: real)

  datatype HostRow = HostRow(
    cpuAvg: real, cpuMax: real, load1: real, load5: real, load15: real, memAvg: real, memMax: real, memTotal: real,
    swapAvg: real, swapTotal: real, netRxAvg: real, netRxMax: real, netTxAvg: real, netTxMax: real,
    cpuTempAvg: real, cpuTempMax: real, samples: nat)

  datatype MountValue = MountValue(used: real, total: real)

  datatype MountRow = MountRow(usedAvg: real, usedMax: real, total: real)

  // SQL's avg and max over one column of a group.

  function Sum<A>(g: seq<A>, col: A -> real): real {
    if g == [] then 0.0 else col(g[0]) + Sum(g[1..], col)
  }

  function Avg<A>(g: seq<A>, col: A -> real): real {
    if g == [] then 0.0 else Sum(g, col) / |g| as real
  }

  function Most<A>(g: seq<A>, col: A -> real): real {
    if g == [] then 0.0
    else if |g| == 1 then col(g[0])
    else var rest := Most(g[1..], col); if col(g[0]) >= rest then col(g[0]) else rest
  }

  type ContainerSample = Raw<ContainerValue>
  type HostSample = Raw<HostValue>
  type MountSample = Raw<MountValue>

  const CPU: ContainerSample -> real := (r: ContainerSample) => r.v.cpu
  const MEM: ContainerSample -> real := (r: ContainerSample) => r.v.mem

  function ContainerAggregate(g: seq<ContainerSample>): ContainerRow {
    ContainerRow(
      Avg(g, CPU), Most(g, CPU), Avg(g, MEM), Most(g, MEM),
      Most(g, (r: ContainerSample) => r.v.memLimit),
      Avg(g, (r: ContainerSample) => r.v.netRx), Most(g, (r: ContainerSample) => r.v.netRx),
      Avg(g, (r: ContainerSample) => r.v.netTx), Most(g, (r: ContainerSample) => r.v.netTx),
      Avg(g, (r: ContainerSample) => r.v.blkRead), Most(g, (r: ContainerSample) => r.v.blkRead),
      Avg(g, (r: ContainerSample) => r.v.blkWrite), Most(g, (r: ContainerSample) => r.v.blkWrite),
      |g|)
  }

  function HostAggregate(g: seq<HostSample>): HostRow {
    HostRow(
      Avg(g, (r: HostSample) => r.v.cpu), Most(g, (r: HostSample) => r.v.cpu),
      Avg(g, (r: HostSample) => r.v.load1), Avg(g, (r: HostSample) => r.v.load5), Avg(g, (r: HostSample) => r.v.load15),
      Avg(g, (r: HostSample) => r.v.memUsed), Most(g, (r: HostSample) => r.v.memUsed),
      Most(g, (r: HostSample) => r.v.memTotal),
      Avg(g, (r: HostSample) => r.v.swapUsed), Most(g, (r: HostSample) => r.v.swapTotal),
      Avg(g, (r: HostSample) => r.v.netRx), Most(g, (r: HostSample) => r.v.netRx),
      Avg(g, (r: HostSample) => r.v.netTx), Most(g, (r: HostSample) => r.v.netTx),
      Avg(g, (r: HostSample) => r.v.cpuTemp), Most(g, (r: HostSample) => r.v.cpuTemp),
      |g|)
  }

  function MountAggregate(g: seq<MountSample>): MountRow {
    MountRow(Avg(g, (r: MountSample) => r.v.used), Most(g, (r: MountSample) => r.v.used),
             Most(g, (r: MountSample) => r.v.total))
  }

  // What the aggregates mean, column by column.

  lemma OfOne<A>(x: A, col: A -> real)
    ensures Avg([x], col) == Most([x], col) == col(x)
  {
    assert Sum([x], col) == col(x) + Sum([], col);
  }

  /** A bucket with one sample holds that sample, every column in its place. */
  lemma OneContainerSample(s: ContainerSample)
    ensures ContainerAggregate([s]) == ContainerRow(
              s.v.cpu, s.v.cpu, s.v.mem, s.v.mem, s.v.memLimit, s.v.netRx, s.v.netRx, s.v.netTx, s.v.netTx,
              s.v.blkRead, s.v.blkRead, s.v.blkWrite, s.v.blkWrite, 1)
  {
    OfOne(s, CPU);
    OfOne(s, MEM);
    OfOne(s, (r: ContainerSample) => r.v.netRx);
    OfOne(s, (r: ContainerSample) => r.v.netTx);
    OfOne(s, (r: ContainerSample) => r.v.blkRead);
    OfOne(s, (r: ContainerSample) => r.v.blkWrite);
  }

  lemma OneHostSample(s: HostSample)
    ensures HostAggregate([s]) == HostRow(
              s.v.cpu, s.v.cpu, s.v.load1, s.v.load5, s.v.load15, s.v.memUsed, s.v.memUsed, s.v.memTotal,
              s.v.swapUsed, s.v.swapTotal, s.v.netRx, s.v.netRx, s.v.netTx, s.v.netTx, s.v.cpuTemp, s.v.cpuTemp, 1)
  {
    OfOne(s, (r: HostSample) => r.v.cpu);
    OfOne(s, (r: HostSample) => r.v.load1);
    OfOne(s, (r: HostSample) => r.v.load5);
    OfOne(s, (r: HostSample) => r.v.load15);
    OfOne(s, (r: HostSample) => r.v.memUsed);
    OfOne(s, (r: HostSample) => r.v.swapUsed);
    OfOne(s, (r: HostSample) => r.v.netRx);
    OfOne(s, (r: HostSample) => r.v.netTx);
    OfOne(s, (r: HostSample) => r.v.cpuTemp);
  }

  lemma OneMountSample(s: MountSample)
    ensures MountAggregate([s]) == MountRow(s.v.used, s.v.used, s.v.total)
  {
    OfOne(s, (r: MountSample) => r.v.used);
  }

  lemma {:induction false} SumJoins<A>(a: seq<A>, b: seq<A>, col: A -> real)
    ensures Sum(a + b, col) == Sum(a, col) + Sum(b, col)
  {
    if a == [] {
      assert a + b == b;
    } else {
      SumJoins(a[1..], b, col);
      assert (a + b)[1..] == a[1..] + b;
    }
  }

  /** Averages weigh by the number of samples. */
  lemma AvgJoins<A>(a: seq<A>, b: seq<A>, col: A -> real)
    ensures Avg(a + b, col) * |a + b| as real == Avg(a, col) * |a| as real + Avg(b, col) * |b| as real
  {
    SumJoins(a, b, col);
    AvgTimesCount(a, col);
    AvgTimesCount(b, col);
    AvgTimesCount(a + b, col);
  }

  lemma AvgTimesCount<A>(g: seq<A>, col: A -> real)
    ensures Avg(g, col) * |g| as real == Sum(g, col)
  {
  }

  /** Of two groups' maxima the larger one stands. */
  lemma {:induction false} MostJoins<A>(a: seq<A>, b: seq<A>, col: A -> real)
    requires a != [] && b != []
    ensures Most(a + b, col) == if Most(a, col) >= Most(b, col) then Most(a, col) else Most(b, col)
  {
    assert (a + b)[1..] == a[1..] + b;
    if |a| == 1 {
      assert a[1..] + b == b;
    } else {
      MostJoins(a[1..], b, col);
    }
  }

  /** z is the average of two groups of n and m with averages x and y. */
  predicate Weighs(z: real, x: real, n: nat, y: real, m: nat) { z * (n + m) as real == x * n as real + y * m as real }

  /** z is the larger of x and y. */
  predicate Tops(z: real, x: real, y: real) { z == if x >= y then x else y }

  lemma AvgWeighs<A>(a: seq<A>, b: seq<A>, col: A -> real)
    ensures Weighs(Avg(a + b, col), Avg(a, col), |a|, Avg(b, col), |b|)
  {
    AvgJoins(a, b, col);
    assert |a + b| == |a| + |b|;
  }

  /** Two groups of samples aggregated as one, column by column: which columns average and which take the maximum. */
  lemma {:induction false} ContainerGroupsJoin(a: seq<ContainerSample>, b: seq<ContainerSample>)
    requires a != [] && b != []
    ensures var x, y, z, n, m := ContainerAggregate(a), ContainerAggregate(b), ContainerAggregate(a + b), |a|, |b|;
      && Weighs(z.cpuAvg, x.cpuAvg, n, y.cpuAvg, m) && Tops(z.cpuMax, x.cpuMax, y.cpuMax)
      && Weighs(z.memAvg, x.memAvg, n, y.memAvg, m) && Tops(z.memMax, x.memMax, y.memMax)
      && Tops(z.memLimit, x.memLimit, y.memLimit)
      && Weighs(z.netRxAvg, x.netRxAvg, n, y.netRxAvg, m) && Tops(z.netRxMax, x.netRxMax, y.netRxMax)
      && Weighs(z.netTxAvg, x.netTxAvg, n, y.netTxAvg, m) && Tops(z.netTxMax, x.netTxMax, y.netTxMax)
      && Weighs(z.blkReadAvg, x.blkReadAvg, n, y.blkReadAvg, m) && Tops(z.blkReadMax, x.blkReadMax, y.blkReadMax)
      && Weighs(z.blkWriteAvg, x.blkWriteAvg, n, y.blkWriteAvg, m) && Tops(z.blkWriteMax, x.blkWriteMax, y.blkWriteMax)
      && z.samples == x.samples + y.samples
  {
    hide Avg, Most, Weighs;
    AvgWeighs(a, b, CPU);
    MostJoins(a, b, CPU);
    AvgWeighs(a, b, MEM);
    MostJoins(a, b, MEM);
    MostJoins(a, b, (r: ContainerSample) => r.v.memLimit);
    AvgWeighs(a, b, (r: ContainerSample) => r.v.netRx);
    MostJoins(a, b, (r: ContainerSample) => r.v.netRx);
    AvgWeighs(a, b, (r: ContainerSample) => r.v.netTx);
    MostJoins(a, b, (r: ContainerSample) => r.v.netTx);
    AvgWeighs(a, b, (r: ContainerSample) => r.v.blkRead);
    MostJoins(a, b, (r: ContainerSample) => r.v.blkRead);
    AvgWeighs(a, b, (r: ContainerSample) => r.v.blkWrite);
    MostJoins(a, b, (r: ContainerSample) => r.v.blkWrite);
  }

  lemma {:induction false} HostGroupsJoin(a: seq<HostSample>, b: seq<HostSample>)
    requires a != [] && b != []
    ensures var x, y, z, n, m := HostAggregate(a), HostAggregate(b), HostAggregate(a + b), |a|, |b|;
      && Weighs(z.cpuAvg, x.cpuAvg, n, y.cpuAvg, m) && Tops(z.cpuMax, x.cpuMax, y.cpuMax)
      && Weighs(z.load1, x.load1, n, y.load1, m) && Weighs(z.load5, x.load5, n, y.load5, m)
      && Weighs(z.load15, x.load15, n, y.load15, m)
      && Weighs(z.memAvg, x.memAvg, n, y.memAvg, m) && Tops(z.memMax, x.memMax, y.memMax)
      && Tops(z.memTotal, x.memTotal, y.memTotal)
      && Weighs(z.swapAvg, x.swapAvg, n, y.swapAvg, m) && Tops(z.swapTotal, x.swapTotal, y.swapTotal)
      && Weighs(z.netRxAvg, x.netRxAvg, n, y.netRxAvg, m) && Tops(z.netRxMax, x.netRxMax, y.netRxMax)
      && Weighs(z.netTxAvg, x.netTxAvg, n, y.netTxAvg, m) && Tops(z.netTxMax, x.netTxMax, y.netTxMax)
      && Weighs(z.cpuTempAvg, x.cpuTempAvg, n, y.cpuTempAvg, m) && Tops(z.cpuTempMax, x.cpuTempMax, y.cpuTempMax)
      && z.samples == x.samples + y.samples
  {
    hide Avg, Most, Weighs;
    AvgWeighs(a, b, (r: HostSample) => r.v.cpu);
    MostJoins(a, b, (r: HostSample) => r.v.cpu);
    AvgWeighs(a, b, (r: HostSample) => r.v.load1);
    AvgWeighs(a, b, (r: HostSample) => r.v.load5);
    AvgWeighs(a, b, (r: HostSample) => r.v.load15);
    AvgWeighs(a, b, (r: HostSample) => r.v.memUsed);
    MostJoins(a, b, (r: HostSample) => r.v.memUsed);
    MostJoins(a, b, (r: HostSample) => r.v.memTotal);
    AvgWeighs(a, b, (r: HostSample) => r.v.swapUsed);
    MostJoins(a, b, (r: HostSample) => r.v.swapTotal);
    AvgWeighs(a, b, (r: HostSample) => r.v.netRx);
    MostJoins(a, b, (r: HostSample) => r.v.netRx);
    AvgWeighs(a, b, (r: HostSample) => r.v.netTx);
    MostJoins(a, b, (r: HostSample) => r.v.netTx);
    AvgWeighs(a, b, (r: HostSample) => r.v.cpuTemp);
    MostJoins(a, b, (r: HostSample) => r.v.cpuTemp);
  }

  lemma {:induction false} MountGroupsJoin(a: seq<MountSample>, b: seq<MountSample>)
    requires a != [] && b != []
    ensures var x, y, z := MountAggregate(a), MountAggregate(b), MountAggregate(a + b);
      && Weighs(z.usedAvg, x.usedAvg, |a|, y.usedAvg, |b|) && Tops(z.usedMax, x.usedMax, y.usedMax)
      && Tops(z.total, x.total, y.total)
  {
    hide Avg, Most, Weighs;
    AvgWeighs(a, b, (r: MountSample) => r.v.used);
    MostJoins(a, b, (r: MountSample) => r.v.used);
    MostJoins(a, b, (r: MountSample) => r.v.total);
  }

  /** All that Rollup touches; `watermark` is 0 until it is first stored. */
  datatype Db = Db(
    watermark: int,
    containers: Tier<ContainerValue, ContainerRow>, hosts: Tier<HostValue, HostRow>, mounts: Tier<MountValue, MountRow>,
    alerts: map<int, AlertRow>)

  function Rolled(db: Db, now: Time, retention: int): Db {
    Db(NextWatermark(db.watermark, now),
       RollTier(db.containers, db.watermark, now, retention, ContainerAggregate),
       RollTier(db.hosts, db.watermark, now, retention, HostAggregate),
       RollTier(db.mounts, db.watermark, now, retention, MountAggregate),
       PruneRows(db.alerts, RetentionCutoff(now, retention)))
  }

  /** `watermark` is the limit of this call, in seconds, whether or not it moved the stored one. */
  datatype RollupResult = RollupResult(
    watermark: int, containerRows: nat, hostRows: nat, mountRows: nat, prunedRaw: nat)

  function PutAll<V>(raw: seq<Raw<V>>, rows: seq<Raw<V>>, replace: bool): seq<Raw<V>> {
    if rows == [] then raw else Put(PutAll(raw, rows[..|rows| - 1], replace), rows[|rows| - 1], replace)
  }

  /** A transaction and whether it was committed. `Others` stands for whatever else happens to the alert table. */
  datatype Tx =
    | Samples(rows: seq<ContainerSample>, ok: bool)
    | Host(h: HostSample, mounts: seq<MountSample>, ok: bool)
    | RollupAt(now: Time, retention: int, ok: bool)
    | Others(alerts: map<int, AlertRow>, ok: bool)

  /** A transaction that fails leaves everything as it was. */
  function Done(db: Db, tx: Tx): Db {
    if !tx.ok then db
    else match tx
      case Samples(rows, _) => db.(containers := db.containers.(raw := PutAll(db.containers.raw, rows, false)))
      case Host(h, mounts, _) =>
        db.(hosts := db.hosts.(raw := Put(db.hosts.raw, h, true)),
            mounts := db.mounts.(raw := PutAll(db.mounts.raw, mounts, true)))
      case RollupAt(now, retention, _) => Rolled(db, now, retention)
      case Others(alerts, _) => db.(alerts := alerts)
  }

  function Below<V>(cutoff: int): Raw<V> -> bool {
    (r: Raw<V>) => r.ts < cutoff
  }

  /** The rows a rollup at `now` deletes from a raw table. */
  function Expired<V>(raw: seq<Raw<V>>, now: Time): nat { |Where(raw, Below(RawCutoff(now)))| }

  lemma {:induction false} DeletedIsTheRest<V>(raw: seq<Raw<V>>, cutoff: int)
    ensures |raw| - |Where(raw, Since(cutoff))| == |Where(raw, Below(cutoff))|
  {
    if raw != [] { DeletedIsTheRest(raw[1..], cutoff); }
  }

  /** The rows a rollup at `now` writes into a 5-minute table. */
  function Written<V(==), R>(raw: seq<Raw<V>>, watermark: int, now: Time, agg: seq<Raw<V>> -> R): nat {
    if Cutoff(now) > watermark then |Aggregated(raw, watermark, Cutoff(now), agg)| else 0
  }

  class Store {
    var watermark: int
    var samplesRaw: seq<ContainerSample>
    var samples5m: map<RowKey, ContainerRow>
    var hostRaw: seq<HostSample>
    var host5m: map<RowKey, HostRow>
    var mountRaw: seq<MountSample>
    var mount5m: map<RowKey, MountRow>
    var alerts: map<int, AlertRow>

    ghost function View(): Db
      reads this
    {
      Db(watermark, Tier(samplesRaw, samples5m), Tier(hostRaw, host5m), Tier(mountRaw, mount5m), alerts)
    }

    /** One transaction; `failAt` is the number of the statement that fails, the commit being the last one.
        Without samples none is begun. */
    method InsertSamples(samples: seq<ContainerSample>, failAt: Option<nat>) returns (ok: bool)
      modifies this`samplesRaw
      ensures ok <==> samples == [] || failAt.None? || failAt.value > |samples|
      ensures View() == Done(old(View()), Samples(samples, ok))
    {
      if samples == [] { return true; }
      var staged := samplesRaw;
      for i := 0 to |samples|
        invariant staged == PutAll(samplesRaw, samples[..i], false)
        invariant failAt.Some? ==> failAt.value >= i
      {
        if failAt == Some(i) { return false; }
        assert samples[..i + 1][..i] == samples[..i];
        staged := staged + [samples[i]];
      }
      if failAt == Some(|samples|) { return false; }
      assert samples[..|samples|] == samples;
      samplesRaw := staged;
      return true;
    }

    method InsertHostSample(h: HostSample, mounts: seq<MountSample>, failAt: Option<nat>) returns (ok: bool)
      modifies this`hostRaw, this`mountRaw
      ensures ok <==> failAt.None? || failAt.value > |mounts| + 1
      ensures View() == Done(old(View()), Host(h, mounts, ok))
    {
      if failAt == Some(0) { return false; }
      var stagedHost := Where(hostRaw, NotAt(h)) + [h];
      var staged := mountRaw;
      for i := 0 to |mounts|
        invariant staged == PutAll(mountRaw, mounts[..i], true)
        invariant failAt.Some? ==> failAt.value >= i + 1
      {
        if failAt == Some(i + 1) { return false; }
        assert mounts[..i + 1][..i] == mounts[..i];
        staged := Where(staged, NotAt(mounts[i])) + [mounts[i]];
      }
      if failAt == Some(|mounts| + 1) { return false; }
      assert mounts[..|mounts|] == mounts;
      hostRaw, mountRaw := stagedHost, staged;
      return true;
    }

    /** Rollup, one transaction of several statements; `failAt` is the number of one that fails if it runs. */
    method Rollup(now: Time, retention: int, failAt: Option<nat>) returns (r: Result<RollupResult>)
      modifies this
      ensures failAt.None? ==> r.Ok?
      ensures View() == Done(old(View()), RollupAt(now, retention, r.Ok?))
      ensures r.Ok? ==> r.value == RollupResult(
        Cutoff(now),
        Written(old(samplesRaw), old(watermark), now, ContainerAggregate),
        Written(old(hostRaw), old(watermark), now, HostAggregate),
        Written(old(mountRaw), old(watermark), now, MountAggregate),
        Expired(old(samplesRaw), now) + Expired(old(hostRaw), now) + Expired(old(mountRaw), now))
    {
      hide ContainerAggregate, HostAggregate, MountAggregate, Aggregated, Where, KeptRows, PruneRows;
      var from, to := watermark, Cutoff(now);
      var res := RollupResult(0, 0, 0, 0, 0);
      var mark, c5, h5, m5 := watermark, samples5m, host5m, mount5m;
      if to > from {
        if failAt == Some(1) { return Failed; }
        var c := Aggregated(samplesRaw, from, to, ContainerAggregate);
        c5 := c5 + c;
        if failAt == Some(2) { return Failed; }
        var h := Aggregated(hostRaw, from, to, HostAggregate);
        h5 := h5 + h;
        if failAt == Some(3) { return Failed; }
        var m := Aggregated(mountRaw, from, to, MountAggregate);
        m5 := m5 + m;
        if failAt == Some(4) { return Failed; }
        mark := to;
        res := RollupResult(0, |c|, |h|, |m|, 0);
      }
      res := res.(watermark := to);
      var rawCutoff := Unix(now - DAY);
      if rawCutoff > to {
        rawCutoff := to;
      }
      if failAt == Some(5) { return Failed; }
      var retentionCutoff := Unix(now - retention);
      if failAt == Some(6) { return Failed; }
      var pruned := Commit(mark, c5, h5, m5, rawCutoff, retentionCutoff);
      res := res.(prunedRaw := pruned);
      return Ok(res);
    }

    /** The deletions and the commit. */
    method Commit(mark: int, c5: map<RowKey, ContainerRow>, h5: map<RowKey, HostRow>, m5: map<RowKey, MountRow>,
                  rawCutoff: int, retentionCutoff: int) returns (pruned: nat)
      modifies this
      ensures View() == Db(mark,
        Tier(Where(old(samplesRaw), Since(rawCutoff)), KeptRows(c5, retentionCutoff)),
        Tier(Where(old(hostRaw), Since(rawCutoff)), KeptRows(h5, retentionCutoff)),
        Tier(Where(old(mountRaw), Since(rawCutoff)), KeptRows(m5, retentionCutoff)),
        PruneRows(old(alerts), retentionCutoff))
      ensures pruned == |Where(old(samplesRaw), Below(rawCutoff))| + |Where(old(hostRaw), Below(rawCutoff))|
                        + |Where(old(mountRaw), Below(rawCutoff))|
    {
      hide Where, KeptRows, PruneRows;
      var before := (|samplesRaw|, |hostRaw|, |mountRaw|);
      DeletedIsTheRest(samplesRaw, rawCutoff);
      DeletedIsTheRest(hostRaw, rawCutoff);
      DeletedIsTheRest(mountRaw, rawCutoff);
      watermark := mark;
      samplesRaw, samples5m := Where(samplesRaw, Since(rawCutoff)), KeptRows(c5, retentionCutoff);
      hostRaw, host5m := Where(hostRaw, Since(rawCutoff)), KeptRows(h5, retentionCutoff);
      mountRaw, mount5m := Where(mountRaw, Since(rawCutoff)), KeptRows(m5, retentionCutoff);
      alerts := PruneRows(alerts, retentionCutoff);
      return before.0 - |samplesRaw| + (before.1 - |hostRaw|) + (before.2 - |mountRaw|);
    }
  }

  /** The three tables stand where their histories say. */
  ghost predicate Recorded(db: Db, c: History<ContainerValue, ContainerRow>, h: History<HostValue, HostRow>,
                           m: History<MountValue, MountRow>) {
    && c.watermark == h.watermark == m.watermark == db.watermark
    && c.tier == db.containers && h.tier == db.hosts && m.tier == db.mounts
    && Inv(c, ContainerAggregate) && Inv(h, HostAggregate) && Inv(m, MountAggregate)
  }

  /** One Rollup transaction keeps all three 5-minute tables the batch aggregates of their histories. */
  lemma RollupKeepsRecords(db: Db, c: History<ContainerValue, ContainerRow>, h: History<HostValue, HostRow>,
                           m: History<MountValue, MountRow>, now: Time, retention: int)
    requires Recorded(db, c, h, m) && retention >= BUCKET * SECOND
    ensures Recorded(Rolled(db, now, retention), Apply(c, Roll(now, retention), ContainerAggregate),
                     Apply(h, Roll(now, retention), HostAggregate), Apply(m, Roll(now, retention), MountAggregate))
  {
    RollKeepsInv(c, now, retention, ContainerAggregate);
    RollKeepsInv(h, now, retention, HostAggregate);
    RollKeepsInv(m, now, retention, MountAggregate);
  }

  /** A history after a list of rows was put into it. */
  function InsertAll<V, R>(h: History<V, R>, rows: seq<Raw<V>>, replace: bool): History<V, R> {
    h.(tier := h.tier.(raw := PutAll(h.tier.raw, rows, replace)), all := PutAll(h.all, rows, replace))
  }

  lemma {:induction false} InsertAllKeepsInv<V, R>(
    h: History<V, R>, rows: seq<Raw<V>>, replace: bool, agg: seq<Raw<V>> -> R)
    requires Inv(h, agg) && forall r | r in rows :: r.ts >= h.watermark
    ensures Inv(InsertAll(h, rows, replace), agg)
    decreases |rows|
  {
    if rows != [] {
      var last := |rows| - 1;
      InsertAllKeepsInv(h, rows[..last], replace, agg);
      InsertKeepsInv(InsertAll(h, rows[..last], replace), rows[last], replace, agg);
    }
  }

  /** One insert transaction of container samples, and one of a host sample with its mounts, keep the three tables
      where their histories say. */
  lemma InsertsKeepRecords(db: Db, c: History<ContainerValue, ContainerRow>, h: History<HostValue, HostRow>,
                           m: History<MountValue, MountRow>, tx: Tx)
    requires Recorded(db, c, h, m) && Timely(db, tx)
    ensures tx.Samples? && tx.ok ==> Recorded(Done(db, tx), InsertAll(c, tx.rows, false), h, m)
    ensures tx.Host? && tx.ok ==> Recorded(Done(db, tx), c, InsertAll(h, [tx.h], true), InsertAll(m, tx.mounts, true))
  {
    if tx.Samples? && tx.ok { InsertAllKeepsInv(c, tx.rows, false, ContainerAggregate); }
    if tx.Host? && tx.ok {
      InsertAllKeepsInv(h, [tx.h], true, HostAggregate);
      PutOne(h.tier.raw, tx.h, true);
      InsertAllKeepsInv(m, tx.mounts, true, MountAggregate);
    }
  }

  lemma PutOne<V>(raw: seq<Raw<V>>, r: Raw<V>, replace: bool)
    ensures PutAll(raw, [r], replace) == Put(raw, r, replace)
  {
    assert [r][..0] == [];
  }

  // Runs.

  const EmptyDb := Db(0, Tier([], map[]), Tier([], map[]), Tier([], map[]), map[])

  function After(txs: seq<Tx>): Db {
    if txs == [] then EmptyDb else Done(After(txs[..|txs| - 1]), txs[|txs| - 1])
  }

  /** What a committed transaction does has to come in time: no row below the watermark, and a retention of at least
      one bucket. Of one that fails nothing is asked. */
  predicate Timely(db: Db, tx: Tx) {
    tx.ok ==>
      match tx
      case Samples(rows, _) => forall r | r in rows :: r.ts >= db.watermark
      case Host(h, mounts, _) => h.ts >= db.watermark && forall r | r in mounts :: r.ts >= db.watermark
      case RollupAt(_, retention, _) => retention >= BUCKET * SECOND
      case Others(_, _) => true
  }

  predicate AllTimely(txs: seq<Tx>) {
    txs != [] ==> AllTimely(txs[..|txs| - 1]) && Timely(After(txs[..|txs| - 1]), txs[|txs| - 1])
  }

  function Inserts<V>(rows: seq<Raw<V>>, replace: bool): seq<Op<V>> {
    seq(|rows|, i requires 0 <= i < |rows| => Insert(rows[i], replace))
  }

  // What a transaction does to each tier, and what a run did: the committed transactions, in their order.

  function ContainerPart(tx: Tx): seq<Op<ContainerValue>> {
    if !tx.ok then []
    else if tx.Samples? then Inserts(tx.rows, false)
    else if tx.RollupAt? then [Roll(tx.now, tx.retention)] else []
  }

  function HostPart(tx: Tx): seq<Op<HostValue>> {
    if !tx.ok then []
    else if tx.Host? then Inserts([tx.h], true)
    else if tx.RollupAt? then [Roll(tx.now, tx.retention)] else []
  }

  function MountPart(tx: Tx): seq<Op<MountValue>> {
    if !tx.ok then []
    else if tx.Host? then Inserts(tx.mounts, true)
    else if tx.RollupAt? then [Roll(tx.now, tx.retention)] else []
  }

  function ContainerOps(txs: seq<Tx>): seq<Op<ContainerValue>> {
    if txs == [] then [] else ContainerOps(txs[..|txs| - 1]) + ContainerPart(txs[|txs| - 1])
  }

  function HostOps(txs: seq<Tx>): seq<Op<HostValue>> {
    if txs == [] then [] else HostOps(txs[..|txs| - 1]) + HostPart(txs[|txs| - 1])
  }

  function MountOps(txs: seq<Tx>): seq<Op<MountValue>> {
    if txs == [] then [] else MountOps(txs[..|txs| - 1]) + MountPart(txs[|txs| - 1])
  }

  lemma {:induction false} RunInserts<V, R>(
    ops: seq<Op<V>>, rows: seq<Raw<V>>, replace: bool, agg: seq<Raw<V>> -> R)
    ensures Run(ops + Inserts(rows, replace), agg) == InsertAll(Run(ops, agg), rows, replace)
    decreases |rows|
  {
    if rows == [] {
      assert ops + Inserts(rows, replace) == ops;
    } else {
      hide Run, Put;
      var last := |rows| - 1;
      RunInserts(ops, rows[..last], replace, agg);
      InsertsOneMore(ops, rows, replace);
      RunOne(ops + Inserts(rows[..last], replace), Insert(rows[last], replace), agg);
    }
  }

  lemma InsertsOneMore<V>(ops: seq<Op<V>>, rows: seq<Raw<V>>, replace: bool)
    requires rows != []
    ensures ops + Inserts(rows, replace)
         == (ops + Inserts(rows[..|rows| - 1], replace)) + [Insert(rows[|rows| - 1], replace)]
  {}

  lemma RunOne<V, R>(ops: seq<Op<V>>, op: Op<V>, agg: seq<Raw<V>> -> R)
    ensures Run(ops + [op], agg) == Apply(Run(ops, agg), op, agg)
  {
    assert (ops + [op])[..|ops|] == ops;
  }

  lemma RunNothing<V, R>(ops: seq<Op<V>>, agg: seq<Raw<V>> -> R)
    ensures Run(ops + [], agg) == Run(ops, agg)
  {
    assert ops + [] == ops;
  }

  ghost predicate RecordedOps(
    db: Db, c: seq<Op<ContainerValue>>, h: seq<Op<HostValue>>, m: seq<Op<MountValue>>)
  {
    Recorded(db, Run(c, ContainerAggregate), Run(h, HostAggregate), Run(m, MountAggregate))
  }

  lemma {:induction false} TransactionKeepsRecords(
    db: Db, c: seq<Op<ContainerValue>>, h: seq<Op<HostValue>>, m: seq<Op<MountValue>>, tx: Tx)
    requires RecordedOps(db, c, h, m) && Timely(db, tx)
    ensures RecordedOps(Done(db, tx), c + ContainerPart(tx), h + HostPart(tx), m + MountPart(tx))
  {
    var rc, rh, rm := Run(c, ContainerAggregate), Run(h, HostAggregate), Run(m, MountAggregate);
    RunNothing(c, ContainerAggregate);
    RunNothing(h, HostAggregate);
    RunNothing(m, MountAggregate);
    InsertsKeepRecords(db, rc, rh, rm, tx);
    match tx
    case Samples(rows, _) => RunInserts(c, rows, false, ContainerAggregate);
    case Host(sample, mounts, _) =>
      RunInserts(h, [sample], true, HostAggregate);
      RunInserts(m, mounts, true, MountAggregate);
    case RollupAt(now, retention, ok) =>
      if ok { RollupKeepsRecords(db, rc, rh, rm, now, retention); }
      RunOne(c, Roll(now, retention), ContainerAggregate);
      RunOne(h, Roll(now, retention), HostAggregate);
      RunOne(m, Roll(now, retention), MountAggregate);
    case Others(_, _) =>
  }

  /** After any run of transactions, whichever of them fail and whatever else happens to the alert table, the three
      5-minute tables are the batch aggregates of exactly what was committed, under one watermark. */
  lemma {:induction false} StoreRunIsBatch(txs: seq<Tx>)
    requires AllTimely(txs)
    ensures RecordedOps(After(txs), ContainerOps(txs), HostOps(txs), MountOps(txs))
  {
    if txs != [] {
      var before, tx := txs[..|txs| - 1], txs[|txs| - 1];
      StoreRunIsBatch(before);
      TransactionKeepsRecords(After(before), ContainerOps(before), HostOps(before), MountOps(before), tx);
    }
  }
}
