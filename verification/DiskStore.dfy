/** The disks table: one row per device, into which each cycle's records are merged. */
module DiskStore {
  import opened Common

  /** A record as the collector hands it over; smartStatus is "passed", "failed" or "unknown". */
  datatype DiskRecord = DiskRecord(
    device: string, model: string, serial: string, firmware: string, capacity: int, rotation: int, transport: string,
    temp: int, powerOnHours: int, powerCycles: int, reallocated: int, pending: int, uncorrectable: int,
    crcErrors: int, smartStatus: string, standby: bool, percentUsed: int)

  datatype DiskRow = DiskRow(record: DiskRecord, lastSeen: int)

  type Rows = map<string, DiskRow>

  function KeepText(next: string, was: string): string { if next == "" then was else next }

  function KeepSize(next: int, was: int): int { if next == 0 then was else next }

  /** ON CONFLICT(device) DO UPDATE: what identifies the drive is never blanked, and a sleeping drive keeps what
      was measured. */
  function Merge(was: DiskRecord, d: DiskRecord): DiskRecord {
    DiskRecord(
      d.device, KeepText(d.model, was.model), KeepText(d.serial, was.serial), KeepText(d.firmware, was.firmware),
      KeepSize(d.capacity, was.capacity), KeepSize(d.rotation, was.rotation), KeepText(d.transport, was.transport),
      if d.standby then was.temp else d.temp,
      if d.standby then was.powerOnHours else d.powerOnHours,
      if d.standby then was.powerCycles else d.powerCycles,
      if d.standby then was.reallocated else d.reallocated,
      if d.standby then was.pending else d.pending,
      if d.standby then was.uncorrectable else d.uncorrectable,
      if d.standby then was.crcErrors else d.crcErrors,
      if d.standby then was.smartStatus else d.smartStatus,
      d.standby,
      if d.standby then was.percentUsed else d.percentUsed)
  }

  function Upsert(rows: Rows, d: DiskRecord, ts: int): Rows {
    rows[d.device := DiskRow(if d.device in rows then Merge(rows[d.device].record, d) else d, ts)]
  }

  function UpsertAll(rows: Rows, ds: seq<DiskRecord>, ts: int): Rows {
    if ds == [] then rows else Upsert(UpsertAll(rows, ds[..|ds| - 1], ts), ds[|ds| - 1], ts)
  }

  type Temps = map<(string, int), int>

  function AddTemp(temps: Temps, d: DiskRecord, ts: int): Temps {
    if !d.standby && d.temp > 0 then temps[(d.device, ts) := d.temp] else temps
  }

  function AddTemps(temps: Temps, ds: seq<DiskRecord>, ts: int): Temps {
    if ds == [] then temps else AddTemp(AddTemps(temps, ds[..|ds| - 1], ts), ds[|ds| - 1], ts)
  }

  class DiskTable {
    var disks: Rows
    var temps: Temps

    constructor ()
      ensures disks == map[] && temps == map[]
    {
      disks, temps := map[], map[];
    }

    /** One transaction over all the records; if a statement for record `failAt`, or the commit after them all,
        fails, nothing is stored. */
    method UpsertDisks(now: Time, records: seq<DiskRecord>, failAt: Option<nat>) returns (ok: bool)
      modifies this
      ensures ok == !(failAt.Some? && failAt.value <= |records|)
      ensures disks == if ok then UpsertAll(old(disks), records, Unix(now)) else old(disks)
      ensures temps == if ok then AddTemps(old(temps), records, Unix(now)) else old(temps)
    {
      var ts := Unix(now);
      var stagedDisks, stagedTemps := disks, temps;
      for i := 0 to |records|
        invariant disks == old(disks) && temps == old(temps)
        invariant stagedDisks == UpsertAll(disks, records[..i], ts)
        invariant stagedTemps == AddTemps(temps, records[..i], ts)
        invariant failAt.Some? ==> failAt.value >= i
      {
        if failAt == Some(i) { return false; }
        assert records[..i + 1][..i] == records[..i];
        var d := records[i];
        stagedDisks := Upsert(stagedDisks, d, ts);
        if !d.standby && d.temp > 0 {
          stagedTemps := stagedTemps[(d.device, ts) := d.temp];
        }
      }
      assert records[..|records|] == records;
      if failAt == Some(|records|) { return false; }
      disks, temps := stagedDisks, stagedTemps;
      return true;
    }
  }

  // ---- What a row remembers ------------------------------------------------------------------------------

  /** A record that was committed, and when. */
  datatype Seen = Seen(record: DiskRecord, at: int)

  function RowsAfter(h: seq<Seen>): Rows {
    if h == [] then map[] else Upsert(RowsAfter(h[..|h| - 1]), h[|h| - 1].record, h[|h| - 1].at)
  }

  function SeenOf(h: seq<Seen>, device: string): seq<Seen> {
    if h == [] then []
    else
      var front := SeenOf(h[..|h| - 1], device);
      if h[|h| - 1].record.device == device then front + [h[|h| - 1]] else front
  }

  /** The last record of an awake drive; the first record if it never was. */
  function LastAwake(h: seq<Seen>): (i: nat)
    requires h != []
    ensures i < |h| && (i == 0 || !h[i].record.standby)
    ensures forall j | i < j < |h| :: h[j].record.standby
  {
    if |h| == 1 || !h[|h| - 1].record.standby then |h| - 1 else LastAwake(h[..|h| - 1])
  }

  /** The last non-empty text, or the empty one. */
  function LastText(h: seq<Seen>, field: DiskRecord -> string): (t: string)
    ensures t != "" ==> exists i :: 0 <= i < |h| && field(h[i].record) == t &&
                                    forall j | i < j < |h| :: field(h[j].record) == ""
    ensures t == "" ==> forall i | 0 <= i < |h| :: field(h[i].record) == ""
  {
    if h == [] then ""
    else KeepText(field(h[|h| - 1].record), LastText(h[..|h| - 1], field))
  }

  /** The last size other than 0, or 0. */
  function LastSize(h: seq<Seen>, field: DiskRecord -> int): (n: int)
    ensures n != 0 ==> exists i :: 0 <= i < |h| && field(h[i].record) == n &&
                                   forall j | i < j < |h| :: field(h[j].record) == 0
    ensures n == 0 ==> forall i | 0 <= i < |h| :: field(h[i].record) == 0
  {
    if h == [] then 0 else KeepSize(field(h[|h| - 1].record), LastSize(h[..|h| - 1], field))
  }

  /** What smartctl measures, as against what identifies the drive. */
  datatype Measured = Measured(temp: int, powerOnHours: int, powerCycles: int, reallocated: int, pending: int,
                               uncorrectable: int, crcErrors: int, smartStatus: string, percentUsed: int)

  function MeasuredOf(d: DiskRecord): Measured {
    Measured(d.temp, d.powerOnHours, d.powerCycles, d.reallocated, d.pending, d.uncorrectable, d.crcErrors,
             d.smartStatus, d.percentUsed)
  }

  ghost predicate Remembers(row: DiskRow, h: seq<Seen>)
    requires h != []
  {
    && MeasuredOf(row.record) == MeasuredOf(h[LastAwake(h)].record)
    && row.record.model == LastText(h, (d: DiskRecord) => d.model)
    && row.record.serial == LastText(h, (d: DiskRecord) => d.serial)
    && row.record.firmware == LastText(h, (d: DiskRecord) => d.firmware)
    && row.record.transport == LastText(h, (d: DiskRecord) => d.transport)
    && row.record.capacity == LastSize(h, (d: DiskRecord) => d.capacity)
    && row.record.rotation == LastSize(h, (d: DiskRecord) => d.rotation)
    && row.record.standby == h[|h| - 1].record.standby
    && row.lastSeen == h[|h| - 1].at
  }

  lemma FirstIsRemembered(s: Seen)
    ensures Remembers(DiskRow(s.record, s.at), [s])
  {
  }

  lemma MergeIsRemembered(row: DiskRow, h: seq<Seen>, s: Seen)
    requires h != [] && Remembers(row, h)
    ensures Remembers(DiskRow(Merge(row.record, s.record), s.at), h + [s])
  {
    var more := h + [s];
    assert more[..|h|] == h;
    assert forall i | 0 <= i < |h| :: more[i] == h[i];
  }

  /** A device has a row exactly when it was ever reported, and the row is its last awake measurement with the
      last known identification. */
  lemma {:induction false} RowsRemember(h: seq<Seen>, device: string)
    ensures device in RowsAfter(h) <==> SeenOf(h, device) != []
    ensures device in RowsAfter(h) ==> Remembers(RowsAfter(h)[device], SeenOf(h, device))
  {
    hide LastText, LastSize, LastAwake, Merge, MeasuredOf;
    if h != [] {
      var front, s := h[..|h| - 1], h[|h| - 1];
      RowsRemember(front, device);
      if s.record.device == device {
        if device in RowsAfter(front) {
          MergeIsRemembered(RowsAfter(front)[device], SeenOf(front, device), s);
        } else {
          FirstIsRemembered(s);
          assert [] + [s] == [s];
        }
      }
    }
  }

  function Stamp(ds: seq<DiskRecord>, ts: int): seq<Seen> {
    seq(|ds|, i requires 0 <= i < |ds| => Seen(ds[i], ts))
  }

  /** One committed batch extends the history by its records, all at one time. */
  lemma {:induction false} BatchExtendsHistory(h: seq<Seen>, ds: seq<DiskRecord>, ts: int)
    ensures UpsertAll(RowsAfter(h), ds, ts) == RowsAfter(h + Stamp(ds, ts))
  {
    if ds == [] {
      assert h + Stamp(ds, ts) == h;
    } else {
      var front := ds[..|ds| - 1];
      BatchExtendsHistory(h, front, ts);
      var all := h + Stamp(ds, ts);
      assert all[..|all| - 1] == h + Stamp(front, ts);
    }
  }

  /** Record `i` is of the key's awake drive, at the key's time, with a temperature above 0. */
  predicate Warm(ds: seq<DiskRecord>, i: int, key: (string, int), ts: int) {
    0 <= i < |ds| && ds[i].device == key.0 && ts == key.1 && !ds[i].standby && ds[i].temp > 0
  }

  /** A batch keeps the last temperature above 0 an awake drive reported in it, and every other one it finds. */
  lemma {:induction false} TempsOfABatch(temps: Temps, ds: seq<DiskRecord>, ts: int, key: (string, int))
    returns (i: int)
    ensures -1 <= i < |ds| && forall j | i < j < |ds| :: !Warm(ds, j, key, ts)
    ensures i >= 0 ==> Warm(ds, i, key, ts)
    ensures i >= 0 ==> key in AddTemps(temps, ds, ts) && AddTemps(temps, ds, ts)[key] == ds[i].temp
    ensures i < 0 ==> (key in AddTemps(temps, ds, ts) <==> key in temps)
    ensures i < 0 && key in temps ==> AddTemps(temps, ds, ts)[key] == temps[key]
  {
    if ds == [] { return -1; }
    var last := |ds| - 1;
    if Warm(ds, last, key, ts) { return last; }
    i := TempsOfABatch(temps, ds[..last], ts, key);
    forall j | 0 <= j < last ensures Warm(ds[..last], j, key, ts) <==> Warm(ds, j, key, ts) {
      assert ds[..last][j] == ds[j];
    }
  }
}
