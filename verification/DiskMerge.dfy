/** A cycle over the drives: their records are stored, and a sleeping drive is shown with what the store
    remembers of it. */
module DiskMerge {
  import opened Common
  import opened Disks
  import opened DiskStore

  function StatusOf(d: Disk): string {
    if !d.smartKnown then "unknown" else if d.smartPassed then "passed" else "failed"
  }

  function RecordOf(d: Disk): DiskRecord {
    DiskRecord(d.device, d.model, d.serial, d.firmware, d.capacity, d.rotation, d.transport, d.temperature,
               d.powerOnHours, d.powerCycles, d.reallocated, d.pending, d.uncorrectable, d.crcErrors, StatusOf(d),
               d.standby, d.percentUsed)
  }

  /** A sleeping drive as its row describes it. */
  function Asleep(device: string, r: DiskRecord): Disk {
    Disk(device, r.model, r.serial, r.firmware, r.capacity, r.rotation, r.transport, r.temp, r.powerOnHours,
         r.powerCycles, r.reallocated, r.pending, r.uncorrectable, r.crcErrors, r.smartStatus == "passed",
         r.smartStatus != "unknown", true, r.percentUsed)
  }

  function Shown(d: Disk, rows: Rows): Disk {
    if d.standby && d.device in rows then Asleep(d.device, rows[d.device].record) else d
  }

  function ShownAll(ds: seq<Disk>, rows: Rows): seq<Disk> {
    seq(|ds|, i requires 0 <= i < |ds| => Shown(ds[i], rows))
  }

  function Records(ds: seq<Disk>): seq<DiskRecord> {
    seq(|ds|, i requires 0 <= i < |ds| => RecordOf(ds[i]))
  }

  function Parsed(payload: seq<Result<Disk>>): seq<Disk> {
    if payload == [] then []
    else
      var front := Parsed(payload[..|payload| - 1]);
      match payload[|payload| - 1]
      case Ok(d) => front + [d]
      case Failed => front
  }

  /** Overwrites the sleeping drives in place; without the stored rows everything stays as it was read. */
  method MergeStandby(parsed: array<Disk>, stored: Option<Rows>)
    modifies parsed
    ensures parsed[..] == ShownAll(old(parsed[..]), if stored.Some? then stored.value else map[])
  {
    var needsMerge := false;
    for i := 0 to parsed.Length
      invariant !needsMerge ==> forall j | 0 <= j < i :: !parsed[j].standby
    {
      if parsed[i].standby {
        needsMerge := true;
        break;
      }
    }
    if !needsMerge || stored.None? { return; }
    var byDevice := stored.value;
    for i := 0 to parsed.Length
      invariant forall j | 0 <= j < i :: parsed[j] == Shown(old(parsed[j]), byDevice)
      invariant forall j | i <= j < parsed.Length :: parsed[j] == old(parsed[j])
    {
      var d := parsed[i];
      if !d.standby || d.device !in byDevice { continue; }
      parsed[i] := Asleep(d.device, byDevice[d.device].record);
    }
  }

  /** One cycle: what smartctl printed, as parsed values; the store's two calls may fail. */
  method CollectSmart(table: DiskTable, now: Time, payload: seq<Result<Disk>>, failAt: Option<nat>, readable: bool)
    returns (disks: array<Disk>, ok: bool)
    modifies table
    ensures fresh(disks)
    ensures table.disks == if ok then UpsertAll(old(table.disks), Records(Parsed(payload)), Unix(now))
                           else old(table.disks)
    ensures disks[..] == ShownAll(Parsed(payload), if readable then table.disks else map[])
  {
    var parsed: seq<Disk> := [];
    var records: seq<DiskRecord> := [];
    for i := 0 to |payload|
      invariant parsed == Parsed(payload[..i]) && records == Records(parsed)
    {
      assert payload[..i + 1][..i] == payload[..i];
      if payload[i].Failed? { continue; }
      var d := payload[i].value;
      parsed := parsed + [d];
      var status := "unknown";
      if d.smartKnown {
        status := "failed";
        if d.smartPassed { status := "passed"; }
      }
      records := records + [RecordOf(d).(smartStatus := status)];
    }
    assert payload[..|payload|] == payload;
    ok := table.UpsertDisks(now, records, failAt);
    disks := new Disk[|parsed|](i requires 0 <= i < |parsed| => parsed[i]);
    assert disks[..] == parsed;
    MergeStandby(disks, if readable then Some(table.disks) else None);
  }

  // ---- A sleeping drive is judged by its last reading ----------------------------------------------------

  /** A reading that reached the table. */
  datatype Reading = Reading(disk: Disk, at: int)

  function Stored(rs: seq<Reading>): seq<Seen> {
    seq(|rs|, i requires 0 <= i < |rs| => Seen(RecordOf(rs[i].disk), rs[i].at))
  }

  function ReadingsOf(rs: seq<Reading>, device: string): seq<Reading> {
    if rs == [] then []
    else
      var front := ReadingsOf(rs[..|rs| - 1], device);
      if rs[|rs| - 1].disk.device == device then front + [rs[|rs| - 1]] else front
  }

  lemma {:induction false} StoredOf(rs: seq<Reading>, device: string)
    ensures SeenOf(Stored(rs), device) == Stored(ReadingsOf(rs, device))
  {
    if rs != [] {
      StoredOf(rs[..|rs| - 1], device);
      assert Stored(rs)[..|rs| - 1] == Stored(rs[..|rs| - 1]);
    }
  }

  /** Recording a drive and reading it back loses nothing but a verdict smartctl did not give. */
  lemma RecordReadsBack(d: Disk)
    ensures Asleep(d.device, RecordOf(d)) == d.(standby := true, smartPassed := d.smartKnown && d.smartPassed)
  {
  }

  /** The encoded status decodes to what Healthy looks at. */
  lemma StatusSurvives(d: Disk, device: string, r: DiskRecord)
    requires MeasuredOf(r) == MeasuredOf(RecordOf(d))
    ensures Healthy(Asleep(device, r)) <==> Healthy(d)
    ensures Asleep(device, r).smartKnown == d.smartKnown
    ensures d.smartKnown ==> Asleep(device, r).smartPassed == d.smartPassed
  {
  }

  /** Whatever readings were stored before, a drive found asleep that was ever read before is shown with the
      measurements of its last awake reading, the first if it never was awake, and is healthy exactly when that
      reading was. */
  lemma SleepingDriveShowsLastReading(rs: seq<Reading>, d: Disk)
    requires d.standby && ReadingsOf(rs, d.device) != []
    ensures var own := ReadingsOf(rs, d.device);
            var last := own[LastAwake(Stored(own))].disk;
            var shown := Shown(d, RowsAfter(Stored(rs)));
            && (Healthy(shown) <==> Healthy(last))
            && shown.temperature == last.temperature && shown.reallocated == last.reallocated
            && shown.pending == last.pending && shown.uncorrectable == last.uncorrectable
            && shown.crcErrors == last.crcErrors && shown.powerOnHours == last.powerOnHours
            && shown.powerCycles == last.powerCycles
            && shown.percentUsed == last.percentUsed && shown.smartKnown == last.smartKnown
            && shown.device == d.device && shown.standby
  {
    var own := ReadingsOf(rs, d.device);
    StoredOf(rs, d.device);
    assert Stored(own) != [];
    RowsRemember(Stored(rs), d.device);
    var row := RowsAfter(Stored(rs))[d.device];
    assert Remembers(row, Stored(own));
    StatusSurvives(own[LastAwake(Stored(own))].disk, d.device, row.record);
  }

  /** A cycle whose store calls succeed shows each of its sleeping drives from a history that includes that very
      cycle, so even a drive seen for the first time is found. */
  lemma CycleExtendsHistory(rs: seq<Reading>, ds: seq<Disk>, ts: int)
    ensures UpsertAll(RowsAfter(Stored(rs)), Records(ds), ts) ==
            RowsAfter(Stored(rs + seq(|ds|, i requires 0 <= i < |ds| => Reading(ds[i], ts))))
  {
    BatchExtendsHistory(Stored(rs), Records(ds), ts);
    var more := rs + seq(|ds|, i requires 0 <= i < |ds| => Reading(ds[i], ts));
    assert Stored(more) == Stored(rs) + Stamp(Records(ds), ts);
  }

  /** A record has the drive's identification and measurements, and the verdict in a word. */
  lemma RecordHolds(d: Disk)
    ensures var r := RecordOf(d);
      && r.device == d.device && r.model == d.model && r.serial == d.serial && r.firmware == d.firmware
      && r.capacity == d.capacity && r.rotation == d.rotation && r.transport == d.transport
      && r.temp == d.temperature && r.powerOnHours == d.powerOnHours && r.powerCycles == d.powerCycles
      && r.reallocated == d.reallocated && r.pending == d.pending && r.uncorrectable == d.uncorrectable
      && r.crcErrors == d.crcErrors && r.percentUsed == d.percentUsed && r.standby == d.standby
      && (r.smartStatus == "unknown" <==> !d.smartKnown)
      && (r.smartStatus == "passed" <==> d.smartKnown && d.smartPassed)
      && (r.smartStatus == "failed" <==> d.smartKnown && !d.smartPassed)
  {}
}
