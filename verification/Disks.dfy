/** A drive as the collector reports it. */
module Disks {
  datatype Disk = Disk(
    device: string, model: string, serial: string, firmware: string, capacity: int, rotation: int, transport: string,
    temperature: int, powerOnHours: int, powerCycles: int, reallocated: int, pending: int, uncorrectable: int,
    crcErrors: int, smartPassed: bool, smartKnown: bool, standby: bool, percentUsed: int)

  predicate Healthy(d: Disk) {
    !(d.smartKnown && !d.smartPassed) && d.reallocated == 0 && d.pending == 0 && d.uncorrectable == 0
  }
}
