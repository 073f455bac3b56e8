/** The process-wide `DaemonState` record, its initial value and the three
    kinds of write the daemon performs on it: the uptime tick, the identity
    write when a device is matched, and the telemetry write after a report is
    decoded. The reader/writer lock around it is abstracted away: each write
    is one atomic method call. */
module Telemetry {
  import opened Base
  import opened Usb
  import Strings

  /** A field-by-field copy of the state, as a reader takes it under the read lock. */
  datatype Snapshot = Snapshot(
    uptime: u64,
    status: string,
    vendorId: u16,
    productId: u16,
    deviceName: string,
    batteryCapacity: u32,
    outputWattage: u32,
    outputVa: u32)

  const STARTING := "starting"
  const RUNNING := "running"
  const NUL: char := '\0'

  /** The value the state holds at process start. */
  function Initial(): Snapshot {
    Snapshot(0, STARTING, 0, 0, "", 0, 0, 0)
  }

  /** One decoded report: a variant per recognised tag and one for every
      other tag (11 included), which carries no field update. */
  datatype Report =
    | BatteryCapacity(percent: u32)
    | OutputWattage(watts: u32)
    | OutputVa(voltAmperes: u32)
    | Ignored(tag: u32)

  /** The state after the write a decoded report causes. */
  function Apply(s: Snapshot, r: Report): Snapshot {
    match r
    case BatteryCapacity(p) => s.(batteryCapacity := p)
    case OutputWattage(w) => s.(outputWattage := w)
    case OutputVa(va) => s.(outputVa := va)
    case Ignored(_) => s
  }

  /** The state after the identity write for a matched device named `name`. */
  function Identify(s: Snapshot, name: string, desc: DeviceDescriptor): Snapshot {
    s.(status := RUNNING,
       deviceName := Strings.TrimEnd(name, NUL),
       vendorId := desc.vendorId,
       productId := desc.productId)
  }

  /** The telemetry fields hold values a report can carry: one byte for the
      battery capacity, two little-endian bytes for wattage and VA. */
  predicate InRange(s: Snapshot) {
    s.batteryCapacity <= 0xFF && s.outputWattage <= 0xFFFF && s.outputVa <= 0xFFFF
  }

  /** The device-identity and uptime fields of two snapshots agree. */
  predicate SameIdentity(s: Snapshot, t: Snapshot) {
    s.uptime == t.uptime && s.status == t.status && s.vendorId == t.vendorId
    && s.productId == t.productId && s.deviceName == t.deviceName
  }

  /** The telemetry fields of two snapshots agree. */
  predicate SameTelemetry(s: Snapshot, t: Snapshot) {
    s.batteryCapacity == t.batteryCapacity && s.outputWattage == t.outputWattage
    && s.outputVa == t.outputVa
  }

  /** Applying a decoded report twice leaves the same state as applying it
      once: every write is a plain assignment, nothing accumulates. */
  lemma ApplyIdempotent(s: Snapshot, r: Report)
    ensures Apply(Apply(s, r), r) == Apply(s, r)
  {
  }

  /** The identity write sets status, name and ids and leaves uptime and the
      telemetry fields alone; the stored name never ends in a NUL. */
  lemma IdentifyEffect(s: Snapshot, name: string, desc: DeviceDescriptor)
    ensures var t := Identify(s, name, desc);
      && t.status == RUNNING
      && t.vendorId == desc.vendorId && t.productId == desc.productId
      && t.deviceName <= name
      && (|t.deviceName| == 0 || t.deviceName[|t.deviceName| - 1] != NUL)
      && (forall i :: |t.deviceName| <= i < |name| ==> name[i] == NUL)
      && t.uptime == s.uptime && SameTelemetry(s, t)
  {
    Strings.TrimEndIff(name, NUL);
  }

  /** The shared state, updated in place by the ticker, the locator and the
      acquisition loops. */
  class DaemonState {
    var uptime: u64
    var status: string
    var vendorId: u16
    var productId: u16
    var deviceName: string
    var batteryCapacity: u32
    var outputWattage: u32
    var outputVa: u32

    /** What a reader sees: a copy of every field. */
    function Current(): Snapshot
      reads this
    {
      Snapshot(uptime, status, vendorId, productId, deviceName,
               batteryCapacity, outputWattage, outputVa)
    }

    constructor ()
      ensures Current() == Initial()
      ensures uptime == 0 && status == STARTING && deviceName == ""
      ensures vendorId == 0 && productId == 0
      ensures batteryCapacity == 0 && outputWattage == 0 && outputVa == 0
    {
      uptime := 0;
      status := STARTING;
      vendorId := 0;
      productId := 0;
      deviceName := "";
      batteryCapacity := 0;
      outputWattage := 0;
      outputVa := 0;
    }

    /** One uptime tick: `uptime += 1` under the write lock. */
    method Tick()
      requires uptime < U64_MAX
      modifies this
      ensures uptime == old(uptime) + 1
      ensures Current() == old(Current()).(uptime := old(uptime) + 1)
    {
      uptime := uptime + 1;
    }

    /** The identity write performed when a device's name matches. */
    method RecordDevice(name: string, desc: DeviceDescriptor)
      modifies this
      ensures Current() == Identify(old(Current()), name, desc)
      ensures status == RUNNING && deviceName == Strings.TrimEnd(name, NUL)
      ensures vendorId == desc.vendorId && productId == desc.productId
      ensures uptime == old(uptime) && SameTelemetry(Current(), old(Current()))
    {
      status := RUNNING;
      deviceName := Strings.TrimEnd(name, NUL);
      vendorId := desc.vendorId;
      productId := desc.productId;
    }

    /** The telemetry write of one decoded report (none for an ignored tag). */
    method RecordReport(r: Report)
      modifies this
      ensures Current() == Apply(old(Current()), r)
      ensures SameIdentity(Current(), old(Current()))
    {
      match r
      case BatteryCapacity(p) => batteryCapacity := p;
      case OutputWattage(w) => outputWattage := w;
      case OutputVa(va) => outputVa := va;
      case Ignored(_) =>
    }
  }
}
