/** A whole run of the daemon on one device: start, one uptime tick, the
    startup scan finds a device named "CyberPower CPS-UPS", and its task
    reads a battery report, a wattage report and a VA report. */
module Scenario {
  import opened Base
  import opened Usb
  import opened Telemetry
  import opened Resolver
  import opened Acquisition
  import opened Locator
  import Strings

  /** The three reports of the scenario, as the reads return them. */
  function Reports(): seq<ReadResult> {
    [Ok([8, 77]), Ok([25, 150, 0]), Ok([29, 9, 1])]
  }

  /** The read loop over the three reports sets the three telemetry fields
      and keeps running. */
  lemma ReportsRun(s: Snapshot)
    ensures Run(s, Interrupt, Reports())
      == RunResult(s.(batteryCapacity := 77, outputWattage := 150, outputVa := 265), Running)
  {
    var rs := Reports();
    var w0, w1, w2 := Decoder.Widened(rs[0].value), Decoder.Widened(rs[1].value), Decoder.Widened(rs[2].value);
    assert w0 == [8, 77];
    assert w1 == [25, 150, 0];
    assert w2 == [29, 9, 1];
    var s1 := s.(batteryCapacity := 77);
    var s2 := s1.(outputWattage := 150);
    var s3 := s2.(outputVa := 265);
    assert Decoder.Decode(w0) == Ok(BatteryCapacity(77));
    assert Decoder.Decode(w1) == Ok(OutputWattage(150));
    assert Decoder.Decode(w2) == Ok(OutputVa(265));
    assert rs[1..][1..][1..] == [];
    assert Run(s3, Interrupt, rs[1..][1..][1..]) == RunResult(s3, Running);
    assert Run(s2, Interrupt, rs[1..][1..]) == RunResult(s3, Running);
    assert Run(s1, Interrupt, rs[1..]) == RunResult(s3, Running);
  }

  /** The scenario's UPS, as enumeration reports it. */
  function Ups(vendor: u16, product: u16): Device {
    Device(Ok(DeviceDescriptor(vendor, product)), Ok(DeviceStrings(Ok("CyberPower"), Ok("CPS-UPS"))))
  }

  /** The startup scan over that one device selects it and writes its identity. */
  lemma UpsFound(s: Snapshot, vendor: u16, product: u16)
    ensures var devices := [Ups(vendor, product)];
      && ReadableCount(devices) == 1 && devices[..1] == devices
      && Selected(devices) == devices
      && Enumerate(s, devices)
         == s.(status := RUNNING, deviceName := "CyberPower CPS-UPS", vendorId := vendor, productId := product)
  {
    var device := Ups(vendor, product);
    var name := DeviceName(device.strings);
    assert name == "CyberPower" + " " + "CPS-UPS" == "CyberPower CPS-UPS";
    MarkerAcrossSeparator("CyberPower", "CPS-UPS");
    assert Strings.Contains("CPS-UPS", UPS_MARKER);
    assert IsUps(device);
    assert Strings.TrimEnd(name, NUL) == name;
    assert [device][..0] == [];
  }

  method EndToEnd(vendor: u16, product: u16) returns (snapshot: Snapshot, monitored: seq<Device>)
    ensures |monitored| == 1
    ensures snapshot.uptime == 1 && snapshot.status == RUNNING
    ensures snapshot.deviceName == "CyberPower CPS-UPS"
    ensures snapshot.vendorId == vendor && snapshot.productId == product
    ensures snapshot.batteryCapacity == 77 && snapshot.outputWattage == 150 && snapshot.outputVa == 265
  {
    var state := new DaemonState();
    state.Tick();

    UpsFound(state.Current(), vendor, product);
    var aborted;
    monitored, aborted := Locate(state, [Ups(vendor, product)]);

    ghost var identified := state.Current();
    ReportsRun(identified);
    var outcome := ReadLoop(state, Binding(0x81, Interrupt), Reports());
    snapshot := state.Current();
  }
}
