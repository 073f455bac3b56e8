/** The device locator at startup: for every enumerated device, read its
    descriptor, compose its name from the manufacturer and product strings,
    and select it as the UPS when the name contains the vendor marker. A
    selected device's identity is written into the shared state and the
    device is handed to its own acquisition task. */
module Locator {
  import opened Base
  import opened Usb
  import opened Telemetry
  import opened Strings

  const UNKNOWN := "<unknown>"
  const UPS_MARKER := "CPS"

  /** `get_device_name` followed by `unwrap_or("<unknown>")`: the whole name
      is the placeholder when the device cannot be opened, and each string
      that cannot be read is replaced by it. */
  function DeviceName(strings: Result<DeviceStrings, UsbError>): string {
    match strings
    case Err(_) => UNKNOWN
    case Ok(ds) => ds.manufacturer.UnwrapOr(UNKNOWN) + " " + ds.product.UnwrapOr(UNKNOWN)
  }

  /** The selection test. */
  predicate IsUps(d: Device) {
    Contains(DeviceName(d.strings), UPS_MARKER)
  }

  /** A string descriptor that was read and contains the marker. */
  predicate HasMarker(r: Result<string, UsbError>) {
    r.Ok? && Contains(r.value, UPS_MARKER)
  }

  lemma UnknownHasNoMarker()
    ensures !Contains(UNKNOWN, UPS_MARKER)
  {
    NoFirstCharNoMatch(UNKNOWN, UPS_MARKER);
  }

  /** An occurrence of the marker cannot cover the separating space. */
  lemma StraddleNeverMatches(m: string, p: string)
    ensures forall i :: |m| - |UPS_MARKER| < i <= |m| ==> !OccursAt(m + " " + p, UPS_MARKER, i)
  {
    var n := m + " " + p;
    forall i | |m| - |UPS_MARKER| < i <= |m|
      ensures !OccursAt(n, UPS_MARKER, i)
    {
      if 0 <= i && i + |UPS_MARKER| <= |n| {
        assert n[i..i + |UPS_MARKER|][|m| - i] == ' ';
      }
    }
  }

  /** Occurrences that lie wholly in the left part of `m + " " + p`. */
  lemma OccursLeft(m: string, p: string, q: string, i: int)
    requires 0 <= i && i + |q| <= |m|
    ensures OccursAt(m + " " + p, q, i) <==> OccursAt(m, q, i)
  {
    assert (m + " " + p)[i..i + |q|] == m[i..i + |q|];
  }

  /** Occurrences that lie wholly in the right part of `m + " " + p`. */
  lemma OccursRight(m: string, p: string, q: string, j: int)
    requires 0 <= j
    ensures OccursAt(m + " " + p, q, |m| + 1 + j) <==> OccursAt(p, q, j)
  {
    var n := m + " " + p;
    if j + |q| <= |p| {
      assert n[|m| + 1 + j..|m| + 1 + j + |q|] == p[j..j + |q|];
    }
  }

  /** The marker holds no space, so it occurs in `m + " " + p` exactly when
      it occurs in `m` or in `p`. */
  lemma MarkerAcrossSeparator(m: string, p: string)
    ensures Contains(m + " " + p, UPS_MARKER) <==> Contains(m, UPS_MARKER) || Contains(p, UPS_MARKER)
  {
    var n := m + " " + p;
    var q := UPS_MARKER;
    ContainsIff(n, q);
    ContainsIff(m, q);
    ContainsIff(p, q);
    StraddleNeverMatches(m, p);
    if i :| OccursAt(n, q, i) {
      if i + |q| <= |m| {
        OccursLeft(m, p, q, i);
      } else {
        OccursRight(m, p, q, i - |m| - 1);
      }
    }
    if i :| OccursAt(m, q, i) {
      OccursLeft(m, p, q, i);
    }
    if j :| OccursAt(p, q, j) {
      OccursRight(m, p, q, j);
    }
  }

  /** A device is selected exactly when it can be opened and its readable
      manufacturer or product string contains the marker; an unopenable
      device is never selected. */
  lemma SelectedIff(d: Device)
    ensures IsUps(d) <==> d.strings.Ok? && (HasMarker(d.strings.value.manufacturer) || HasMarker(d.strings.value.product))
    ensures d.strings.Err? ==> DeviceName(d.strings) == UNKNOWN && !IsUps(d)
  {
    UnknownHasNoMarker();
    if d.strings.Ok? {
      var ds := d.strings.value;
      MarkerAcrossSeparator(ds.manufacturer.UnwrapOr(UNKNOWN), ds.product.UnwrapOr(UNKNOWN));
    }
  }

  /** How many leading devices have a readable descriptor: enumeration panics
      at the first one that does not. */
  function ReadableCount(devices: seq<Device>): (k: nat)
    ensures k <= |devices|
    ensures forall i :: 0 <= i < k ==> devices[i].descriptor.Ok?
    ensures k < |devices| ==> devices[k].descriptor.Err?
  {
    if devices == [] || devices[0].descriptor.Err? then 0 else 1 + ReadableCount(devices[1..])
  }

  /** The selected devices, in enumeration order. */
  function Selected(devices: seq<Device>): seq<Device> {
    if devices == [] then []
    else
      var last := devices[|devices| - 1];
      Selected(devices[..|devices| - 1]) + (if IsUps(last) then [last] else [])
  }

  predicate AllReadable(devices: seq<Device>) {
    forall i :: 0 <= i < |devices| ==> devices[i].descriptor.Ok?
  }

  /** A device is kept exactly when it was enumerated and is selected. */
  lemma {:induction false} SelectedIsFilter(devices: seq<Device>)
    ensures forall d :: d in Selected(devices) <==> d in devices && IsUps(d)
  {
    if devices != [] {
      var init := devices[..|devices| - 1];
      SelectedIsFilter(init);
      assert devices == init + [devices[|devices| - 1]];
    }
  }

  /** The identity writes of a run of readable devices, in order. */
  function Enumerate(s: Snapshot, devices: seq<Device>): Snapshot
    requires AllReadable(devices)
  {
    if devices == [] then s
    else
      var t := Enumerate(s, devices[..|devices| - 1]);
      var last := devices[|devices| - 1];
      if IsUps(last) then Identify(t, DeviceName(last.strings), last.descriptor.value) else t
  }

  /** The scan writes only identity fields: uptime and telemetry are untouched. */
  lemma {:induction false} EnumerateKeepsTelemetry(s: Snapshot, devices: seq<Device>)
    requires AllReadable(devices)
    ensures Enumerate(s, devices).uptime == s.uptime && SameTelemetry(Enumerate(s, devices), s)
  {
    if devices != [] {
      EnumerateKeepsTelemetry(s, devices[..|devices| - 1]);
    }
  }

  /** With no selected device the state is left as it was. */
  lemma {:induction false} EnumerateNoMatch(s: Snapshot, devices: seq<Device>)
    requires AllReadable(devices)
    requires forall j :: 0 <= j < |devices| ==> !IsUps(devices[j])
    ensures Enumerate(s, devices) == s
  {
    if devices != [] {
      EnumerateNoMatch(s, devices[..|devices| - 1]);
    }
  }

  /** Index `k` holds the last selected device. */
  predicate IsLastSelected(devices: seq<Device>, k: int) {
    0 <= k < |devices| && IsUps(devices[k])
    && forall j :: k < j < |devices| ==> !IsUps(devices[j])
  }

  /** With several selected devices the last one's identity wins: the state
      is the one a single identity write of that device produces. */
  lemma {:induction false} EnumerateLastMatchWins(s: Snapshot, devices: seq<Device>, k: nat)
    requires AllReadable(devices) && IsLastSelected(devices, k)
    ensures Enumerate(s, devices)
      == Identify(s, DeviceName(devices[k].strings), devices[k].descriptor.value)
  {
    var init := devices[..|devices| - 1];
    if k == |devices| - 1 {
      EnumerateKeepsTelemetry(s, init);
    } else {
      EnumerateLastMatchWins(s, init, k);
    }
  }

  /** One device of the scan with a readable descriptor: compose its name,
      and write its identity when the name holds the marker. */
  method Visit(state: DaemonState, d: Device) returns (selected: bool)
    requires d.descriptor.Ok?
    modifies state
    ensures selected == IsUps(d)
    ensures state.Current()
      == if selected then Identify(old(state.Current()), DeviceName(d.strings), d.descriptor.value)
         else old(state.Current())
  {
    var name := DeviceName(d.strings);
    selected := Contains(name, UPS_MARKER);
    if selected {
      state.RecordDevice(name, d.descriptor.value);
    }
  }

  /** The startup scan over every enumerated device. It returns the devices
      handed to an acquisition task and whether it stopped at a device whose
      descriptor could not be read (a panic that ends the process). */
  method Locate(state: DaemonState, devices: seq<Device>) returns (monitored: seq<Device>, aborted: bool)
    modifies state
    ensures var k := ReadableCount(devices);
      && aborted == (k < |devices|)
      && monitored == Selected(devices[..k])
      && state.Current() == Enumerate(old(state.Current()), devices[..k])
  {
    monitored := [];
    aborted := false;
    var i := 0;
    while i < |devices|
      invariant 0 <= i <= |devices|
      invariant forall j :: 0 <= j < i ==> devices[j].descriptor.Ok?
      invariant monitored == Selected(devices[..i])
      invariant state.Current() == Enumerate(old(state.Current()), devices[..i])
    {
      var d := devices[i];
      if d.descriptor.Err? {
        aborted := true;
        break;
      }
      ScanStep(old(state.Current()), devices, i);
      var selected := Visit(state, d);
      if selected {
        monitored := monitored + [d];
      }
      i := i + 1;
    }
    ReadableCountIsFirstUnreadable(devices, i);
  }

  /** Extending the scanned prefix by one readable device. */
  lemma ScanStep(s: Snapshot, devices: seq<Device>, i: nat)
    requires i < |devices| && devices[i].descriptor.Ok?
    requires forall j :: 0 <= j < i ==> devices[j].descriptor.Ok?
    ensures forall j :: 0 <= j < i + 1 ==> devices[j].descriptor.Ok?
    ensures AllReadable(devices[..i]) && AllReadable(devices[..i + 1])
    ensures Selected(devices[..i + 1])
      == Selected(devices[..i]) + if IsUps(devices[i]) then [devices[i]] else []
    ensures Enumerate(s, devices[..i + 1])
      == var t := Enumerate(s, devices[..i]);
         if IsUps(devices[i]) then Identify(t, DeviceName(devices[i].strings), devices[i].descriptor.value) else t
  {
    assert devices[..i + 1][..i] == devices[..i];
  }

  /** The readable prefix ends at the first unreadable descriptor. */
  lemma ReadableCountIsFirstUnreadable(devices: seq<Device>, i: nat)
    requires i <= |devices|
    requires forall j :: 0 <= j < i ==> devices[j].descriptor.Ok?
    requires i < |devices| ==> devices[i].descriptor.Err?
    ensures ReadableCount(devices) == i
  {
  }
}
