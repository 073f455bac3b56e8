/** The report decoder of the acquisition loop: the first `n` bytes of the
    report buffer are widened to u32, and byte 0 is read as a tag that names
    which telemetry field the following bytes carry. */
module Decoder {
  import opened Base
  import opened Telemetry

  const TAG_BATTERY_CAPACITY: u32 := 8
  const TAG_UNDOCUMENTED: u32 := 11
  const TAG_OUTPUT_WATTAGE: u32 := 25
  const TAG_OUTPUT_VA: u32 := 29

  /** An index past the end of the widened report: Rust's bounds check
      panics there. */
  datatype DecodeError = IndexOutOfBounds(index: nat, length: nat)

  /** Every element is the value of one byte. */
  predicate AllBytes(a: seq<u32>) {
    forall i :: 0 <= i < |a| ==> a[i] <= 0xFF
  }

  /** Element-wise widening of bytes to u32. */
  function Widened(bytes: seq<u8>): (a: seq<u32>)
    ensures |a| == |bytes| && AllBytes(a)
    ensures forall i :: 0 <= i < |a| ==> a[i] as int == bytes[i] as int
  {
    seq(|bytes|, i requires 0 <= i < |bytes| => bytes[i] as u32)
  }

  /** The loop that copies `buf[..n]` into a fresh vector of u32, one
      push per byte. */
  method Widen(buf: array<u8>, n: nat) returns (a: seq<u32>)
    requires n <= buf.Length
    ensures a == Widened(buf[..n])
  {
    a := [];
    var i := 0;
    while i < n
      invariant 0 <= i <= n
      invariant a == Widened(buf[..i])
    {
      a := a + [buf[i] as u32];
      i := i + 1;
    }
  }

  /** The two-byte little-endian quantity at indices 1 and 2, computed in
      u32 as the source does; it is at most 65535, so it never overflows. */
  function LittleEndian16(a: seq<u32>): (v: u32)
    requires |a| >= 3 && AllBytes(a)
    ensures v as int == a[1] as int + a[2] as int * 256 && v <= 0xFFFF
  {
    a[1] + (a[2] * 256)
  }

  /** Dispatch on the tag byte. A recognised tag whose payload bytes were not
      received fails at the first index that is out of bounds: index 1, then
      index 2, as the expression `a[1] + (a[2] * 256)` evaluates them. */
  function Decode(a: seq<u32>): (r: Result<Report, DecodeError>)
    requires |a| > 0 && AllBytes(a)
    ensures r.Ok? ==> ReportInRange(r.value)
    ensures r.Err? <==> MissingPayload(a)
    ensures r.Err? ==> r.error == IndexOutOfBounds(|a|, |a|)
  {
    var tag := a[0];
    if tag == TAG_BATTERY_CAPACITY then
      if |a| < 2 then Err(IndexOutOfBounds(1, |a|)) else Ok(BatteryCapacity(a[1]))
    else if tag == TAG_OUTPUT_WATTAGE || tag == TAG_OUTPUT_VA then
      if |a| < 2 then Err(IndexOutOfBounds(1, |a|))
      else if |a| < 3 then Err(IndexOutOfBounds(2, |a|))
      else if tag == TAG_OUTPUT_WATTAGE then Ok(OutputWattage(LittleEndian16(a)))
      else Ok(OutputVa(LittleEndian16(a)))
    else
      Ok(Ignored(tag))
  }

  /** A recognised tag whose payload is cut short. */
  predicate MissingPayload(a: seq<u32>)
    requires |a| > 0
  {
    (a[0] == TAG_BATTERY_CAPACITY && |a| < 2)
    || ((a[0] == TAG_OUTPUT_WATTAGE || a[0] == TAG_OUTPUT_VA) && |a| < 3)
  }

  /** The values a decoded report can carry. */
  predicate ReportInRange(r: Report) {
    match r
    case BatteryCapacity(p) => p <= 0xFF
    case OutputWattage(w) => w <= 0xFFFF
    case OutputVa(va) => va <= 0xFFFF
    case Ignored(t) => t <= 0xFF && t != TAG_BATTERY_CAPACITY
                       && t != TAG_OUTPUT_WATTAGE && t != TAG_OUTPUT_VA
  }

  /** The bytes a device sends for a report: the reference encoding of the
      tag table, against which the decoder is checked. */
  function Encode(r: Report): (bytes: seq<u8>)
    requires ReportInRange(r)
  {
    match r
    case BatteryCapacity(p) => [8, p as u8]
    case OutputWattage(w) => [25, (w % 256) as u8, (w / 256) as u8]
    case OutputVa(va) => [29, (va % 256) as u8, (va / 256) as u8]
    case Ignored(t) => [t as u8]
  }

  /** Tag 8 with at least two bytes: the battery capacity becomes byte 1,
      which fits one byte, no other field changes, and a repeat changes
      nothing further. */
  lemma BatteryReport(s: Snapshot, a: seq<u32>)
    requires |a| >= 2 && AllBytes(a) && a[0] == TAG_BATTERY_CAPACITY
    ensures Decode(a) == Ok(BatteryCapacity(a[1]))
    ensures a[1] <= 0xFF
    ensures Apply(s, Decode(a).value) == s.(batteryCapacity := a[1])
    ensures Apply(Apply(s, Decode(a).value), Decode(a).value) == Apply(s, Decode(a).value)
  {
  }

  /** Tag 25 with at least three bytes: the output wattage becomes
      `a[1] + a[2] * 256`, at most 65535; nothing else changes; idempotent. */
  lemma WattageReport(s: Snapshot, a: seq<u32>)
    requires |a| >= 3 && AllBytes(a) && a[0] == TAG_OUTPUT_WATTAGE
    ensures Decode(a).Ok? && Decode(a).value.OutputWattage?
    ensures var w := Decode(a).value.watts;
      && w as int == a[1] as int + a[2] as int * 256 && w <= 0xFFFF
      && Apply(s, Decode(a).value) == s.(outputWattage := w)
      && Apply(Apply(s, Decode(a).value), Decode(a).value) == Apply(s, Decode(a).value)
  {
  }

  /** Tag 29 with at least three bytes: the output VA becomes
      `a[1] + a[2] * 256`, at most 65535; nothing else changes; idempotent. */
  lemma VaReport(s: Snapshot, a: seq<u32>)
    requires |a| >= 3 && AllBytes(a) && a[0] == TAG_OUTPUT_VA
    ensures Decode(a).Ok? && Decode(a).value.OutputVa?
    ensures var va := Decode(a).value.voltAmperes;
      && va as int == a[1] as int + a[2] as int * 256 && va <= 0xFFFF
      && Apply(s, Decode(a).value) == s.(outputVa := va)
      && Apply(Apply(s, Decode(a).value), Decode(a).value) == Apply(s, Decode(a).value)
  {
  }

  /** Any other tag, 11 included, decodes whatever its length and leaves
      every field of the state unchanged. */
  lemma OtherTagsIgnored(s: Snapshot, a: seq<u32>)
    requires |a| > 0 && AllBytes(a)
    requires a[0] != TAG_BATTERY_CAPACITY && a[0] != TAG_OUTPUT_WATTAGE && a[0] != TAG_OUTPUT_VA
    ensures Decode(a) == Ok(Ignored(a[0]))
    ensures Apply(s, Decode(a).value) == s
  {
  }

  /** Decoding what a device sends for a report gives that report back. */
  lemma DecodeEncode(r: Report)
    requires ReportInRange(r)
    ensures |Encode(r)| > 0 && Decode(Widened(Encode(r))) == Ok(r)
  {
  }
}
