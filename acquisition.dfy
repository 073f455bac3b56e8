/** The per-device acquisition task: claim the device, resolve its inbound
    endpoint, then read reports into a reused 64-byte buffer, decode each one
    and write the result into the shared state, until a read fails with
    anything but a timeout. The infinite loop is modelled on a finite
    sequence of read results; when they run out the loop is still running. */
module Acquisition {
  import opened Base
  import opened Usb
  import opened Telemetry
  import opened Decoder
  import opened Resolver

  /** The fallible steps before the endpoint scan, in the order they run:
      open the device, ask whether a kernel driver holds interface 0, detach
      it if so, claim interface 0, read the active configuration. */
  datatype Setup = Setup(
    open: Result<(), UsbError>,
    kernelDriverActive: Result<bool, UsbError>,
    detach: Result<(), UsbError>,
    claim: Result<(), UsbError>,
    config: Result<ConfigDescriptor, UsbError>)

  /** Every step succeeds; detaching matters only when a driver is active. */
  predicate SetupSucceeds(s: Setup) {
    && s.open.Ok?
    && s.kernelDriverActive.Ok?
    && (s.kernelDriverActive.value ==> s.detach.Ok?)
    && s.claim.Ok?
    && s.config.Ok?
  }

  /** The `?` chain before the scan: the first failing step's error, or the
      configuration descriptor. */
  function Prepare(s: Setup): (r: Result<ConfigDescriptor, UsbError>)
    ensures r.Ok? <==> SetupSucceeds(s)
    ensures r.Ok? ==> r.value == s.config.value
    ensures s.open.Err? ==> r == Err(s.open.error)
  {
    if s.open.Err? then Err(s.open.error)
    else if s.kernelDriverActive.Err? then Err(s.kernelDriverActive.error)
    else if s.kernelDriverActive.value && s.detach.Err? then Err(s.detach.error)
    else if s.claim.Err? then Err(s.claim.error)
    else s.config
  }

  /** Only bulk and interrupt endpoints have a read primitive. */
  predicate Supported(t: TransferType) {
    t == Bulk || t == Interrupt
  }

  /** How the read loop ends: still running when the reads ran out, stopped
      by a read error, or panicked on an index past the received bytes. */
  datatype LoopOutcome = Running | Stopped(error: UsbError) | Panicked(fault: DecodeError)

  datatype RunResult = RunResult(state: Snapshot, outcome: LoopOutcome)

  /** The read loop as a function of the state it starts from, the endpoint's
      transfer type and the results the reads return. An unsupported transfer
      type yields `Other` before any read; a timeout or an empty read is
      skipped; a non-empty read is decoded and written; any other error stops. */
  function Run(s: Snapshot, t: TransferType, results: seq<ReadResult>): RunResult
    decreases |results|
  {
    if !Supported(t) then RunResult(s, Stopped(Other))
    else if results == [] then RunResult(s, Running)
    else
      match results[0]
      case Ok(data) =>
        if |data| == 0 then Run(s, t, results[1..])
        else
          (match Decode(Widened(data))
           case Ok(r) => Run(Apply(s, r), t, results[1..])
           case Err(e) => RunResult(s, Panicked(e)))
      case Err(e) =>
        if e == Timeout then Run(s, t, results[1..]) else RunResult(s, Stopped(e))
  }

  /** The read loop over the shared state, with the report buffer reused in
      place from one read to the next. */
  method ReadLoop(state: DaemonState, binding: Binding, results: seq<ReadResult>)
    returns (outcome: LoopOutcome)
    requires ReadsFit(results)
    modifies state
    ensures Run(old(state.Current()), binding.transferType, results) == RunResult(state.Current(), outcome)
  {
    var t := binding.transferType;
    var buf := new u8[REPORT_BUFFER_SIZE](_ => 0);
    outcome := Running;
    var i := 0;
    while outcome == Running
      invariant 0 <= i <= |results|
      invariant buf.Length == REPORT_BUFFER_SIZE
      invariant Run(old(state.Current()), t, results)
        == if outcome == Running then Run(state.Current(), t, results[i..])
           else RunResult(state.Current(), outcome)
      decreases |results| - i + (if outcome == Running then 1 else 0)
    {
      var result: ReadResult;
      if Supported(t) {
        // read_bulk or read_interrupt into buf; the reads are the model's input
        if i == |results| {
          break;
        }
        result := results[i];
        assert results[i..][1..] == results[i + 1..];
        i := i + 1;
        if result.Ok? {
          var data := result.value;
          forall k | 0 <= k < |data| {
            buf[k] := data[k];
          }
        }
      } else {
        result := Err(Other);
      }
      match result
      case Ok(data) =>
        var n := |data|;
        if n > 0 {
          var a := Widen(buf, n);
          assert buf[..n] == data;
          match Decode(a)
          case Ok(r) =>
            state.RecordReport(r);
          case Err(e) =>
            outcome := Panicked(e);
        }
      case Err(e) =>
        if e != Timeout {
          outcome := Stopped(e);
        }
    }
  }

  /** How one device's task ends: a setup step failed, the configuration has
      no inbound endpoint (both panic the task), or the read loop ended. */
  datatype SniffOutcome = SetupFailed(error: UsbError) | NoInEndpoint | Finished(outcome: LoopOutcome)

  /** The whole task of one matched device. */
  method Sniff(state: DaemonState, setup: Setup, results: seq<ReadResult>) returns (r: SniffOutcome)
    requires ReadsFit(results)
    modifies state
    ensures Prepare(setup).Err? ==>
      r == SetupFailed(Prepare(setup).error) && state.Current() == old(state.Current())
    ensures Prepare(setup).Ok? && LastIn(Endpoints(Prepare(setup).value)).None? ==>
      r == NoInEndpoint && state.Current() == old(state.Current())
    ensures Prepare(setup).Ok? && LastIn(Endpoints(Prepare(setup).value)).Some? ==>
      var run := Run(old(state.Current()), LastIn(Endpoints(Prepare(setup).value)).value.transferType, results);
      r == Finished(run.outcome) && state.Current() == run.state
  {
    var config := Prepare(setup);
    if config.Err? {
      return SetupFailed(config.error);
    }
    var inEndpoint := FindInEndpoint(config.value);
    if inEndpoint.None? {
      return NoInEndpoint;
    }
    var outcome := ReadLoop(state, inEndpoint.value, results);
    r := Finished(outcome);
  }

  /** Running over `xs + ys` is running over `xs` and, if the loop is still
      running then, over `ys` from the state `xs` left. */
  lemma {:induction false} RunAppend(s: Snapshot, t: TransferType, xs: seq<ReadResult>, ys: seq<ReadResult>)
    ensures Run(s, t, xs + ys)
      == if Run(s, t, xs).outcome == Running then Run(Run(s, t, xs).state, t, ys) else Run(s, t, xs)
    decreases |xs|
  {
    if Supported(t) && xs != [] {
      assert (xs + ys)[0] == xs[0];
      assert (xs + ys)[1..] == xs[1..] + ys;
      match xs[0]
      case Ok(data) =>
        if |data| == 0 {
          RunAppend(s, t, xs[1..], ys);
        } else if Decode(Widened(data)).Ok? {
          RunAppend(Apply(s, Decode(Widened(data)).value), t, xs[1..], ys);
        }
      case Err(e) =>
        if e == Timeout {
          RunAppend(s, t, xs[1..], ys);
        }
    } else if xs == [] {
      assert xs + ys == ys;
    }
  }

  /** A read that neither carries data nor fails: `Ok(0)` or a timeout. */
  predicate Quiet(r: ReadResult) {
    r == Ok([]) || r == Err(Timeout)
  }

  /** Empty reads and timeouts leave the state as it was and the loop running. */
  lemma {:induction false} QuietReadsChangeNothing(s: Snapshot, t: TransferType, results: seq<ReadResult>)
    requires Supported(t)
    requires forall i :: 0 <= i < |results| ==> Quiet(results[i])
    ensures Run(s, t, results) == RunResult(s, Running)
    decreases |results|
  {
    if results != [] {
      assert Quiet(results[0]);
      QuietReadsChangeNothing(s, t, results[1..]);
    }
  }

  /** A read error other than a timeout ends the loop there: the state is the
      one the earlier reads left, and later reads are never made. */
  lemma FatalErrorStops(s: Snapshot, t: TransferType, before: seq<ReadResult>, e: UsbError, after: seq<ReadResult>)
    requires Supported(t) && e != Timeout
    requires Run(s, t, before).outcome == Running
    ensures Run(s, t, before + [Err(e)] + after) == RunResult(Run(s, t, before).state, Stopped(e))
  {
    RunAppend(s, t, before, [Err(e)] + after);
    assert before + [Err(e)] + after == before + ([Err(e)] + after);
  }

  /** An endpoint with neither bulk nor interrupt transfers stops the loop on
      its first iteration, with `Other` and the state untouched. */
  lemma UnsupportedStopsAtOnce(s: Snapshot, t: TransferType, results: seq<ReadResult>)
    requires !Supported(t)
    ensures Run(s, t, results) == RunResult(s, Stopped(Other))
  {
  }

  /** The loop writes only telemetry fields, and only values a report can
      carry: identity and uptime are untouched, and the telemetry fields stay
      within one byte (battery) and two bytes (wattage, VA). */
  lemma {:induction false} RunWritesOnlyTelemetry(s: Snapshot, t: TransferType, results: seq<ReadResult>)
    requires InRange(s)
    ensures SameIdentity(Run(s, t, results).state, s)
    ensures InRange(Run(s, t, results).state)
    decreases |results|
  {
    if Supported(t) && results != [] {
      match results[0]
      case Ok(data) =>
        if |data| == 0 {
          RunWritesOnlyTelemetry(s, t, results[1..]);
        } else if Decode(Widened(data)).Ok? {
          RunWritesOnlyTelemetry(Apply(s, Decode(Widened(data)).value), t, results[1..]);
        }
      case Err(e) =>
        if e == Timeout {
          RunWritesOnlyTelemetry(s, t, results[1..]);
        }
    }
  }

  /** A report the loop panics on leaves the state as the earlier reads left it. */
  lemma PanicKeepsState(s: Snapshot, t: TransferType, before: seq<ReadResult>, data: seq<u8>, after: seq<ReadResult>)
    requires Supported(t) && |data| > 0 && Decode(Widened(data)).Err?
    requires Run(s, t, before).outcome == Running
    ensures Run(s, t, before + [Ok(data)] + after)
      == RunResult(Run(s, t, before).state, Panicked(Decode(Widened(data)).error))
  {
    RunAppend(s, t, before, [Ok(data)] + after);
    assert before + [Ok(data)] + after == before + ([Ok(data)] + after);
  }
}
