# pwrusb daemon core, modelled in Dafny

pwrusb is a daemon that watches a USB UPS (uninterruptible power supply).
It keeps one shared `DaemonState` record: uptime, a status label, the
matched device's vendor and product ids and name, and the last battery
capacity, output wattage and output VA the UPS reported. This project
models the decision logic of `src/main.rs` and proves properties of it:

- **Device locator.** At startup each enumerated device gets a name,
  `"{manufacturer} {product}"`. Each string that cannot be read is replaced
  by `"<unknown>"`. A device that cannot be opened is named `"<unknown>"`
  as a whole. A device is selected when its name contains `"CPS"`. On a
  match the state's status, name (trailing NULs trimmed) and ids are
  written, and the device gets its own acquisition task. A device whose
  descriptor cannot be read aborts the scan.
- **Endpoint resolver.** Three nested loops over interfaces, interface
  descriptors and endpoints keep the last inbound endpoint. Its address and
  transfer type bind the read loop.
- **Report decoder.** The first `n` bytes of the 64-byte buffer are widened
  to u32. Byte 0 is a tag:
  - 8 sets the battery capacity to byte 1;
  - 25 sets the output wattage to `byte1 + byte2*256`;
  - 29 sets the output VA to `byte1 + byte2*256`;
  - every other tag, 11 included, changes nothing.
- **Acquisition loop.** Each read yields data, zero bytes, a timeout or
  another error. Data is decoded and written. Zero bytes and timeouts are
  skipped. Any other error ends the loop. An endpoint that is neither bulk
  nor interrupt fails with `Other` on the first iteration.
- **Uptime ticker.** Adds one to `uptime` per tick.

Modules, one file each:

- `Base`: u8/u16/u32/u64 as newtypes, `Option`, `Result`.
- `Usb`: the descriptor, error and read-result values the USB stack returns.
- `Strings`: `str::contains` and `trim_end_matches`.
- `Telemetry`: the `DaemonState` class, its `Snapshot` value and the
  three kinds of write.
- `Decoder`, `Resolver`, `Acquisition`, `Locator`: the components above.
- `Scenario`: one whole run on one device.

The USB stack's answers are inputs: device lists, string reads, setup
results, configuration descriptors and finite sequences of read results.
The reader/writer lock is abstracted away: each write to the shared state
is one atomic method of the `DaemonState` class.

Where the design description and the code disagree, the model follows the
code:

- The design says a read loop goes back to waiting "regardless of decode
  outcome". In the code, a report with tag 8 and fewer than 2 bytes, or
  tag 25 or 29 and fewer than 3 bytes, indexes past the end of the widened
  vector. That panics the device's task. The model ends the loop with
  `Panicked` and leaves the state as it was.
- The design calls the two-byte values unchecked. The code computes them
  in u32, and they are at most 65535, so they cannot overflow. The model
  does this arithmetic in a u32 newtype, so Dafny checks that no overflow
  occurs.

## Model

| member | source | states |
|---|---|---|
| `Telemetry.DaemonState.constructor` | src/main.rs:23-34 | The initial state has uptime 0, status "starting", ids 0, an empty name and all telemetry 0. |
| `Telemetry.DaemonState.Tick` | src/main.rs:43-44 | `uptime` grows by exactly 1 and no other field changes. |
| `Telemetry.DaemonState.RecordDevice` | src/main.rs:61-67 | After a match, status is "running", the name is the trimmed composed name and the ids come from the descriptor. Uptime and telemetry are unchanged. |
| `Telemetry.DaemonState.RecordReport` | src/main.rs:154-168 | A decoded report changes only its own telemetry field. Identity and uptime are unchanged. |
| `Telemetry.ApplyIdempotent` | src/main.rs:154-168 | Applying the same report twice gives the same state as applying it once. Every write is an assignment and nothing accumulates. |
| `Telemetry.IdentifyEffect` | src/main.rs:62-66 | After a match the stored name is a prefix of the composed name and does not end in NUL. Only NULs were removed. Status and ids are set, and uptime and telemetry are untouched. |
| `Strings.ContainsIff` | src/main.rs:60 | The substring test succeeds exactly when the pattern occurs at some position. |
| `Strings.TrimEndIff` | src/main.rs:64 | Trimming yields the prefix that does not end in the character and is followed only by copies of it. |
| `Strings.TrimEndIdempotent` | src/main.rs:64 | A trimmed name has nothing left to trim. |
| `Decoder.Widen` | src/main.rs:143-147 | The widening loop yields exactly `buf[..n]`, element by element, as u32 values below 256. |
| `Decoder.LittleEndian16` | src/main.rs:161 | `a[1] + a[2]*256` computed in u32 equals the two-byte little-endian value and is at most 65535, so it cannot overflow. |
| `Decoder.Decode` | src/main.rs:150-168 | Decoding fails exactly when a recognised tag lacks payload bytes. The failing index is then the report's length. Every decoded value fits its field's byte range. |
| `Decoder.BatteryReport` | src/main.rs:154-158 | With tag 8 and at least 2 bytes, the battery capacity becomes byte 1 (at most 255). No other field changes, and a repeat is a no-op. |
| `Decoder.WattageReport` | src/main.rs:159-163 | With tag 25 and at least 3 bytes, the output wattage becomes `b1 + b2*256` (at most 65535). No other field changes, and a repeat is a no-op. |
| `Decoder.VaReport` | src/main.rs:164-168 | With tag 29 and at least 3 bytes, the output VA becomes `b1 + b2*256` (at most 65535). No other field changes, and a repeat is a no-op. |
| `Decoder.OtherTagsIgnored` | src/main.rs:150-168 | Any tag other than 8, 25 and 29 (11 included) decodes at any length and leaves every field unchanged. |
| `Decoder.DecodeEncode` | src/main.rs:154-168 | Decoding the bytes a device sends for a report gives that report back. |
| `Resolver.ScanAppend` | src/main.rs:113-127 | Scanning concatenated endpoint lists equals scanning the second list from where the first left off. |
| `Resolver.FindInEndpoint` | src/main.rs:111-127 | The nested loops return the scan of every endpoint in interface, descriptor, endpoint order. |
| `Resolver.LastInIsLast` | src/main.rs:122-124 | An inbound endpoint followed only by outbound ones is the one the resolver keeps. |
| `Resolver.LastInNone` | src/main.rs:111-129 | The resolver finds nothing exactly when no endpoint is inbound, which is the case where the code panics. |
| `Resolver.LastInFound` | src/main.rs:111-129 | Whatever the resolver keeps is the address and transfer type of the last inbound endpoint. |
| `Resolver.OutboundIgnored` | src/main.rs:122-124 | Outbound endpoints never affect the result: the scan equals a scan of the inbound endpoints alone. |
| `Acquisition.Prepare` | src/main.rs:102-110 | Setup succeeds exactly when open, the driver query, the detach (needed only when a driver is active), the claim and the configuration read all succeed. The result is then the configuration. |
| `Acquisition.ReadLoop` | src/main.rs:131-183 | The read loop on the shared state, with its reused buffer, ends in the state and outcome that `Run` gives for the same reads. |
| `Acquisition.Sniff` | src/main.rs:101-186 | A setup failure or a missing inbound endpoint ends the task with the state untouched. Otherwise the task runs the read loop on the resolved endpoint's transfer type. |
| `Acquisition.RunAppend` | src/main.rs:132-183 | Reading `xs` then `ys` equals reading `xs` and, if the loop still runs, then reading `ys` from the state `xs` left. |
| `Acquisition.QuietReadsChangeNothing` | src/main.rs:176-177 | Empty reads and timeouts leave the state unchanged and the loop running. |
| `Acquisition.FatalErrorStops` | src/main.rs:178-181 | A non-timeout error ends the loop with that error. The state stays as the earlier reads left it, and later reads are not made. |
| `Acquisition.UnsupportedStopsAtOnce` | src/main.rs:135-139 | A transfer type other than bulk or interrupt stops the loop on its first iteration with `Other`, without touching the state. |
| `Acquisition.RunWritesOnlyTelemetry` | src/main.rs:154-168 | The loop never changes uptime or identity. The telemetry fields stay within one byte for the battery and two bytes for wattage and VA. |
| `Acquisition.PanicKeepsState` | src/main.rs:154-167 | A report cut short before its payload ends the loop, and the state is what the earlier reads left. |
| `Locator.UnknownHasNoMarker` | src/main.rs:58-60 | The placeholder name `"<unknown>"` does not contain "CPS". |
| `Locator.MarkerAcrossSeparator` | src/main.rs:98 | "CPS" occurs in `manufacturer + " " + product` exactly when it occurs in one of the two parts. |
| `Locator.SelectedIff` | src/main.rs:87-99 | A device is selected exactly when it opens and its readable manufacturer or product string contains "CPS". A device that cannot be opened is named "<unknown>" and is never selected. |
| `Locator.ReadableCount` | src/main.rs:54-57 | The scan reaches exactly the devices before the first unreadable descriptor. |
| `Locator.SelectedIsFilter` | src/main.rs:54-77 | The devices handed to acquisition tasks are exactly the enumerated devices that are selected. |
| `Locator.EnumerateKeepsTelemetry` | src/main.rs:61-67 | The startup scan never changes uptime or the telemetry fields. |
| `Locator.EnumerateNoMatch` | src/main.rs:54-77 | When no device is selected the scan leaves the state exactly as it was; from startup that is status "starting", ids 0 and an empty name. |
| `Locator.EnumerateLastMatchWins` | src/main.rs:54-77 | When several devices match, the state equals a single identity write of the last one: last write wins. |
| `Locator.Visit` | src/main.rs:58-67 | One device: it is selected exactly when its name contains "CPS", and only then is its identity written. |
| `Locator.Locate` | src/main.rs:54-77 | The scan stops at the first unreadable descriptor. It hands every selected device before that point to a task, and the state equals the identity writes of those devices. |
| `Scenario.UpsFound` | src/main.rs:54-67 | A single device "CyberPower" / "CPS-UPS" is selected and its identity is written with the name "CyberPower CPS-UPS". |
| `Scenario.ReportsRun` | src/main.rs:142-168 | The reports [8,77], [25,150,0] and [29,9,1] set battery 77, wattage 150 and VA 265, and the loop keeps running. |
| `Scenario.EndToEnd` | src/main.rs:36-77 | Start, one tick, the scan and the three reports give uptime 1, status "running", name "CyberPower CPS-UPS", battery 77, wattage 150 and VA 265. |

## Left out

- USB I/O through rusb is not modelled. This covers context creation, device listing, open, kernel-driver query and detach, claim, configuration and string-descriptor reads, and bulk and interrupt transfers. Their results are inputs to the model.
- Bulk and interrupt reads are not told apart. Both take the next element of the same sequence of read results. Which primitive the code calls is not distinguished.
- Concurrency is not modelled. This covers `tokio::spawn`, `spawn_blocking`, the reader/writer lock and any interleaving of the ticker, the locator and several acquisition tasks. Each write is one atomic method. When two devices match, their loops' telemetry writes race; the model does not capture this, only the locator's last-write-wins identity.
- The HTTP server and `list_info` (src/main.rs:79-82, 188-191) are not modelled. They are network I/O and serde serialisation. The snapshot they return is `DaemonState.Current()`, a copy of every field.
- `println!` output is not modelled, including the dump of unrecognised reports at src/main.rs:150-152. It is diagnostic only.
- The 300 ms read timeout and the one-second sleep between ticks are not modelled. Only "+1 per tick" is stated, not "one tick per second".
- The infinite loops are cut short. The read loop consumes a finite sequence of read results and reports `Running` when they run out. The ticker is a single `Tick` method.
- Panics are outcomes, not process effects. A panicking `expect` is modelled as a result value: `aborted` in `Locate`, and `SetupFailed`, `NoInEndpoint` and `Panicked` in the read task. What a panic does to the rest of the process is not modelled: main ends, or the one spawned task ends.
- Telemetry.DaemonState.Tick: requires `uptime < 2^64 - 1`. On u64, `uptime += 1` panics on overflow in a debug build and wraps in a release build. The model covers neither case; that many ticks at one per second is about 5.8·10^11 years.
