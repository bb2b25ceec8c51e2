# GC9A01A display driver — a Dafny model

`gc9a01a-rs` is a `no_std` Rust driver for the GC9A01A round-LCD
controller. It works over `embedded-hal`:

- an SPI writer (`spi::Write<u8>`) carries every byte;
- a data/command (D/C) output pin says whether a burst is a command opcode (low) or parameter data (high);
- a millisecond delay is used during start-up;
- reset and backlight pins are owned but never driven.

The driver's core is:

- `send_command`: drive D/C low, write the one opcode byte.
- `send_data`: drive D/C high, write the parameter bytes unchanged.
- `initialize`: walk the controller's initialisation table in order. A command entry is a command transfer followed by a data transfer. A delay entry is one wait. The first error ends the walk.

This project models that core in Dafny and proves its framing and replay properties.

The peripherals are instrumented rather than real:

- Every request the driver issues is appended to the driver's `trace` as an `Event`: `SetDc(Low)`, `SetDc(High)`, `Write(bytes)` or `DelayMs(ms)`.
- Whether a fallible request (a pin level change or an SPI burst) succeeds is decided by a failure oracle. Each handle (`Hal.Scripted`) carries a script of outcomes. Once its script is exhausted, every further request succeeds.
- A failed request still appears in the trace, because it was issued. Nothing is issued after it.

Module layout:

- `hal.dfy`, module `Hal`:
  - the Rust integer types the driver uses (`u8`, `u32`, a 32-bit `usize`);
  - scripted handles;
  - trace events and request counts.
- `gc9a01a.dfy`, module `Gc9a01a`:
  - the initialisation-table entry `InitOp`, the error type `Error` and `Result`;
  - a functional specification of the driver's behaviour: `Burst` for one framed transfer, `ReplayEntry` for one table entry, `Replay` for the whole table;
  - the reference traces of a run in which nothing fails: `CommandEvents`, `DataEvents`, `OpEvents`, `TableTrace`;
  - the lemmas relating them;
  - the driver class `GC9A01A`, whose methods update its handles and its trace step by step and are proved against `Burst` and `Replay`;
  - the crate's `add` helper and its unit test.

## Model

| member | source | states |
|---|---|---|
| Gc9a01a.GC9A01A.constructor | src/lib.rs:37-39 | `new` stores the SPI, D/C, reset and backlight handles unchanged and issues no request |
| Gc9a01a.GC9A01A.SendCommand | src/lib.rs:62-66 | `send_command(c)` behaves as `Burst(Low, [c])` on the current handles: its result, the requests appended to the trace, and the SPI and D/C handles it leaves all agree with that transfer |
| Gc9a01a.GC9A01A.SendData | src/lib.rs:68-72 | `send_data(d)` behaves as `Burst(High, d)`, with `d` written verbatim as one burst, even when it is empty |
| Gc9a01a.Burst | src/lib.rs:62-72 | one framed transfer, as `send_command` (level low, the opcode byte) and `send_data` (level high, the bytes verbatim) perform it: drive the data/command pin, and only if that succeeded write the bytes as one SPI burst. The first failure is the result, wrapped as `Gpio` or `Spi`, and the trace ends with the failing request. One pin outcome is consumed, and one SPI outcome when the burst is issued |
| Gc9a01a.BurstFraming | src/lib.rs:62-72 | D/C is driven exactly once and before the burst. A transfer succeeds exactly when both requests succeed, and then it issues exactly `[SetDc(level), Write(bytes)]`. A pin failure returns `Gpio` with the pin's error and writes nothing. An SPI failure returns `Spi` with the transport's error after the bytes were handed over |
| Gc9a01a.BurstReports | src/lib.rs:12-19 | a transfer consumes one D/C and at most one SPI outcome. Its error is always that of its first failing request, wrapped as `Gpio` or `Spi`, and never the delay error |
| Gc9a01a.GC9A01A.Initialize | src/lib.rs:41-58 | the loop's result, appended trace and final handles are those of `Replay` over the table from the handles at entry. The reset and backlight handles are untouched |
| Gc9a01a.ReplayEntry | src/lib.rs:46-54 | one iteration of the loop: a command entry is a command transfer followed, only if it succeeded, by a data transfer from where it left the handles; a delay entry is one `DelayMs` wait that cannot fail and touches no handle |
| Gc9a01a.Replay | src/lib.rs:41-58 | `initialize`: entries are replayed in order from the given handles; the first `Err` ends the replay and is its result, no later entry is touched, and the trace ends with the failing request; with no failure the result is `Ok(())` |
| Gc9a01a.EntryIssuesPrefix | src/lib.rs:46-54 | one table entry issues a non-empty prefix of its reference requests, and all of them when it succeeds. A delay entry always succeeds with one `DelayMs` and touches no handle |
| Gc9a01a.EntryReports | src/lib.rs:47-53 | one table entry reports the error of its first failing request, and succeeds exactly when every request it issued succeeded |
| Gc9a01a.ComposeReports | src/lib.rs:45-50 | a successful run followed by another run from where it left the handles reports the first failure of the two together |
| Gc9a01a.ReplayAppend | src/lib.rs:45-55 | replaying two consecutive tables is replaying the first, then, only if it succeeded, the second from where the first left the handles |
| Gc9a01a.ReplayStep | src/lib.rs:45-55 | one loop iteration either fails, and the whole replay is that failure after the completed entries, or extends the successful replay by one entry |
| Gc9a01a.TableTraceAppend | src/lib.rs:45-57 | the reference trace of consecutive tables is the concatenation of their reference traces |
| Gc9a01a.ReplayOkIssuesTable | src/lib.rs:45-57 | a successful replay issued exactly the reference trace: per command entry `[SetDc(Low), Write([cmd]), SetDc(High), Write(data)]`, per delay entry `[DelayMs(ms)]`, in table order, nothing skipped or reordered |
| Gc9a01a.ReplayIsPrefix | src/lib.rs:45-57 | whatever fails, replay issues a prefix of the reference trace |
| Gc9a01a.ReplayStopsAtFailingEntry | src/lib.rs:48-49 | a failed replay stopped inside some command entry `k`, after its first `j >= 1` requests. All earlier entries were fully replayed and no later entry was touched |
| Gc9a01a.ReplayReportsFirstFailure | src/lib.rs:48-49 | replay consumes one D/C outcome per pin request and one SPI outcome per write. It returns `Ok` exactly when every request it issued succeeded. Otherwise it returns the `Gpio` or `Spi` error of its last request, every earlier request having succeeded. It never returns the delay error |
| Gc9a01a.ReplayNoFailure | src/lib.rs:45-57 | with peripherals that never fail, `initialize` returns `Ok(())` having issued exactly the reference trace |
| Gc9a01a.DelaysNeverFail | src/lib.rs:51-53 | a table of delay entries only replays to `Ok(())` whatever the peripherals would do, issues one wait per entry and consumes no outcome |
| Gc9a01a.GC9A01A.Reset | src/lib.rs:60 | `reset` changes nothing: no handle, no trace |
| Hal.RequestsAppend | src/lib.rs:45-57 | the numbers of D/C and SPI requests in a trace add up over concatenation, the bookkeeping behind consuming one outcome per request |
| Gc9a01a.Add | src/lib.rs:75-77 | `add` returns the exact sum when it fits in `usize` |
| Gc9a01a.AddTwoAndTwo | src/lib.rs:83-87 | `add(2, 2) == 4` |

## Left out

- Chip-select bracketing, a reset pulse, a backlight control method, `clear` and a full-window command are not in `src/lib.rs`. The crate's examples call a three-argument `new`, `reset` with a delay, `set_backlight` and `clear`, none of which `src/lib.rs` defines. The model follows the code: `reset` is a no-op, `new` takes four handles, and chip-select is never touched.
- The delay provider passed to `initialize` is not a parameter of `Initialize`. Its `delay_ms` cannot fail, so each wait is simply recorded as a `DelayMs` event in the driver's trace. Real time is not modelled.
- The concrete bytes of the initialisation table are defined in `src/registers.rs`, which is not part of this model. `Initialize` takes the table as a parameter. `InitOp.Cmd` carries the command byte and its data directly instead of through a nested record.
- The generic `embedded-hal` SPI and pin types are reduced to scripted outcome sequences (`Hal.Scripted`). What a failed request does to the hardware is not modelled; it is recorded as issued and then replay stops.
- `Error::Delay` is named `DelayFailed` in the model, because `Delay` is already the name of the delay table entry. As in the source, no operation ever produces it.
- Gc9a01a.Add: assumes a 32-bit `usize`, as on the RP2040 the examples target. It requires that the sum fits instead of modelling the overflow panic of a debug build or the wrap-around of a release build.
- The example programs (board bring-up, clocks, PWM backlight, drawing through `embedded-graphics` and `tinybmp`) are I/O plumbing over foreign crates and are not modelled.
