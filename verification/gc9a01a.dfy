/** The GC9A01A driver: command/data framing over the data/command pin and
    the SPI bus, and replay of the controller's initialisation table. */
module Gc9a01a {
  import opened Hal

  /** One entry of the initialisation table: a command byte with its
      parameter bytes, or a wait. */
  datatype InitOp = Cmd(cmd: u8, data: seq<u8>) | Delay(ms: u32)

  /** The driver's error: a failed SPI transfer, a failed pin request, or a
      failed wait (declared, never produced). */
  datatype Error<S, P> = Spi(spi: S) | Gpio(pin: P) | DelayFailed

  datatype Result<T, E> = Ok(value: T) | Err(error: E)

  /** What a run of the driver against scripted peripherals yields: its
      result, the requests it issued, and the SPI and data/command handles
      as they are left. */
  datatype Run<S, P> = Run(result: Result<(), Error<S, P>>, events: seq<Event>,
                           spi: Scripted<S>, dc: Scripted<P>)

  /** `run` with `events` issued before it. */
  function Prepend<S, P>(events: seq<Event>, run: Run<S, P>): Run<S, P>
  {
    run.(events := events + run.events)
  }

  lemma PrependPrepend<S, P>(a: seq<Event>, b: seq<Event>, run: Run<S, P>)
    ensures Prepend(a, Prepend(b, run)) == Prepend(a + b, run)
  {
    assert a + (b + run.events) == (a + b) + run.events;
  }

  /** Associativity of trace concatenation. Dafny knows it already; calling
      this at the points where traces are regrouped keeps those proofs cheap.
      It is a proof aid, not a property of the driver. */
  lemma AppendAssoc(a: seq<Event>, b: seq<Event>, c: seq<Event>)
    ensures (a + b) + c == a + (b + c)
  {
  }

  // ---------------------------------------------------------------------
  // Reference traces: what the controller must see when nothing fails.

  /** The requests of one `send_command(c)`. */
  function CommandEvents(c: u8): seq<Event>
  {
    [SetDc(Low), Write([c])]
  }

  /** The requests of one `send_data(d)`. */
  function DataEvents(d: seq<u8>): seq<Event>
  {
    [SetDc(High), Write(d)]
  }

  /** The requests that replaying one table entry issues. */
  function OpEvents(op: InitOp): seq<Event>
  {
    match op
    case Cmd(c, d) => CommandEvents(c) + DataEvents(d)
    case Delay(ms) => [DelayMs(ms)]
  }

  /** The requests that replaying a whole table issues, entry by entry. */
  function TableTrace(table: seq<InitOp>): seq<Event>
  {
    if table == [] then [] else OpEvents(table[0]) + TableTrace(table[1..])
  }

  /** The trace of a table cut short after `j` requests of entry `k`. */
  function PartialTrace(table: seq<InitOp>, k: nat, j: nat): seq<Event>
    requires k < |table| && j <= |OpEvents(table[k])|
  {
    TableTrace(table[..k]) + OpEvents(table[k])[..j]
  }

  predicate IsPrefix(a: seq<Event>, b: seq<Event>)
  {
    |a| <= |b| && a == b[..|a|]
  }

  // ---------------------------------------------------------------------
  // The behaviour of the driver against scripted peripherals.

  /** One framed transfer: drive the data/command pin to `level`, then write
      `bytes` as one SPI burst, stopping at the first failure.
      `send_command` is `Burst(Low, [c], ..)`, `send_data` is
      `Burst(High, d, ..)`. */
  function Burst<S, P>(level: Level, bytes: seq<u8>, spi: Scripted<S>, dc: Scripted<P>): Run<S, P>
  {
    var pin := dc.At(0);
    if pin.Fail? then
      Run(Err(Gpio(pin.error)), [SetDc(level)], spi, dc.After(1))
    else
      var transfer := spi.At(0);
      var result := if transfer.Fail? then Err(Spi(transfer.error)) else Ok(());
      Run(result, [SetDc(level), Write(bytes)], spi.After(1), dc.After(1))
  }

  /** The framing of one transfer. */
  lemma BurstFraming<S, P>(level: Level, bytes: seq<u8>, spi: Scripted<S>, dc: Scripted<P>)
    ensures var run := Burst(level, bytes, spi, dc);
      // the pin is driven before the burst, and exactly once
      && 1 <= |run.events| <= 2 && run.events[0] == SetDc(level)
      && run.dc == dc.After(1)
      // success exactly when both requests succeed, and then both were issued
      && (run.result.Ok? <==> dc.At(0).Pass? && spi.At(0).Pass?)
      && (run.result.Ok? ==> run.events == [SetDc(level), Write(bytes)] && run.spi == spi.After(1))
      // a pin failure is reported as Gpio, and nothing is written
      && (dc.At(0).Fail? ==>
            run.result == Err(Gpio(dc.At(0).error)) && run.events == [SetDc(level)] && run.spi == spi)
      // a transfer failure is reported as Spi, after the bytes were handed over
      && (dc.At(0).Pass? && spi.At(0).Fail? ==>
            run.result == Err(Spi(spi.At(0).error)) && run.events == [SetDc(level), Write(bytes)]
            && run.spi == spi.After(1))
  {
  }

  /** Replaying one table entry: a command entry is a command transfer
      followed, if that succeeded, by a data transfer; a delay entry is one
      wait, which cannot fail. */
  function ReplayEntry<S, P>(op: InitOp, spi: Scripted<S>, dc: Scripted<P>): Run<S, P>
  {
    match op
    case Delay(ms) => Run(Ok(()), [DelayMs(ms)], spi, dc)
    case Cmd(c, d) =>
      var command := Burst(Low, [c], spi, dc);
      if command.result.Err? then command
      else Prepend(command.events, Burst(High, d, command.spi, command.dc))
  }

  /** Replaying one entry issues a non-empty prefix of its reference
      requests, all of them when it succeeds; a delay entry always succeeds
      and leaves the handles alone. */
  lemma EntryIssuesPrefix<S, P>(op: InitOp, spi: Scripted<S>, dc: Scripted<P>)
    ensures var run := ReplayEntry(op, spi, dc);
      && run.events != [] && IsPrefix(run.events, OpEvents(op))
      && (run.result.Ok? ==> run.events == OpEvents(op))
      && (op.Delay? ==> run == Run(Ok(()), OpEvents(op), spi, dc))
  {
  }

  /** Replaying `table` from the front, entry by entry; the first failure
      ends the replay and is its result. */
  function Replay<S, P>(table: seq<InitOp>, spi: Scripted<S>, dc: Scripted<P>): Run<S, P>
    decreases |table|
  {
    if table == [] then Run(Ok(()), [], spi, dc)
    else
      var head := ReplayEntry(table[0], spi, dc);
      if head.result.Err? then head
      else Prepend(head.events, Replay(table[1..], head.spi, head.dc))
  }

  /** Replaying two consecutive tables is replaying the first, then, if
      that succeeded, the second from where the first left the handles. */
  lemma {:induction false} ReplayAppend<S, P>(a: seq<InitOp>, b: seq<InitOp>, spi: Scripted<S>, dc: Scripted<P>)
    ensures var first := Replay(a, spi, dc);
      Replay(a + b, spi, dc) ==
        if first.result.Err? then first else Prepend(first.events, Replay(b, first.spi, first.dc))
    decreases |a|
  {
    if a == [] {
      assert a + b == b;
    } else {
      assert (a + b)[0] == a[0] && (a + b)[1..] == a[1..] + b;
      var head := ReplayEntry(a[0], spi, dc);
      if head.result.Ok? {
        ReplayAppend(a[1..], b, head.spi, head.dc);
        var rest := Replay(a[1..], head.spi, head.dc);
        if rest.result.Ok? {
          PrependPrepend(head.events, rest.events, Replay(b, rest.spi, rest.dc));
        }
      }
    }
  }

  /** One step of the replay loop: if the first `i` entries replayed
      successfully, issuing `done` and leaving the handles at `spi` and `dc`,
      then replaying entry `i` from there either fails, and the whole
      table's replay is that failure, or succeeds, and the first `i + 1`
      entries replay successfully to where it leaves the handles. */
  lemma ReplayStep<S, P>(table: seq<InitOp>, i: nat, spi0: Scripted<S>, dc0: Scripted<P>,
                         done: seq<Event>, spi: Scripted<S>, dc: Scripted<P>)
    requires i < |table| && Replay(table[..i], spi0, dc0) == Run(Ok(()), done, spi, dc)
    ensures var head := ReplayEntry(table[i], spi, dc);
      && (head.result.Err? ==> Replay(table, spi0, dc0) == Prepend(done, head))
      && (head.result.Ok? ==> Replay(table[..i + 1], spi0, dc0) == Run(Ok(()), done + head.events, head.spi, head.dc))
  {
    var head := ReplayEntry(table[i], spi, dc);
    assert table[..i + 1] == table[..i] + [table[i]];
    ReplayAppend(table[..i], [table[i]], spi0, dc0);
    assert [table[i]][1..] == [];
    assert Replay([table[i]], spi, dc) == if head.result.Err? then head else Prepend(head.events, Run(Ok(()), [], head.spi, head.dc));
    if head.result.Err? {
      assert table == table[..i + 1] + table[i + 1..];
      ReplayAppend(table[..i + 1], table[i + 1..], spi0, dc0);
    }
  }

  // ---------------------------------------------------------------------
  // Properties of the replay.

  /** The reference trace of consecutive tables is the concatenation of
      their reference traces. */
  lemma {:induction false} TableTraceAppend(a: seq<InitOp>, b: seq<InitOp>)
    ensures TableTrace(a + b) == TableTrace(a) + TableTrace(b)
  {
    if a == [] {
      assert a + b == b;
    } else {
      assert (a + b)[0] == a[0];
      assert (a + b)[1..] == a[1..] + b;
      TableTraceAppend(a[1..], b);
    }
  }

  /** The reference trace of the first `k + 1` entries is the first entry's
      requests followed by the reference trace of the next `k`. */
  lemma TableTraceUnfold(table: seq<InitOp>, k: nat)
    requires k < |table|
    ensures TableTrace(table[..k + 1]) == OpEvents(table[0]) + TableTrace(table[1..][..k])
  {
    assert table[..k + 1] == table[..1] + table[1..][..k];
    TableTraceAppend(table[..1], table[1..][..k]);
    assert table[..1] == [table[0]];
    assert TableTrace([table[0]]) == OpEvents(table[0]) + TableTrace([]);
  }

  /** A successful replay issued exactly the reference trace: every entry,
      in table order, nothing skipped or reordered. */
  lemma {:induction false} ReplayOkIssuesTable<S, P>(table: seq<InitOp>, spi: Scripted<S>, dc: Scripted<P>)
    requires Replay(table, spi, dc).result.Ok?
    ensures Replay(table, spi, dc).events == TableTrace(table)
    decreases |table|
  {
    if table != [] {
      var head := ReplayEntry(table[0], spi, dc);
      ReplayOkIssuesTable(table[1..], head.spi, head.dc);
    }
  }

  /** Whatever fails, replay issues a prefix of the reference trace. */
  lemma {:induction false} ReplayIsPrefix<S, P>(table: seq<InitOp>, spi: Scripted<S>, dc: Scripted<P>)
    ensures IsPrefix(Replay(table, spi, dc).events, TableTrace(table))
    decreases |table|
  {
    if table != [] {
      var run := Replay(table, spi, dc);
      var head := ReplayEntry(table[0], spi, dc);
      var rest := TableTrace(table[1..]);
      assert TableTrace(table) == OpEvents(table[0]) + rest;
      if head.result.Ok? {
        ReplayIsPrefix(table[1..], head.spi, head.dc);
        var tail := Replay(table[1..], head.spi, head.dc).events;
        assert run.events == OpEvents(table[0]) + tail;
        assert tail == rest[..|tail|];
        assert run.events == TableTrace(table)[..|run.events|];
      }
    }
  }

  /** A failed replay stopped inside command entry `k`, after issuing the
      first `j` of its requests (the last of them the one that failed): every
      earlier entry was fully replayed and no later entry was touched. */
  lemma {:induction false} ReplayStopsAtFailingEntry<S, P>(table: seq<InitOp>, spi: Scripted<S>, dc: Scripted<P>)
    returns (k: nat, j: nat)
    requires Replay(table, spi, dc).result.Err?
    ensures k < |table| && table[k].Cmd? && 1 <= j <= |OpEvents(table[k])|
    ensures Replay(table, spi, dc).events == PartialTrace(table, k, j)
    decreases |table|
  {
    var run := Replay(table, spi, dc);
    var head := ReplayEntry(table[0], spi, dc);
    EntryIssuesPrefix(table[0], spi, dc);
    if head.result.Err? {
      assert run == head;
      k, j := 0, |head.events|;
      assert TableTrace(table[..0]) == [];
      assert head.events == OpEvents(table[0])[..j];
    } else {
      var tail := Replay(table[1..], head.spi, head.dc);
      assert run.events == OpEvents(table[0]) + tail.events;
      var k', j' := ReplayStopsAtFailingEntry(table[1..], head.spi, head.dc);
      k, j := k' + 1, j';
      assert table[1..][k'] == table[k];
      TableTraceUnfold(table, k');
      AppendAssoc(OpEvents(table[0]), TableTrace(table[1..][..k']), OpEvents(table[k])[..j]);
    }
  }

  /** `run`, started from handles `spi` and `dc`, consumed one outcome per
      pin request and one per SPI write it issued, and its result is that of
      the first request that failed: `Ok` exactly when every request it
      issued succeeded; otherwise the error of its last request (a pin error
      reported as `Gpio`, a transfer error as `Spi`), every earlier request
      having succeeded. It never reports a delay error. */
  ghost predicate ReportsFirstFailure<S, P>(run: Run<S, P>, spi: Scripted<S>, dc: Scripted<P>)
  {
    var n, m := DcRequests(run.events), SpiRequests(run.events);
    && run.dc == dc.After(n) && run.spi == spi.After(m)
    && (run.result.Ok? <==> dc.PassesFor(n) && spi.PassesFor(m))
    && (run.result.Err? && run.result.error.Gpio? ==>
          0 < n && dc.PassesFor(n - 1) && dc.At(n - 1) == Fail(run.result.error.pin)
          && spi.PassesFor(m) && run.events[|run.events| - 1].SetDc?)
    && (run.result.Err? && run.result.error.Spi? ==>
          0 < m && dc.PassesFor(n) && spi.PassesFor(m - 1) && spi.At(m - 1) == Fail(run.result.error.spi)
          && run.events[|run.events| - 1].Write?)
    && !(run.result.Err? && run.result.error.DelayFailed?)
  }

  /** The first `a + n` requests pass exactly when the first `a` pass and the
      `n` after them pass. */
  lemma ShiftPasses<E>(h: Scripted<E>, a: nat, n: nat)
    ensures h.PassesFor(a + n) <==> h.PassesFor(a) && h.After(a).PassesFor(n)
  {
    if h.PassesFor(a) && h.After(a).PassesFor(n) {
      forall i: nat | i < a + n ensures h.At(i).Pass? {
        if i >= a {
          assert h.After(a).At(i - a) == h.At(i);
        }
      }
    }
    if h.PassesFor(a + n) {
      forall i: nat | i < n ensures h.After(a).At(i).Pass? {
        assert h.After(a).At(i) == h.At(a + i);
      }
    }
  }

  /** A framed transfer reports its first failure. */
  lemma BurstReports<S, P>(level: Level, bytes: seq<u8>, spi: Scripted<S>, dc: Scripted<P>)
    ensures ReportsFirstFailure(Burst(level, bytes, spi, dc), spi, dc)
  {
    var run := Burst(level, bytes, spi, dc);
    assert DcRequests([SetDc(level)]) == 1 && SpiRequests([SetDc(level)]) == 0;
    assert DcRequests([SetDc(level), Write(bytes)]) == 1 && SpiRequests([SetDc(level), Write(bytes)]) == 1;
    assert spi.After(0) == spi;
  }

  /** A run that succeeded followed by a run from where it left off reports
      the first failure of the two together. */
  lemma ComposeReports<S, P>(head: Run<S, P>, tail: Run<S, P>, spi: Scripted<S>, dc: Scripted<P>)
    requires ReportsFirstFailure(head, spi, dc) && head.result.Ok?
    requires ReportsFirstFailure(tail, head.spi, head.dc)
    ensures ReportsFirstFailure(Prepend(head.events, tail), spi, dc)
  {
    var n1, m1 := DcRequests(head.events), SpiRequests(head.events);
    var n2, m2 := DcRequests(tail.events), SpiRequests(tail.events);
    var events := head.events + tail.events;
    RequestsAppend(head.events, tail.events);
    ShiftPasses(dc, n1, n2);
    ShiftPasses(spi, m1, m2);
    if tail.result.Err? && tail.result.error.Gpio? {
      ShiftPasses(dc, n1, n2 - 1);
      assert dc.After(n1).At(n2 - 1) == dc.At(n1 + n2 - 1);
      assert events[|events| - 1] == tail.events[|tail.events| - 1];
    }
    if tail.result.Err? && tail.result.error.Spi? {
      ShiftPasses(spi, m1, m2 - 1);
      assert spi.After(m1).At(m2 - 1) == spi.At(m1 + m2 - 1);
      assert events[|events| - 1] == tail.events[|tail.events| - 1];
    }
  }

  /** Replaying one entry reports its first failure. */
  lemma EntryReports<S, P>(op: InitOp, spi: Scripted<S>, dc: Scripted<P>)
    ensures ReportsFirstFailure(ReplayEntry(op, spi, dc), spi, dc)
  {
    match op
    case Delay(ms) =>
      assert DcRequests([DelayMs(ms)]) == 0 && SpiRequests([DelayMs(ms)]) == 0;
      assert spi.After(0) == spi && dc.After(0) == dc;
    case Cmd(c, d) =>
      var command := Burst(Low, [c], spi, dc);
      BurstReports(Low, [c], spi, dc);
      if command.result.Ok? {
        BurstReports(High, d, command.spi, command.dc);
        ComposeReports(command, Burst(High, d, command.spi, command.dc), spi, dc);
      }
  }

  /** Replay stops at the first failing request and returns its error:
      `Ok` exactly when every request it issued succeeded, otherwise the
      `Gpio` or `Spi` error of the last request issued; it never returns the
      delay error. */
  lemma {:induction false} ReplayReportsFirstFailure<S, P>(table: seq<InitOp>, spi: Scripted<S>, dc: Scripted<P>)
    ensures ReportsFirstFailure(Replay(table, spi, dc), spi, dc)
    decreases |table|
  {
    if table == [] {
      assert spi.After(0) == spi && dc.After(0) == dc;
    } else {
      var head := ReplayEntry(table[0], spi, dc);
      EntryReports(table[0], spi, dc);
      if head.result.Ok? {
        ReplayReportsFirstFailure(table[1..], head.spi, head.dc);
        ComposeReports(head, Replay(table[1..], head.spi, head.dc), spi, dc);
      }
    }
  }

  /** With peripherals that never fail, replay succeeds and issues exactly
      the reference trace. */
  lemma ReplayNoFailure<S, P>(table: seq<InitOp>, spi: Scripted<S>, dc: Scripted<P>)
    requires spi.NeverFails() && dc.NeverFails()
    ensures Replay(table, spi, dc).result == Ok(())
    ensures Replay(table, spi, dc).events == TableTrace(table)
  {
    var run := Replay(table, spi, dc);
    ReplayReportsFirstFailure(table, spi, dc);
    assert forall i: nat :: spi.At(i).Pass? && dc.At(i).Pass?;
    ReplayOkIssuesTable(table, spi, dc);
  }

  /** Delay entries never fail: a table of waits only replays to success,
      whatever the peripherals would do, touching neither of them. */
  lemma {:induction false} DelaysNeverFail<S, P>(table: seq<InitOp>, spi: Scripted<S>, dc: Scripted<P>)
    requires forall i :: 0 <= i < |table| ==> table[i].Delay?
    ensures Replay(table, spi, dc) == Run(Ok(()), TableTrace(table), spi, dc)
    decreases |table|
  {
    if table != [] {
      DelaysNeverFail(table[1..], spi, dc);
    }
  }

  // ---------------------------------------------------------------------
  // The driver object.

  /** The driver: it owns the SPI bus and the data/command, reset and
      backlight pins. `trace` is every request it has issued to them (and to
      the delay service), oldest first. */
  class GC9A01A<S, P> {
    var spi: Scripted<S>
    var dc: Scripted<P>
    var rst: Scripted<P>
    var bl: Scripted<P>
    var trace: seq<Event>

    /** Takes ownership of the four handles, issuing nothing. */
    constructor (spi: Scripted<S>, dc: Scripted<P>, rst: Scripted<P>, bl: Scripted<P>)
      ensures this.spi == spi && this.dc == dc && this.rst == rst && this.bl == bl
      ensures trace == []
    {
      this.spi, this.dc, this.rst, this.bl := spi, dc, rst, bl;
      trace := [];
    }

    /** Replays `table` in order and stops at the first failure. */
    method Initialize(table: seq<InitOp>) returns (r: Result<(), Error<S, P>>)
      modifies this
      ensures var run := Replay(table, old(spi), old(dc));
        r == run.result && trace == old(trace) + run.events && spi == run.spi && dc == run.dc
      ensures rst == old(rst) && bl == old(bl)
    {
      ghost var spi0, dc0 := spi, dc;
      ghost var done: seq<Event> := [];
      var i := 0;
      while i < |table|
        invariant 0 <= i <= |table|
        invariant trace == old(trace) + done
        invariant Replay(table[..i], spi0, dc0) == Run(Ok(()), done, spi, dc)
        invariant rst == old(rst) && bl == old(bl)
      {
        ghost var before := trace;
        ghost var head := ReplayEntry(table[i], spi, dc);
        ReplayStep(table, i, spi0, dc0, done, spi, dc);
        match table[i] {
          case Cmd(c, d) =>
            ghost var command := Burst(Low, [c], spi, dc);
            var res := SendCommand(c);
            if res.Err? {
              AppendAssoc(old(trace), done, command.events);
              return res;
            }
            ghost var data := Burst(High, d, spi, dc);
            res := SendData(d);
            AppendAssoc(before, command.events, data.events);
            if res.Err? {
              AppendAssoc(old(trace), done, head.events);
              return res;
            }
          case Delay(ms) =>
            // the wait cannot fail; it is recorded as one `DelayMs` event
            trace := trace + [DelayMs(ms)];
        }
        assert head.result.Ok? && head.spi == spi && head.dc == dc && trace == before + head.events;
        AppendAssoc(old(trace), done, head.events);
        done := done + head.events;
        i := i + 1;
      }
      assert table[..i] == table;
      return Ok(());
    }

    /** Does nothing. */
    method Reset()
      ensures unchanged(this)
    {
    }

    /** Drives the data/command pin low, then writes the one command byte. */
    method SendCommand(command: u8) returns (r: Result<(), Error<S, P>>)
      modifies this`spi, this`dc, this`trace
      ensures var run := Burst(Low, [command], old(spi), old(dc));
        r == run.result && trace == old(trace) + run.events && spi == run.spi && dc == run.dc
    {
      var pin := dc.At(0);
      dc := dc.After(1);
      trace := trace + [SetDc(Low)];
      if pin.Fail? {
        return Err(Gpio(pin.error));
      }
      var transfer := spi.At(0);
      spi := spi.After(1);
      trace := trace + [Write([command])];
      if transfer.Fail? {
        return Err(Spi(transfer.error));
      }
      return Ok(());
    }

    /** Drives the data/command pin high, then writes `data` unchanged as one
        burst (an empty burst when `data` is empty). */
    method SendData(data: seq<u8>) returns (r: Result<(), Error<S, P>>)
      modifies this`spi, this`dc, this`trace
      ensures var run := Burst(High, data, old(spi), old(dc));
        r == run.result && trace == old(trace) + run.events && spi == run.spi && dc == run.dc
    {
      var pin := dc.At(0);
      dc := dc.After(1);
      trace := trace + [SetDc(High)];
      if pin.Fail? {
        return Err(Gpio(pin.error));
      }
      var transfer := spi.At(0);
      spi := spi.After(1);
      trace := trace + [Write(data)];
      if transfer.Fail? {
        return Err(Spi(transfer.error));
      }
      return Ok(());
    }
  }

  // ---------------------------------------------------------------------
  // The crate's `add` helper and its unit test.

  /** Sum of two `usize`s; the caller keeps the sum in range. */
  function Add(left: usize, right: usize): (sum: usize)
    requires left as int + right as int <= USIZE_MAX
    ensures sum as int == left as int + right as int
  {
    left + right
  }

  lemma AddTwoAndTwo()
    ensures Add(2, 2) == 4
  {
  }
}
