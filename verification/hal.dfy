/** The capabilities the driver consumes from the embedded HAL (an SPI
    byte-burst writer, a digital output pin, a millisecond delay), modelled as
    instrumented peripherals: every request is recorded as an `Event`, and
    whether a fallible request succeeds is decided by a per-peripheral script
    of outcomes supplied up front (a failure oracle). */
module Hal {

  /** Rust's `u8`: one byte on the SPI bus. */
  newtype u8 = x: int | 0 <= x < 0x100

  /** Rust's `u32`: the argument of `DelayMs<u32>::delay_ms`. */
  newtype u32 = x: int | 0 <= x < 0x1_0000_0000

  /** Rust's `usize`, taken 32 bits wide as on the RP2040 the examples target. */
  const USIZE_MAX: int := 0xFFFF_FFFF
  newtype usize = x: int | 0 <= x <= USIZE_MAX

  /** What one fallible peripheral request returns. */
  datatype Outcome<E> = Pass | Fail(error: E)

  /** A peripheral handle as seen by the driver: its fallible requests
      return, in order, the outcomes listed in `outcomes`, of which the
      first `served` have been used up; once the list is exhausted, every
      further request succeeds. */
  datatype Scripted<E> = Scripted(outcomes: seq<Outcome<E>>, served: nat)
  {
    /** The outcome of the `i`-th request from now. */
    function At(i: nat): Outcome<E>
    {
      if served + i < |outcomes| then outcomes[served + i] else Pass
    }

    /** The handle after `n` more requests have been served. */
    function After(n: nat): Scripted<E>
    {
      this.(served := served + n)
    }

    /** The next `n` requests all succeed. */
    predicate PassesFor(n: nat)
    {
      forall i: nat :: i < n ==> At(i).Pass?
    }

    /** No request from now on fails. */
    predicate NeverFails()
    {
      forall i :: served <= i < |outcomes| ==> outcomes[i].Pass?
    }
  }

  /** A D/C line level. */
  datatype Level = Low | High

  /** One request issued to a peripheral, as an instrumented bus observes it:
      driving the data/command pin, one SPI burst, or one blocking wait. */
  datatype Event = SetDc(level: Level) | Write(bytes: seq<u8>) | DelayMs(ms: u32)

  /** Number of data/command pin requests in a trace. */
  function DcRequests(events: seq<Event>): (n: nat)
    ensures n <= |events|
  {
    if events == [] then 0
    else (if events[0].SetDc? then 1 else 0) + DcRequests(events[1..])
  }

  /** Number of SPI writes in a trace. */
  function SpiRequests(events: seq<Event>): (n: nat)
    ensures n <= |events|
  {
    if events == [] then 0
    else (if events[0].Write? then 1 else 0) + SpiRequests(events[1..])
  }

  /** Counting requests distributes over concatenating traces. */
  lemma {:induction false} RequestsAppend(a: seq<Event>, b: seq<Event>)
    ensures DcRequests(a + b) == DcRequests(a) + DcRequests(b)
    ensures SpiRequests(a + b) == SpiRequests(a) + SpiRequests(b)
  {
    if a != [] {
      assert (a + b)[0] == a[0];
      assert (a + b)[1..] == a[1..] + b;
      RequestsAppend(a[1..], b);
    } else {
      assert a + b == b;
    }
  }
}
