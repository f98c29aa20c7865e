/** The loops that list the instance layers and instance extensions, and that
    scan the layer list and a device's extension list, count with a `uint8_t`
    against a `uint32_t` length. `++j` on a `uint8_t`
    wraps from 255 back to 0, so once the list holds 256 or more names the guard
    `j < count` can never become false. This module models that counter as
    written; the scans in `Names` count with unbounded integers instead. */
module NarrowCounters {

  type u8 = x: int | 0 <= x < 256

  /** `++j` on a `uint8_t`: 255 wraps to 0. */
  function U8Increment(j: u8): u8
  {
    if j == 255 then 0 else j + 1
  }

  /** The counter's value after `steps` increments from 0. */
  function CounterAfter(steps: nat): u8
  {
    if steps == 0 then 0 else U8Increment(CounterAfter(steps - 1))
  }

  /** While fewer than 256 increments have happened, the counter is exact. */
  lemma {:induction false} CounterExactBelow256(steps: nat)
    requires steps < 256
    ensures CounterAfter(steps) == steps
  {
    if steps > 0 {
      CounterExactBelow256(steps - 1);
    }
  }

  /** Given a list of at least 256 names, the loop guard `j < count` holds
      after every number of iterations, simply because a `uint8_t` never
      reaches 256; and the counter returns to 0 after 256 of them (the part
      that needs proof): the scan revisits the list forever and never exits. */
  lemma U8ScanNeverExits(count: nat, steps: nat)
    requires count >= 256
    ensures CounterAfter(steps) < count
    ensures CounterAfter(256) == 0
  {
    CounterExactBelow256(255);
  }

  /** With fewer than 256 names the `uint8_t` loop behaves as intended: it
      visits indices 0 .. count-1 and exits after exactly `count` iterations. */
  lemma U8ScanExitsBelow256(count: nat)
    requires count < 256
    ensures forall steps :: 0 <= steps < count ==> CounterAfter(steps) == steps < count
    ensures CounterAfter(count) == count
  {
  }
}
