// Milliseconds on a 32-bit clock that wraps.
module Clocks {
  import opened Protocol

  /** The time between two readings, as the firmware's unsigned subtraction computes it. */
  function Elapsed(now: u32, since: u32): u32
  {
    if now >= since then now - since else now + 0x1_0000_0000 - since
  }

  /** A reading of the true time in milliseconds. */
  function Reading32(time: nat): u32 { time % 0x1_0000_0000 }

  /** Less than a full turn of the clock apart, the subtraction finds the true distance across a wrap. */
  lemma ElapsedTrue(since: nat, now: nat)
    requires since <= now < since + 0x1_0000_0000
    ensures Elapsed(Reading32(now), Reading32(since)) == now - since
  {
  }
}
