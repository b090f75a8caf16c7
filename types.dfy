/** Fixed-width integer types of the firmware and its 32-bit millisecond timer. */
module Types {

  type uint8 = x: int | 0 <= x < 0x100
  type uint16 = x: int | 0 <= x < 0x1_0000
  type uint32 = x: int | 0 <= x < 0x1_0000_0000
  type int8 = x: int | -0x80 <= x < 0x80

  const TIMER_PERIOD := 0x1_0000_0000

  /** Milliseconds from `since` to `now` as QMK's timer_elapsed32 computes
      them: the unsigned 32-bit difference, which wraps with the timer. */
  function Elapsed32(now: uint32, since: uint32): (r: uint32)
  {
    if since <= now then now - since else TIMER_PERIOD - (since - now)
  }

  /** It is the difference modulo 2^32, and adding it to `since` on the
      32-bit timer gives back `now`. */
  lemma Elapsed32Wraps(now: uint32, since: uint32)
    ensures Elapsed32(now, since) == (now - since) % TIMER_PERIOD
    ensures (since + Elapsed32(now, since)) % TIMER_PERIOD == now
  {
  }
}
