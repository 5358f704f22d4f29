/** The monotonic time base `rtfm::cyccnt::CYCCNT`: the 32-bit DWT cycle
    counter. Instants wrap around at 2^32; two instants are compared through
    their signed (two's-complement) difference. */
module Cyccnt {
  import opened Machine

  type Instant = u32

  const MODULUS: int := 0x1_0000_0000
  const HALF: int := 0x8000_0000

  /** `instant + duration.cycles()`: wrapping addition on the counter. */
  function Add(t: Instant, d: u32): Instant
  {
    (t + d) % MODULUS
  }

  /** The sum wraps at most once, and only when it passes 2^32. */
  lemma AddWrapsOnce(t: Instant, d: u32)
    ensures t + d < MODULUS ==> Add(t, d) == t + d
    ensures t + d >= MODULUS ==> Add(t, d) == t + d - MODULUS
  {
  }

  /** `now - earlier` read as a signed 32-bit duration. */
  function Elapsed(now: Instant, earlier: Instant): (e: int)
    ensures -HALF <= e < HALF
    ensures (e - (now - earlier)) % MODULUS == 0
  {
    var d := (now - earlier) % MODULUS;
    if d < HALF then d else d - MODULUS
  }

  /** A scheduled instant `fire` is due at `now` when `now - fire`, as a
      signed difference, is not negative. */
  predicate Due(now: Instant, fire: Instant)
  {
    Elapsed(now, fire) >= 0
  }

  /** Equivalently, `now.wrapping_sub(fire)` is below 2^31: the difference
      is non-negative when read as a signed 32-bit offset. */
  lemma DueUnsigned(now: Instant, fire: Instant)
    ensures Due(now, fire) <==> (now - fire) % MODULUS < HALF
  {
  }

  lemma ModAddLeft(a: int, b: int)
    ensures (a % MODULUS + b) % MODULUS == (a + b) % MODULUS
  {
    var q := a / MODULUS;
    assert a == q * MODULUS + a % MODULUS;
    ShiftMod(a % MODULUS + b, q);
  }

  lemma ShiftMod(x: int, q: int)
    ensures (x + q * MODULUS) % MODULUS == x % MODULUS
  {
  }

  /** Wrap-around safety: an event scheduled `delta` cycles after `t`
      (less than half the counter range) becomes due exactly when at least
      `delta` cycles have passed since `t`, whether or not `t + delta`
      overflows the counter. */
  lemma DueExactlyAfter(t: Instant, delta: u32, d: u32)
    requires delta < HALF && d < HALF
    ensures Due(Add(t, d), Add(t, delta)) <==> delta <= d
  {
    var now: int, fire: int := Add(t, d), Add(t, delta);
    var x := now - fire;
    assert now == t + d - ((t + d) / MODULUS) * MODULUS;
    assert fire == t + delta - ((t + delta) / MODULUS) * MODULUS;
    var k := (t + d) / MODULUS - (t + delta) / MODULUS;
    assert x == (d - delta) - k * MODULUS;
    ShiftMod(d - delta, -k);
    assert x % MODULUS == (d - delta) % MODULUS;
  }
}
