/** Bit fields of the STM32F401 (reference manual RM0368) registers that the
    applications touch. Each function computes the word written back to a
    register; its contract says which field changes and that no other bit
    does. */
module Rm0368 {

  /** Bits 10-11 of GPIOx_MODER: the mode field MODER5 of pin 5. */
  const MODER5_MASK: bv32 := 3 << (5 * 2)

  /** Section 6.3.11: set GPIOAEN (bit 0 of RCC_AHB1ENR) to power on GPIOA,
      read-modify-write `r | 1`. */
  function EnableGpioa(ahb1enr: bv32): (w: bv32)
    ensures w & 1 == 1
    ensures w & !1 == ahb1enr & !1
  {
    ahb1enr | 1
  }

  /** Section 8.4.1: clear MODER5 (`r & !(0b11 << 10)`), then set it to 0b01,
      general-purpose output; the other fifteen mode fields keep their value. */
  function SetOutputMode5(moder: bv32): (w: bv32)
    ensures (w >> 10) & 3 == 1
    ensures w & !MODER5_MASK == moder & !MODER5_MASK
  {
    (moder & !MODER5_MASK) | (1 << (5 * 2))
  }

  /** Section 8.4.7: the BSRR word that sets output `pin` (bit BSy, in the
      lower half) and requests nothing else. */
  function BsrrSet(pin: nat): (w: bv32)
    requires pin < 16
    ensures w != 0 && w & (w - 1) == 0
    ensures (w >> pin) & 1 == 1
    ensures w & 0xFFFF_0000 == 0
  {
    1 << pin
  }

  /** Section 8.4.7: the BSRR word that resets output `pin` (bit BRy, in the
      upper half, `1 << (pin + 16)`) and requests nothing else. */
  function BsrrReset(pin: nat): (w: bv32)
    requires pin < 16
    ensures w != 0 && w & (w - 1) == 0
    ensures (w >> (pin + 16)) & 1 == 1
    ensures w & 0x0000_FFFF == 0
  {
    1 << (pin + 16)
  }

  /** The LED of the boards is on PA5. */
  const LED_PIN: nat := 5

  /** The BSRR word a toggle task writes: `bs5` when the payload is true,
      `br5` when it is false. A `bsrr.write` starts from the register's reset
      value 0, so exactly one bit is requested: the set bit of PA5 (bit 5)
      for `true`, its reset bit (bit 21) for `false`. */
  function LedWord(on: bool): (w: bv32)
    ensures w != 0 && w & (w - 1) == 0
    ensures (w >> LED_PIN) & 1 == (if on then 1 else 0)
    ensures (w >> (LED_PIN + 16)) & 1 == (if on then 0 else 1)
  {
    if on then BsrrSet(LED_PIN) else BsrrReset(LED_PIN)
  }

  /** The BSRR words written by the first `n` runs of a blinker that starts
      with the LED on and alternates: the set word on odd runs, the reset word
      on even runs. */
  function LedHistory(n: nat): (h: seq<bv32>)
    ensures |h| == n
  {
    seq(n, i => LedWord(i % 2 == 0))
  }

  /** Run `n + 1` writes the set word exactly when `n + 1` is odd. */
  lemma LedHistoryStep(n: nat, toggle: bool)
    requires toggle == ((n + 1) % 2 == 1)
    ensures LedHistory(n + 1) == LedHistory(n) + [LedWord(toggle)]
  {
  }
}
