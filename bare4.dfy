/** The bare-metal blinker: raw volatile reads and writes of the RCC and
    GPIOA registers at fixed addresses, over a simulated register map. */
module Bare4 {
  import opened Machine
  import opened Rm0368

  // Peripheral addresses (RM0368 memory map)
  const PERIPH_BASE: u32 := 0x4000_0000
  const AHB1PERIPH_BASE: u32 := PERIPH_BASE + 0x0002_0000
  const RCC_BASE: u32 := AHB1PERIPH_BASE + 0x3800
  const RCC_AHB1ENR: u32 := RCC_BASE + 0x30
  const GPIOA_BASE: u32 := AHB1PERIPH_BASE + 0x0000
  const GPIOA_MODER: u32 := GPIOA_BASE + 0x00
  const GPIOA_BSRR: u32 := GPIOA_BASE + 0x18

  /** Busy-wait length between two LED changes. */
  const WAIT_ITERATIONS: nat := 10_000

  lemma AddressValues()
    ensures RCC_AHB1ENR == 0x4002_3830
    ensures GPIOA_MODER == 0x4002_0000
    ensures GPIOA_BSRR == 0x4002_0018
  {
  }

  /** One step of the program as seen from outside the core, in program
      order: a volatile access, or a run of `count` `nop` instructions, during
      which no register is touched. */
  datatype Access = Read(addr: u32, value: bv32) | Write(addr: u32, value: bv32) | Nops(count: nat)

  /** The accesses of `main` before its endless loop: power on GPIOA, then
      make PA5 an output, each as a read followed by a write. */
  function SetupAccesses(ahb1enr: bv32, moder: bv32): seq<Access>
  {
    [ Read(RCC_AHB1ENR, ahb1enr), Write(RCC_AHB1ENR, EnableGpioa(ahb1enr)),
      Read(GPIOA_MODER, moder), Write(GPIOA_MODER, SetOutputMode5(moder)) ]
  }

  /** The steps of `n` turns of the endless loop. */
  function Blinks(n: nat): seq<Access>
  {
    if n == 0 then []
    else Blinks(n - 1) + [Write(GPIOA_BSRR, BsrrSet(LED_PIN)), Nops(WAIT_ITERATIONS),
                          Write(GPIOA_BSRR, BsrrReset(LED_PIN)), Nops(WAIT_ITERATIONS)]
  }

  /** The loop touches only GPIOA_BSRR: it writes the set word of PA5, waits
      10,000 `nop`s, writes the reset word of PA5 and waits 10,000 `nop`s
      again, so the LED stays on and off for one wait each. */
  lemma {:induction false} BlinksAt(n: nat, i: nat)
    requires i < 4 * n
    ensures |Blinks(n)| == 4 * n
    ensures Blinks(n)[i] == (if i % 4 == 0 then Write(GPIOA_BSRR, BsrrSet(LED_PIN))
                             else if i % 4 == 2 then Write(GPIOA_BSRR, BsrrReset(LED_PIN))
                             else Nops(WAIT_ITERATIONS))
  {
    if i < 4 * (n - 1) {
      BlinksAt(n - 1, i);
    } else {
      BlinksLength(n - 1);
    }
  }

  lemma {:induction false} BlinksLength(n: nat)
    ensures |Blinks(n)| == 4 * n
  {
    if n > 0 {
      BlinksLength(n - 1);
    }
  }

  /** The microcontroller as the program sees it: a map from register
      address to value, the log of volatile accesses, and the number of
      `nop` instructions executed. */
  class Mcu {
    var regs: map<u32, bv32>
    var bus: seq<Access>
    var nops: nat

    ghost predicate Mapped()
      reads this
    {
      RCC_AHB1ENR in regs && GPIOA_MODER in regs && GPIOA_BSRR in regs
    }

    constructor (regs: map<u32, bv32>)
      ensures this.regs == regs && bus == [] && nops == 0
    {
      this.regs := regs;
      bus := [];
      nops := 0;
    }

    /** `read_u32`: a volatile read of a mapped register. */
    method ReadU32(addr: u32) returns (v: bv32)
      requires addr in regs
      modifies this`bus
      ensures v == regs[addr]
      ensures bus == old(bus) + [Read(addr, v)]
    {
      v := regs[addr];
      bus := bus + [Read(addr, v)];
    }

    /** `write_u32`: a volatile write of a mapped register. */
    method WriteU32(addr: u32, val: bv32)
      requires addr in regs
      modifies this`regs, this`bus
      ensures regs == old(regs)[addr := val]
      ensures bus == old(bus) + [Write(addr, val)]
    {
      regs := regs[addr := val];
      bus := bus + [Write(addr, val)];
    }

    /** `wait(i)`: `i` `nop`s, no register access. */
    method Wait(i: nat)
      modifies this`nops, this`bus
      ensures nops == old(nops) + i
      ensures bus == old(bus) + [Nops(i)]
      ensures regs == old(regs)
    {
      for k := 0 to i
        invariant nops == old(nops) + k
        invariant bus == old(bus)
      {
        nops := nops + 1;
      }
      bus := bus + [Nops(i)];
    }

    /** The part of `main` before the loop. The clock of GPIOA is enabled
        (its write is on the bus) before the MODER read-modify-write starts. */
    method Setup()
      requires Mapped()
      modifies this`regs, this`bus
      ensures Mapped()
      ensures bus == old(bus) + SetupAccesses(old(regs)[RCC_AHB1ENR], old(regs)[GPIOA_MODER])
      ensures regs == old(regs)[RCC_AHB1ENR := EnableGpioa(old(regs)[RCC_AHB1ENR])]
                               [GPIOA_MODER := SetOutputMode5(old(regs)[GPIOA_MODER])]
    {
      AddressValues();
      var r := ReadU32(RCC_AHB1ENR);
      WriteU32(RCC_AHB1ENR, EnableGpioa(r));
      var m := ReadU32(GPIOA_MODER);

      WriteU32(GPIOA_MODER, SetOutputMode5(m));
    }

    /** One turn of the endless loop: set PA5, wait, reset PA5, wait. */
    method Blink()
      requires Mapped()
      modifies this`regs, this`bus, this`nops
      ensures Mapped()
      ensures bus == old(bus) + Blinks(1)
      ensures regs == old(regs)[GPIOA_BSRR := BsrrReset(LED_PIN)]
      ensures nops == old(nops) + 2 * WAIT_ITERATIONS
    {
      AddressValues();
      WriteU32(GPIOA_BSRR, BsrrSet(LED_PIN));
      Wait(WAIT_ITERATIONS);
      WriteU32(GPIOA_BSRR, BsrrReset(LED_PIN));
      Wait(WAIT_ITERATIONS);
    }

    /** The whole of `main`, with its endless loop cut after `turns` turns. */
    method Run(turns: nat)
      requires Mapped()
      modifies this
      ensures Mapped()
      ensures bus == old(bus) + SetupAccesses(old(regs)[RCC_AHB1ENR], old(regs)[GPIOA_MODER]) + Blinks(turns)
      ensures nops == old(nops) + 2 * WAIT_ITERATIONS * turns
      ensures regs.Keys == old(regs).Keys
      ensures turns > 0 ==> regs[GPIOA_BSRR] == BsrrReset(LED_PIN)
      ensures turns == 0 ==> regs[GPIOA_BSRR] == old(regs)[GPIOA_BSRR]
      ensures regs[RCC_AHB1ENR] == EnableGpioa(old(regs)[RCC_AHB1ENR])
      ensures regs[GPIOA_MODER] == SetOutputMode5(old(regs)[GPIOA_MODER])
      ensures forall a :: a in old(regs) && a != RCC_AHB1ENR && a != GPIOA_MODER && a != GPIOA_BSRR ==>
                a in regs && regs[a] == old(regs)[a]
    {
      AddressValues();
      Setup();
      ghost var prefix := bus;
      ghost var configured := regs;
      for k := 0 to turns
        invariant Mapped()
        invariant bus == prefix + Blinks(k)
        invariant nops == old(nops) + 2 * WAIT_ITERATIONS * k
        invariant regs.Keys == configured.Keys
        invariant forall a :: a in configured && a != GPIOA_BSRR ==> regs[a] == configured[a]
        invariant k > 0 ==> regs[GPIOA_BSRR] == BsrrReset(LED_PIN)
        invariant k == 0 ==> regs == configured
      {
        Blink();
      }
    }
  }
}
