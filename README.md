# Verified model of the RTFM application examples

These examples run small applications on the RTFM (Real-Time For the Masses)
scheduler of an STM32F401 board: a bare-metal LED blinker that pokes the RCC
and GPIOA registers through raw addresses (`bare4`), an interrupt-driven
serial echo over a three-slot lock-free ring buffer (`bare9`), a serial echo
that routes each byte and each failure to prioritised tasks through bounded
message queues (`bare10`), and two blinkers driven by the monotonic timer
queue over the 32-bit DWT cycle counter (`rtfm_blinky_msg2`,
`rtfm_blinky_sw_reset`).

The model treats every task body as one atomic run-to-completion step over
explicit state:

- `machine.dfy`: `u8`/`u32` as bounded integers, `Option`, and the outcome
  of a serial read.
- `cyccnt.dfy`: instants of the 32-bit cycle counter, wrapping addition,
  the signed difference and the "due" test of the timer queue.
- `rm0368.dfy`: the register fields written by all the blinkers
  (RM0368 sections 6.3.11, 8.4.1 and 8.4.7) as `bv32` functions whose
  contracts say which field changes and that nothing else does.
- `bare4.dfy`: a class `Mcu` holding an address-to-value register map, the
  log of volatile accesses and a `nop` counter; `read_u32`, `write_u32`,
  `wait` and `main` as methods.
- `bare9.dfy`, `bare10.dfy`: one class per application, with the scheduler
  state the handlers change (ring buffer, message queues) as fields and one
  method per handler.
- `blinky_msg2.dfy`, `blinky_sw_reset.dfy`: one class per application with
  the timer queue, the BSRR writes and the terminal states as fields; the
  closed form of the `n`-th run is a function, and the step lemmas tie it to
  what a run schedules.

Assumptions about the code that is not part of this model (the `rtfm`
scheduler, the `heapless` queue, the HAL serial driver):

- A spawn or a schedule appends to the task's queue when it holds fewer
  messages than its capacity, and otherwise fails and changes nothing. The
  message-queue capacities of `bare10` and the timer-queue capacity of the
  blinkers are constructor parameters (the applications use RTFM's default of
  one message per task); the ring buffer of `bare9` has the fixed capacity
  `Bare9.CAPACITY` of 3, from its `Queue<u8, U3>`.
- The dispatcher runs, among the waiting messages, one of the highest declared
  priority, and among those the one spawned first. The message leaves its
  queue, freeing its slot, before the task body runs.
- The timer queue releases its first pending run when it is due: the signed
  32-bit difference `now - scheduled` is not negative.
- The outcomes of `rx.read()` and `tx.write()` are parameters of the
  handlers.
- `bkpt`, a panic under `panic_halt` and `sys_reset` end the run: later
  steps change nothing.

Four bytes arriving before `idle` runs in `bare9`: the first three are
buffered; the fourth is echoed and then stops the program at the `bkpt`
(examples/bare9.rs:120-124; `Bare9.BurstOfFour`).

## Model

| member | source | states |
|---|---|---|
| `Cyccnt.AddWrapsOnce` | examples/rtfm_blinky_msg2.rs:34 | `Add`, the model of `instant + n.cycles()` (also examples/rtfm_blinky_msg2.rs:58, examples/rtfm_blinky_sw_reset.rs:35 and 61) is the plain sum when it stays below 2^32, and wraps exactly once otherwise |
| `Cyccnt.DueUnsigned` | examples/rtfm_blinky_msg2.rs:12 | `Due`, the timer queue's due test on the CYCCNT monotonic: a run is due exactly when the unsigned wrapping difference `now - fire` is below 2^31, i.e. non-negative as a signed 32-bit offset |
| `Cyccnt.Elapsed` | examples/rtfm_blinky_msg2.rs:12 | the signed difference of two counter instants lies in [-2^31, 2^31) and is congruent to their difference modulo 2^32 |
| `Cyccnt.DueExactlyAfter` | examples/rtfm_blinky_msg2.rs:58 | a run scheduled `delta < 2^31` cycles after `t` is due at `t + d` (`d < 2^31`) exactly when `delta <= d`, even when `t + delta` wraps around |
| `Rm0368.EnableGpioa` | examples/bare4.rs:59-60 | the written RCC_AHB1ENR word has GPIOAEN (bit 0) set and every other bit as read |
| `Rm0368.SetOutputMode5` | examples/bare4.rs:63-64 | the written GPIOA_MODER word has bits 10-11 equal to 0b01 and every other bit as read |
| `Rm0368.BsrrSet` | examples/bare4.rs:71 | the BSRR set word for a pin has exactly one bit set, the pin's bit, and none in the reset half |
| `Rm0368.BsrrReset` | examples/bare4.rs:75 | the BSRR reset word for a pin has exactly one bit set, bit pin + 16, and none in the set half |
| `Rm0368.LedWord` | examples/rtfm_blinky_msg2.rs:51-55 | the word a toggle run writes has exactly one bit set: PA5's set bit (bit 5) when its message is true, PA5's reset bit (bit 21) when it is false |
| `Bare4.AddressValues` | examples/bare4.rs:22-28 | RCC_AHB1ENR is 0x40023830, GPIOA_MODER is 0x40020000 and GPIOA_BSRR is 0x40020018 |
| `Bare4.BlinksAt` | examples/bare4.rs:69-77 | `n` loop turns make 4n steps, repeating: write of the PA5 set word to GPIOA_BSRR, 10,000 nops, write of the PA5 reset word to GPIOA_BSRR, 10,000 nops; no other register is touched |
| `Bare4.Mcu.ReadU32` | examples/bare4.rs:38-41 | a volatile read returns the register's value and is logged on the bus |
| `Bare4.Mcu.WriteU32` | examples/bare4.rs:44-48 | a volatile write changes that register only and is logged on the bus |
| `Bare4.Mcu.Wait` | examples/bare4.rs:50-54 | `wait(i)` executes exactly `i` nops, appears on the bus as one run of `i` nops, and touches no register |
| `Bare4.Mcu.Setup` | examples/bare4.rs:58-64 | the bus sees read and write of RCC_AHB1ENR before read and write of GPIOA_MODER; the two registers end as the two field updates of their old values |
| `Bare4.Mcu.Blink` | examples/bare4.rs:69-77 | one loop turn puts `Blinks(1)` on the bus: the PA5 set word, 10,000 nops, the PA5 reset word, 10,000 nops, in that order; BSRR ends holding the reset word |
| `Bare4.Mcu.Run` | examples/bare4.rs:56-78 | after `turns` loop turns the bus holds the setup accesses followed by the blink writes and waits, no register is added and none other than the three is changed, GPIOA_BSRR is untouched when no turn ran, and 20,000 nops ran per turn |
| `Bare10.Priority` | examples/bare10.rs:89-113 | the declared priorities (lines 89, 98, 104 and 113): `usart2` alone has the highest, 3; `echo` alone has 2; `trace_data` and `trace_error` share the lowest, 1 |
| `Bare10.Next` | examples/bare10.rs:89-113 | the dispatcher picks a waiting message of the highest declared priority (usart2 3, echo 2, trace_data and trace_error 1) and, among those, the one spawned first |
| `Bare10.App.constructor` | examples/bare10.rs:39-79 | after `init` all message queues are empty and nothing was written or traced |
| `Bare10.App.Spawn` | examples/bare10.rs:120 | a spawn succeeds exactly when the task's queue is below capacity; a failed spawn leaves the queues unchanged, and no queue ever exceeds its capacity |
| `Bare10.App.Usart2Handler` | examples/bare10.rs:113-128 | a read byte is offered to `echo` and then to `trace_data`; only a failed `trace_data` spawn leads to one `trace_error(RingBufferOverflow)` spawn; a read error spawns only `trace_error(UsartReceiveOverflow)` |
| `Bare10.App.EchoHandler` | examples/bare10.rs:104-111 | `echo` writes its byte to TX, or spawns `trace_error(UsartSendOverflow)` exactly when the write fails |
| `Bare10.App.TraceDataHandler` | examples/bare10.rs:89-96 | `trace_data` traces `data` with its byte |
| `Bare10.App.TraceErrorHandler` | examples/bare10.rs:98-102 | `trace_error` traces its error |
| `Bare10.App.Dispatch` | examples/bare10.rs:89-126 | one dispatch removes the message chosen by `Next` and runs its task, with that task's effect on TX, the trace and the queues |
| `Bare10.OneByte` | examples/bare10.rs:113-128 | from empty queues, one received byte runs usart2, then echo, then trace_data, leaves nothing waiting, echoes the byte and traces it |
| `Bare10.TwoBytesAtOnce` | examples/bare10.rs:117-122 | with one slot per task, a second byte before dispatch loses its echo silently and reports `RingBufferOverflow` in place of its trace |
| `Bare9.App.constructor` | examples/bare9.rs:39-48 | `init` installs an empty ring buffer |
| `Bare9.App.Enqueue` | examples/bare9.rs:122 | enqueueing appends the byte exactly when fewer than 3 are buffered, and otherwise changes nothing |
| `Bare9.App.Dequeue` | examples/bare9.rs:100 | dequeueing returns and removes the oldest byte, or nothing when empty |
| `Bare9.App.Usart2Handler` | examples/bare9.rs:112-129 | a read error stops at a breakpoint with nothing echoed or enqueued; a failed write panics; otherwise the byte is echoed, then enqueued, or a full buffer stops at a breakpoint without dropping or overwriting a buffered byte; buffer size at most 3, traced bytes plus buffer equal the enqueued bytes, each enqueued byte was echoed first |
| `Bare9.App.IdleDrain` | examples/bare9.rs:100-102 | the drain loop ends with the buffer empty, having traced the buffered bytes in enqueue order, and keeps the invariant the handler keeps |
| `Bare9.BurstOfFour` | examples/bare9.rs:118-125 | four bytes before `idle` runs: all four echoed, the first three buffered in order, the fourth stops at the breakpoint |
| `Bare9.InterleavedTrace` | examples/bare9.rs:100-122 | bytes received between two drains are traced in arrival order |
| `BlinkyMsg2.Successor` | examples/rtfm_blinky_msg2.rs:57-59 | the successor run is exactly 8,000,000 cycles (as a signed counter difference) after the current run's nominal `scheduled` time, with the negated message |
| `BlinkyMsg2.FirstRun` | examples/rtfm_blinky_msg2.rs:34 | the run `init` schedules, `start + 8,000,000` with `true`, is the first run of the closed form |
| `BlinkyMsg2.NthRunStep` | examples/rtfm_blinky_msg2.rs:58 | the successor of the n-th run is the (n+1)-th: start + (n+1)·8,000,000 mod 2^32, message true iff n+1 is odd |
| `BlinkyMsg2.NthRunByIteration` | examples/rtfm_blinky_msg2.rs:34-58 | rescheduling the first run n-1 times gives start + n·8,000,000 mod 2^32 with message true iff n is odd |
| `BlinkyMsg2.App.Init` | examples/rtfm_blinky_msg2.rs:19-45 | `init` schedules exactly one run, at start + 8,000,000 with `true`, and sets GPIOAEN and MODER5; a full timer queue panics before the register writes |
| `BlinkyMsg2.App.Toggle` | examples/rtfm_blinky_msg2.rs:47-60 | a run writes the PA5 set or reset word by its message and schedules exactly one successor; a failed schedule panics |
| `BlinkyMsg2.App.Tick` | examples/rtfm_blinky_msg2.rs:57-59 | a due run leaves the queue and runs; its successor depends on its nominal time, not on `now`; the schedule never fails; from `init`, after n runs the pending run is the (n+1)-th and the LED was set on odd and reset on even runs |
| `BlinkySwReset.TriangleClosedForm` | examples/rtfm_blinky_sw_reset.rs:61 | the sum of the delay factors 1 + 2 + ... + k is k(k+1)/2 |
| `BlinkySwReset.Delay` | examples/rtfm_blinky_sw_reset.rs:61 | `state as u32 * 400_000` is exactly `state` whole steps of 400,000 cycles; its `u32` result type makes the verifier show that it fits in 32 bits, so the product never overflows for any `u8` state |
| `BlinkySwReset.KthRunFireTime` | examples/rtfm_blinky_sw_reset.rs:34-61 | the k-th run fires at start + 8,000,000 + 400,000·(k(k+1)/2 − 1) mod 2^32 |
| `BlinkySwReset.FirstRun` | examples/rtfm_blinky_sw_reset.rs:34-36 | the run `init` schedules, `start + 8,000,000` with `true` and state 1, is the first run of the closed form |
| `BlinkySwReset.KthRunStep` | examples/rtfm_blinky_sw_reset.rs:53-66 | the run the k-th run schedules (k < 9) is the (k+1)-th: (k+1)·400,000 cycles after its nominal time, negated message, state k+1 |
| `BlinkySwReset.App.Init` | examples/rtfm_blinky_sw_reset.rs:14-37 | `init` sets GPIOAEN and MODER5, then schedules exactly one run at start + 8,000,000 with `true` and state 1; a full queue silently schedules nothing |
| `BlinkySwReset.App.Toggle` | examples/rtfm_blinky_sw_reset.rs:39-68 | a run writes the PA5 set or reset word, raises `state` by one, resets the system when it reaches 10, and otherwise schedules one successor state·400,000 cycles after its nominal time; a full queue drops it silently |
| `BlinkySwReset.App.Fire` | examples/rtfm_blinky_sw_reset.rs:39-68 | a fired run leaves the queue and runs `toggle`; from `init`, runs 1 to 8 each schedule exactly the next run, with state 2 to 9 (so neither the `u8` increment nor the `u32` product overflows), and the 9th run resets the system with nothing left pending |
| `BlinkySwReset.App.Tick` | examples/rtfm_blinky_sw_reset.rs:53-67 | the first pending run fires exactly when it is due and the system is neither reset nor halted; otherwise nothing changes; from `init` the sequence of runs is the one `Fire` states, ending in `Finished` after the 9th |

## Left out

- The RTFM scheduler itself: ceiling (SRP) locking, interrupt-level
  preemption and the dispatch interrupts. Each handler run is one atomic
  step.
- The timer queue's ordering by fire time: the model keeps pending runs in
  insertion order, which is the same order here because each blinker never has
  more than one run pending.
- The `heapless` queue implementation and the HAL serial driver: only the
  abstract behaviour listed above.
- Clock and pin configuration, the serial set-up in `init`,
  `iprintln!`/`hprintln!` as I/O, and `wfi`. Of the ITM output, only the
  `data {}` lines (examples/bare9.rs:101, examples/bare10.rs:92) and the
  error lines of `trace_error` (examples/bare10.rs:101) are kept, as a log of
  traced values; the `bare9`/`bare10` banners (examples/bare9.rs:54,
  examples/bare10.rs:45) and the `goto sleep`/`woken..` lines of the `bare9`
  idle loop (examples/bare9.rs:104, 107) are not modelled.
- Bare9.App.IdleDrain: one whole pass of the `while let` drain
  (examples/bare9.rs:100-102) is a single step, so a `usart2` run between two
  dequeues, which the hardware allows, is not represented; a byte enqueued
  during a pass is, in the model, drained by the next pass instead.
- BlinkyMsg2.App.Toggle: does not model the `hprintln!(...).unwrap()` at the
  start of the task, which would panic if semihosting failed.
- BlinkySwReset.App.Toggle: models `state += 1` on `u8` as a panic at 255
  (the debug-build overflow check); no reachable run gets there.
- What happens after `sys_reset`, `bkpt` or a panic: the model stops there.
- Bare4.Mcu.Run: the endless loop is cut after `turns` turns; BSRR is
  modelled as a plain register cell, not by its effect on the output data
  register.
- `bare0`, `bare2`, `bare7` and `bare8` are not part of this model: they
  poke raw memory through cast values, time `nop` loops on hardware, or poll
  the UART with blocking I/O.
