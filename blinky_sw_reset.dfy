/** The timer-driven blinker that counts its runs in the message and resets
    the system on the ninth: each run waits `state * 400,000` cycles longer
    than the previous one. */
module BlinkySwReset {
  import opened Machine
  import opened Cyccnt
  import opened Rm0368

  /** The delay of the first run after `init`, in cycles. */
  const FIRST_DELAY: u32 := 8_000_000
  /** The growth of the delay per run, in cycles. */
  const STEP: u32 := 400_000
  /** The value of `state` at which the task resets the system. */
  const RESET_STATE: u8 := 10

  /** A pending run of `toggle`: its nominal start, the LED message and the
      run counter `state`. */
  datatype Run = Run(scheduled: Instant, toggle: bool, state: u8)

  /** `(state as u32 * 400_000).cycles()`. Even the largest `u8` times
      400,000 fits in 32 bits, so the product never overflows. */
  function Delay(state: u8): (d: u32)
    ensures d % STEP == 0 && d / STEP == state
  {
    state * STEP
  }

  /** `1 + 2 + ... + k`. */
  function Triangle(k: nat): nat
  {
    if k == 0 then 0 else Triangle(k - 1) + k
  }

  lemma {:induction false} TriangleClosedForm(k: nat)
    ensures 2 * Triangle(k) == k * (k + 1)
  {
    if k > 0 {
      TriangleClosedForm(k - 1);
    }
  }

  /** The distance of the `k`-th run from `start`: the first delay, then
      `2 + 3 + ... + k` steps. */
  function Offset(k: nat): nat
    requires 1 <= k
  {
    FIRST_DELAY + STEP * (Triangle(k) - 1)
  }

  /** Each run adds its own delay to the distance from `start`. */
  lemma OffsetStep(k: nat)
    requires 1 <= k < RESET_STATE - 1
    ensures Offset(k + 1) == Offset(k) + Delay(k + 1)
  {
    assert Triangle(k + 1) == Triangle(k) + (k + 1);
  }

  /** The `k`-th run after a start at `start`, in closed form: it starts
      `Offset(k)` cycles after `start`, modulo 2^32, carries `true` exactly
      when `k` is odd, and `state == k`. */
  function KthRun(start: Instant, k: nat): Run
    requires 1 <= k < RESET_STATE
  {
    Run((start + Offset(k)) % MODULUS, k % 2 == 1, k)
  }

  /** The fire time of the `k`-th run, with the triangular number written
      out: `start + 8,000,000 + 400,000 * (k(k+1)/2 - 1)` modulo 2^32. */
  lemma KthRunFireTime(start: Instant, k: nat)
    requires 1 <= k < RESET_STATE
    ensures KthRun(start, k).scheduled == (start + FIRST_DELAY + STEP * (k * (k + 1) / 2 - 1)) % MODULUS
  {
    TriangleClosedForm(k);
    assert Triangle(k) == k * (k + 1) / 2;
  }

  /** `init` schedules the first run at `start + 8,000,000` with `true` and
      state 1. */
  lemma FirstRun(start: Instant)
    ensures KthRun(start, 1) == Run(Add(start, FIRST_DELAY), true, 1)
  {
  }

  /** The run that the `k`-th run schedules is the `(k + 1)`-th: it starts
      `(k + 1) * 400,000` cycles after the `k`-th run's nominal start and
      carries the negated message and the incremented state. */
  lemma KthRunStep(start: Instant, k: nat)
    requires 1 <= k < RESET_STATE - 1
    ensures var r := KthRun(start, k);
            KthRun(start, k + 1) == Run(Add(r.scheduled, Delay(k + 1)), !r.toggle, k + 1)
  {
    OffsetStep(k);
    ModAddLeft(start + Offset(k), Delay(k + 1));
  }

  class App {
    /** `cx.start`, the instant of the frozen counter during `init`. */
    const start: Instant
    /** Capacity of the timer queue for `toggle`. */
    const capacity: nat

    /** The pending runs of `toggle`. */
    var queue: seq<Run>
    var ahb1enr: bv32
    var moder: bv32
    /** The words written to GPIOA_BSRR, oldest first. */
    var bsrr: seq<bv32>
    /** `SCB::sys_reset()` was called. */
    var reset: bool
    /** Stopped in the `panic_halt` handler: `state += 1` overflowed. */
    var halted: bool
    /** The number of runs of `toggle` so far. */
    ghost var runs: nat

    ghost predicate Valid()
      reads this
    {
      |queue| <= capacity
    }

    /** The state after `n < 9` runs: the `(n + 1)`-th run is the one
        pending, and the LED was written once per run, alternately set and
        reset. */
    ghost predicate OnSchedule()
      reads this
    {
      && !reset && !halted && runs < RESET_STATE - 1
      && queue == [KthRun(start, runs + 1)]
      && bsrr == LedHistory(runs)
    }

    /** The state after the ninth run: the system reset, nothing is
        pending, and the LED was written nine times. */
    ghost predicate Finished()
      reads this
    {
      reset && !halted && runs == RESET_STATE - 1 && queue == [] && bsrr == LedHistory(runs)
    }

    /** `init`: power on GPIOA, make PA5 an output, then schedule the first
        run with state 1; a failed schedule is dropped (`.ok()`). */
    constructor Init(start: Instant, capacity: nat, ahb1enr: bv32, moder: bv32)
      ensures Valid()
      ensures this.start == start && this.capacity == capacity && runs == 0
      ensures this.ahb1enr == EnableGpioa(ahb1enr) && this.moder == SetOutputMode5(moder)
      ensures capacity >= 1 ==> OnSchedule()
      ensures capacity == 0 ==> queue == [] && bsrr == [] && !reset && !halted
    {
      this.start := start;
      this.capacity := capacity;
      runs := 0;
      bsrr := [];
      reset, halted := false, false;
      this.ahb1enr := EnableGpioa(ahb1enr);
      this.moder := SetOutputMode5(moder);
      FirstRun(start);
      if capacity >= 1 {
        queue := [Run(Add(start, FIRST_DELAY), true, 1)];
      } else {
        queue := [];
      }
    }

    /** The body of `toggle`: write the LED, count the run in `state`, reset
        the system when `state` reaches 10, and otherwise schedule the next
        run `state * 400,000` cycles after this one's nominal start; a full
        queue drops it (`.ok()`), ending the sequence silently. */
    method Toggle(scheduled: Instant, toggle: bool, state: u8)
      requires Valid()
      modifies this`queue, this`bsrr, this`reset, this`halted
      ensures Valid()
      ensures bsrr == old(bsrr) + [LedWord(toggle)]
      ensures state == 0xFF ==> halted && queue == old(queue) && reset == old(reset)
      ensures state == RESET_STATE - 1 ==> reset && queue == old(queue) && halted == old(halted)
      ensures state != 0xFF && state != RESET_STATE - 1 ==>
                && reset == old(reset) && halted == old(halted)
                && (|old(queue)| < capacity ==>
                      queue == old(queue) + [Run(Add(scheduled, Delay(state + 1)), !toggle, state + 1)])
                && (|old(queue)| >= capacity ==> queue == old(queue))
    {
      if toggle {
        bsrr := bsrr + [BsrrSet(LED_PIN)];
      } else {
        bsrr := bsrr + [BsrrReset(LED_PIN)];
      }
      if state == 0xFF {
        halted := true;
        return;
      }
      var next: u8 := state + 1;
      if next == RESET_STATE {
        reset := true;
        return;
      }
      if |queue| < capacity {
        queue := queue + [Run(Add(scheduled, Delay(next)), !toggle, next)];
      }
    }

    /** `toggle` runs with the first pending run, which leaves the queue
        before the body starts. From a reachable state, runs 1 to 8 each
        schedule exactly the next run, and the ninth resets the system. */
    method Fire()
      requires Valid() && !reset && !halted && queue != []
      modifies this`queue, this`bsrr, this`reset, this`halted, this`runs
      ensures Valid()
      ensures runs == old(runs) + 1 && bsrr == old(bsrr) + [LedWord(old(queue)[0].toggle)]
      ensures old(OnSchedule()) && old(runs) < RESET_STATE - 2 ==>
                OnSchedule() && 2 <= queue[0].state <= RESET_STATE - 1
      ensures old(OnSchedule()) && old(runs) == RESET_STATE - 2 ==> Finished()
    {
      var run := queue[0];
      queue := queue[1..];
      ghost var wasOnSchedule := old(OnSchedule());
      if wasOnSchedule {
        LedHistoryStep(runs, run.toggle);
        if runs < RESET_STATE - 2 {
          KthRunStep(start, runs + 1);
        }
      }
      runs := runs + 1;
      Toggle(run.scheduled, run.toggle, run.state);
    }

    /** The timer queue at instant `now`: when the first pending run is due
        and the system is still up, it fires. */
    method Tick(now: Instant) returns (fired: bool)
      requires Valid()
      modifies this`queue, this`bsrr, this`reset, this`halted, this`runs
      ensures Valid()
      ensures fired == (!old(reset) && !old(halted) && old(queue) != [] && Due(now, old(queue)[0].scheduled))
      ensures !fired ==>
                queue == old(queue) && bsrr == old(bsrr) && reset == old(reset) &&
                halted == old(halted) && runs == old(runs)
      ensures fired ==> runs == old(runs) + 1 && bsrr == old(bsrr) + [LedWord(old(queue)[0].toggle)]
      ensures old(OnSchedule()) && fired && old(runs) < RESET_STATE - 2 ==>
                OnSchedule() && 2 <= queue[0].state <= RESET_STATE - 1
      ensures old(OnSchedule()) && fired && old(runs) == RESET_STATE - 2 ==> Finished()
      ensures old(OnSchedule()) && !fired ==> OnSchedule()
      ensures ahb1enr == old(ahb1enr) && moder == old(moder)
    {
      fired := !reset && !halted && queue != [] && Due(now, queue[0].scheduled);
      if fired {
        Fire();
      }
    }
  }
}
