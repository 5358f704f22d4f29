/** The timer-driven blinker that passes the LED state as the message of a
    self-rescheduling `toggle` task, every 8,000,000 cycles of the cycle
    counter. */
module BlinkyMsg2 {
  import opened Machine
  import opened Cyccnt
  import opened Rm0368

  /** The blink period, in cycles. */
  const PERIOD: u32 := 8_000_000

  /** A pending run of `toggle`: its nominal start `scheduled` and its
      message `toggle`. */
  datatype Run = Run(scheduled: Instant, toggle: bool)

  /** The run that `toggle` schedules from inside a run: exactly 8,000,000
      cycles, as a signed counter difference and so across a wrap-around too,
      after the current run's nominal start, with the negated message. */
  function Successor(r: Run): (next: Run)
    ensures Elapsed(next.scheduled, r.scheduled) == PERIOD
    ensures next.toggle == !r.toggle
  {
    var t := Add(r.scheduled, PERIOD);
    assert t - r.scheduled == PERIOD || t - r.scheduled == PERIOD - MODULUS;
    Run(t, !r.toggle)
  }

  /** The `n`-th run after a start at `start`, in closed form. */
  function NthRun(start: Instant, n: nat): Run
    requires n >= 1
  {
    Run((start + n * PERIOD) % MODULUS, n % 2 == 1)
  }

  /** `init` schedules the first run at `start + 8,000,000` with `true`. */
  lemma FirstRun(start: Instant)
    ensures NthRun(start, 1) == Run(Add(start, PERIOD), true)
  {
  }

  /** The successor of the `n`-th run is the `(n + 1)`-th. */
  lemma NthRunStep(start: Instant, n: nat)
    requires n >= 1
    ensures Successor(NthRun(start, n)) == NthRun(start, n + 1)
  {
    var x := start + n * PERIOD;
    var y := start + (n + 1) * PERIOD;
    assert y == x + PERIOD;
    var r := NthRun(start, n);
    assert r.scheduled == x % MODULUS;
    calc {
      Successor(r).scheduled;
      Add(x % MODULUS, PERIOD);
      (x % MODULUS + PERIOD) % MODULUS;
      { ModAddLeft(x, PERIOD); }
      y % MODULUS;
      NthRun(start, n + 1).scheduled;
    }
  }

  class App {
    /** `cx.start`, the instant of the frozen counter during `init`. */
    const start: Instant
    /** Capacity of the timer queue for `toggle`. */
    const capacity: nat

    /** The pending runs of `toggle`. */
    var queue: seq<Run>
    var ahb1enr: bv32
    var moder: bv32
    /** The words written to GPIOA_BSRR, oldest first. */
    var bsrr: seq<bv32>
    /** Stopped in the `panic_halt` handler after a failed `unwrap`. */
    var halted: bool
    /** The number of runs of `toggle` so far. */
    ghost var runs: nat

    ghost predicate Valid()
      reads this
    {
      |queue| <= capacity
    }

    /** The state after `n` runs: nothing went wrong, the `(n + 1)`-th run is
        the one pending and the LED was written once per run, alternately
        set and reset. */
    ghost predicate OnSchedule()
      reads this
    {
      !halted && queue == [NthRun(start, runs + 1)] && bsrr == LedHistory(runs)
    }

    /** `init`: schedule the first run (`unwrap`: a full timer queue
        panics), then power on GPIOA and make PA5 an output. */
    constructor Init(start: Instant, capacity: nat, ahb1enr: bv32, moder: bv32)
      ensures Valid()
      ensures this.start == start && this.capacity == capacity && runs == 0
      ensures capacity >= 1 ==>
                OnSchedule() &&
                this.ahb1enr == EnableGpioa(ahb1enr) && this.moder == SetOutputMode5(moder)
      ensures capacity == 0 ==>
                halted && queue == [] && bsrr == [] && this.ahb1enr == ahb1enr && this.moder == moder
    {
      this.start := start;
      this.capacity := capacity;
      runs := 0;
      bsrr := [];
      this.ahb1enr, this.moder := ahb1enr, moder;
      if capacity == 0 {
        queue, halted := [], true;
      } else {
        FirstRun(start);
        queue, halted := [Run(Add(start, PERIOD), true)], false;
        this.ahb1enr := EnableGpioa(ahb1enr);
        this.moder := SetOutputMode5(moder);
      }
    }

    /** The body of `toggle`: write the LED, then schedule the successor
        (`unwrap`: a full timer queue panics). */
    method Toggle(scheduled: Instant, toggle: bool)
      requires Valid()
      modifies this`queue, this`bsrr, this`halted
      ensures Valid()
      ensures bsrr == old(bsrr) + [LedWord(toggle)]
      ensures |old(queue)| < capacity ==>
                queue == old(queue) + [Successor(Run(scheduled, toggle))] && halted == old(halted)
      ensures |old(queue)| >= capacity ==> queue == old(queue) && halted
    {
      if toggle {
        bsrr := bsrr + [BsrrSet(LED_PIN)];
      } else {
        bsrr := bsrr + [BsrrReset(LED_PIN)];
      }
      if |queue| < capacity {
        queue := queue + [Successor(Run(scheduled, toggle))];
      } else {
        halted := true;
      }
    }

    /** The timer queue at instant `now`: when the first pending run is due,
        it leaves the queue and `toggle` runs with it. The successor is timed
        from the run's nominal `scheduled` instant, whatever `now` is, and
        scheduling it never fails because the run's own slot was freed. */
    method Tick(now: Instant) returns (fired: bool)
      requires Valid()
      modifies this
      ensures Valid()
      ensures fired == (!old(halted) && old(queue) != [] && Due(now, old(queue)[0].scheduled))
      ensures !fired ==> queue == old(queue) && bsrr == old(bsrr) && halted == old(halted) && runs == old(runs)
      ensures fired ==>
                && runs == old(runs) + 1
                && !halted
                && bsrr == old(bsrr) + [LedWord(old(queue)[0].toggle)]
                && queue == old(queue)[1..] + [Successor(old(queue)[0])]
      ensures old(OnSchedule()) ==> OnSchedule()
      ensures ahb1enr == old(ahb1enr) && moder == old(moder)
    {
      fired := !halted && queue != [] && Due(now, queue[0].scheduled);
      if fired {
        var run := queue[0];
        queue := queue[1..];
        if old(OnSchedule()) {
          NthRunStep(start, runs + 1);
          LedHistoryStep(runs, NthRun(start, runs + 1).toggle);
        }
        runs := runs + 1;
        Toggle(run.scheduled, run.toggle);
      }
    }
  }

  /** The `n`-th run starts `n` periods after `start`, modulo 2^32, and
      carries `true` exactly when `n` is odd: so the LED is set by the odd
      runs and reset by the even ones. */
  lemma {:induction false} NthRunByIteration(start: Instant, n: nat)
    requires n >= 1
    ensures NthRun(start, n) == Iterate(Run(Add(start, PERIOD), true), n - 1)
  {
    if n > 1 {
      NthRunByIteration(start, n - 1);
      NthRunStep(start, n - 1);
    }
  }

  /** `r` after `k` reschedulings. */
  function Iterate(r: Run, k: nat): Run
  {
    if k == 0 then r else Successor(Iterate(r, k - 1))
  }
}
