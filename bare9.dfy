/** The interrupt-driven serial echo over a lock-free ring buffer: the
    USART2 interrupt echoes every received byte and enqueues it into a
    three-slot queue, and `idle` drains the queue onto the ITM trace. */
module Bare9 {
  import opened Machine

  /** Slots of the `Queue<u8, U3>` ring buffer. */
  const CAPACITY: nat := 3

  /** `Running`, or stopped for good: at a `bkpt`, or in the `panic_halt`
      handler after a failed `unwrap`. */
  datatype Status = Running | Breakpoint | Panicked

  class App {
    /** The bytes in the ring buffer, oldest first. */
    var rb: seq<u8>
    /** The bytes written to TX. */
    var tx: seq<u8>
    /** The bytes `idle` traced as `data {}`. */
    var itm: seq<u8>
    var status: Status
    /** Every byte ever enqueued, oldest first. */
    ghost var enqueued: seq<u8>

    /** The buffer never holds more than three bytes; what was traced
        followed by what is still buffered is exactly what was enqueued, in
        order; and every enqueued byte was echoed first. While running, the
        echoed bytes are exactly the enqueued ones; after a stop, at most the
        one byte that found the buffer full was echoed without being
        enqueued. */
    ghost predicate Valid()
      reads this
    {
      && |rb| <= CAPACITY
      && itm + rb == enqueued
      && enqueued <= tx
      && |tx| <= |enqueued| + 1
      && (status == Running ==> tx == enqueued)
    }

    /** `init`: installs an empty ring buffer. */
    constructor ()
      ensures Valid()
      ensures rb == [] && tx == [] && itm == [] && status == Running
    {
      rb, tx, itm, status := [], [], [], Running;
      enqueued := [];
    }

    /** `PRODUCER.enqueue(byte)`: fails, changing nothing, when full. */
    method Enqueue(byte: u8) returns (ok: bool)
      modifies this`rb, this`enqueued
      ensures ok == (|old(rb)| < CAPACITY)
      ensures ok ==> rb == old(rb) + [byte] && enqueued == old(enqueued) + [byte]
      ensures !ok ==> rb == old(rb) && enqueued == old(enqueued)
    {
      ok := |rb| < CAPACITY;
      if ok {
        rb := rb + [byte];
        enqueued := enqueued + [byte];
      }
    }

    /** `CONSUMER.dequeue()`: the oldest byte, if any. */
    method Dequeue() returns (byte: Option<u8>)
      modifies this`rb
      ensures old(rb) == [] ==> byte == None && rb == []
      ensures old(rb) != [] ==> byte == Some(old(rb)[0]) && rb == old(rb)[1..]
    {
      if rb == [] {
        byte := None;
      } else {
        byte := Some(rb[0]);
        rb := rb[1..];
      }
    }

    /** The USART2 interrupt; `written` is the outcome of `tx.write(byte)`.
        A read error stops at a breakpoint; a failed write panics; otherwise
        the byte is echoed and then enqueued, or, when the buffer is full,
        echoed and the handler stops at a breakpoint, dropping nothing that
        was already buffered. */
    method Usart2Handler(r: ReadResult, written: bool)
      requires Valid()
      modifies this
      ensures Valid()
      ensures itm == old(itm)
      ensures old(status) != Running ==>
                status == old(status) && rb == old(rb) && tx == old(tx)
      ensures old(status) == Running && r.ReadFailed? ==>
                status == Breakpoint && rb == old(rb) && tx == old(tx)
      ensures old(status) == Running && r.Received? && !written ==>
                status == Panicked && rb == old(rb) && tx == old(tx)
      ensures old(status) == Running && r.Received? && written ==>
                tx == old(tx) + [r.byte] &&
                (|old(rb)| < CAPACITY ==> rb == old(rb) + [r.byte] && status == Running) &&
                (|old(rb)| == CAPACITY ==> rb == old(rb) && status == Breakpoint)
    {
      if status != Running {
        return;
      }
      match r
      case Received(byte) =>
        if !written {
          status := Panicked;
          return;
        }
        tx := tx + [byte];
        var ok := Enqueue(byte);
        if !ok {
          status := Breakpoint;
        }
      case ReadFailed =>
        status := Breakpoint;
    }

    /** One pass of `idle`'s `while let` loop: dequeue and trace until the
        buffer is empty. Bytes are traced in the order they were enqueued. */
    method IdleDrain()
      requires Valid()
      modifies this`rb, this`itm
      ensures Valid()
      ensures old(status) == Running ==> rb == [] && itm == old(itm) + old(rb)
      ensures old(status) != Running ==> rb == old(rb) && itm == old(itm)
    {
      if status != Running {
        return;
      }
      var byte := Dequeue();
      while byte.Some?
        invariant |rb| <= |old(rb)|
        invariant byte.None? ==> rb == [] && itm == old(itm) + old(rb)
        invariant byte.Some? ==> itm + [byte.value] + rb == old(itm) + old(rb)
        decreases |rb| + (if byte.Some? then 1 else 0)
      {
        itm := itm + [byte.value];
        byte := Dequeue();
      }
    }
  }

  /** Four bytes arriving before `idle` runs: three are buffered in order,
      all four are echoed, and the fourth stops the program at the
      breakpoint. */
  method BurstOfFour(a: u8, b: u8, c: u8, d: u8) returns (rb: seq<u8>, tx: seq<u8>, status: Status)
    ensures rb == [a, b, c]
    ensures tx == [a, b, c, d]
    ensures status == Breakpoint
  {
    var app := new App();
    app.Usart2Handler(Received(a), true);
    app.Usart2Handler(Received(b), true);
    app.Usart2Handler(Received(c), true);
    app.Usart2Handler(Received(d), true);
    rb, tx, status := app.rb, app.tx, app.status;
  }

  /** Bytes are traced in arrival order even when the handler runs between
      two passes of `idle`. */
  method InterleavedTrace(a: u8, b: u8, c: u8) returns (itm: seq<u8>, tx: seq<u8>)
    ensures itm == [a, b, c]
    ensures tx == [a, b, c]
  {
    var app := new App();
    app.Usart2Handler(Received(a), true);
    assert app.status == Running && app.rb == [a] && app.tx == [a];
    app.Usart2Handler(Received(b), true);
    assert app.status == Running && app.rb == [a, b] && app.tx == [a, b] && app.itm == [];
    app.IdleDrain();
    assert app.status == Running && app.rb == [] && app.itm == [a, b];
    app.Usart2Handler(Received(c), true);
    assert app.status == Running && app.rb == [c] && app.tx == [a, b, c] && app.itm == [a, b];
    app.IdleDrain();
    itm, tx := app.itm, app.tx;
  }
}
