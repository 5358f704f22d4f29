/** The message-passing serial echo: the USART2 receive interrupt hands each
    byte to an `echo` task and a `trace_data` task through bounded message
    queues, and routes every failure to a `trace_error` task. */
module Bare10 {
  import opened Machine

  /** The failures reported to `trace_error`. */
  datatype Error = RingBufferOverflow | UsartSendOverflow | UsartReceiveOverflow

  datatype Task = Usart2 | Echo | TraceData | TraceError

  /** The priorities declared in the task attributes: `usart2` alone is the
      highest, `echo` alone the middle one, and the two trace tasks share the
      lowest. */
  function Priority(t: Task): (p: nat)
    ensures 1 <= p <= 3
    ensures p == 3 <==> t == Usart2
    ensures p == 2 <==> t == Echo
  {
    match t
    case Usart2 => 3
    case Echo => 2
    case TraceData => 1
    case TraceError => 1
  }

  /** A spawned task together with its argument. */
  datatype Message = EchoByte(byte: u8) | TraceByte(byte: u8) | ReportError(error: Error)
  {
    function Target(): Task
    {
      match this
      case EchoByte(_) => Echo
      case TraceByte(_) => TraceData
      case ReportError(_) => TraceError
    }
  }

  /** One line on the ITM trace: `data {}` or the name of an error. */
  datatype TraceLine = Data(byte: u8) | Reported(error: Error)

  /** The number of messages waiting for task `t`. */
  function Count(q: seq<Message>, t: Task): nat
  {
    if q == [] then 0
    else Count(q[..|q| - 1], t) + (if q[|q| - 1].Target() == t then 1 else 0)
  }

  lemma CountAppend(q: seq<Message>, m: Message, t: Task)
    ensures Count(q + [m], t) == Count(q, t) + (if m.Target() == t then 1 else 0)
  {
    assert (q + [m])[..|q|] == q;
  }

  /** `q` with its `i`-th message taken out. */
  function Without(q: seq<Message>, i: nat): seq<Message>
    requires i < |q|
  {
    q[..i] + q[i + 1..]
  }

  /** Taking one message out of the queues lowers its task's count by one and
      leaves every other task's count alone. */
  lemma {:induction false} CountRemove(q: seq<Message>, i: nat, t: Task)
    requires i < |q|
    ensures Count(Without(q, i), t) == Count(q, t) - (if q[i].Target() == t then 1 else 0)
  {
    var n := |q| - 1;
    if i == n {
      assert Without(q, i) == q[..n];
    } else {
      var p := q[..n];
      assert Without(p, i) + [q[n]] == Without(q, i);
      assert p[i] == q[i];
      CountRemove(p, i, t);
      CountAppend(Without(p, i), q[n], t);
      assert q == p + [q[n]];
      CountAppend(p, q[n], t);
    }
  }

  /** The index of the message the dispatcher runs next: one of the highest
      priority, and among those the one spawned first. */
  function Next(q: seq<Message>): (i: nat)
    requires q != []
    ensures i < |q|
    ensures forall j :: 0 <= j < |q| ==> Priority(q[j].Target()) <= Priority(q[i].Target())
    ensures forall j :: 0 <= j < i ==> Priority(q[j].Target()) < Priority(q[i].Target())
  {
    if |q| == 1 then 0
    else
      var k := Next(q[1..]);
      if Priority(q[0].Target()) >= Priority(q[1..][k].Target()) then 0 else k + 1
  }

  /** The application: the waiting messages of all software tasks in the
      order they were spawned, the bytes written to TX and the ITM trace. */
  class App {
    const echoCapacity: nat
    const traceDataCapacity: nat
    const traceErrorCapacity: nat

    var ready: seq<Message>
    var tx: seq<u8>
    var itm: seq<TraceLine>

    /** The capacity of a task's message queue; the hardware task `usart2`
        takes no messages. */
    function Capacity(t: Task): nat
    {
      match t
      case Usart2 => 0
      case Echo => echoCapacity
      case TraceData => traceDataCapacity
      case TraceError => traceErrorCapacity
    }

    /** No task's queue holds more messages than its capacity. */
    ghost predicate Valid()
      reads this
    {
      forall t :: Count(ready, t) <= Capacity(t)
    }

    function HasRoom(q: seq<Message>, t: Task): bool
    {
      Count(q, t) < Capacity(t)
    }

    /** The queues after `spawn(m)`: `m` is appended when its task has room,
        and otherwise nothing changes. */
    function Offer(q: seq<Message>, m: Message): seq<Message>
    {
      if HasRoom(q, m.Target()) then q + [m] else q
    }

    constructor (echoCapacity: nat, traceDataCapacity: nat, traceErrorCapacity: nat)
      ensures Valid()
      ensures this.echoCapacity == echoCapacity
      ensures this.traceDataCapacity == traceDataCapacity
      ensures this.traceErrorCapacity == traceErrorCapacity
      ensures ready == [] && tx == [] && itm == []
    {
      this.echoCapacity := echoCapacity;
      this.traceDataCapacity := traceDataCapacity;
      this.traceErrorCapacity := traceErrorCapacity;
      ready, tx, itm := [], [], [];
    }

    /** `spawn.<task>(arg)`: fails, changing nothing, when the task's queue is
        full. */
    method Spawn(m: Message) returns (ok: bool)
      requires Valid()
      modifies this`ready
      ensures Valid()
      ensures ok == HasRoom(old(ready), m.Target())
      ensures ready == Offer(old(ready), m)
      ensures ok ==> Count(ready, m.Target()) == Count(old(ready), m.Target()) + 1
    {
      ok := HasRoom(ready, m.Target());
      if ok {
        forall t ensures Count(ready + [m], t) == Count(ready, t) + (if m.Target() == t then 1 else 0) {
          CountAppend(ready, m, t);
        }
        ready := ready + [m];
      }
    }

    /** The USART2 receive interrupt. A byte goes to `echo` and to
        `trace_data`; only a failed `trace_data` spawn is reported, as
        `RingBufferOverflow`; a receive error spawns only
        `trace_error(UsartReceiveOverflow)`. */
    method Usart2Handler(r: ReadResult)
      requires Valid()
      modifies this`ready
      ensures Valid()
      ensures r.ReadFailed? ==> ready == Offer(old(ready), ReportError(UsartReceiveOverflow))
      ensures r.Received? ==>
                var echoed := Offer(old(ready), EchoByte(r.byte));
                ready == if HasRoom(echoed, TraceData) then echoed + [TraceByte(r.byte)]
                         else Offer(echoed, ReportError(RingBufferOverflow))
    {
      match r
      case Received(byte) =>
        var _ := Spawn(EchoByte(byte));
        var traced := Spawn(TraceByte(byte));
        if !traced {
          var _ := Spawn(ReportError(RingBufferOverflow));
        }
      case ReadFailed =>
        var _ := Spawn(ReportError(UsartReceiveOverflow));
    }

    /** The `echo` task; `written` is the outcome of `block!(tx.write(byte))`.
        It spawns `trace_error(UsartSendOverflow)` exactly when the write
        fails. */
    method EchoHandler(byte: u8, written: bool)
      requires Valid()
      modifies this`ready, this`tx
      ensures Valid()
      ensures written ==> tx == old(tx) + [byte] && ready == old(ready)
      ensures !written ==> tx == old(tx) && ready == Offer(old(ready), ReportError(UsartSendOverflow))
    {
      if written {
        tx := tx + [byte];
      } else {
        var _ := Spawn(ReportError(UsartSendOverflow));
      }
    }

    /** The `trace_data` task. */
    method TraceDataHandler(byte: u8)
      modifies this`itm
      ensures itm == old(itm) + [Data(byte)]
    {
      itm := itm + [Data(byte)];
    }

    /** The `trace_error` task. */
    method TraceErrorHandler(error: Error)
      modifies this`itm
      ensures itm == old(itm) + [Reported(error)]
    {
      itm := itm + [Reported(error)];
    }

    /** One dispatch by the scheduler: the message chosen by `Next` leaves the
        queues (its slot is free again) and its task runs to completion.
        `written` is the outcome of the TX write, should the task be `echo`. */
    method Dispatch(written: bool) returns (ran: Option<Message>)
      requires Valid()
      modifies this`ready, this`tx, this`itm
      ensures Valid()
      ensures old(ready) == [] ==> ran == None && ready == old(ready) && tx == old(tx) && itm == old(itm)
      ensures old(ready) != [] ==> ran == Some(old(ready)[Next(old(ready))])
      ensures ran.Some? && ran.value.EchoByte? ==>
                itm == old(itm) &&
                (written ==> tx == old(tx) + [ran.value.byte] && ready == Without(old(ready), Next(old(ready)))) &&
                (!written ==>
                   tx == old(tx) && ready == Offer(Without(old(ready), Next(old(ready))), ReportError(UsartSendOverflow)))
      ensures ran.Some? && ran.value.TraceByte? ==>
                ready == Without(old(ready), Next(old(ready))) && tx == old(tx) && itm == old(itm) + [Data(ran.value.byte)]
      ensures ran.Some? && ran.value.ReportError? ==>
                ready == Without(old(ready), Next(old(ready))) && tx == old(tx) && itm == old(itm) + [Reported(ran.value.error)]
    {
      if ready == [] {
        return None;
      }
      var i := Next(ready);
      var m := ready[i];
      forall t ensures Count(Without(ready, i), t) <= Capacity(t) {
        CountRemove(ready, i, t);
      }
      ready := Without(ready, i);
      ran := Some(m);
      match m
      case EchoByte(b) => EchoHandler(b, written);
      case TraceByte(b) => TraceDataHandler(b);
      case ReportError(e) => TraceErrorHandler(e);
    }
  }

  /** One received byte with empty queues: `usart2` runs first (it is the
      interrupt), then `echo` (priority 2), then `trace_data` (priority 1),
      and nothing is left to run. */
  method OneByte(b: u8, echoCapacity: nat, traceDataCapacity: nat, traceErrorCapacity: nat)
    returns (order: seq<Task>, tx: seq<u8>, itm: seq<TraceLine>, third: Option<Message>)
    requires echoCapacity >= 1 && traceDataCapacity >= 1
    ensures order == [Usart2, Echo, TraceData]
    ensures tx == [b] && itm == [Data(b)]
    ensures third == None
  {
    var app := new App(echoCapacity, traceDataCapacity, traceErrorCapacity);
    app.Usart2Handler(Received(b));
    assert app.ready == [EchoByte(b), TraceByte(b)] by {
      CountAppend([], EchoByte(b), TraceData);
    }
    order := [Usart2];
    assert Next(app.ready) == 0 && Without(app.ready, 0) == [TraceByte(b)];
    var first := app.Dispatch(true);
    assert Next(app.ready) == 0 && Without(app.ready, 0) == [];
    var second := app.Dispatch(true);
    third := app.Dispatch(true);
    order := order + [first.value.Target(), second.value.Target()];
    tx, itm := app.tx, app.itm;
  }

  /** Two bytes arriving before the low-priority tasks run, with the default
      capacity of one message per task: the second `echo` spawn fails without
      a report, and the failed second `trace_data` spawn is reported as a
      ring buffer overflow. */
  method TwoBytesAtOnce(a: u8, b: u8) returns (ready: seq<Message>)
    ensures ready == [EchoByte(a), TraceByte(a), ReportError(RingBufferOverflow)]
  {
    var app := new App(1, 1, 1);
    app.Usart2Handler(Received(a));
    assert app.ready == [EchoByte(a), TraceByte(a)] by {
      CountAppend([], EchoByte(a), TraceData);
    }
    assert Count(app.ready, Echo) == 1 && Count(app.ready, TraceData) == 1 && Count(app.ready, TraceError) == 0 by {
      CountAppend([EchoByte(a)], TraceByte(a), Echo);
      CountAppend([EchoByte(a)], TraceByte(a), TraceData);
      CountAppend([EchoByte(a)], TraceByte(a), TraceError);
      CountAppend([], EchoByte(a), Echo);
      CountAppend([], EchoByte(a), TraceData);
      CountAppend([], EchoByte(a), TraceError);
    }
    app.Usart2Handler(Received(b));
    ready := app.ready;
  }
}
