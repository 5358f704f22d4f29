/** Machine words and small value types shared by the application models. */
module Machine {

  /** An unsigned 8-bit value (a received or transmitted serial byte). */
  type u8 = x: int | 0 <= x < 0x100

  /** An unsigned 32-bit value (cycle-counter instants and durations). */
  type u32 = x: int | 0 <= x < 0x1_0000_0000

  datatype Option<T> = None | Some(value: T)

  /** Outcome of one `rx.read()` on the USART2 receiver: a byte, or any `Err`
      of the read (a receive error such as overrun, framing, noise or parity,
      or `WouldBlock`), which the handlers do not tell apart. */
  datatype ReadResult = Received(byte: u8) | ReadFailed
}
