/** read_button as it behaves on a board whose `int` is 16 bits wide (AVR):
    `millis()` is a 32-bit unsigned long, but it is stored in the `int`
    last_read_time, and the elapsed time is computed in unsigned long
    arithmetic after converting that `int` back. */
module AvrTime {
  import opened Debounce

  const INT16_MODULUS := 0x1_0000
  const ULONG_MODULUS := 0x1_0000_0000

  /** Conversion of an unsigned long to a 16-bit two's-complement int. */
  function ToInt16(x: int): (r: int)
    ensures -0x8000 <= r < 0x8000
    ensures (x - r) % INT16_MODULUS == 0
  {
    var low := x % INT16_MODULUS;
    if low < 0x8000 then low else low - INT16_MODULUS
  }

  /** Unsigned long arithmetic: the result modulo 2^32. */
  function ToULong(x: int): (r: int)
    ensures 0 <= r < ULONG_MODULUS
    ensures (x - r) % ULONG_MODULUS == 0
    ensures 0 <= x < ULONG_MODULUS ==> r == x
  {
    x % ULONG_MODULUS
  }

  /** One call of read_button as compiled for AVR. `now` is the value of
      `millis()`, and `c.lastReadTime` is the 16-bit value last stored. */
  function StepAsWritten(c: Channel, reading: int, now: int): (r: StepResult)
    // as in Step: the raw value becomes the reading, and it fires exactly
    // when the debounced value changes, to the reading
    ensures r.channel.value == reading
    ensures r.fired <==> r.channel.debounced != c.debounced
    ensures r.fired ==> r.channel.debounced == reading
    // unlike Step: the stored time is only the 16-bit image of `millis()`
    ensures reading != c.value ==> -0x8000 <= r.channel.lastReadTime < 0x8000
                                   && (now - r.channel.lastReadTime) % INT16_MODULUS == 0
  {
    var lastReadTime := if reading != c.value then ToInt16(now) else c.lastReadTime;
    var elapsed := ToULong(now - lastReadTime);
    var commit := elapsed > DEBOUNCE_DIGITAL_PIN_TIME && reading != c.debounced;
    StepResult(Channel(reading, if commit then reading else c.debounced, lastReadTime), commit)
  }

  /** From 32.768 s after reset (and until the clock nears its own 32-bit
      wrap-around) every raw change is committed in the very call that sees
      it: the debounce window no longer filters anything. */
  lemma AsWrittenCommitsAtOnce(c: Channel, reading: int, now: int)
    requires 0x8000 <= now < ULONG_MODULUS - 0x8000
    requires reading != c.value && reading != c.debounced
    ensures StepAsWritten(c, reading, now).fired
    ensures !Step(c, reading, now).fired
  {
  }

  /** The input that shows it: a button at rest since reset (reading HIGH,
      1, under its pull-up) and pressed (LOW, 0) 40 s after reset is committed
      as pressed in the same tick. */
  lemma AsWrittenPressAt40Seconds()
    ensures StepAsWritten(Channel(1, 1, 0), 0, 40000).fired
    ensures !Step(Channel(1, 1, 0), 0, 40000).fired
  {
  }

  /** Before 32.768 s the stored time is exact, and the code as written
      behaves as the debounce filter Step. */
  lemma AsWrittenAgreesEarly(c: Channel, reading: int, now: int)
    requires 0 <= c.lastReadTime <= now < 0x8000
    ensures StepAsWritten(c, reading, now) == Step(c, reading, now)
  {
  }
}
