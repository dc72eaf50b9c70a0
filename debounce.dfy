/** The timed debounce filter of one push button (read_button).
    Each button keeps its last raw reading, its debounced value and the time
    the raw reading last changed. `digitalRead` and `millis()` are the
    parameters `reading` and `now` of each tick; both reads of `millis()` in
    one call are taken to return the same instant. */
module Debounce {

  /** DEBOUNCE_DIGITAL_PIN_TIME, in milliseconds. */
  const DEBOUNCE_DIGITAL_PIN_TIME := 50

  /** The three integers a button keeps between ticks. */
  datatype Channel = Channel(value: int, debounced: int, lastReadTime: int)

  /** The channel after one tick, and whether the one-shot
      button_value_changed notification fired during it. */
  datatype StepResult = StepResult(channel: Channel, fired: bool)

  /** One call of read_button on the state `c`, reading `reading` at time `now`. */
  function Step(c: Channel, reading: int, now: int): (r: StepResult)
    // the stored raw value is the reading of this call, whichever branch ran
    ensures r.channel.value == reading
    // a change of the raw reading restarts the timer; otherwise it is untouched
    ensures r.channel.lastReadTime == if reading != c.value then now else c.lastReadTime
    // the notification fires exactly when the debounced value changes
    ensures r.fired <==> r.channel.debounced != c.debounced
    // a change becomes the reading and needs a reading stable for more than the window
    ensures r.fired <==> reading == c.value && reading != c.debounced
                         && now - c.lastReadTime > DEBOUNCE_DIGITAL_PIN_TIME
    ensures r.fired ==> r.channel.debounced == reading
    // a reading that differs from the previous raw value is never committed at once
    ensures reading != c.value ==> r.channel.debounced == c.debounced
  {
    var lastReadTime := if reading != c.value then now else c.lastReadTime;
    var commit := now - lastReadTime > DEBOUNCE_DIGITAL_PIN_TIME && reading != c.debounced;
    StepResult(Channel(reading, if commit then reading else c.debounced, lastReadTime), commit)
  }

  /** Repeating a tick at the same instant with the same reading fires
      nothing and changes nothing. */
  lemma StepIdempotent(c: Channel, reading: int, now: int)
    ensures var once := Step(c, reading, now).channel;
            Step(once, reading, now) == StepResult(once, false)
  {
  }

  /** A button whose raw and debounced values both equal the reading stays
      as it is, at any time. */
  lemma SettledIsFixpoint(c: Channel, reading: int, now: int)
    requires c.value == reading && c.debounced == reading
    ensures Step(c, reading, now) == StepResult(c, false)
  {
  }

  /** One poll of the button: the pin's level and the clock at that tick. */
  datatype Sample = Sample(reading: int, now: int)

  /** The state after a run of ticks and how many notifications fired. */
  datatype Trace = Trace(final: Channel, fires: nat)

  /** read_button called once per sample, in order. */
  function Replay(c: Channel, samples: seq<Sample>): (t: Trace)
    ensures t.fires <= |samples|
    ensures samples == [] ==> t == Trace(c, 0)
    ensures samples != [] ==> t.final.value == samples[|samples| - 1].reading
    decreases |samples|
  {
    if samples == [] then Trace(c, 0)
    else
      var r := Step(c, samples[0].reading, samples[0].now);
      var rest := Replay(r.channel, samples[1..]);
      Trace(rest.final, rest.fires + (if r.fired then 1 else 0))
  }

  /** While every tick lies within the debounce window after `t0`, and the
      timer was last restarted no earlier than `t0`, nothing is committed,
      whatever the readings are. */
  lemma {:induction false} WithinWindowNoCommit(c: Channel, samples: seq<Sample>, t0: int)
    requires c.lastReadTime >= t0
    requires forall i | 0 <= i < |samples| :: t0 <= samples[i].now <= t0 + DEBOUNCE_DIGITAL_PIN_TIME
    ensures Replay(c, samples).fires == 0
    ensures Replay(c, samples).final.debounced == c.debounced
    decreases |samples|
  {
    if samples != [] {
      var r := Step(c, samples[0].reading, samples[0].now);
      assert !r.fired;
      WithinWindowNoCommit(r.channel, samples[1..], t0);
    }
  }

  /** A raw transition followed by ticks that all come within the debounce
      window of it never updates the debounced value, even when the input
      bounces back and forth in between. */
  lemma {:induction false} BounceIgnored(c: Channel, samples: seq<Sample>)
    requires samples != [] && samples[0].reading != c.value
    requires forall i | 0 <= i < |samples| ::
               samples[0].now <= samples[i].now <= samples[0].now + DEBOUNCE_DIGITAL_PIN_TIME
    ensures Replay(c, samples).fires == 0
    ensures Replay(c, samples).final.debounced == c.debounced
  {
    var t0 := samples[0].now;
    var r := Step(c, samples[0].reading, t0);
    assert r.channel.lastReadTime == t0;
    WithinWindowNoCommit(r.channel, samples[1..], t0);
  }

  /** Under a constant reading the notification fires at most once, and if it
      fires the debounced value ends at that reading. */
  lemma {:induction false} StableReadingFiresAtMostOnce(c: Channel, samples: seq<Sample>, reading: int)
    requires forall i | 0 <= i < |samples| :: samples[i].reading == reading
    ensures Replay(c, samples).fires <= 1
    ensures Replay(c, samples).final.debounced
         == if Replay(c, samples).fires == 0 then c.debounced else reading
    decreases |samples|
  {
    if samples != [] {
      var r := Step(c, reading, samples[0].now);
      StableReadingFiresAtMostOnce(r.channel, samples[1..], reading);
      if r.fired {
        SettledRunFiresNothing(r.channel, samples[1..], reading);
      }
    }
  }

  /** Once raw and debounced values agree with a constant reading, no tick
      changes the debounced value or fires. */
  lemma {:induction false} SettledRunFiresNothing(c: Channel, samples: seq<Sample>, reading: int)
    requires c.value == reading && c.debounced == reading
    requires forall i | 0 <= i < |samples| :: samples[i].reading == reading
    ensures Replay(c, samples) == Trace(c, 0)
    decreases |samples|
  {
    if samples != [] {
      SettledIsFixpoint(c, reading, samples[0].now);
      SettledRunFiresNothing(c, samples[1..], reading);
    }
  }

  /** A reading that is already the raw value and differs from the debounced
      value is committed, exactly once, as soon as some tick comes more than
      the debounce window after the timer was last restarted. */
  lemma {:induction false} HeldReadingCommitsOnce(c: Channel, samples: seq<Sample>, k: nat)
    requires c.value != c.debounced
    requires forall i | 0 <= i < |samples| :: samples[i].reading == c.value
    requires k < |samples| && samples[k].now - c.lastReadTime > DEBOUNCE_DIGITAL_PIN_TIME
    ensures Replay(c, samples).fires == 1
    ensures Replay(c, samples).final.debounced == c.value
    decreases |samples|
  {
    var r := Step(c, c.value, samples[0].now);
    if r.fired {
      SettledRunFiresNothing(r.channel, samples[1..], c.value);
    } else {
      assert k > 0 && r.channel == c;
      HeldReadingCommitsOnce(c, samples[1..], k - 1);
    }
  }

  /** A press or release that is held: a raw transition to a new debounced
      level, followed only by that level, fires exactly once provided some
      tick comes more than the debounce window after the transition. */
  lemma {:induction false} HeldTransitionFiresOnce(c: Channel, samples: seq<Sample>, k: nat)
    requires samples != [] && samples[0].reading != c.value && samples[0].reading != c.debounced
    requires forall i | 0 <= i < |samples| :: samples[i].reading == samples[0].reading
    requires k < |samples| && samples[k].now - samples[0].now > DEBOUNCE_DIGITAL_PIN_TIME
    ensures Replay(c, samples).fires == 1
    ensures Replay(c, samples).final.debounced == samples[0].reading
  {
    var r := Step(c, samples[0].reading, samples[0].now);
    assert !r.fired && r.channel.lastReadTime == samples[0].now;
    assert k > 0;
    HeldReadingCommitsOnce(r.channel, samples[1..], k - 1);
  }

  /** One push button: its pin and the three variables read_button updates
      through its reference parameters. */
  class Button {
    const pin: int
    var value: int
    var debouncedValue: int
    var lastReadTime: int

    /** The abstract state of the button. */
    function State(): Channel
      reads this
    {
      Channel(value, debouncedValue, lastReadTime)
    }

    /** A button as the globals start: every variable 0. */
    constructor (pin: int)
      ensures this.pin == pin && State() == Channel(0, 0, 0)
    {
      this.pin := pin;
      value, debouncedValue, lastReadTime := 0, 0, 0;
    }

    /** read_button: one tick of the debounce filter. Returns whether the
        button_value_changed notification fires, for `debouncedValue` and `pin`. */
    method Read(reading: int, now: int) returns (fired: bool)
      modifies this
      ensures State() == Step(old(State()), reading, now).channel
      ensures fired == Step(old(State()), reading, now).fired
    {
      if reading != value {
        lastReadTime := now;
      }
      fired := false;
      if now - lastReadTime > DEBOUNCE_DIGITAL_PIN_TIME {
        if reading != debouncedValue {
          debouncedValue, value := reading, reading;
          fired := true;
        }
      }
      value := reading;
    }
  }
}
