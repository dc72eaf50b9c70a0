/** One pass of loop, without the analog knobs: the four buttons are polled
    in order, each notification reaches the controller before the next
    button is read, and the select lines are written from the selector. */
module Panel {
  import opened Debounce
  import opened Controller

  /** The controller after a button's tick: button_value_changed is called
      with the new debounced value and the pin when the tick fired. */
  function Notify(s: ControllerState, step: StepResult, pin: int): (r: ControllerState)
    ensures !step.fired ==> r == s
    ensures 0 <= s.mplexSelect < 8 ==> 0 <= r.mplexSelect < 8
  {
    if step.fired then React(s, step.channel.debounced, pin) else s
  }

  /** The four buttons and the controller globals. */
  class Panel {
    const button1: Button
    const button2: Button
    const button3: Button
    const button4: Button
    const controller: Controller

    ghost predicate Valid()
      reads this, controller
    {
      && button1.pin == BUTTON_1_PIN && button2.pin == BUTTON_2_PIN
      && button3.pin == BUTTON_3_PIN && button4.pin == BUTTON_4_PIN
      && button1 != button2 && button1 != button3 && button1 != button4
      && button2 != button3 && button2 != button4 && button3 != button4
      && controller.Valid()
    }

    constructor ()
      ensures Valid()
      ensures fresh(button1) && fresh(button2) && fresh(button3) && fresh(button4) && fresh(controller)
      ensures button1.State() == button2.State() == button3.State() == button4.State() == Channel(0, 0, 0)
      ensures controller.State() == ControllerState(0, 0.0)
    {
      button1 := new Button(BUTTON_1_PIN);
      button2 := new Button(BUTTON_2_PIN);
      button3 := new Button(BUTTON_3_PIN);
      button4 := new Button(BUTTON_4_PIN);
      controller := new Controller();
    }

    /** Polls one button and forwards its notification, if any. */
    method Poll(button: Button, reading: int, now: int)
      requires Valid()
      requires button == button1 || button == button2 || button == button3 || button == button4
      modifies button, controller
      ensures Valid()
      ensures var step := Step(old(button.State()), reading, now);
              button.State() == step.channel
              && controller.State() == Notify(old(controller.State()), step, button.pin)
    {
      var fired := button.Read(reading, now);
      if fired {
        controller.ButtonValueChanged(button.debouncedValue, button.pin);
      }
    }

    /** loop, given the four pin readings and the clock: the buttons are read in
        order 1 to 4, then the select lines are written from the selector. */
    method Tick(reading1: int, reading2: int, reading3: int, reading4: int, now: int)
      returns (lines: SelectLines)
      requires Valid()
      modifies button1, button2, button3, button4, controller
      ensures Valid()
      ensures var step1 := Step(old(button1.State()), reading1, now);
              var step2 := Step(old(button2.State()), reading2, now);
              var step3 := Step(old(button3.State()), reading3, now);
              var step4 := Step(old(button4.State()), reading4, now);
              && button1.State() == step1.channel && button2.State() == step2.channel
              && button3.State() == step3.channel && button4.State() == step4.channel
              && controller.State()
                 == Notify(Notify(Notify(Notify(old(controller.State()),
                      step1, BUTTON_1_PIN), step2, BUTTON_2_PIN), step3, BUTTON_3_PIN), step4, BUTTON_4_PIN)
      ensures lines == Lines(controller.mplexSelect)
      ensures Selected(lines) == controller.mplexSelect
    {
      Poll(button1, reading1, now);
      Poll(button2, reading2, now);
      Poll(button3, reading3, now);
      Poll(button4, reading4, now);
      lines := Lines(controller.mplexSelect);
      LinesRoundTrip(controller.mplexSelect);
    }
  }
}
