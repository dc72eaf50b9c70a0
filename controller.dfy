/** The controller state the button notifications drive (button_value_changed)
    and the three multiplexer select lines written from it each tick. */
module Controller {
  import opened Bits

  const BUTTON_1_PIN := 2
  const BUTTON_2_PIN := 4
  const BUTTON_3_PIN := 7
  const BUTTON_4_PIN := 8

  /** The two globals button_value_changed writes. `decay` is a float in the
      controller; only its reset to zero is modelled, so a real stands for it. */
  datatype ControllerState = ControllerState(mplexSelect: int, decay: real)

  /** `(mplexSelect + 1) & 7`. */
  function NextSelect(mplexSelect: int): (r: int)
    ensures 0 <= r < 8
    ensures 0 <= mplexSelect < 8 ==> r == if mplexSelect == 7 then 0 else mplexSelect + 1
  {
    assert Pow2(3) == 8;
    LowBits(mplexSelect + 1, 3)
  }

  /** button_value_changed(value, pin): a LOW on button 2 resets `decay`, a LOW
      on button 4 advances the multiplexer; anything else changes nothing. */
  function React(s: ControllerState, value: int, pin: int): (r: ControllerState)
    ensures value != 0 ==> r == s
    ensures pin != BUTTON_2_PIN && pin != BUTTON_4_PIN ==> r == s
    ensures value == 0 && pin == BUTTON_2_PIN ==> r == s.(decay := 0.0)
    ensures value == 0 && pin == BUTTON_4_PIN ==> r == s.(mplexSelect := NextSelect(s.mplexSelect))
    ensures 0 <= s.mplexSelect < 8 ==> 0 <= r.mplexSelect < 8
  {
    if pin == BUTTON_2_PIN then
      if value == 0 then s.(decay := 0.0) else s
    else if pin == BUTTON_4_PIN then
      if value == 0 then s.(mplexSelect := NextSelect(s.mplexSelect)) else s
    else
      s
  }

  /** The controller globals after n presses of button 4 from reset, each
      press reaching button_value_changed as a 0 on BUTTON_4_PIN. */
  function Presses(n: nat): (s: ControllerState)
    ensures 0 <= s.mplexSelect < 8 && s.decay == 0.0
  {
    if n == 0 then ControllerState(0, 0.0) else React(Presses(n - 1), 0, BUTTON_4_PIN)
  }

  /** Button 4 steps the multiplexer through its eight inputs in turn:
      after n presses it selects input n mod 8. */
  lemma {:induction false} PressesCycle(n: nat)
    ensures Presses(n) == ControllerState(n % 8, 0.0)
  {
    if n > 0 {
      PressesCycle(n - 1);
    }
  }

  /** The level written to an output pin. */
  datatype Level = Low | High

  /** The three select lines MPLEX_SELECT_1, _2 and _3. */
  datatype SelectLines = SelectLines(select1: Level, select2: Level, select3: Level)

  /** `bit ? HIGH : LOW`. */
  function LevelOf(bit: int): (l: Level)
    // a bit of 0 or 1 is written as the level of that weight
    ensures 0 <= bit <= 1 ==> Weight(l) == bit
  {
    if bit != 0 then High else Low
  }

  /** What loop writes to the select lines: bits 0, 1 and 2 of the selector. */
  function Lines(mplexSelect: int): (lines: SelectLines)
    // only the low three bits of the selector reach the lines
    ensures Selected(lines) == LowBits(mplexSelect, 3)
  {
    LowThreeBits(mplexSelect);
    SelectLines(LevelOf(Bit(mplexSelect, 0)), LevelOf(Bit(mplexSelect, 1)), LevelOf(Bit(mplexSelect, 2)))
  }

  function Weight(l: Level): (w: int)
    ensures 0 <= w <= 1
  {
    if l == High then 1 else 0
  }

  /** The input number three select lines encode, select1 the least significant bit. */
  function Selected(lines: SelectLines): (r: int)
    ensures 0 <= r < 8
  {
    Weight(lines.select1) + 2 * Weight(lines.select2) + 4 * Weight(lines.select3)
  }

  /** For a selector in 0..7 the select lines carry exactly its number. */
  lemma LinesRoundTrip(mplexSelect: int)
    requires 0 <= mplexSelect < 8
    ensures Selected(Lines(mplexSelect)) == mplexSelect
  {
  }

  /** Every combination of select lines is written for exactly one selector. */
  lemma SelectedRoundTrip(lines: SelectLines)
    ensures Lines(Selected(lines)) == lines
  {
  }

  /** The globals mplex_select and decay. */
  class Controller {
    var mplexSelect: int
    var decay: real

    ghost predicate Valid()
      reads this
    {
      0 <= mplexSelect < 8
    }

    function State(): ControllerState
      reads this
    {
      ControllerState(mplexSelect, decay)
    }

    /** The globals as they start: both 0. */
    constructor ()
      ensures Valid() && State() == ControllerState(0, 0.0)
    {
      mplexSelect, decay := 0, 0.0;
    }

    /** button_value_changed. */
    method ButtonValueChanged(value: int, pin: int)
      modifies this
      ensures State() == React(old(State()), value, pin)
      ensures old(Valid()) ==> Valid()
    {
      if pin == BUTTON_2_PIN {
        if value == 0 {
          decay := 0.0;
        }
      } else if pin == BUTTON_4_PIN {
        if value == 0 {
          mplexSelect := NextSelect(mplexSelect);
        }
      }
    }
  }
}
