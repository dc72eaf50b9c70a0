/** The change test of update_controller: a knob is reported only when its
    value, rounded and shifted right by `shift` bits, differs from the value
    it had before this tick. The floating-point smoothing that produces the
    new value is not modelled; the two rounded values are inputs. */
module Quantise {
  import opened Bits

  datatype Option<T> = None | Some(value: T)

  /** The report update_controller emits, if any: the new quantised value,
      or None when the quantised values are equal and it returns early. */
  function Report(oldRounded: int, newRounded: int, shift: nat): (r: Option<int>)
    // an unchanged value is never reported
    ensures oldRounded == newRounded ==> r == None
    // a report carries the block of the new value, which is not the old value's block
    ensures r.Some? ==> r.value * Pow2(shift) <= newRounded < (r.value + 1) * Pow2(shift)
    ensures r.Some? ==> r.value != Shr(oldRounded, shift)
  {
    var oldQuantised := Shr(oldRounded, shift);
    var newQuantised := Shr(newRounded, shift);
    if oldQuantised == newQuantised then None else Some(newQuantised)
  }

  /** A report is suppressed exactly when the two values agree once their low
      `shift` bits are masked off. */
  lemma QuietIffSameHighBits(oldRounded: int, newRounded: int, shift: nat)
    ensures Report(oldRounded, newRounded, shift) == None
        <==> oldRounded - LowBits(oldRounded, shift) == newRounded - LowBits(newRounded, shift)
  {
  }

  /** A reported value v is the block of the new value: v * 2^shift <= new < (v + 1) * 2^shift,
      and it differs from the old value's block. */
  lemma ReportedIsNewBlock(oldRounded: int, newRounded: int, shift: nat)
    requires Report(oldRounded, newRounded, shift).Some?
    ensures var v := Report(oldRounded, newRounded, shift).value;
            v * Pow2(shift) <= newRounded < (v + 1) * Pow2(shift)
            && !(v * Pow2(shift) <= oldRounded < (v + 1) * Pow2(shift))
  {
    var v := Report(oldRounded, newRounded, shift).value;
    if v * Pow2(shift) <= oldRounded < (v + 1) * Pow2(shift) {
      ShrFromBucket(oldRounded, shift, v);
    }
  }

  /** With no shift every change of the rounded value is reported, carrying it unchanged. */
  lemma ShiftZeroReportsEveryChange(oldRounded: int, newRounded: int)
    ensures Report(oldRounded, newRounded, 0)
         == if oldRounded == newRounded then None else Some(newRounded)
  {
  }

  /** A report follows the direction of the change: a rise reports a larger
      quantised value than the old one, a fall a smaller one. */
  lemma ReportFollowsDirection(oldRounded: int, newRounded: int, shift: nat)
    requires Report(oldRounded, newRounded, shift).Some?
    ensures var v := Report(oldRounded, newRounded, shift).value;
            (oldRounded < newRounded ==> v > Shr(oldRounded, shift))
            && (newRounded < oldRounded ==> v < Shr(oldRounded, shift))
  {
    if oldRounded < newRounded {
      ShrMonotone(oldRounded, newRounded, shift);
    } else if newRounded < oldRounded {
      ShrMonotone(newRounded, oldRounded, shift);
    }
  }

  /** A change smaller than 2^shift moves the quantised value by at most one
      step, so a report after such a change is the old quantised value plus or minus one. */
  lemma SmallChangeMovesOneStep(oldRounded: int, newRounded: int, shift: nat)
    requires oldRounded - Pow2(shift) < newRounded < oldRounded + Pow2(shift)
    requires Report(oldRounded, newRounded, shift).Some?
    ensures var v := Report(oldRounded, newRounded, shift).value;
            v == Shr(oldRounded, shift) + 1 || v == Shr(oldRounded, shift) - 1
  {
    var p := Pow2(shift);
    var qa, qb := Shr(oldRounded, shift), Shr(newRounded, shift);
    if qb >= qa + 2 {
      assert (qa + 2) * p == (qa + 1) * p + p;
      MulMonotone(qa + 2, qb, p);
    } else if qa >= qb + 2 {
      assert (qb + 2) * p == (qb + 1) * p + p;
      MulMonotone(qb + 2, qa, p);
    }
  }
}
