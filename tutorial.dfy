/**
 * The walkthrough overlay (components/TutorialOverlay.tsx): a step counter
 * moved by Back and Next over a fixed list of five steps.
 */
module Tutorial {
  import opened JsText

  /** `steps.length`. */
  const STEP_COUNT: nat := 5

  /** The primary button's caption: "next", or "got it" on the last step. */
  datatype PrimaryLabel = NextLabel | GotItLabel

  /** The step after Next: one further, except on the last step, which closes the overlay instead. */
  function StepAfterNext(step: int): (r: int)
    requires 0 <= step < STEP_COUNT
    ensures 0 <= r < STEP_COUNT
    ensures step < STEP_COUNT - 1 ==> r == step + 1
    ensures step == STEP_COUNT - 1 ==> r == step
  {
    if step < STEP_COUNT - 1 then step + 1 else step
  }

  /** Next leaves Back available, and Back (one step down) undoes Next everywhere but on the last step. */
  lemma BackUndoesNext(step: int)
    requires 0 <= step < STEP_COUNT - 1
    ensures StepAfterNext(step) > 0 && StepAfterNext(step) - 1 == step
  {
  }

  /** The step reached by pressing Next `k` times from `step`. */
  function StepsForward(step: int, k: nat): int
    requires 0 <= step < STEP_COUNT
    decreases k
  {
    if k == 0 then step else StepsForward(StepAfterNext(step), k - 1)
  }

  /** `k` presses of Next from `step` reach step min(step + k, 4) and never leave the range. */
  lemma {:induction false} NextWalksToLastStep(step: int, k: nat)
    requires 0 <= step < STEP_COUNT
    ensures 0 <= StepsForward(step, k) < STEP_COUNT
    ensures StepsForward(step, k) == if step + k < STEP_COUNT then step + k else STEP_COUNT - 1
    decreases k
  {
    if k > 0 {
      NextWalksToLastStep(StepAfterNext(step), k - 1);
    }
  }

  /** The counter, "Step {step + 1} / {steps.length}". */
  function Counter(step: int): (r: string)
    requires 0 <= step < STEP_COUNT
    ensures r == "Step " + [DigitChar(step + 1)] + " / 5"
  {
    "Step " + NatToString(step + 1) + " / " + NatToString(STEP_COUNT)
  }

  /** The primary button's caption. */
  function PrimaryButton(step: int): (r: PrimaryLabel)
    ensures r == GotItLabel <==> step >= STEP_COUNT - 1
  {
    if step < STEP_COUNT - 1 then NextLabel else GotItLabel
  }

  /** The overlay's state. */
  class Walkthrough {
    var step: int

    predicate Valid()
      reads this
    {
      0 <= step < STEP_COUNT
    }

    /** The overlay starts on its first step when it is mounted. */
    constructor ()
      ensures Valid() && step == 0
    {
      step := 0;
    }

    /** Whether the Back button is shown. */
    function BackShown(): bool
      reads this
    {
      step > 0
    }

    /** The Next / "got it" button: advances, or on the last step asks to close and stays put. */
    method Next() returns (closeRequested: bool)
      requires Valid()
      modifies this
      ensures Valid()
      ensures step == StepAfterNext(old(step))
      ensures closeRequested <==> old(step) == STEP_COUNT - 1
      ensures closeRequested <==> old(PrimaryButton(step)) == GotItLabel
    {
      if step < STEP_COUNT - 1 {
        step := step + 1;
        closeRequested := false;
      } else {
        closeRequested := true;
      }
    }

    /** The Back button, which is only shown past the first step. */
    method Back()
      requires Valid() && BackShown()
      modifies this
      ensures Valid()
      ensures step == old(step) - 1
    {
      step := step - 1;
    }
  }
}
