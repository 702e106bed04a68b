// The onboarding tour: six steps shown one at a time in a modal, a step
// counter moved by the back and forward buttons, and the direction the next
// slide comes in from.

module Onboarding {
  import opened Text

  /** What one step of the tour shows (its description text is display copy only). */
  datatype StepInfo = StepInfo(title: string, mediaSrc: string)

  /** The steps of the tour, in order. */
  function Steps(): (r: seq<StepInfo>)
    ensures |r| == StepCount
  {
    [StepInfo("Sign In to Begin", "/onboarding/1.mp4"),
     StepInfo("Access Your Settings", "/onboarding/2.mp4"),
     StepInfo("Navigate to Groq Console", "/onboarding/3.mp4"),
     StepInfo("Create a New API Key", "/onboarding/4.mp4"),
     StepInfo("Securely Add Your Key", "/onboarding/5.mp4"),
     StepInfo("Save and Start Chatting", "/onboarding/6.mp4")]
  }

  const StepCount := 6
  const LastStep := StepCount - 1

  /** The step `nextStep` moves to: one on, unless already on the last step. */
  function Next(step: int): int {
    if step < LastStep then step + 1 else step
  }

  /** The step `prevStep` moves to: one back, unless already on the first step. */
  function Prev(step: int): int {
    if step > 0 then step - 1 else step
  }

  /** The modal's state: the step shown and the direction the last move went. */
  class Tour {
    var step: int
    var direction: int
    /** Set once "Get Started" has asked the parent to close the modal. */
    var closeRequested: bool

    predicate Valid()
      reads this
    {
      0 <= step < StepCount && (direction == 1 || direction == -1)
    }

    constructor()
      ensures Valid() && step == 0 && direction == 1 && !closeRequested
    {
      step := 0;
      direction := 1;
      closeRequested := false;
    }

    /** `nextStep`: the direction becomes forward, and the step advances unless it is the last. */
    method NextStep()
      requires Valid()
      modifies this
      ensures Valid() && step == Next(old(step)) && direction == 1 && closeRequested == old(closeRequested)
    {
      direction := 1;
      if step < LastStep {
        step := step + 1;
      }
    }

    /** `prevStep`: the direction becomes backward, and the step goes back unless it is the first. */
    method PrevStep()
      requires Valid()
      modifies this
      ensures Valid() && step == Prev(old(step)) && direction == -1 && closeRequested == old(closeRequested)
    {
      direction := -1;
      if step > 0 {
        step := step - 1;
      }
    }

    /** The forward button: "Get Started" closes the tour on the last step; elsewhere the arrow runs `nextStep`. */
    method Forward()
      requires Valid()
      modifies this
      ensures Valid()
      ensures old(step) == LastStep ==> step == old(step) && direction == old(direction) && closeRequested
      ensures old(step) < LastStep ==> step == old(step) + 1 && direction == 1 && closeRequested == old(closeRequested)
    {
      if ForwardButton(step) == GetStarted {
        closeRequested := true;
      } else {
        NextStep();
      }
    }
  }

  /** The caption above the step title. */
  function Label(step: nat): string {
    "Step " + NatToString(step + 1) + " of " + NatToString(StepCount)
  }

  /** The back button is disabled on the first step. */
  predicate BackDisabled(step: int) {
    step == 0
  }

  datatype ForwardKind = GetStarted | Arrow

  /** Which forward button the step shows. */
  function ForwardButton(step: int): ForwardKind {
    if step == LastStep then GetStarted else Arrow
  }

  /** The progress dot `i` is drawn wide and green when it is the step shown. */
  predicate DotActive(step: int, i: int) {
    step == i
  }

  // ---------------------------------------------------------------------------
  // Properties of the step counter
  // ---------------------------------------------------------------------------

  /** Both moves keep the step among the tour's steps. */
  lemma MovesStayInRange(step: int)
    requires 0 <= step < StepCount
    ensures 0 <= Next(step) < StepCount && 0 <= Prev(step) < StepCount
    ensures 0 <= step < |Steps()|
  {
  }

  /** From a middle step, forward then back returns to it; from any step but the first, back then forward does. */
  lemma NextPrevRoundTrip(step: int)
    requires 0 <= step < StepCount
    ensures step < LastStep ==> Prev(Next(step)) == step
    ensures step > 0 ==> Next(Prev(step)) == step
    ensures Prev(Next(LastStep)) == LastStep - 1 && Next(Prev(0)) == 1
  {
  }

  /** `n` presses of the forward arrow from `step`. */
  function NextN(n: nat, step: int): int {
    if n == 0 then step else NextN(n - 1, Next(step))
  }

  /** Pressing forward `n` times moves `n` steps on, stopping at the last step. */
  lemma {:induction false} NextNReaches(n: nat, step: int)
    requires 0 <= step < StepCount
    ensures NextN(n, step) == if step + n < LastStep then step + n else LastStep
  {
    if n > 0 {
      NextNReaches(n - 1, Next(step));
    }
  }

  /** The whole tour is walked through in five presses, and more presses stay on the last step. */
  lemma WalkThrough(n: nat)
    ensures NextN(n, 0) == if n < LastStep then n else LastStep
  {
    NextNReaches(n, 0);
  }

  /**
   * The buttons agree with the counter: Back is disabled exactly where going
   * back would not move, and "Get Started" replaces the arrow exactly where
   * going forward would not move, so every enabled arrow moves the tour.
   */
  lemma ButtonsMatchMoves(step: int)
    requires 0 <= step < StepCount
    ensures BackDisabled(step) <==> Prev(step) == step
    ensures ForwardButton(step) == GetStarted <==> Next(step) == step
  {
  }

  /** Exactly one progress dot is active. */
  lemma OneActiveDot(step: int)
    requires 0 <= step < StepCount
    ensures DotActive(step, step)
    ensures forall i :: 0 <= i < StepCount && DotActive(step, i) ==> i == step
  {
  }

  /** The caption carries the step's number, counted from one, between "Step " and " of 6". */
  lemma LabelNumber(step: nat)
    ensures var l := Label(step);
      |l| == |NatToString(step + 1)| + 10 && l[..5] == "Step " && l[|l| - 5..] == " of 6" &&
      l[5..|l| - 5] == NatToString(step + 1)
  {
    assert NatToString(StepCount) == "6";
  }

  /** Different steps get different captions; the first reads "Step 1 of 6". */
  lemma LabelInjective(s: nat, t: nat)
    ensures Label(s) == Label(t) <==> s == t
    ensures Label(0) == "Step 1 of 6"
  {
    LabelNumber(s);
    LabelNumber(t);
    LabelNumber(0);
    if Label(s) == Label(t) {
      NatToStringInjective(s + 1, t + 1);
    }
  }

  /** The video of step `k` is the numbered clip `/onboarding/(k+1).mp4`. */
  lemma MediaNumbered(step: nat)
    requires step < StepCount
    ensures Steps()[step].mediaSrc == "/onboarding/" + NatToString(step + 1) + ".mp4"
  {
  }
}
