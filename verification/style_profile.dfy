/** The four-step style-profile questionnaire: a step counter moved by the
    Previous and Next buttons, two multi-select lists (style tags and lifestyle
    occasions) kept with the toggle rule, two single selections (colour
    palette and body type) where the last click wins, and the progress bar
    drawn from the step. */
module StyleProfileScreen {
  import opened Sequences
  import opened Selection

  /** The questionnaire has this many steps; the counter starts at the first. */
  const FirstStep := 1
  const LastStep := 4

  /** `nextStep`: one step forward, except on the last step. */
  function StepAfterNext(step: int): (r: int)
    ensures FirstStep <= step <= LastStep ==> FirstStep <= r <= LastStep
    ensures r == step <==> step >= LastStep
    ensures r != step ==> r == step + 1
  {
    if step < LastStep then step + 1 else step
  }

  /** `prevStep`: one step back, except on the first step. */
  function StepAfterPrevious(step: int): (r: int)
    ensures FirstStep <= step <= LastStep ==> FirstStep <= r <= LastStep
    ensures r == step <==> step <= FirstStep
    ensures r != step ==> r == step - 1
  {
    if step > FirstStep then step - 1 else step
  }

  /** The two navigation buttons at the foot of the questionnaire. */
  datatype Button = Previous | Forward

  /** What the Forward button does: on the last step it reports completion
      (the screen's `onBack` callback) instead of advancing. */
  datatype ForwardAction = Advance | Complete

  function ForwardActionAt(step: int): (a: ForwardAction)
    ensures a == Complete <==> step == LastStep
  {
    if step == LastStep then Complete else Advance
  }

  /** The step after one press of `b`: a step in 1..4 stays in 1..4, moves
      by at most one, and Forward on the last step leaves it there. */
  function Press(step: int, b: Button): (r: int)
    ensures FirstStep <= step <= LastStep ==> FirstStep <= r <= LastStep
    ensures -1 <= r - step <= 1
    ensures b == Forward && step == LastStep ==> r == step
  {
    match b
    case Previous => StepAfterPrevious(step)
    case Forward => if ForwardActionAt(step) == Complete then step else StepAfterNext(step)
  }

  /** The step after pressing the buttons `presses` in order. From a step in
      1..4, `n` presses of Forward advance `n` steps but never past the last,
      and `n` presses of Previous go back `n` steps but never before the first. */
  function PressAll(step: int, presses: seq<Button>): (r: int)
    ensures presses == [] ==> r == step
    ensures FirstStep <= step <= LastStep && (forall i | 0 <= i < |presses| :: presses[i] == Forward)
      ==> r == if step + |presses| <= LastStep then step + |presses| else LastStep
    ensures FirstStep <= step <= LastStep && (forall i | 0 <= i < |presses| :: presses[i] == Previous)
      ==> r == if step - |presses| >= FirstStep then step - |presses| else FirstStep
    decreases |presses|
  {
    if presses == [] then step
    else
      assert forall i | 0 <= i < |presses[1..]| :: presses[1..][i] == presses[i + 1];
      PressAll(Press(step, presses[0]), presses[1..])
  }

  /** Whatever the buttons pressed, the step counter stays within 1..4. */
  lemma {:induction false} StepStaysInRange(step: int, presses: seq<Button>)
    requires FirstStep <= step <= LastStep
    ensures FirstStep <= PressAll(step, presses) <= LastStep
    decreases |presses|
  {
    if presses != [] {
      StepStaysInRange(Press(step, presses[0]), presses[1..]);
    }
  }

  /** Each press moves the counter by at most one step, so `n` presses move it
      by at most `n` steps. */
  lemma {:induction false} StepMovesAtMostOnePerPress(step: int, presses: seq<Button>)
    ensures -|presses| <= PressAll(step, presses) - step <= |presses|
    decreases |presses|
  {
    if presses != [] {
      StepMovesAtMostOnePerPress(Press(step, presses[0]), presses[1..]);
    }
  }

  /** From the first step, three presses of Forward reach the last step, and
      the fourth press completes the profile without moving the counter. */
  lemma ThreeForwardsReachLastStep()
    ensures PressAll(FirstStep, [Forward, Forward, Forward]) == LastStep
    ensures ForwardActionAt(PressAll(FirstStep, [Forward, Forward, Forward])) == Complete
    ensures PressAll(FirstStep, [Forward, Forward, Forward, Forward]) == LastStep
  {
  }

  /** Progress bar: circle `k` (1..4) is highlighted when `k <= step`; the
      first circle is lit on every step and all four on the last. */
  predicate CircleFilled(step: int, k: int): (lit: bool)
    ensures k <= FirstStep <= step ==> lit
    ensures k <= LastStep == step ==> lit
  {
    k <= step
  }

  /** Progress bar: the connector after circle `k` (1..3) is highlighted when
      `k < step`, that is, exactly when the circle it leads to is. */
  predicate ConnectorFilled(step: int, k: int): (lit: bool)
    ensures lit <==> CircleFilled(step, k + 1)
  {
    k < step
  }

  /** The number of highlighted circles among circles 1..n. */
  function FilledCircles(step: int, n: nat): nat
  {
    if n == 0 then 0 else FilledCircles(step, n - 1) + (if CircleFilled(step, n) then 1 else 0)
  }

  /** Among circles 1..n, the highlighted ones are those up to the step. */
  lemma {:induction false} FilledCirclesUpTo(step: int, n: nat)
    requires step >= 0
    ensures FilledCircles(step, n) == if n <= step then n else step
  {
    if n > 0 {
      FilledCirclesUpTo(step, n - 1);
    }
  }

  /** On step `s` the bar highlights exactly `s` of its four circles, and a
      connector is highlighted iff both circles it joins are. */
  lemma ProgressBarShowsStep(step: int)
    requires FirstStep <= step <= LastStep
    ensures FilledCircles(step, LastStep) == step
    ensures forall k | 1 <= k < LastStep ::
      ConnectorFilled(step, k) <==> CircleFilled(step, k) && CircleFilled(step, k + 1)
  {
    FilledCirclesUpTo(step, LastStep);
    forall k | 1 <= k < LastStep
      ensures ConnectorFilled(step, k) <==> CircleFilled(step, k) && CircleFilled(step, k + 1)
    {
      assert ConnectorFilled(step, k) <==> k < step;
      assert CircleFilled(step, k) <==> k <= step;
    }
  }

  /** The last choice among clicks on single-selection cards, starting from
      `current`: each click overwrites the selection. */
  function AfterClicks(current: string, clicks: seq<string>): (r: string)
    ensures clicks != [] ==> r == clicks[|clicks| - 1]
    ensures clicks == [] ==> r == current
    decreases |clicks|
  {
    if clicks == [] then current else AfterClicks(clicks[0], clicks[1..])
  }

  /** The component's state: the `useState` fields of StyleProfile. */
  class StyleProfile {
    var selectedStyle: seq<string>
    var selectedColors: string
    var bodyType: string
    var lifestyle: seq<string>
    var currentStep: int

    /** The step is one of the four, and neither multi-select list holds a
        value twice. */
    ghost predicate Valid()
      reads this
    {
      && FirstStep <= currentStep <= LastStep
      && NoDuplicates(selectedStyle)
      && NoDuplicates(lifestyle)
    }

    constructor ()
      ensures Valid()
      ensures selectedStyle == [] && selectedColors == "" && bodyType == ""
      ensures lifestyle == [] && currentStep == FirstStep
    {
      selectedStyle := [];
      selectedColors := "";
      bodyType := "";
      lifestyle := [];
      currentStep := FirstStep;
    }

    /** Clicking a style card. */
    method ToggleStyle(styleId: string)
      requires Valid()
      modifies this`selectedStyle
      ensures Valid()
      ensures selectedStyle == Toggle(old(selectedStyle), styleId)
      ensures styleId in selectedStyle <==> styleId !in old(selectedStyle)
    {
      ToggleNoDuplicates(selectedStyle, styleId);
      selectedStyle := Toggle(selectedStyle, styleId);
    }

    /** Clicking a lifestyle card. */
    method ToggleLifestyle(item: string)
      requires Valid()
      modifies this`lifestyle
      ensures Valid()
      ensures lifestyle == Toggle(old(lifestyle), item)
      ensures item in lifestyle <==> item !in old(lifestyle)
    {
      ToggleNoDuplicates(lifestyle, item);
      lifestyle := Toggle(lifestyle, item);
    }

    method NextStep()
      requires Valid()
      modifies this`currentStep
      ensures Valid()
      ensures currentStep == StepAfterNext(old(currentStep))
    {
      if currentStep < LastStep {
        currentStep := currentStep + 1;
      }
    }

    method PrevStep()
      requires Valid()
      modifies this`currentStep
      ensures Valid()
      ensures currentStep == StepAfterPrevious(old(currentStep))
    {
      if currentStep > FirstStep {
        currentStep := currentStep - 1;
      }
    }

    /** The Next / Complete Profile button: `completed` is true when the
        button called `onBack` instead of `nextStep`, which happens exactly on
        the last step and leaves the step where it is. */
    method PressForward() returns (completed: bool)
      requires Valid()
      modifies this`currentStep
      ensures Valid()
      ensures completed <==> old(currentStep) == LastStep
      ensures currentStep == Press(old(currentStep), Forward)
    {
      completed := currentStep == LastStep;
      if !completed {
        NextStep();
      }
    }

    /** Clicking a colour-palette card. */
    method SetSelectedColors(name: string)
      modifies this`selectedColors
      ensures selectedColors == name
    {
      selectedColors := name;
    }

    /** Clicking palette cards one after another: the selection is the one
        `AfterClicks` gives, the last palette clicked. */
    method ClickPalettes(clicks: seq<string>)
      modifies this`selectedColors
      ensures selectedColors == AfterClicks(old(selectedColors), clicks)
    {
      var i := 0;
      while i < |clicks|
        invariant 0 <= i <= |clicks|
        invariant selectedColors == AfterClicks(old(selectedColors), clicks[..i])
      {
        SetSelectedColors(clicks[i]);
        i := i + 1;
      }
      assert clicks[..i] == clicks;
    }

    /** Clicking a body-type card. */
    method SetBodyType(kind: string)
      modifies this`bodyType
      ensures bodyType == kind
    {
      bodyType := kind;
    }
  }
}
