/** The step list of a recipe (src/components/steps.component.ts): which
    step numbers the cook has marked done. */
module Steps {
  import opened Models
  import opened Checklist

  class StepsComponent {
    var steps: seq<RecipeStep>
    var completedSteps: set<int>

    /** Nothing is marked done when the list is created. */
    constructor (steps: seq<RecipeStep>)
      ensures this.steps == steps && completedSteps == {}
    {
      this.steps := steps;
      completedSteps := {};
    }

    /** `toggleStep(stepNumber)`: that number changes membership, every other
        number keeps it, and the step list is not touched. */
    method ToggleStep(stepNumber: int)
      modifies this
      ensures completedSteps == Flip(old(completedSteps), stepNumber)
      ensures stepNumber in completedSteps <==> stepNumber !in old(completedSteps)
      ensures forall k | k != stepNumber :: k in completedSteps <==> k in old(completedSteps)
      ensures steps == old(steps)
    {
      var newSteps := completedSteps;
      if stepNumber in newSteps {
        newSteps := newSteps - {stepNumber};
      } else {
        newSteps := newSteps + {stepNumber};
      }
      completedSteps := newSteps;
    }
  }

  /** Two `toggleStep` calls with the same number restore the set. */
  method ToggleStepTwice(c: StepsComponent, stepNumber: int)
    modifies c
    ensures c.completedSteps == old(c.completedSteps)
  {
    c.ToggleStep(stepNumber);
    c.ToggleStep(stepNumber);
    FlipTwice(old(c.completedSteps), stepNumber);
  }
}
