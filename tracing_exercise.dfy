/** The code-tracing exercise screen
    (components/exercises/tracing-exercise.tsx): the learner steps through
    a fixed execution trace with next, previous and the step dots, can ask
    for hints, reset, or reveal every step. Completion is recorded by
    "next" on the last step and by revealing all steps. */
module TracingExercise {
  import opened Types
  import opened SeqUtil
  import opened Hints
  import ProgressStore

  /** The step index stays on a step when there are steps; with no steps
      it is 0 initially and -1 after revealing (`steps.length - 1`). */
  predicate StepInRange(step: int, count: nat) {
    if count > 0 then 0 <= step < count else step == 0 || step == -1
  }

  class Session {
    const exerciseId: string
    const steps: seq<TracingStep>
    const codeLines: seq<string>
    const hints: seq<string>
    const store: ProgressStore.Store

    var currentStep: int
    var showHint: bool
    var hintIndex: int
    var showAllSteps: bool

    ghost predicate Valid()
      reads this, store
    {
      && store.Valid()
      && StepInRange(currentStep, |steps|)
      && 0 <= hintIndex <= HintCap(|hints|)
    }

    constructor (exercise: Exercise, store: ProgressStore.Store)
      requires store.Valid()
      ensures Valid()
      ensures exerciseId == exercise.id && steps == exercise.tracingSteps.GetOr([])
      ensures codeLines == SplitLines(exercise.code.GetOr("")) && hints == exercise.hints && this.store == store
      ensures currentStep == 0 && !showHint && hintIndex == 0 && !showAllSteps
    {
      exerciseId := exercise.id;
      steps := exercise.tracingSteps.GetOr([]);
      codeLines := SplitLines(exercise.code.GetOr(""));
      hints := exercise.hints;
      this.store := store;
      currentStep := 0;
      showHint := false;
      hintIndex := 0;
      showAllSteps := false;
    }

    /** `isLastStep`. */
    predicate IsLastStep()
      reads this
    {
      currentStep == |steps| - 1
    }

    /** `currentStepData`: the step shown, if the index names one. */
    function CurrentStepData(): (data: Option<TracingStep>)
      reads this
      ensures data.Some? <==> 0 <= currentStep < |steps|
      ensures data.Some? ==> data.value in steps
    {
      if 0 <= currentStep < |steps| then Some(steps[currentStep]) else None
    }

    /** A code line is highlighted when the current step executes it. */
    predicate IsActiveLine(lineNumber: int)
      reads this
    {
      CurrentStepData().Some? && CurrentStepData().value.lineNumber == lineNumber
    }

    /** "Previous" is disabled on the first step. */
    predicate PrevDisabled()
      reads this
    {
      currentStep == 0
    }

    /** `goToNextStep`: before the last step, advance without completing;
        on the last step (or with no steps), stay and record completion. */
    method GoToNextStep()
      requires Valid()
      modifies this, store
      ensures Valid()
      ensures old(currentStep) < |steps| - 1 ==>
                currentStep == old(currentStep) + 1 && store.Snapshot() == old(store.Snapshot())
      ensures old(currentStep) >= |steps| - 1 ==>
                && currentStep == old(currentStep)
                && store.IsExerciseCompleted(exerciseId)
                && store.Snapshot() == old(store.Snapshot()).(completedExercises :=
                     ProgressStore.AddUnique(old(store.completedExercises), exerciseId))
      ensures showHint == old(showHint) && hintIndex == old(hintIndex) && showAllSteps == old(showAllSteps)
    {
      if currentStep < |steps| - 1 {
        currentStep := currentStep + 1;
      } else {
        store.CompleteExercise(exerciseId);
      }
    }

    /** `goToPrevStep`: step back unless on the first step. */
    method GoToPrevStep()
      requires Valid()
      modifies this
      ensures Valid()
      ensures currentStep == if old(currentStep) > 0 then old(currentStep) - 1 else old(currentStep)
      ensures showHint == old(showHint) && hintIndex == old(hintIndex) && showAllSteps == old(showAllSteps)
    {
      if currentStep > 0 {
        currentStep := currentStep - 1;
      }
    }

    /** A step dot: jump straight to that step. Reaching the last step this
        way records nothing. */
    method JumpToStep(index: int)
      requires Valid() && 0 <= index < |steps|
      modifies this
      ensures Valid()
      ensures currentStep == index
      ensures IsActiveLine(steps[index].lineNumber) && (PrevDisabled() <==> index == 0)
      ensures showHint == old(showHint) && hintIndex == old(hintIndex) && showAllSteps == old(showAllSteps)
    {
      currentStep := index;
    }

    /** `resetExercise`: back to the first step with hints hidden and
        steps folded; completion is kept. */
    method ResetExercise()
      requires Valid()
      modifies this
      ensures Valid()
      ensures currentStep == 0 && !showHint && hintIndex == 0 && !showAllSteps
      ensures PrevDisabled() && store.Snapshot() == old(store.Snapshot())
    {
      currentStep := 0;
      showHint := false;
      hintIndex := 0;
      showAllSteps := false;
    }

    /** `showNextHint`: advance the counter up to the last hint and show it. */
    method ShowNextHint()
      requires Valid()
      modifies this
      ensures Valid()
      ensures hintIndex == NextHint(old(hintIndex), |hints|) && showHint
      ensures currentStep == old(currentStep) && showAllSteps == old(showAllSteps)
    {
      hintIndex := NextHint(hintIndex, |hints|);
      showHint := true;
    }

    /** `revealAllSteps`: jump to the last step, unfold all steps and record
        completion. */
    method RevealAllSteps()
      requires Valid()
      modifies this, store
      ensures Valid()
      ensures showAllSteps && currentStep == |steps| - 1 && IsLastStep()
      ensures store.IsExerciseCompleted(exerciseId)
      ensures store.Snapshot() == old(store.Snapshot()).(completedExercises :=
                ProgressStore.AddUnique(old(store.completedExercises), exerciseId))
      ensures showHint == old(showHint) && hintIndex == old(hintIndex)
    {
      showAllSteps := true;
      currentStep := |steps| - 1;
      store.CompleteExercise(exerciseId);
    }
  }
}
