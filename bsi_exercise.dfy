/** The behaviour/strategy/implementation classification screen
    (components/exercises/bsi-exercise.tsx): the learner picks one of
    three categories, submits it once, and the exercise is recorded as
    completed when the pick equals the answer. */
module BsiExercise {
  import opened Types
  import opened Hints
  import ProgressStore

  datatype BsiOption = BsiOption(value: string, caption: string, description: string)

  /** `BSI_OPTIONS`, in display order. */
  const BsiOptions: seq<BsiOption> := [
    BsiOption("behavior", "Behavior", "Same result/output, but different approach"),
    BsiOption("strategy", "Strategy", "Same approach, but different code details"),
    BsiOption("implementation", "Implementation", "Exactly the same code")
  ]

  /** The values a learner can select. */
  function OptionValues(): (values: seq<string>)
    ensures |values| == |BsiOptions|
    ensures forall i :: 0 <= i < |values| ==> values[i] == BsiOptions[i].value
  {
    seq(|BsiOptions|, i requires 0 <= i < |BsiOptions| => BsiOptions[i].value)
  }

  /** The selectable values are exactly the three category names, each once. */
  lemma OptionValuesAreTheCategories(v: string)
    ensures v in OptionValues() <==> v == "behavior" || v == "strategy" || v == "implementation"
    ensures OptionValues()[0] != OptionValues()[1] && OptionValues()[1] != OptionValues()[2]
         && OptionValues()[0] != OptionValues()[2]
  {
    assert OptionValues() == ["behavior", "strategy", "implementation"];
  }

  /** JavaScript truthiness of the selection: `null` and `""` are false. */
  predicate Truthy(selected: Option<string>) {
    selected.Some? && selected.value != ""
  }

  /** `selectedAnswer === exercise.correctAnswer`: strict equality, so
      only a string answer can ever match. */
  predicate Matches(selected: Option<string>, answer: Answer) {
    selected.Some? && answer.Text? && selected.value == answer.text
  }

  /** Matching is exact: a selection matches an answer only when the
      answer is that very string, and no two options match one answer. */
  lemma MatchIsExact(selected: Option<string>, answer: Answer)
    ensures Matches(selected, answer) <==> exists s :: selected == Some(s) && answer == Text(s)
    ensures forall i, j :: 0 <= i < j < |BsiOptions| ==>
              !(Matches(Some(BsiOptions[i].value), answer) && Matches(Some(BsiOptions[j].value), answer))
  {
    if Matches(selected, answer) {
      assert selected == Some(selected.value) && answer == Text(selected.value);
    }
  }

  class Session {
    const exerciseId: string
    const correctAnswer: Answer
    const hints: seq<string>
    const store: ProgressStore.Store

    var selectedAnswer: Option<string>
    var isChecked: bool
    var showHint: bool
    var hintIndex: int

    /** Only option values are ever selected, a submitted screen always has
        a selection, and the hint counter is within the hints. */
    ghost predicate Valid()
      reads this, store
    {
      && store.Valid()
      && (selectedAnswer.Some? ==> selectedAnswer.value in OptionValues())
      && (isChecked ==> Truthy(selectedAnswer))
      && 0 <= hintIndex <= HintCap(|hints|)
    }

    constructor (exercise: Exercise, store: ProgressStore.Store)
      requires store.Valid()
      ensures Valid()
      ensures exerciseId == exercise.id && correctAnswer == exercise.correctAnswer
      ensures hints == exercise.hints && this.store == store
      ensures selectedAnswer == None && !isChecked && !showHint && hintIndex == 0
    {
      exerciseId := exercise.id;
      correctAnswer := exercise.correctAnswer;
      hints := exercise.hints;
      this.store := store;
      selectedAnswer := None;
      isChecked := false;
      showHint := false;
      hintIndex := 0;
    }

    /** `isCorrect`. */
    predicate IsCorrect()
      reads this
    {
      Matches(selectedAnswer, correctAnswer)
    }

    /** "Submit Answer" is disabled with no selection or once submitted. */
    predicate SubmitDisabled()
      reads this
    {
      !Truthy(selectedAnswer) || isChecked
    }

    /** An option button: selects its value unless already submitted. */
    method SelectOption(i: nat)
      requires Valid() && i < |BsiOptions|
      modifies this
      ensures Valid()
      ensures selectedAnswer == if old(isChecked) then old(selectedAnswer) else Some(BsiOptions[i].value)
      ensures SubmitDisabled() <==> old(isChecked)
      ensures isChecked == old(isChecked) && showHint == old(showHint) && hintIndex == old(hintIndex)
    {
      if !isChecked {
        selectedAnswer := Some(BsiOptions[i].value);
      }
    }

    /** `checkAnswer`: with no selection nothing happens; otherwise the
        screen is locked as submitted and completion is recorded exactly
        when the selection is correct. */
    method CheckAnswer()
      requires Valid()
      modifies this, store
      ensures Valid()
      ensures selectedAnswer == old(selectedAnswer) && showHint == old(showHint) && hintIndex == old(hintIndex)
      ensures isChecked == (old(isChecked) || Truthy(selectedAnswer))
      ensures SubmitDisabled()
      ensures store.Snapshot() ==
                if Truthy(selectedAnswer) && IsCorrect()
                then old(store.Snapshot()).(completedExercises := ProgressStore.AddUnique(old(store.completedExercises), exerciseId))
                else old(store.Snapshot())
    {
      if Truthy(selectedAnswer) {
        isChecked := true;
        if IsCorrect() {
          store.CompleteExercise(exerciseId);
        }
      }
    }

    /** `resetExercise`: clear the selection, the submission and the hint;
        completion is kept. */
    method ResetExercise()
      requires Valid()
      modifies this
      ensures Valid()
      ensures selectedAnswer == None && !isChecked && !showHint && hintIndex == 0
    {
      selectedAnswer := None;
      isChecked := false;
      showHint := false;
      hintIndex := 0;
    }

    /** `showNextHint`: advance the counter up to the last hint and show it. */
    method ShowNextHint()
      requires Valid()
      modifies this
      ensures Valid()
      ensures hintIndex == NextHint(old(hintIndex), |hints|) && showHint
      ensures selectedAnswer == old(selectedAnswer) && isChecked == old(isChecked)
    {
      hintIndex := NextHint(hintIndex, |hints|);
      showHint := true;
    }
  }
}
