/** Well-formedness of the bundled curriculum (lib/sample-data.ts): the
    facts the exercise screens and the dashboard rely on, stated as
    predicates over any curriculum and proved of the sample one. */
module Curriculum {
  import opened Types
  import opened SeqUtil
  import opened SampleData
  import BsiExercise

  /** A Parsons exercise has lines to shuffle and an answer that orders
      exactly those lines. */
  predicate ParsonsWellFormed(ex: Exercise) {
    ex.kind == Parsons ==>
      ex.codeLines.Some? && ex.correctAnswer.Lines?
      && multiset(ex.correctAnswer.lines) == multiset(ex.codeLines.value)
  }

  /** A tracing exercise has code and steps; every step points at a line
      of the code (1-based), and the last step prints the answer. */
  predicate TracingWellFormed(ex: Exercise) {
    ex.kind == Tracing ==>
      ex.code.Some? && ex.tracingSteps.Some? && |ex.tracingSteps.value| > 0
      && ex.correctAnswer.Text?
      && (forall k :: 0 <= k < |ex.tracingSteps.value| ==>
            1 <= ex.tracingSteps.value[k].lineNumber <= |SplitLines(ex.code.value)|)
      && ex.tracingSteps.value[|ex.tracingSteps.value| - 1].output == Some(ex.correctAnswer.text)
  }

  /** A BSI exercise's answer is one of the selectable categories. */
  predicate BsiWellFormed(ex: Exercise) {
    ex.kind == Bsi ==> ex.correctAnswer.Text? && ex.correctAnswer.text in BsiExercise.OptionValues()
  }

  predicate ExerciseWellFormed(ex: Exercise) {
    ParsonsWellFormed(ex) && TracingWellFormed(ex) && BsiWellFormed(ex)
  }

  /** Every prerequisite names a lesson placed earlier in the list. */
  predicate PrerequisitesPointBack(lessons: seq<Lesson>) {
    forall i, p :: 0 <= i < |lessons| && p in lessons[i].prerequisites ==>
      exists j :: 0 <= j < i && lessons[j].id == p
  }

  /** Lesson ids are pairwise distinct. */
  lemma SampleLessonIdsDistinct()
    ensures NoDups(LessonIds(SampleLessons))
  {
    assert LessonIds(SampleLessons) == ["lesson-1", "lesson-2", "lesson-3"];
  }

  /** Exercise ids are pairwise distinct across all lessons. */
  lemma SampleExerciseIdsDistinct()
    ensures ExerciseIds(SampleLessons) == ["ex-1-1", "ex-1-2", "ex-2-1", "ex-2-2", "ex-3-1", "ex-3-2"]
    ensures NoDups(ExerciseIds(SampleLessons))
  {
    assert SampleLessons[1..][1..][1..] == [];
    assert ExerciseIdsOf(Lesson3.exercises) == ["ex-3-1", "ex-3-2"];
    assert ExerciseIdsOf(Lesson2.exercises) == ["ex-2-1", "ex-2-2"];
    assert ExerciseIdsOf(Lesson1.exercises) == ["ex-1-1", "ex-1-2"];
    assert ExerciseIds(SampleLessons[1..][1..][1..]) == [];
    assert ExerciseIds(SampleLessons[1..][1..]) == ["ex-3-1", "ex-3-2"];
    assert ExerciseIds(SampleLessons[1..]) == ["ex-2-1", "ex-2-2", "ex-3-1", "ex-3-2"];
  }

  /** The tracing programs split back into the lines they were written as. */
  lemma TracingCodeLines()
    ensures SplitLines(Ex2_1.code.value) == Ex2_1Code
    ensures SplitLines(Ex2_2.code.value) == Ex2_2Code
  {
    SplitJoinRoundTrip(Ex2_1Code);
    SplitJoinRoundTrip(Ex2_2Code);
  }

  /** Every sample exercise is well formed. */
  lemma SampleExercisesWellFormed()
    ensures forall i, k :: 0 <= i < |SampleLessons| && 0 <= k < |SampleLessons[i].exercises| ==>
              ExerciseWellFormed(SampleLessons[i].exercises[k])
  {
    TracingCodeLines();
    BsiExercise.OptionValuesAreTheCategories("behavior");
    BsiExercise.OptionValuesAreTheCategories("implementation");
    assert ExerciseWellFormed(Ex1_1) && ExerciseWellFormed(Ex1_2);
    assert ExerciseWellFormed(Ex2_1) && ExerciseWellFormed(Ex2_2);
    assert ExerciseWellFormed(Ex3_1) && ExerciseWellFormed(Ex3_2);
  }

  /** The prerequisite chain runs lesson-1, lesson-2, lesson-3. */
  lemma SamplePrerequisitesPointBack()
    ensures PrerequisitesPointBack(SampleLessons)
  {
    assert SampleLessons[0].id == "lesson-1" && SampleLessons[1].id == "lesson-2";
  }

  /** The single module is ring 1 and holds every lesson, all of ring 1. */
  lemma SampleModuleHoldsAllLessons()
    ensures |SampleModules| == 1 && SampleModules[0].ring == 1
    ensures SampleModules[0].lessons == SampleLessons
    ensures forall i :: 0 <= i < |SampleLessons| ==> SampleLessons[i].ring == 1
  {
  }
}
