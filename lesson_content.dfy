/** The lesson page (components/lesson-content.tsx): the lesson's place in
    the course and its previous/next neighbours, the links to its
    exercises, and the "Mark Lesson as Complete" action. */
module LessonContent {
  import opened Types
  import opened SeqUtil
  import opened SampleData
  import ProgressStore

  /** The page address of a lesson. */
  function LessonHref(lessonId: string): string {
    "/lessons/" + lessonId
  }

  /** Lesson pages of different lessons have different addresses. */
  lemma LessonHrefInjective(a: string, b: string)
    ensures LessonHref(a) == LessonHref(b) ==> a == b
  {
    if LessonHref(a) == LessonHref(b) {
      assert a == LessonHref(a)[9..] && b == LessonHref(b)[9..];
    }
  }

  /** `lessons.findIndex(l => l.id === lessonId)`: the first position with
      that id, or -1. */
  function FindIndex(lessons: seq<Lesson>, lessonId: string): (index: int)
    ensures -1 <= index < |lessons|
    ensures index >= 0 ==> lessons[index].id == lessonId
    ensures index >= 0 ==> forall j :: 0 <= j < index ==> lessons[j].id != lessonId
    ensures index == -1 <==> forall j :: 0 <= j < |lessons| ==> lessons[j].id != lessonId
  {
    if lessons == [] then -1
    else if lessons[0].id == lessonId then 0
    else
      var rest := FindIndex(lessons[1..], lessonId);
      if rest == -1 then -1 else rest + 1
  }

  /** `prevLesson`: the lesson before, unless at (or before) the start. */
  function PrevLesson(lessons: seq<Lesson>, index: int): (prev: Option<Lesson>)
    requires -1 <= index < |lessons|
    ensures prev.Some? <==> index > 0
    ensures prev.Some? ==> prev.value == lessons[index - 1]
  {
    if index > 0 then Some(lessons[index - 1]) else None
  }

  /** `nextLesson`: the lesson after, unless at the end. */
  function NextLesson(lessons: seq<Lesson>, index: int): (next: Option<Lesson>)
    requires -1 <= index < |lessons|
    ensures next.Some? <==> index < |lessons| - 1
    ensures next.Some? ==> next.value == lessons[index + 1]
  {
    if index < |lessons| - 1 then Some(lessons[index + 1]) else None
  }

  /** For a lesson that is not in the course the page offers no previous
      lesson and offers the first lesson as next. */
  lemma UnknownLessonNeighbours(lessons: seq<Lesson>, lessonId: string)
    requires forall j :: 0 <= j < |lessons| ==> lessons[j].id != lessonId
    ensures PrevLesson(lessons, FindIndex(lessons, lessonId)) == None
    ensures NextLesson(lessons, FindIndex(lessons, lessonId)) == if |lessons| > 0 then Some(lessons[0]) else None
  {
  }

  /** With distinct ids a lesson is found at its own position. */
  lemma FindIndexOfDistinct(lessons: seq<Lesson>, i: nat)
    requires i < |lessons|
    requires NoDups(LessonIds(lessons))
    ensures FindIndex(lessons, lessons[i].id) == i
  {
    var found := FindIndex(lessons, lessons[i].id);
    var ids := LessonIds(lessons);
    assert found <= i;
    assert ids[found] == ids[i];
  }

  /** With distinct ids, "next" then "previous" comes back: the previous
      lesson of a lesson's next lesson is that lesson. */
  lemma NextThenPrev(lessons: seq<Lesson>, i: nat)
    requires i < |lessons| - 1
    requires NoDups(LessonIds(lessons))
    ensures NextLesson(lessons, FindIndex(lessons, lessons[i].id)) == Some(lessons[i + 1])
    ensures PrevLesson(lessons, FindIndex(lessons, lessons[i + 1].id)) == Some(lessons[i])
  {
    FindIndexOfDistinct(lessons, i);
    var j := i + 1;
    FindIndexOfDistinct(lessons, j);
    assert FindIndex(lessons, lessons[j].id) == j;
    assert PrevLesson(lessons, j) == Some(lessons[i]);
  }

  /** Where the forward button goes: the next lesson, or the dashboard at
      the end of the course. */
  function ForwardHref(lessons: seq<Lesson>, index: int): (href: string)
    requires -1 <= index < |lessons|
    ensures index == |lessons| - 1 ==> href == "/dashboard"
    ensures index < |lessons| - 1 ==> href == LessonHref(lessons[index + 1].id)
  {
    match NextLesson(lessons, index)
    case Some(l) => LessonHref(l.id)
    case None => "/dashboard"
  }

  /** The exercise-type table: caption and route segment per type. */
  datatype ExerciseTypeConfig = ExerciseTypeConfig(caption: string, path: string)

  function TypeConfig(kind: ExerciseType): ExerciseTypeConfig {
    match kind
    case Parsons => ExerciseTypeConfig("Parsons Problem", "parsons")
    case Tracing => ExerciseTypeConfig("Code Tracing", "tracing")
    case Bsi => ExerciseTypeConfig("BSI Comparison", "bsi")
    case MultipleChoice => ExerciseTypeConfig("Multiple Choice", "quiz")
  }

  /** The link to an exercise: `/exercises/<path>/<id>`. */
  function ExerciseHref(exercise: Exercise): string {
    "/exercises/" + TypeConfig(exercise.kind).path + "/" + exercise.id
  }

  /** Different exercise types get different routes, so an exercise link
      determines its type's screen. */
  lemma TypeRoutesDistinct(a: ExerciseType, b: ExerciseType)
    ensures a != b ==> TypeConfig(a).path != TypeConfig(b).path
    ensures TypeConfig(MultipleChoice).path == "quiz"
  {
    if a != b {
      assert TypeConfig(a).path[0] != TypeConfig(b).path[0] || |TypeConfig(a).path| != |TypeConfig(b).path|;
    }
  }

  /** The "Mark Lesson as Complete" button is shown only while the lesson
      is not completed. */
  predicate MarkCompleteOffered(store: ProgressStore.Store, lesson: Lesson)
    reads store
  {
    !store.IsLessonCompleted(lesson.id)
  }

  /** The button's action: `completeLesson(lesson.id)`. Afterwards the
      button is gone and only the lesson list has changed. */
  method MarkLessonComplete(store: ProgressStore.Store, lesson: Lesson)
    requires store.Valid()
    modifies store
    ensures store.Valid()
    ensures !MarkCompleteOffered(store, lesson)
    ensures old(MarkCompleteOffered(store, lesson)) ==>
              store.completedLessons == old(store.completedLessons) + [lesson.id]
    ensures store.Snapshot() == old(store.Snapshot()).(completedLessons :=
              ProgressStore.AddUnique(old(store.completedLessons), lesson.id))
  {
    store.CompleteLesson(lesson.id);
  }
}
