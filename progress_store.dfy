/** The learner-progress store (lib/progress-store.ts): one mutable record
    of completed lesson and exercise ids, the current lesson and the
    current (ring, phase) position, updated by five actions and read by
    two membership queries. Persistence to browser storage is not part of
    this model. */
module ProgressStore {
  import opened Types
  import opened SeqUtil
  import SampleData

  /** The update both completion actions apply to their list:
      `list.includes(id) ? list : [...list, id]`. */
  function AddUnique(list: seq<string>, id: string): (r: seq<string>)
    ensures id in r
    ensures |list| <= |r| <= |list| + 1 && r[..|list|] == list
    ensures forall x :: x in r <==> x in list || x == id
    ensures NoDups(list) ==> NoDups(r)
  {
    if id in list then list else list + [id]
  }

  /** Adding an id that is already present changes nothing; adding an
      absent one appends it at the end. */
  lemma AddUniqueCases(list: seq<string>, id: string)
    ensures id in list ==> AddUnique(list, id) == list
    ensures id !in list ==> AddUnique(list, id) == list + [id] && |AddUnique(list, id)| == |list| + 1
  {
  }

  /** Completing the same id twice is the same as completing it once. */
  lemma AddUniqueIdempotent(list: seq<string>, id: string)
    ensures AddUnique(AddUnique(list, id), id) == AddUnique(list, id)
  {
  }

  /** The list after completing each id of `ids` in turn. */
  function AddAll(list: seq<string>, ids: seq<string>): seq<string>
    decreases |ids|
  {
    if ids == [] then list else AddAll(AddUnique(list, ids[0]), ids[1..])
  }

  /** Whatever sequence of completions is applied, starting from a list
      without duplicates, every distinct id is recorded exactly once, the
      old list stays a prefix, and nothing else is recorded. */
  lemma {:induction false} AddAllRecordsEachOnce(list: seq<string>, ids: seq<string>)
    requires NoDups(list)
    ensures NoDups(AddAll(list, ids))
    ensures |AddAll(list, ids)| >= |list| && AddAll(list, ids)[..|list|] == list
    ensures forall x :: x in AddAll(list, ids) <==> x in list || x in ids
    decreases |ids|
  {
    if ids != [] {
      var next := AddUnique(list, ids[0]);
      AddAllRecordsEachOnce(next, ids[1..]);
      assert AddAll(list, ids)[..|list|] == AddAll(list, ids)[..|next|][..|list|];
      forall x ensures x in AddAll(list, ids) <==> x in list || x in ids {
        assert x in ids <==> x == ids[0] || x in ids[1..] by {
          assert ids == [ids[0]] + ids[1..];
        }
      }
    }
  }

  class Store {
    var completedLessons: seq<string>
    var completedExercises: seq<string>
    var currentLesson: string
    var currentRing: int
    var currentPhase: Phase

    /** Completion lists never hold an id twice. */
    ghost predicate Valid()
      reads this
    {
      NoDups(completedLessons) && NoDups(completedExercises)
    }

    /** The store's state as a `Progress` record. */
    function Snapshot(): Progress
      reads this
    {
      Progress(completedLessons, completedExercises, currentLesson, currentRing, currentPhase)
    }

    /** A fresh store holds `defaultProgress`. */
    constructor ()
      ensures Valid()
      ensures Snapshot() == SampleData.DefaultProgress
    {
      completedLessons := [];
      completedExercises := [];
      currentLesson := "lesson-1";
      currentRing := 1;
      currentPhase := Functional;
    }

    /** `completeLesson`: record the lesson once; the other fields stay. */
    method CompleteLesson(lessonId: string)
      requires Valid()
      modifies this
      ensures Valid()
      ensures IsLessonCompleted(lessonId)
      ensures Snapshot() == old(Snapshot()).(completedLessons := AddUnique(old(completedLessons), lessonId))
    {
      completedLessons := AddUnique(completedLessons, lessonId);
    }

    /** `completeExercise`: the same update on the exercise list. */
    method CompleteExercise(exerciseId: string)
      requires Valid()
      modifies this
      ensures Valid()
      ensures IsExerciseCompleted(exerciseId)
      ensures Snapshot() == old(Snapshot()).(completedExercises := AddUnique(old(completedExercises), exerciseId))
    {
      completedExercises := AddUnique(completedExercises, exerciseId);
    }

    /** `setCurrentLesson`: any string is accepted; only that field changes. */
    method SetCurrentLesson(lessonId: string)
      requires Valid()
      modifies this
      ensures Valid()
      ensures Snapshot() == old(Snapshot()).(currentLesson := lessonId)
    {
      currentLesson := lessonId;
    }

    /** `setCurrentPosition`: no range check on the ring; only the
        position changes. */
    method SetCurrentPosition(ring: int, phase: Phase)
      requires Valid()
      modifies this
      ensures Valid()
      ensures Snapshot() == old(Snapshot()).(currentRing := ring, currentPhase := phase)
    {
      currentRing := ring;
      currentPhase := phase;
    }

    /** `resetProgress`: back to `defaultProgress`, losing all history. */
    method ResetProgress()
      requires Valid()
      modifies this
      ensures Valid()
      ensures Snapshot() == SampleData.DefaultProgress
    {
      completedLessons := SampleData.DefaultProgress.completedLessons;
      completedExercises := SampleData.DefaultProgress.completedExercises;
      currentLesson := SampleData.DefaultProgress.currentLesson;
      currentRing := SampleData.DefaultProgress.currentRing;
      currentPhase := SampleData.DefaultProgress.currentPhase;
    }

    /** `isLessonCompleted`: a membership test that changes nothing. */
    predicate IsLessonCompleted(lessonId: string)
      reads this
    {
      lessonId in completedLessons
    }

    /** `isExerciseCompleted`: a membership test that changes nothing. */
    predicate IsExerciseCompleted(exerciseId: string)
      reads this
    {
      exerciseId in completedExercises
    }
  }
}
