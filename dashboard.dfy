/** The dashboard (app/dashboard/page.tsx): course totals and progress
    percentages, the segment-click handler, the "Continue Learning" card,
    recent activity and the per-module lesson list. */
module Dashboard {
  import opened Types
  import opened SeqUtil
  import opened SampleData
  import opened LessonContent
  import ProgressStore

  /** `sampleLessons.reduce((sum, l) => sum + l.exercises.length, 0)`. */
  function TotalExercises(lessons: seq<Lesson>): (total: nat)
    ensures total == |ExerciseIds(lessons)|
  {
    if lessons == [] then 0
    else |lessons[0].exercises| + TotalExercises(lessons[1..])
  }

  /** `Math.round(count / total * 100)` for a non-negative count: the
      nearest whole percentage, halves rounded up. */
  function RoundedPercent(count: nat, total: nat): (p: nat)
    requires total > 0
    ensures 2 * p * total <= 200 * count + total < 2 * (p + 1) * total
  {
    (200 * count + total) / (2 * total)
  }

  /** Cancelling a positive factor from a strict comparison. */
  lemma CancelFactor(a: int, b: int, t: int)
    requires t > 0 && a * t < b * t
    ensures a < b
  {
    assert (b - a) * t == b * t - a * t;
  }

  /** A count never above the total gives at most 100. */
  lemma PercentAtMostHundred(count: nat, total: nat)
    requires 0 < total && count <= total
    ensures RoundedPercent(count, total) <= 100
  {
    var p := RoundedPercent(count, total);
    assert (2 * p) * total <= 201 * total < 202 * total;
    CancelFactor(2 * p, 202, total);
  }

  /** Everything done is exactly 100, nothing done exactly 0. */
  lemma PercentEnds(total: nat)
    requires 0 < total
    ensures RoundedPercent(total, total) == 100
    ensures RoundedPercent(0, total) == 0
  {
    var q := RoundedPercent(total, total);
    assert (2 * q) * total < 202 * total;
    CancelFactor(2 * q, 202, total);
    assert 199 * total < (2 * (q + 1)) * total;
    CancelFactor(199, 2 * (q + 1), total);
    var z := RoundedPercent(0, total);
    assert (2 * z) * total < 2 * total;
    CancelFactor(2 * z, 2, total);
  }

  /** The course has three lessons and six exercises. */
  lemma SampleTotals()
    ensures |SampleLessons| == 3
    ensures TotalExercises(SampleLessons) == 6
  {
    assert SampleLessons[1..][1..][1..] == [];
    assert TotalExercises(SampleLessons[1..][1..]) == 2;
    assert TotalExercises(SampleLessons[1..]) == 4;
  }

  /** `sampleLessons.find(l => l.id === id)`. */
  function FindLessonById(lessons: seq<Lesson>, lessonId: string): (found: Option<Lesson>)
    ensures found.Some? <==> exists i :: 0 <= i < |lessons| && lessons[i].id == lessonId
    ensures found.Some? ==> found.value in lessons && found.value.id == lessonId
  {
    var i := FindIndex(lessons, lessonId);
    if i >= 0 then Some(lessons[i]) else None
  }

  /** `sampleLessons.find(l => l.ring === ring && l.phase === phase)`: the
      first lesson placed at that cell of the web. */
  function FindLessonAt(lessons: seq<Lesson>, ring: int, phase: Phase): (found: Option<Lesson>)
    ensures found.Some? <==> exists i :: 0 <= i < |lessons| && lessons[i].ring == ring && lessons[i].phase == phase
    ensures found.Some? ==> found.value.ring == ring && found.value.phase == phase
    ensures found.Some? ==> exists i :: (0 <= i < |lessons| && lessons[i] == found.value
              && forall j :: 0 <= j < i ==> !(lessons[j].ring == ring && lessons[j].phase == phase))
  {
    if lessons == [] then None
    else if lessons[0].ring == ring && lessons[0].phase == phase then Some(lessons[0])
    else
      var rest := FindLessonAt(lessons[1..], ring, phase);
      assert forall i :: 1 <= i < |lessons| ==> lessons[i] == lessons[1..][i - 1];
      rest
  }

  /** Which cells of the web lead to a lesson: the first three phases of
      ring 1, each to its own lesson; every other cell leads nowhere. */
  lemma SampleLessonCells(ring: int, phase: Phase)
    ensures FindLessonAt(SampleLessons, 1, Functional) == Some(Lesson1)
    ensures FindLessonAt(SampleLessons, 1, Navigational) == Some(Lesson2)
    ensures FindLessonAt(SampleLessons, 1, Maintainer) == Some(Lesson3)
    ensures ring != 1 || phase == Builder ==> FindLessonAt(SampleLessons, ring, phase) == None
  {
    assert SampleLessons[1..][1..][1..] == [];
    assert FindLessonAt(SampleLessons[1..][1..], 1, Maintainer) == Some(Lesson3);
    assert FindLessonAt(SampleLessons[1..], 1, Maintainer) == Some(Lesson3);
  }

  /** `handleSegmentClick`: moves the position to the clicked cell, then
      navigates to that cell's lesson when there is one. */
  method HandleSegmentClick(store: ProgressStore.Store, ring: int, phase: Phase) returns (route: Option<string>)
    requires store.Valid()
    modifies store
    ensures store.Valid()
    ensures store.Snapshot() == old(store.Snapshot()).(currentRing := ring, currentPhase := phase)
    ensures route.Some? <==> FindLessonAt(SampleLessons, ring, phase).Some?
    ensures route.Some? ==> route.value == LessonHref(FindLessonAt(SampleLessons, ring, phase).value.id)
  {
    store.SetCurrentPosition(ring, phase);
    var lesson := FindLessonAt(SampleLessons, ring, phase);
    if lesson.Some? {
      route := Some(LessonHref(lesson.value.id));
    } else {
      route := None;
    }
  }

  /** The "Continue Learning" card is shown when the current lesson id is
      a lesson of the course. */
  predicate ContinueLearningShown(p: Progress) {
    FindLessonById(SampleLessons, p.currentLesson).Some?
  }

  /** The starting position names a real lesson, so a fresh or reset store
      shows the card, leading to lesson-1. */
  lemma DefaultShowsContinue()
    ensures ContinueLearningShown(DefaultProgress)
    ensures FindLessonById(SampleLessons, DefaultProgress.currentLesson) == Some(Lesson1)
  {
    assert SampleLessons[0].id == DefaultProgress.currentLesson;
  }

  /** `[...s].reverse()`. */
  function Reversed(s: seq<string>): (r: seq<string>)
    ensures |r| == |s|
    ensures forall i :: 0 <= i < |s| ==> r[i] == s[|s| - 1 - i]
  {
    if s == [] then [] else Reversed(s[1..]) + [s[0]]
  }

  /** `ids.map(id => find(id)).filter(Boolean)`: the lessons the ids name,
      in order, unknown ids dropped. Every kept lesson is a course lesson,
      their ids appear in `ids` in the same order, and every known id is
      kept. */
  function KnownLessons(ids: seq<string>, lessons: seq<Lesson>): (r: seq<Lesson>)
    ensures |r| <= |ids|
    ensures forall k :: 0 <= k < |r| ==> r[k] in lessons && r[k].id in ids
    ensures IsSubseq(LessonIds(r), ids)
    ensures forall k :: 0 <= k < |ids| && FindLessonById(lessons, ids[k]).Some? ==> ids[k] in LessonIds(r)
  {
    if ids == [] then []
    else
      var rest := KnownLessons(ids[1..], lessons);
      assert forall k :: 1 <= k < |ids| ==> ids[k] == ids[1..][k - 1];
      match FindLessonById(lessons, ids[0])
      case Some(l) =>
        assert LessonIds([l] + rest) == [l.id] + LessonIds(rest);
        [l] + rest
      case None => rest
  }

  /** A single id gives its lesson when known and nothing otherwise. */
  lemma KnownLessonsSingle(id: string, lessons: seq<Lesson>)
    ensures KnownLessons([id], lessons) ==
              match FindLessonById(lessons, id) case Some(l) => [l] case None => []
  {
    assert [id][1..] == [];
  }

  /** The lessons of a non-empty id list: those of its head, then the rest. */
  lemma KnownLessonsCons(ids: seq<string>, lessons: seq<Lesson>)
    requires ids != []
    ensures KnownLessons(ids, lessons) == KnownLessons([ids[0]], lessons) + KnownLessons(ids[1..], lessons)
  {
    assert [ids[0]][1..] == [];
  }

  lemma ConcatAssoc(x: seq<Lesson>, y: seq<Lesson>, z: seq<Lesson>)
    ensures x + (y + z) == (x + y) + z
  {
  }

  /** Looking up ids piecewise and concatenating gives the same lessons. */
  lemma {:induction false} KnownLessonsAppend(a: seq<string>, b: seq<string>, lessons: seq<Lesson>)
    ensures KnownLessons(a + b, lessons) == KnownLessons(a, lessons) + KnownLessons(b, lessons)
  {
    if a == [] {
      assert a + b == b;
    } else {
      var ab := a + b;
      assert ab[0] == a[0] && ab[1..] == a[1..] + b;
      KnownLessonsCons(ab, lessons);
      KnownLessonsCons(a, lessons);
      KnownLessonsAppend(a[1..], b, lessons);
      var head, tail, rest := KnownLessons([a[0]], lessons), KnownLessons(a[1..], lessons), KnownLessons(b, lessons);
      assert KnownLessons(ab, lessons) == head + (tail + rest);
      assert KnownLessons(a, lessons) == head + tail;
      ConcatAssoc(head, tail, rest);
    }
  }

  /** When every id is known nothing is dropped and the order is kept. */
  lemma {:induction false} KnownLessonsAllKnown(ids: seq<string>, lessons: seq<Lesson>)
    requires forall k :: 0 <= k < |ids| ==> FindLessonById(lessons, ids[k]).Some?
    ensures |KnownLessons(ids, lessons)| == |ids|
    ensures forall k :: 0 <= k < |ids| ==> KnownLessons(ids, lessons)[k].id == ids[k]
  {
    if ids != [] {
      assert FindLessonById(lessons, ids[0]).Some?;
      assert forall k :: 1 <= k < |ids| ==> ids[1..][k - 1] == ids[k];
      KnownLessonsAllKnown(ids[1..], lessons);
    }
  }

  /** `completedLessons.slice(-5)`. */
  function LastFive(completed: seq<string>): (w: seq<string>)
    ensures |w| == if |completed| > 5 then 5 else |completed|
    ensures w == completed[|completed| - |w|..]
  {
    if |completed| > 5 then completed[|completed| - 5..] else completed
  }

  /** Recent activity: the last five completed lessons, newest first.
      Entries come from the window only, in newest-first order, and every
      known id of the window has its entry. */
  function RecentActivity(completed: seq<string>, lessons: seq<Lesson>): (r: seq<Lesson>)
    ensures |r| <= 5 && |r| <= |completed|
    ensures forall k :: 0 <= k < |r| ==> r[k] in lessons && r[k].id in LastFive(completed)
    ensures IsSubseq(LessonIds(r), Reversed(LastFive(completed)))
    ensures forall id :: id in LastFive(completed) && FindLessonById(lessons, id).Some? ==> id in LessonIds(r)
  {
    var window := LastFive(completed);
    var newestFirst := Reversed(window);
    var r := KnownLessons(newestFirst, lessons);
    assert forall k :: 0 <= k < |newestFirst| ==> newestFirst[k] in window;
    forall id | id in window && FindLessonById(lessons, id).Some?
      ensures id in LessonIds(r)
    {
      var i :| 0 <= i < |window| && window[i] == id;
      assert newestFirst[|window| - 1 - i] == id;
    }
    r
  }

  /** When every completed id is a lesson, recent activity lists the
      newest min(5, n) completions, newest first. */
  lemma RecentActivityNewestFirst(completed: seq<string>, lessons: seq<Lesson>)
    requires forall k :: 0 <= k < |completed| ==> FindLessonById(lessons, completed[k]).Some?
    ensures |RecentActivity(completed, lessons)| == if |completed| > 5 then 5 else |completed|
    ensures forall k :: 0 <= k < |RecentActivity(completed, lessons)| ==>
              RecentActivity(completed, lessons)[k].id == completed[|completed| - 1 - k]
  {
    var w := LastFive(completed);
    var rev := Reversed(w);
    assert forall k :: 0 <= k < |rev| ==> rev[k] == completed[|completed| - 1 - k];
    KnownLessonsAllKnown(rev, lessons);
    assert RecentActivity(completed, lessons) == KnownLessons(rev, lessons);
  }

  /** Per lesson, whether its id is among the completed ones. */
  function CompletedFlags(lessons: seq<Lesson>, completed: seq<string>): seq<bool> {
    seq(|lessons|, k requires 0 <= k < |lessons| => lessons[k].id in completed)
  }

  /** A module card's "n / m": how many of its lessons are completed. */
  function CompletedCount(lessons: seq<Lesson>, completed: seq<string>): (n: nat)
    ensures n == multiset(CompletedFlags(lessons, completed))[true]
    ensures n <= |lessons|
    ensures n == |lessons| <==> forall k :: 0 <= k < |lessons| ==> lessons[k].id in completed
    ensures n == 0 <==> forall k :: 0 <= k < |lessons| ==> lessons[k].id !in completed
  {
    if lessons == [] then 0
    else
      var rest := CompletedCount(lessons[1..], completed);
      assert forall k :: 1 <= k < |lessons| ==> lessons[k] == lessons[1..][k - 1];
      assert CompletedFlags(lessons, completed)
          == [lessons[0].id in completed] + CompletedFlags(lessons[1..], completed);
      (if lessons[0].id in completed then 1 else 0) + rest
  }

  /** A lesson in the module list is highlighted when it is the current
      one and not yet completed. */
  predicate Highlighted(lesson: Lesson, p: Progress) {
    lesson.id == p.currentLesson && lesson.id !in p.completedLessons
  }

  /** With distinct lesson ids at most one lesson is highlighted, and once
      the current lesson is completed none is. */
  lemma HighlightAtMostOne(lessons: seq<Lesson>, p: Progress, i: nat, j: nat)
    requires NoDups(LessonIds(lessons))
    requires i < |lessons| && j < |lessons|
    ensures Highlighted(lessons[i], p) && Highlighted(lessons[j], p) ==> i == j
    ensures p.currentLesson in p.completedLessons ==> !Highlighted(lessons[i], p)
  {
    if i != j {
      NoDupsDistinct(LessonIds(lessons), i, j);
    }
  }
}
