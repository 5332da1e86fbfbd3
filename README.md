# Study Lenses platform — a verified model of its learning logic

Study Lenses is a teaching site for Python. Lessons sit on a "spider web":
five rings of increasing difficulty crossed with four phases (functional,
navigational, maintainer, builder). This project models in Dafny the parts
of the site that carry logic:

- **The progress store.** Two insertion-ordered lists of completed lesson and exercise ids, each with an idempotent append. A current lesson. A current (ring, phase) position. A reset to defaults. Modelled as a class `ProgressStore.Store`.
- **The three exercise screens**, each as a class holding its screen state and a reference to the store:
  - the Parsons line-ordering exercise;
  - the step-by-step code-tracing exercise;
  - the BSI (behaviour / strategy / implementation) classification exercise.
- **The spider-web grid.** Ring radii, the large-arc rule, the 20 segments with their completed and current flags, the current-position marker and the hover/click state.
- **The bundled curriculum** (three lessons, six exercises, one module) and the facts the screens rely on about it.
- **The derived views:**
  - the dashboard: totals, percentages, the segment-click handler, recent activity, the "Continue Learning" card and module counts;
  - the lesson page: previous and next lesson, exercise links, "Mark Lesson as Complete";
  - the sidebar: module expand/collapse, counts, the active link.

Every store operation is stated as a change to the store's `Snapshot()`. The snapshot is a `Types.Progress` value, so each postcondition says which fields change and that nothing else does. The list algebra (`AddUnique`) carries the invariants: no duplicates, the old list is kept as a prefix, and repetition is idempotent.

Where the prose description of the site and its code disagree, the model follows the code:

- **"Show Answer" on a Parsons exercise** fills in the answer and marks every line correct. It does NOT record the exercise as completed (`ParsonsExercise.Session.RevealAnswer`).
- **Arriving at the last tracing step** (by "Next" or by a step dot) does not complete the exercise. Only "Next" pressed on the last step, or "Reveal All Steps", does (`TracingExercise.Session.GoToNextStep`, `JumpToStep`).
- **Hint counters stop at the last hint** (`hints.length - 1`), not at the number of hints (`Hints.NextHint`).
- **The current ring is not range-checked** (`ProgressStore.Store.SetCurrentPosition`). With a ring outside 1..5 no segment is current (`SpiderWeb.CurrentSegmentUnique`).
- **The segment "completed" flag is a substring test on lesson ids.** The bundled ids (`lesson-1` … `lesson-3`) never contain a `ring-` tag, so with them the flag is always false (`SpiderWeb.SampleIdsNeverComplete`). The test also over-matches: `ring-10` contains `ring-1` (`SpiderWeb.HeuristicOverMatches`).
- **The web never draws the "completed" flag.** The segments are computed with it, but rendering reads only ring, phase, path and the current flag (`components/spider-web.tsx:154`). A completed segment looks like any other; only the current one is highlighted. The model keeps the flag in `SpiderWeb.Segment` because the grid computes it.

Modules: `Types`, `SeqUtil`, `SampleData`, `ProgressStore`, `Hints`, `SpiderWeb`, `ParsonsExercise`, `TracingExercise`, `BsiExercise`, `Curriculum`, `Dashboard`, `LessonContent`, `LessonSidebar`, one file each.

## Model

| member | source | states |
|---|---|---|
| Types.PhaseIndex | lib/types.ts:58-83 | every phase has a position in `PHASE_CONFIG` declaration order, and the phase list holds it there |
| Types.PhasesEnumerateAll | lib/types.ts:1 | there are exactly four phases, pairwise distinct, and every phase is among them |
| Types.PhaseIntervalWidth | lib/types.ts:58-83 | each phase's angle interval has start < end and is exactly 90 degrees wide |
| Types.PhaseIntervalsPartitionCircle | lib/types.ts:58-83 | the intervals start at 0, end at 360 and are contiguous in declaration order; every angle in [0, 360) lies in exactly one of them |
| Types.RingLabelsCover | lib/types.ts:49-56 | `RING_LABELS` has six entries (rings 0..5) and entry 0 is "Markdown" |
| SeqUtil.RemoveAll | components/lesson-sidebar.tsx:20 | `filter(id => id !== x)`: x is gone and every other id keeps its multiplicity |
| SeqUtil.RemoveAllKeepsOrder | components/lesson-sidebar.tsx:20 | the filtered list is a subsequence of the original, so the remaining ids keep their order |
| SeqUtil.SplitLines | components/exercises/tracing-exercise.tsx:38 | `split('\n')` yields at least one piece and no piece holds a newline |
| SeqUtil.SplitJoinRoundTrip | components/exercises/tracing-exercise.tsx:38 | splitting lines joined by newlines gives back exactly those lines |
| SeqUtil.NatToString | components/spider-web.tsx:83 | the decimal rendering of a ring number is non-empty and all digits |
| SeqUtil.NatToStringRoundTrip | components/spider-web.tsx:83 | reading the rendered digits back as a decimal number gives the ring number |
| SeqUtil.IndexOf | components/exercises/parsons-exercise.tsx:115-116 | `indexOf` of a present item is the first position that holds it |
| ProgressStore.AddUnique | lib/progress-store.ts:24-28 | the id is present afterwards; the old list is a prefix and grows by at most one; membership is old-or-new; no duplicates are introduced |
| ProgressStore.AddUniqueCases | lib/progress-store.ts:25-27 | a present id leaves the list unchanged; an absent id is appended at the end |
| ProgressStore.AddUniqueIdempotent | lib/progress-store.ts:25-26 | completing the same id twice equals completing it once |
| ProgressStore.AddAllRecordsEachOnce | lib/progress-store.ts:23-29 | any sequence of completions keeps the list duplicate-free, keeps the old list as a prefix, and records exactly the old ids plus the completed ones |
| ProgressStore.Store.constructor | lib/sample-data.ts:292-298 | a new store holds `defaultProgress`: empty lists, lesson-1, ring 1, functional |
| ProgressStore.Store.CompleteLesson | lib/progress-store.ts:23-29 | afterwards the lesson is completed; only `completedLessons` changes, to its idempotent append |
| ProgressStore.Store.CompleteExercise | lib/progress-store.ts:31-37 | afterwards the exercise is completed; only `completedExercises` changes, to its idempotent append |
| ProgressStore.Store.SetCurrentLesson | lib/progress-store.ts:39-41 | any string becomes the current lesson; nothing else changes |
| ProgressStore.Store.SetCurrentPosition | lib/progress-store.ts:43-45 | the ring (unchecked) and phase are set; nothing else changes |
| ProgressStore.Store.ResetProgress | lib/progress-store.ts:47-49 | the store becomes exactly `defaultProgress` |
| ProgressStore.Store.IsLessonCompleted | lib/progress-store.ts:51-53 | `isLessonCompleted`: membership of the id in the completed lessons, reading the store only |
| ProgressStore.Store.IsExerciseCompleted | lib/progress-store.ts:55-57 | `isExerciseCompleted`: membership of the id in the completed exercises, reading the store only |
| Hints.NextHint | components/exercises/parsons-exercise.tsx:145-150 | one press advances the hint index by one exactly when it is below the last hint, and keeps it within 0..last hint |
| Hints.PressHintFromStart | components/exercises/tracing-exercise.tsx:61-66 | after k presses from 0 the index is k, capped at the last hint |
| Hints.PressHintFrom | components/exercises/bsi-exercise.tsx:64-69 | after k presses from any in-range index i the index is i + k, capped at the last hint |
| SpiderWeb.RingRadii | components/spider-web.tsx:24-26 | a ring's outer radius is the next ring's inner radius; ring 5 ends at `maxRadius`; with positive width bands are non-empty and grow outwards |
| SpiderWeb.PositiveWidth | components/spider-web.tsx:24-26 | the ring width is positive exactly when the size exceeds 40 |
| SpiderWeb.LargeArc | components/spider-web.tsx:48 | the large-arc flag is 0 or 1, and 1 exactly when the arc spans more than 180 degrees |
| SpiderWeb.ConfiguredArcsAreSmall | components/spider-web.tsx:48 | every configured phase gets large-arc 0 |
| SpiderWeb.Segments | components/spider-web.tsx:60-100 | the grid has 20 segments |
| SpiderWeb.BuildSegments | components/spider-web.tsx:70-97 | the nested loops build exactly the ring-major grid `Segments` |
| SpiderWeb.SegmentsCoverGrid | components/spider-web.tsx:70-97 | every (ring 1..5, phase) cell has its segment at index (ring-1)*4 + phase position, with that ring's radii and that phase's interval |
| SpiderWeb.SegmentsDistinct | components/spider-web.tsx:70-97 | no two segments describe the same cell |
| SpiderWeb.CurrentSegmentUnique | components/spider-web.tsx:86 | a segment is current iff the current ring is 1..5 and it is the current cell, so exactly one or none is current |
| SpiderWeb.SegmentCompleted | components/spider-web.tsx:82-84 | a cell is completed when some completed id contains both `ring-<n>` and the phase name |
| SpiderWeb.SampleIdsNeverComplete | components/spider-web.tsx:82-84 | with only the bundled lesson ids completed, no segment is marked completed |
| SpiderWeb.HeuristicOverMatches | components/spider-web.tsx:82-84 | an id containing `ring-10` and a phase name marks ring 1 of that phase as completed |
| SpiderWeb.MarkerVisible | components/spider-web.tsx:212 | the position marker is drawn only for a ring above 0 |
| SpiderWeb.MarkerInsideCurrentSegment | components/spider-web.tsx:212-215 | the marker angle start+45 is the midpoint of the phase interval, and its radius lies strictly inside the current ring's band |
| SpiderWeb.WebView.constructor | components/spider-web.tsx:20 | nothing is hovered initially |
| SpiderWeb.WebView.MouseEnter | components/spider-web.tsx:180 | hovering records the cell only when the web is interactive |
| SpiderWeb.WebView.MouseLeave | components/spider-web.tsx:181 | leaving clears the hover unconditionally |
| SpiderWeb.WebView.TooltipRingLabel | components/spider-web.tsx:239 | the tooltip's ring caption is one of the labels of rings 1..5 |
| SpiderWeb.WebView.Click | components/spider-web.tsx:182 | a click reports its (ring, phase) iff the web is interactive |
| ParsonsExercise.ArrayMove | components/exercises/parsons-exercise.tsx:117 | `arrayMove`: the item at `from` ends at `to`, and with it removed the other items are exactly the old ones minus it, in their old order (so the result is a permutation of the same length) |
| ParsonsExercise.ArrayMoveUndo | components/exercises/parsons-exercise.tsx:117 | moving an item back to where it came from restores the arrangement |
| ParsonsExercise.CheckResults | components/exercises/parsons-exercise.tsx:125 | one mark per arranged line |
| ParsonsExercise.CheckPassesIff | components/exercises/parsons-exercise.tsx:125-129 | all marks are true iff the arrangement is a prefix of the answer; with equal lengths, iff it equals the answer |
| ParsonsExercise.OverlongFails | components/exercises/parsons-exercise.tsx:125-129 | an arrangement longer than the answer never passes |
| ParsonsExercise.MisplacedLineMarked | components/exercises/parsons-exercise.tsx:125-129 | a full-length arrangement with a wrong line marks that line false and does not pass |
| ParsonsExercise.AllMarked | components/exercises/parsons-exercise.tsx:155 | revealing marks every answer line true, which is what checking the answer against itself gives |
| ParsonsExercise.Session.constructor | components/exercises/parsons-exercise.tsx:88-108 | the screen starts with some permutation of the code lines, no marks, no hint, zero attempts |
| ParsonsExercise.Session.AllCorrect | components/exercises/parsons-exercise.tsx:158 | all correct: at least one mark and every mark true |
| ParsonsExercise.Session.CanCheck | components/exercises/parsons-exercise.tsx:220 | "Check Answer" is enabled unless the answer is shown or all marks are true |
| ParsonsExercise.Session.ShowAnswerOffered | components/exercises/parsons-exercise.tsx:232 | "Show Answer" is offered after three attempts while not all correct |
| ParsonsExercise.Session.AllCorrectMeansSolved | components/exercises/parsons-exercise.tsx:158 | when `allCorrect` holds for a well-formed exercise, the arrangement is exactly the answer |
| ParsonsExercise.Session.DragEnd | components/exercises/parsons-exercise.tsx:110-121 | a drop on nothing or on itself changes nothing; otherwise `arrayMove` moves the item, the lines stay a permutation and the marks are cleared, re-enabling the check unless the answer is shown |
| ParsonsExercise.Session.CheckAnswer | components/exercises/parsons-exercise.tsx:123-132 | marks each line against the answer, counts one attempt, and completes the exercise exactly when every mark is true |
| ParsonsExercise.Session.ResetExercise | components/exercises/parsons-exercise.tsx:134-143 | reshuffles, clears marks, hint and answer, and keeps the attempt count and the store |
| ParsonsExercise.Session.ShowNextHint | components/exercises/parsons-exercise.tsx:145-150 | advances the hint index up to the last hint and shows the hint |
| ParsonsExercise.Session.RevealAnswer | components/exercises/parsons-exercise.tsx:152-156 | shows the answer all marked true, disables "Check" and hides "Show Answer", and does not touch the store |
| TracingExercise.Session.constructor | components/exercises/tracing-exercise.tsx:30-38 | the screen starts on step 0 with the code split into lines and no hint |
| TracingExercise.Session.CurrentStepData | components/exercises/tracing-exercise.tsx:37 | a step is shown iff the index names a step, and it is one of the steps |
| TracingExercise.Session.IsLastStep | components/exercises/tracing-exercise.tsx:74 | the shown step is the last one |
| TracingExercise.Session.IsActiveLine | components/exercises/tracing-exercise.tsx:122 | a code line is highlighted when the shown step names it; no line is when the index names no step |
| TracingExercise.Session.PrevDisabled | components/exercises/tracing-exercise.tsx:250 | "Previous" is disabled on the first step |
| TracingExercise.Session.GoToNextStep | components/exercises/tracing-exercise.tsx:40-46 | before the last step it advances by one without completing; on the last step it stays and completes the exercise |
| TracingExercise.Session.GoToPrevStep | components/exercises/tracing-exercise.tsx:48-52 | steps back by one, or stays on step 0 |
| TracingExercise.Session.JumpToStep | components/exercises/tracing-exercise.tsx:161-164 | a step dot selects that step and highlights its line, without touching the store |
| TracingExercise.Session.ResetExercise | components/exercises/tracing-exercise.tsx:54-59 | back to step 0 with hint and reveal cleared; completion is kept |
| TracingExercise.Session.ShowNextHint | components/exercises/tracing-exercise.tsx:61-66 | advances the hint index up to the last hint and shows the hint |
| TracingExercise.Session.RevealAllSteps | components/exercises/tracing-exercise.tsx:68-72 | jumps to the last step, shows all steps and completes the exercise |
| BsiExercise.OptionValues | components/exercises/bsi-exercise.tsx:19-35 | the selectable values are the options' values, in order |
| BsiExercise.OptionValuesAreTheCategories | components/exercises/bsi-exercise.tsx:19-35 | a value is selectable iff it is behavior, strategy or implementation, and the three are distinct |
| BsiExercise.MatchIsExact | components/exercises/bsi-exercise.tsx:46 | a selection is correct iff the answer is that very string; no two options are both correct |
| BsiExercise.Session.constructor | components/exercises/bsi-exercise.tsx:39-42 | nothing selected, not submitted, no hint |
| BsiExercise.Session.IsCorrect | components/exercises/bsi-exercise.tsx:46 | the selection equals the expected answer exactly |
| BsiExercise.Session.SubmitDisabled | components/exercises/bsi-exercise.tsx:216 | "Submit Answer" is disabled with no selection or once submitted |
| BsiExercise.Session.SelectOption | components/exercises/bsi-exercise.tsx:171-172 | once submitted the selection is locked; before, the option is selected and "Submit" becomes enabled |
| BsiExercise.Session.CheckAnswer | components/exercises/bsi-exercise.tsx:48-55 | with no selection nothing changes; otherwise the screen is locked as submitted and the exercise is completed iff the selection is correct |
| BsiExercise.Session.ResetExercise | components/exercises/bsi-exercise.tsx:57-62 | clears selection, submission and hint; completion is kept |
| BsiExercise.Session.ShowNextHint | components/exercises/bsi-exercise.tsx:64-69 | advances the hint index up to the last hint and shows the hint |
| Curriculum.SampleLessonIdsDistinct | lib/sample-data.ts:5 | the lesson ids are pairwise distinct |
| Curriculum.SampleExerciseIdsDistinct | lib/sample-data.ts:49 | the six exercise ids, in course order, are pairwise distinct |
| Curriculum.TracingCodeLines | lib/sample-data.ts:138-142 | each tracing program splits into its four source lines |
| Curriculum.SampleExercisesWellFormed | lib/sample-data.ts:3-281 | every Parsons answer is a permutation of its lines; every tracing step names a line of its code and the last step prints the answer; every BSI answer is a selectable category |
| Curriculum.SamplePrerequisitesPointBack | lib/sample-data.ts:81 | every prerequisite names a lesson that comes earlier in the course |
| Curriculum.SampleModuleHoldsAllLessons | lib/sample-data.ts:283-290 | there is one module, of ring 1, holding every lesson, and every lesson is ring 1 |
| Dashboard.TotalExercises | app/dashboard/page.tsx:36 | the summed exercise counts equal the number of exercise ids of the course |
| Dashboard.RoundedPercent | app/dashboard/page.tsx:38-39 | the percentage is the nearest whole number to 100·count/total, halves rounded up |
| Dashboard.PercentAtMostHundred | app/dashboard/page.tsx:38-39 | a count not above the total gives at most 100 |
| Dashboard.PercentEnds | app/dashboard/page.tsx:38-39 | everything done gives 100 and nothing done gives 0 |
| Dashboard.SampleTotals | app/dashboard/page.tsx:35-36 | the course has 3 lessons and 6 exercises |
| Dashboard.FindLessonById | app/dashboard/page.tsx:51 | a lesson is found iff one has that id, and the one found has it |
| Dashboard.FindLessonAt | app/dashboard/page.tsx:45 | a lesson is found iff one sits at (ring, phase), and it is the first such lesson |
| Dashboard.SampleLessonCells | app/dashboard/page.tsx:43-49 | ring 1's first three phases lead to lessons 1, 2 and 3; every other cell leads nowhere |
| Dashboard.HandleSegmentClick | app/dashboard/page.tsx:43-49 | the position always becomes the clicked cell; the route is that cell's first lesson page, or none |
| Dashboard.ContinueLearningShown | app/dashboard/page.tsx:258 | the card is shown when the current lesson id names a course lesson |
| Dashboard.DefaultShowsContinue | app/dashboard/page.tsx:258 | the default position names lesson-1, so a fresh or reset store shows "Continue Learning" |
| Dashboard.Reversed | app/dashboard/page.tsx:56 | reversal keeps the length and mirrors the positions |
| Dashboard.KnownLessons | app/dashboard/page.tsx:57-58 | every kept lesson is a course lesson named by some id; the kept ids occur in `ids` in the same order; every id that names a lesson is kept |
| Dashboard.KnownLessonsSingle | app/dashboard/page.tsx:57-58 | one id maps to its lesson when the course has it and to nothing otherwise |
| Dashboard.KnownLessonsAppend | app/dashboard/page.tsx:57-58 | map-then-filter distributes over concatenation: the lessons of `a + b` are those of `a` followed by those of `b` |
| Dashboard.KnownLessonsAllKnown | app/dashboard/page.tsx:57-58 | when every id is known, nothing is dropped and the order is kept |
| Dashboard.LastFive | app/dashboard/page.tsx:55 | `slice(-5)` is the last min(5, n) ids |
| Dashboard.RecentActivity | app/dashboard/page.tsx:54-58 | at most five entries, each a course lesson completed within the last five; their ids occur newest first in the order of that window, and every window id naming a lesson has an entry |
| Dashboard.RecentActivityNewestFirst | app/dashboard/page.tsx:54-58 | when every completed id is a lesson, the entries are the newest min(5, n) completions, newest first |
| Dashboard.CompletedCount | app/dashboard/page.tsx:189 | the count equals the number of lessons whose id is completed; it is at most the number of lessons, equals it exactly when every lesson is completed, and is 0 exactly when none is |
| Dashboard.Highlighted | app/dashboard/page.tsx:195-213 | a lesson is highlighted when it is the current lesson and not completed |
| Dashboard.HighlightAtMostOne | app/dashboard/page.tsx:194-213 | with distinct ids at most one lesson is highlighted, and none once the current lesson is completed |
| LessonContent.LessonHrefInjective | components/lesson-content.tsx:145 | different lessons have different page addresses |
| LessonContent.FindIndex | components/lesson-content.tsx:20 | `findIndex` gives the first position with the id, or -1 iff none has it |
| LessonContent.PrevLesson | components/lesson-content.tsx:21 | there is a previous lesson iff the index is positive, and it is the one before |
| LessonContent.NextLesson | components/lesson-content.tsx:22 | there is a next lesson iff the index is before the last, and it is the one after |
| LessonContent.UnknownLessonNeighbours | components/lesson-content.tsx:20-22 | for a lesson not in the course there is no previous lesson and the next one is the first lesson |
| LessonContent.FindIndexOfDistinct | components/lesson-content.tsx:20 | with distinct ids a lesson is found at its own position |
| LessonContent.NextThenPrev | components/lesson-content.tsx:20-22 | with distinct ids, the previous lesson of a lesson's next lesson is that lesson |
| LessonContent.ForwardHref | components/lesson-content.tsx:153-167 | the forward link goes to the next lesson's page, or to /dashboard on the last lesson |
| LessonContent.TypeConfig | components/lesson-content.tsx:93-100 | each exercise type's label and route segment, as the lookup table gives them |
| LessonContent.ExerciseHref | components/lesson-content.tsx:105 | an exercise links to `/exercises/<type path>/<exercise id>` |
| LessonContent.TypeRoutesDistinct | components/lesson-content.tsx:93-105 | the four exercise types map to four different route segments; multiple-choice maps to quiz |
| LessonContent.MarkCompleteOffered | components/lesson-content.tsx:128 | the button is offered while the store does not report the lesson completed |
| LessonContent.MarkLessonComplete | components/lesson-content.tsx:128-139 | the button completes the lesson, after which it is no longer offered; only the lesson list changes |
| LessonSidebar.Toggle | components/lesson-sidebar.tsx:17-23 | toggling flips the module's membership and leaves every other id's count alone |
| LessonSidebar.ToggleOrder | components/lesson-sidebar.tsx:17-23 | an absent module is appended at the end; removing a present one keeps the others in order |
| LessonSidebar.ToggleTwiceRestores | components/lesson-sidebar.tsx:17-23 | expanding then collapsing a module restores the list exactly |
| LessonSidebar.RemoveAllAppended | components/lesson-sidebar.tsx:20 | filtering out an id that is only at the end gives back the list before it |
| LessonSidebar.Sidebar.constructor | components/lesson-sidebar.tsx:15 | the list starts as module-1 alone, so module-1 is expanded |
| LessonSidebar.Sidebar.ToggleModule | components/lesson-sidebar.tsx:17-23 | a header click flips that module's expanded state and applies `Toggle` |
| LessonSidebar.CompletedCount | components/lesson-sidebar.tsx:36-38 | the module's count equals the number of its lessons the store reports completed; it equals the module size exactly when every lesson is completed |
| LessonSidebar.IsActive | components/lesson-sidebar.tsx:68 | a sidebar link is active when the address is exactly that lesson's route |
| LessonSidebar.ActiveUnique | components/lesson-sidebar.tsx:68 | one address makes at most one lesson active, and a lesson's own page makes it active |

## Left out

- Persistence of the store to browser storage (the `persist` wrapper) is I/O. The store is an in-memory object.
- The random shuffle of Parsons lines is a parameter `shuffled` that must be a permutation of the code lines. The model does not fix which permutation.
- SVG path strings, `Math.cos`/`Math.sin` coordinates and colours as CSS are not modelled. Segments carry the radii, angles and large-arc flag the path is built from.
- Animation, hover styling, routing (`router.push`, `Link`) and React re-rendering are not modelled. Navigation is returned as a route string.
- Lesson bodies, questions, explanations, video links and code examples are prose that no logic reads. They are not fields of the datatypes.
- TypeScript numbers used as rings, indices and counters are `int`. Radii are `real`. No floating-point rounding is modelled except `Math.round` of non-negative percentages.
- SpiderWeb.WebView.MouseEnter: requires a ring in 1..5, because hover events only come from the drawn segments.
- ParsonsExercise.Session.DragEnd: requires both ids to be items on screen, because the drag library only reports sortable ids.
- TracingExercise.Session.JumpToStep: requires an index of an existing step, because a dot is drawn only per step.
- BsiExercise.Session.SelectOption: takes an option index, because only the three option buttons can select.
- The AI proxy route, the tracer service worker, the markdown renderer and the static presentational pages have no modelled logic.
- Exercise links are returned as route strings. Which pages exist at those routes is not modelled.
