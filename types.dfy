/** The curriculum vocabulary shared by every screen: phases and their
    angular intervals, ring labels, and the shapes of lessons, exercises
    and the learner's progress record (lib/types.ts). */
module Types {

  datatype Option<+T> = None | Some(value: T) {
    function GetOr(default: T): T {
      match this
      case Some(v) => v
      case None => default
    }
  }

  /** The four pedagogical phases, one per quarter of the progress web. */
  datatype Phase = Functional | Navigational | Maintainer | Builder

  /** The phases in the declaration order of PHASE_CONFIG, which is the
      order in which the web enumerates them. */
  const Phases: seq<Phase> := [Functional, Navigational, Maintainer, Builder]

  /** The string tag the source uses for each phase. */
  function PhaseName(p: Phase): string {
    match p
    case Functional => "functional"
    case Navigational => "navigational"
    case Maintainer => "maintainer"
    case Builder => "builder"
  }

  /** Position of a phase in `Phases`. */
  function PhaseIndex(p: Phase): (i: nat)
    ensures i < |Phases| && Phases[i] == p
  {
    match p
    case Functional => 0
    case Navigational => 1
    case Maintainer => 2
    case Builder => 3
  }

  /** Angles in whole degrees, clockwise from "up". */
  datatype AngleRange = AngleRange(start: int, end: int)

  datatype PhaseConfig = PhaseConfig(displayLabel: string, description: string, color: string, angle: AngleRange)

  /** PHASE_CONFIG: label, description, colour class and angular interval. */
  function Config(p: Phase): PhaseConfig {
    match p
    case Functional => PhaseConfig("Functional", "Can you run the program? Can you describe what it does?",
                                   "phase-functional", AngleRange(0, 90))
    case Navigational => PhaseConfig("Navigational", "Can you read the code? Can you connect code to behavior?",
                                     "phase-navigational", AngleRange(90, 180))
    case Maintainer => PhaseConfig("Maintainer", "Can you modify, debug, refactor, test the code?",
                                   "phase-maintainer", AngleRange(180, 270))
    case Builder => PhaseConfig("Builder", "Can you build it from scratch?",
                                "phase-builder", AngleRange(270, 360))
  }

  /** RING_LABELS, indexed by ring number; index 0 is the centre circle. */
  const RingLabels: seq<string> := [
    "Markdown",
    "Basic Python",
    "Functions + Loops",
    "Lists + Dictionaries",
    "Classes + Modules",
    "APIs + Libraries"
  ]

  datatype ExerciseType = Parsons | Tracing | Bsi | MultipleChoice

  /** `correctAnswer: string[] | string | boolean`. */
  datatype Answer = Lines(lines: seq<string>) | Text(text: string) | Flag(flag: bool)

  /** A traced variable's value: `string | number | boolean | null`. */
  datatype VarValue = Str(s: string) | Num(n: int) | Bool(b: bool) | Null

  datatype TracingStep = TracingStep(
    lineNumber: int,
    description: string,
    variables: map<string, VarValue>,
    output: Option<string>)

  datatype Exercise = Exercise(
    id: string,
    kind: ExerciseType,
    code: Option<string>,
    codeLines: Option<seq<string>>,
    correctAnswer: Answer,
    hints: seq<string>,
    tracingSteps: Option<seq<TracingStep>>)

  datatype Lesson = Lesson(
    id: string,
    title: string,
    ring: int,
    phase: Phase,
    exercises: seq<Exercise>,
    prerequisites: seq<string>)

  /** A course module (`Module` in the source; renamed because `module`
      is a Dafny keyword). */
  datatype CourseModule = CourseModule(id: string, title: string, ring: int, lessons: seq<Lesson>)

  /** The learner's progress record: two insertion-ordered id lists, the
      current lesson id and the current (ring, phase) position. */
  datatype Progress = Progress(
    completedLessons: seq<string>,
    completedExercises: seq<string>,
    currentLesson: string,
    currentRing: int,
    currentPhase: Phase)

  /** Every phase is listed exactly once in `Phases`, so the enumeration
      has exactly four variants. */
  lemma PhasesEnumerateAll(p: Phase)
    ensures |Phases| == 4
    ensures p in Phases
    ensures forall i, j :: 0 <= i < j < |Phases| ==> Phases[i] != Phases[j]
  {
    assert Phases[PhaseIndex(p)] == p;
  }

  /** Every phase interval is exactly a quarter turn. */
  lemma PhaseIntervalWidth(p: Phase)
    ensures Config(p).angle.start < Config(p).angle.end
    ensures Config(p).angle.end - Config(p).angle.start == 90
  {
  }

  /** The intervals, in declaration order, start at 0, end at 360 and
      each ends where the next begins; hence every whole angle in
      [0, 360) lies in exactly one of them. */
  lemma PhaseIntervalsPartitionCircle(a: int)
    ensures Config(Phases[0]).angle.start == 0
    ensures Config(Phases[|Phases| - 1]).angle.end == 360
    ensures forall i :: 0 <= i < |Phases| - 1 ==> Config(Phases[i]).angle.end == Config(Phases[i + 1]).angle.start
    ensures 0 <= a < 360 ==> exists p :: Config(p).angle.start <= a < Config(p).angle.end
    ensures forall p, q ::
              (Config(p).angle.start <= a < Config(p).angle.end && Config(q).angle.start <= a < Config(q).angle.end)
              ==> p == q
  {
    if 0 <= a < 360 {
      var p := if a < 90 then Functional else if a < 180 then Navigational
               else if a < 270 then Maintainer else Builder;
      assert Config(p).angle.start <= a < Config(p).angle.end;
    }
  }

  /** Ring indices 0..5 are the valid indices of RING_LABELS. */
  lemma RingLabelsCover()
    ensures |RingLabels| == 6
    ensures RingLabels[0] == "Markdown"
  {
  }
}
