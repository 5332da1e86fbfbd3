/** The bundled curriculum: three ring-1 lessons with two exercises each,
    the single course module that holds them, and the default progress
    record (lib/sample-data.ts). Lesson bodies and other prose that no
    logic reads are not part of this model. */
module SampleData {
  import opened Types
  import opened SeqUtil

  const HelloLine: string := "print(\"Hello, World!\")"
  const AskNameLine: string := "name = input(\"What is your name? \")"
  const GreetLine: string := "print(\"Hello, \" + name + \"!\")"

  const Ex1_1: Exercise := Exercise(
    "ex-1-1", Parsons, None,
    Some([HelloLine]),
    Lines([HelloLine]),
    ["This program only needs one line", "Use the print() function to display text"],
    None)

  const Ex1_2: Exercise := Exercise(
    "ex-1-2", Parsons, None,
    Some([AskNameLine, GreetLine]),
    Lines([AskNameLine, GreetLine]),
    ["First, we need to get the user's name", "Then we can greet them using that name"],
    None)

  /** The lines of ex-2-1's program; its `code` is these joined by newlines. */
  const Ex2_1Code: seq<string> := ["x = 10", "y = 3", "x = x + y", "print(x)"]

  const Ex2_1: Exercise := Exercise(
    "ex-2-1", Tracing,
    Some(JoinLines(Ex2_1Code)),
    None,
    Text("13"),
    ["Start by writing down what x and y are after lines 1 and 2",
     "On line 3, x + y means \"current value of x\" plus \"current value of y\""],
    Some([
      TracingStep(1, "Assign 10 to x", map["x" := Num(10)], None),
      TracingStep(2, "Assign 3 to y", map["x" := Num(10), "y" := Num(3)], None),
      TracingStep(3, "Add x + y (10 + 3), assign result to x", map["x" := Num(13), "y" := Num(3)], None),
      TracingStep(4, "Print the value of x", map["x" := Num(13), "y" := Num(3)], Some("13"))
    ]))

  /** The lines of ex-2-2's program. */
  const Ex2_2Code: seq<string> := ["a = 5", "b = a", "a = 10", "print(b)"]

  const Ex2_2: Exercise := Exercise(
    "ex-2-2", Tracing,
    Some(JoinLines(Ex2_2Code)),
    None,
    Text("5"),
    ["When b = a runs, b gets the VALUE that a had at that moment",
     "Changing a later does not affect b"],
    Some([
      TracingStep(1, "Assign 5 to a", map["a" := Num(5)], None),
      TracingStep(2, "Assign the current value of a (5) to b", map["a" := Num(5), "b" := Num(5)], None),
      TracingStep(3, "Assign 10 to a (b stays unchanged!)", map["a" := Num(10), "b" := Num(5)], None),
      TracingStep(4, "Print the value of b", map["a" := Num(10), "b" := Num(5)], Some("5"))
    ]))

  const Ex3_1: Exercise := Exercise(
    "ex-3-1", Bsi, None, None,
    Text("behavior"),
    ["Think about what each code produces as output", "Consider: do they use the same approach?"],
    None)

  const Ex3_2: Exercise := Exercise(
    "ex-3-2", Bsi, None, None,
    Text("implementation"),
    ["Look very carefully at both code examples", "Are there ANY differences at all?"],
    None)

  const Lesson1: Lesson := Lesson("lesson-1", "What is a Python Program?", 1, Functional, [Ex1_1, Ex1_2], [])
  const Lesson2: Lesson := Lesson("lesson-2", "Reading Variable Assignments", 1, Navigational, [Ex2_1, Ex2_2], ["lesson-1"])
  const Lesson3: Lesson := Lesson("lesson-3", "Debugging Print Statements", 1, Maintainer, [Ex3_1, Ex3_2], ["lesson-2"])

  /** `sampleLessons`, in course order. */
  const SampleLessons: seq<Lesson> := [Lesson1, Lesson2, Lesson3]

  /** `sampleModules`: one ring-1 module holding every sample lesson. */
  const SampleModules: seq<CourseModule> := [CourseModule("module-1", "Getting Started with Python", 1, SampleLessons)]

  /** `defaultProgress`: nothing completed, positioned at lesson-1, ring 1, functional. */
  const DefaultProgress: Progress := Progress([], [], "lesson-1", 1, Functional)

  /** The ids of `lessons`, in order. */
  function LessonIds(lessons: seq<Lesson>): (ids: seq<string>)
    ensures |ids| == |lessons|
    ensures forall i :: 0 <= i < |lessons| ==> ids[i] == lessons[i].id
  {
    if lessons == [] then [] else [lessons[0].id] + LessonIds(lessons[1..])
  }

  /** The ids of every exercise of every lesson, lesson by lesson. */
  function ExerciseIds(lessons: seq<Lesson>): seq<string> {
    if lessons == [] then []
    else ExerciseIdsOf(lessons[0].exercises) + ExerciseIds(lessons[1..])
  }

  function ExerciseIdsOf(exercises: seq<Exercise>): (ids: seq<string>)
    ensures |ids| == |exercises|
    ensures forall i :: 0 <= i < |exercises| ==> ids[i] == exercises[i].id
  {
    if exercises == [] then [] else [exercises[0].id] + ExerciseIdsOf(exercises[1..])
  }
}
