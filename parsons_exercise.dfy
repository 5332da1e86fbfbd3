/** The line-ordering (Parsons) exercise screen
    (components/exercises/parsons-exercise.tsx): the learner drags
    shuffled code lines into order, checks the arrangement position by
    position, asks for hints, resets, and after three attempts may reveal
    the answer. */
module ParsonsExercise {
  import opened Types
  import opened SeqUtil
  import opened Hints
  import ProgressStore

  /** dnd-kit's `arrayMove`: take the element at `from` out and insert it
      at `to`. */
  function ArrayMove(s: seq<string>, from: nat, to: nat): (r: seq<string>)
    requires from < |s| && to < |s|
    ensures |r| == |s|
    ensures multiset(r) == multiset(s)
    ensures r[to] == s[from]
    ensures r[..to] + r[to + 1..] == s[..from] + s[from + 1..]
  {
    var rest := s[..from] + s[from + 1..];
    assert s == s[..from] + [s[from]] + s[from + 1..];
    assert multiset(s) == multiset(s[..from]) + multiset{s[from]} + multiset(s[from + 1..]);
    assert rest == rest[..to] + rest[to..];
    assert multiset(rest[..to] + [s[from]] + rest[to..]) == multiset(rest) + multiset{s[from]};
    rest[..to] + [s[from]] + rest[to..]
  }

  /** Moving an element back to where it came from undoes the move. */
  lemma ArrayMoveUndo(s: seq<string>, from: nat, to: nat)
    requires from < |s| && to < |s|
    ensures ArrayMove(ArrayMove(s, from, to), to, from) == s
  {
    var rest := s[..from] + s[from + 1..];
    var r := ArrayMove(s, from, to);
    assert r[..to] + r[to + 1..] == rest;
    assert rest[..from] + [s[from]] + rest[from..] == s;
  }

  /** `items.map((item, index) => item === correctAnswer[index])`; a
      position past the end of the answer compares with `undefined`. */
  function CheckResults(items: seq<string>, correct: seq<string>): (results: seq<bool>)
    ensures |results| == |items|
  {
    seq(|items|, i requires 0 <= i < |items| => i < |correct| && items[i] == correct[i])
  }

  /** `results.every(r => r)`. */
  predicate AllTrue(results: seq<bool>) {
    forall i :: 0 <= i < |results| ==> results[i]
  }

  /** The check passes exactly when the arrangement is a prefix of the
      answer; for an arrangement of the answer's length, exactly when it
      is the answer. An empty arrangement passes vacuously. */
  lemma CheckPassesIff(items: seq<string>, correct: seq<string>)
    ensures AllTrue(CheckResults(items, correct)) <==> |items| <= |correct| && items == correct[..|items|]
    ensures |items| == |correct| ==> (AllTrue(CheckResults(items, correct)) <==> items == correct)
  {
    var results := CheckResults(items, correct);
    if |items| > |correct| {
      OverlongFails(items, correct);
    } else if AllTrue(results) {
      forall i | 0 <= i < |items| ensures items[i] == correct[..|items|][i] {
        assert results[i];
      }
    }
  }

  lemma OverlongFails(items: seq<string>, correct: seq<string>)
    requires |items| > |correct|
    ensures !AllTrue(CheckResults(items, correct))
  {
    assert !CheckResults(items, correct)[|correct|];
  }

  /** An arrangement of the answer's length that differs from it in some
      position is marked false at that position. */
  lemma MisplacedLineMarked(items: seq<string>, correct: seq<string>, i: nat)
    requires |items| == |correct| && i < |items| && items[i] != correct[i]
    ensures !CheckResults(items, correct)[i]
    ensures !AllTrue(CheckResults(items, correct))
  {
  }

  /** The per-position marks after `revealAnswer`: all true. */
  function AllMarked(correct: seq<string>): (results: seq<bool>)
    ensures |results| == |correct|
    ensures results == CheckResults(correct, correct)
  {
    seq(|correct|, _ => true)
  }

  class Session {
    const exerciseId: string
    const codeLines: Option<seq<string>>
    const correctAnswer: seq<string>
    const hints: seq<string>
    const store: ProgressStore.Store

    var items: seq<string>
    var checkResult: seq<bool>
    var showHint: bool
    var hintIndex: int
    var attempts: nat
    var showAnswer: bool

    /** The lines the screen shuffles (`codeLines`, or none). */
    function Lines(): seq<string>
      reads this
    {
      codeLines.GetOr([])
    }

    /** The arrangement is always a rearrangement of the lines (or, once
        revealed, of the answer); any marks shown are the check of the
        current arrangement; the hint counter is within the hints. */
    ghost predicate Valid()
      reads this, store
    {
      && store.Valid()
      && (multiset(items) == multiset(Lines()) || multiset(items) == multiset(correctAnswer))
      && (checkResult == [] || checkResult == CheckResults(items, correctAnswer))
      && 0 <= hintIndex <= HintCap(|hints|)
    }

    /** The screen after mounting: `shuffled` stands for the random
        reordering of the code lines. */
    constructor (exercise: Exercise, store: ProgressStore.Store, shuffled: seq<string>)
      requires exercise.correctAnswer.Lines?
      requires store.Valid()
      requires exercise.codeLines.Some? ==> multiset(shuffled) == multiset(exercise.codeLines.value)
      ensures Valid()
      ensures exerciseId == exercise.id && codeLines == exercise.codeLines
      ensures correctAnswer == exercise.correctAnswer.lines && hints == exercise.hints && this.store == store
      ensures items == if exercise.codeLines.Some? then shuffled else []
      ensures checkResult == [] && !showHint && hintIndex == 0 && attempts == 0 && !showAnswer
    {
      exerciseId := exercise.id;
      codeLines := exercise.codeLines;
      correctAnswer := exercise.correctAnswer.lines;
      hints := exercise.hints;
      this.store := store;
      items := if exercise.codeLines.Some? then shuffled else [];
      checkResult := [];
      showHint := false;
      hintIndex := 0;
      attempts := 0;
      showAnswer := false;
    }

    /** `allCorrect`: some marks are shown and all are true. */
    predicate AllCorrect()
      reads this
    {
      |checkResult| > 0 && AllTrue(checkResult)
    }

    /** "Check Answer" is enabled unless the answer is shown or all correct. */
    predicate CanCheck()
      reads this
    {
      !showAnswer && !AllCorrect()
    }

    /** "Show Answer" is offered after three attempts while not all correct. */
    predicate ShowAnswerOffered()
      reads this
    {
      attempts >= 3 && !AllCorrect()
    }

    /** When all marks are true, the arrangement is the answer (for a
        well-formed exercise, whose answer rearranges its lines). */
    lemma AllCorrectMeansSolved()
      requires Valid() && AllCorrect()
      requires multiset(Lines()) == multiset(correctAnswer)
      ensures items == correctAnswer
    {
      assert |items| == |correctAnswer| by {
        assert |multiset(items)| == |multiset(correctAnswer)|;
      }
      CheckPassesIff(items, correctAnswer);
    }

    /** `handleDragEnd`: a drop on another item moves the dragged item
        there and clears the marks; a drop on nothing or on itself changes
        nothing. */
    method DragEnd(active: string, over: Option<string>)
      requires Valid()
      requires active in items && (over.Some? ==> over.value in items)
      modifies this
      ensures Valid()
      ensures multiset(items) == multiset(old(items))
      ensures if over.Some? && active != over.value then
                && items == ArrayMove(old(items), IndexOf(old(items), active), IndexOf(old(items), over.value))
                && checkResult == []
              else items == old(items) && checkResult == old(checkResult)
      ensures over.Some? && active != over.value ==> !AllCorrect() && (CanCheck() <==> !showAnswer)
      ensures showHint == old(showHint) && hintIndex == old(hintIndex)
      ensures attempts == old(attempts) && showAnswer == old(showAnswer)
    {
      if over.Some? && active != over.value {
        var oldIndex := IndexOf(items, active);
        var newIndex := IndexOf(items, over.value);
        items := ArrayMove(items, oldIndex, newIndex);
        checkResult := [];
      }
    }

    /** `checkAnswer`: mark every position, count the attempt, and record
        the exercise as completed when every mark is true. */
    method CheckAnswer()
      requires Valid()
      modifies this, store
      ensures Valid()
      ensures checkResult == CheckResults(items, correctAnswer)
      ensures forall i :: 0 <= i < |items| ==> (checkResult[i] <==> i < |correctAnswer| && items[i] == correctAnswer[i])
      ensures attempts == old(attempts) + 1
      ensures items == old(items) && showHint == old(showHint) && hintIndex == old(hintIndex) && showAnswer == old(showAnswer)
      ensures store.Snapshot() ==
                if AllTrue(checkResult)
                then old(store.Snapshot()).(completedExercises := ProgressStore.AddUnique(old(store.completedExercises), exerciseId))
                else old(store.Snapshot())
    {
      var results := CheckResults(items, correctAnswer);
      checkResult := results;
      attempts := attempts + 1;
      if AllTrue(results) {
        store.CompleteExercise(exerciseId);
      }
    }

    /** `resetExercise`: reshuffle (when there are code lines), clear the
        marks, the hint and the revealed answer; attempts are kept. */
    method ResetExercise(shuffled: seq<string>)
      requires Valid()
      requires codeLines.Some? ==> multiset(shuffled) == multiset(codeLines.value)
      modifies this
      ensures Valid()
      ensures items == if codeLines.Some? then shuffled else old(items)
      ensures checkResult == [] && !showHint && hintIndex == 0 && !showAnswer
      ensures attempts == old(attempts)
    {
      if codeLines.Some? {
        items := shuffled;
      }
      checkResult := [];
      showHint := false;
      hintIndex := 0;
      showAnswer := false;
    }

    /** `showNextHint`: advance the counter up to the last hint and show it. */
    method ShowNextHint()
      requires Valid()
      modifies this
      ensures Valid()
      ensures hintIndex == NextHint(old(hintIndex), |hints|) && showHint
      ensures items == old(items) && checkResult == old(checkResult)
      ensures attempts == old(attempts) && showAnswer == old(showAnswer)
    {
      hintIndex := NextHint(hintIndex, |hints|);
      showHint := true;
    }

    /** `revealAnswer`: show the answer with every position marked true.
        It does not record the exercise as completed. */
    method RevealAnswer()
      requires Valid()
      modifies this
      ensures Valid()
      ensures items == correctAnswer && showAnswer
      ensures checkResult == AllMarked(correctAnswer)
      ensures |correctAnswer| > 0 ==> AllCorrect() && !ShowAnswerOffered()
      ensures !CanCheck()
      ensures showHint == old(showHint) && hintIndex == old(hintIndex) && attempts == old(attempts)
    {
      items := correctAnswer;
      showAnswer := true;
      checkResult := AllMarked(correctAnswer);
    }
  }
}
