/** The hint counter shared by the three exercise screens: `showNextHint`
    advances `hintIndex` only while it is below `hints.length - 1`
    (components/exercises/parsons-exercise.tsx, tracing-exercise.tsx,
    bsi-exercise.tsx). */
module Hints {

  /** The largest index the counter can reach with `count` hints. */
  function HintCap(count: nat): nat {
    if count > 0 then count - 1 else 0
  }

  /** The counter after one press of the hint button. */
  function NextHint(index: int, count: nat): (r: int)
    ensures index <= r <= index + 1
    ensures 0 <= index <= HintCap(count) ==> 0 <= r <= HintCap(count)
    ensures r == index + 1 <==> index < count - 1
  {
    if index < count - 1 then index + 1 else index
  }

  /** The counter after `presses` presses from `index`. */
  function PressHint(index: int, count: nat, presses: nat): int
    decreases presses
  {
    if presses == 0 then index else PressHint(NextHint(index, count), count, presses - 1)
  }

  /** Starting from the first hint, `k` presses show hint `min(k, cap)`:
      the counter climbs one step per press and then stays at the last
      hint. */
  lemma {:induction false} PressHintFromStart(count: nat, k: nat)
    ensures PressHint(0, count, k) == if k <= HintCap(count) then k else HintCap(count)
  {
    PressHintFrom(0, count, k);
  }

  lemma {:induction false} PressHintFrom(index: nat, count: nat, k: nat)
    requires index <= HintCap(count)
    ensures PressHint(index, count, k) == if index + k <= HintCap(count) then index + k else HintCap(count)
    decreases k
  {
    if k > 0 {
      PressHintFrom(NextHint(index, count), count, k - 1);
    }
  }
}
