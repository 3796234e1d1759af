/** How often something happens in a stretch of a run, and how a measure bounds it. */
module Counting {
  function One(b: bool): nat {
    if b then 1 else 0
  }

  /** The marks set from `i` up to, and not including, `j`. */
  function Count(marks: seq<bool>, i: nat, j: nat): nat
    requires i <= j <= |marks|
  {
    if i == j then 0 else Count(marks, i, j - 1) + One(marks[j - 1])
  }

  lemma {:induction false} CountNone(marks: seq<bool>, i: nat, j: nat)
    requires i <= j <= |marks| && forall k :: i <= k < j ==> !marks[k]
    ensures Count(marks, i, j) == 0
  {
    if i < j {
      CountNone(marks, i, j - 1);
    }
  }

  /** If every step `down` lowers the measure and no other step raises it, except by two in a step `up`. */
  lemma {:induction false} Telescope(measures: seq<nat>, down: seq<bool>, up: seq<bool>, i: nat, j: nat)
    requires i <= j < |measures| == |down| + 1 == |up| + 1
    requires forall k :: i <= k < j ==> measures[k + 1] + One(down[k]) <= measures[k] + 2 * One(up[k])
    ensures Count(down, i, j) + measures[j] <= measures[i] + 2 * Count(up, i, j)
    decreases j
  {
    if i < j {
      Telescope(measures, down, up, i, j - 1);
    }
  }
}
