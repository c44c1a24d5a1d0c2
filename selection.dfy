/**
 * The stream idiom the matching engine uses three times:
 * `map(score).filter(s -> s >= 0).max(Comparator.comparingInt(...))`.
 * Java's Stream.max reduces with BinaryOperator.maxBy, which keeps the
 * earlier of two equal elements, so the winner is the FIRST element with
 * the greatest non-negative score.
 */
module Selection {
  import opened Wrappers

  /** k is the first position holding the greatest non-negative score. */
  predicate IsFirstMax(scores: seq<int>, k: int) {
    && 0 <= k < |scores|
    && scores[k] >= 0
    && (forall j :: 0 <= j < |scores| ==> scores[j] <= scores[k])
    && (forall j :: 0 <= j < k ==> scores[j] < scores[k])
  }

  /** Nothing survives the `filter(s -> s >= 0)`. */
  predicate NoneMatch(scores: seq<int>) {
    forall j :: 0 <= j < |scores| ==> scores[j] < 0
  }

  /** The reduction itself, left to right as the sequential stream runs it. */
  function FirstMax(scores: seq<int>): (r: Option<nat>)
    ensures r.None? <==> NoneMatch(scores)
    ensures r.Some? ==> IsFirstMax(scores, r.value)
  {
    if |scores| == 0 then None
    else
      var last := |scores| - 1;
      var best := FirstMax(scores[..last]);
      if scores[last] < 0 then best
      else if best.Some? && scores[best.value] >= scores[last] then best
      else Some(last)
  }

  /** At most one position is the first maximum. */
  lemma FirstMaxUnique(scores: seq<int>, a: int, b: int)
    requires IsFirstMax(scores, a) && IsFirstMax(scores, b)
    ensures a == b
  {
  }
}
