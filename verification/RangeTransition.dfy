/** Moving a scope's distribution range under the server's rule that every write must be a
    superset or a subset of the range the scope already holds. */
module RangeTransition {
  import opened Addresses

  /** The range writes `_range_transition_steps` issues. */
  function RangeSteps(current: Range, desired: Range): seq<Range> {
    if current == desired then []
    else
      var union := Hull(current, desired);
      (if union != current then [union] else []) + (if union != desired then [desired] else [])
  }

  /** The server takes `next` on a scope that holds `held`. */
  predicate Admissible(held: Range, next: Range) {
    held.Within(next) || next.Within(held)
  }

  predicate AdmissibleWrites(held: Range, writes: seq<Range>)
    decreases |writes|
  {
    writes == [] || (Admissible(held, writes[0]) && AdmissibleWrites(writes[0], writes[1..]))
  }

  function LastHeld(held: Range, writes: seq<Range>): Range {
    if writes == [] then held else writes[|writes| - 1]
  }

  lemma StepsReachDesired(current: Range, desired: Range)
    ensures AdmissibleWrites(current, RangeSteps(current, desired))
    ensures LastHeld(current, RangeSteps(current, desired)) == desired
  {
    var steps := RangeSteps(current, desired);
    if |steps| == 2 {
      assert steps[1..] == [desired];
    }
  }

  /** No accepted sequence of writes that ends in `desired` is shorter. */
  lemma StepsAreFewest(current: Range, desired: Range, writes: seq<Range>)
    requires AdmissibleWrites(current, writes) && LastHeld(current, writes) == desired
    ensures |RangeSteps(current, desired)| <= |writes|
  {
    if |writes| == 1 {
      assert writes[0] == desired;
    }
  }

  /** Steps between ranges of usable addresses are themselves such ranges. */
  lemma StepsStayUsable(current: Range, desired: Range, net: Range, i: nat)
    requires current.WellFormed() && desired.WellFormed()
    requires net.start < current.start && current.end < net.end
    requires net.start < desired.start && desired.end < net.end
    requires i < |RangeSteps(current, desired)|
    ensures var r := RangeSteps(current, desired)[i];
            r.WellFormed() && net.start < r.start && r.end < net.end
    ensures RangeSteps(current, desired)[i].Within(Hull(current, desired))
  {
  }

  predicate OverlapOrTouch(a: Range, b: Range) {
    a.start <= b.end + 1 && b.start <= a.end + 1
  }

  /** The transition exposes no address outside both ranges exactly when they overlap or touch. */
  lemma NothingNewIsLeasable(current: Range, desired: Range)
    requires current.WellFormed() && desired.WellFormed()
    ensures OverlapOrTouch(current, desired) <==>
              forall i, a :: 0 <= i < |RangeSteps(current, desired)| && RangeSteps(current, desired)[i].Contains(a) ==>
                current.Contains(a) || desired.Contains(a)
  {
    var steps := RangeSteps(current, desired);
    if current.end + 1 < desired.start {
      var gap := current.end + 1;
      assert steps[0].Contains(gap) && !current.Contains(gap) && !desired.Contains(gap);
    } else if desired.end + 1 < current.start {
      var gap := desired.end + 1;
      assert steps[0].Contains(gap) && !current.Contains(gap) && !desired.Contains(gap);
    }
  }
}
