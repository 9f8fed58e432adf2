/** Stand-in for the minimum-of-sequences helper of the library's utility class.
    Its source is not part of this model: what follows is an assumption about it,
    namely that it folds the smallest of the given default and every gating
    position, which in particular yields the default when there are no gating
    positions. It works here on the positions' values rather than on the
    position objects themselves. */
module Util {

  /** The smallest of `minimum` and all of `values`, scanned left to right. */
  function MinimumSequence(values: seq<int>, minimum: int): (r: int)
    ensures r <= minimum
    ensures forall i :: 0 <= i < |values| ==> r <= values[i]
    ensures r == minimum || exists i :: 0 <= i < |values| && r == values[i]
    decreases |values|
  {
    if |values| == 0 then minimum
    else
      var m := if values[0] < minimum then values[0] else minimum;
      var r := MinimumSequence(values[1..], m);
      assert r == m || exists i :: 0 <= i < |values[1..]| && r == values[1..][i];
      r
  }
}
