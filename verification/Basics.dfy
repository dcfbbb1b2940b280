/** Small definitions shared by the whole project. */
module Basics {

  datatype Option<+T> = None | Some(value: T)

  /** The newest `max` elements of `s`: what a trimmed history holds. */
  function LastN<T>(s: seq<T>, max: nat): (r: seq<T>)
  {
    if |s| > max then s[|s| - max..] else s
  }

  /** Appending one element to a window and trimming again is the window of the longer log. */
  lemma LastNAppend<T>(s: seq<T>, x: T, max: nat)
    requires max > 0
    ensures LastN(LastN(s, max) + [x], max) == LastN(s + [x], max)
  {
  }

  /** An element without a newer copy of itself is in the window iff fewer than `max` elements are newer. */
  lemma LastNHolds<T>(older: seq<T>, x: T, newer: seq<T>, max: nat)
    requires x !in newer
    ensures x in LastN(older + [x] + newer, max) <==> |newer| < max
  {
    var all := older + [x] + newer;
    assert all[|older|] == x;
    if |newer| < max {
      if |all| > max {
        assert LastN(all, max)[|older| - (|all| - max)] == x;
      }
    } else {
      assert LastN(all, max) == newer[|newer| - max..];
    }
  }
}
