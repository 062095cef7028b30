/**
 * Frame times: the per-frame `dt` values, in seconds, that the window
 * manager's scroll clock and the cursor's clocks advance by.
 */
module Frames {

  /** The total time of a run of frames. */
  function Duration(dts: seq<real>): real
    decreases |dts|
  {
    if dts == [] then 0.0 else dts[0] + Duration(dts[1..])
  }

  predicate NonNegative(dts: seq<real>) {
    forall k :: 0 <= k < |dts| ==> dts[k] >= 0.0
  }

  lemma {:induction false} DurationNonNegative(dts: seq<real>)
    requires NonNegative(dts)
    ensures Duration(dts) >= 0.0
    decreases |dts|
  {
    if dts != [] {
      DurationNonNegative(dts[1..]);
    }
  }
}
