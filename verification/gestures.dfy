/** The rule-based gesture classifier: five finger flags, their total, and a
    fixed first-match-wins chain of rules. */
module Gestures {
  import opened Landmarks
  import opened Fingers

  /** The classifier's verdict. The detector reports each as a display label;
      `OpenCount(n)` is the fallback label "n fingers open". */
  datatype Gesture = Peace | HiFive | Fist | ThumbsUp | OK | OpenCount(n: nat)

  /** Classifies one hand. The rules are tried in this order and the first that
      applies wins: two fingers up which are index and middle gives Peace; five
      up gives HiFive; none up gives Fist; one up which is the thumb gives
      ThumbsUp; three up with the thumb up, the index down and thumb tip and
      index tip touching gives OK; anything else reports the number up. */
  function Classify(lm: seq<Landmark>): (g: Gesture)
    requires IsHand(lm)
    ensures g.OpenCount? ==> 1 <= g.n <= 4 && g.n == RaisedCount(lm)
  {
    FlagsMatchFingers(lm);
    var f := FingerFlags(lm);
    var total := Sum(f);
    if total == 2 && f[1] == 1 && f[2] == 1 then Peace
    else if total == 5 then HiFive
    else if total == 0 then Fist
    else if total == 1 && f[0] == 1 then ThumbsUp
    else if total == 3 && f[0] == 1 && f[1] == 0 && CloseForOk(lm[ThumbTip], lm[IndexTip]) then OK
    else OpenCount(total)
  }
}
