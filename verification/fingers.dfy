/** Which fingers of a hand are raised: the five 0/1 flags the classifier
    derives from the landmarks, their total, and an independent per-finger
    reading of the same landmarks that the flags are proved to agree with. */
module Fingers {
  import opened Landmarks

  datatype Finger = Thumb | Index | Middle | Ring | Pinky

  /** The fingers in the order the flags list them, thumb first. */
  const AllFingers: seq<Finger> := [Thumb, Index, Middle, Ring, Pinky]

  /** Tip landmark of each finger, thumb first. */
  const FingerTips: seq<nat> := [ThumbTip, IndexTip, MiddleTip, RingTip, PinkyTip]

  /** Lower joint compared with each tip: the thumb's IP joint, then the PIP
      joints of the other four fingers. */
  const FingerPips: seq<nat> := [ThumbIp, IndexPip, MiddlePip, RingPip, PinkyPip]

  /** A finger other than the thumb is up when its tip lies strictly higher in
      the image than its PIP joint (image y grows downwards). */
  predicate IsFingerUp(lm: seq<Landmark>, tip: nat, pip: nat)
    requires tip < |lm| && pip < |lm|
  {
    lm[tip].y < lm[pip].y
  }

  function Bit(b: bool): nat
  {
    if b then 1 else 0
  }

  /** The flag list: entry 0 is the thumb, decided by a horizontal test that
      assumes a right hand seen in a mirrored image; entries 1 to 4 are index,
      middle, ring and pinky, decided by the vertical tip/PIP test. */
  function FingerFlags(lm: seq<Landmark>): (f: seq<nat>)
    requires IsHand(lm)
    ensures |f| == 5
    ensures forall i :: 0 <= i < |f| ==> f[i] <= 1
    ensures f[0] == 1 <==> lm[4].x > lm[3].x
    ensures f[1] == 1 <==> lm[8].y < lm[6].y
    ensures f[2] == 1 <==> lm[12].y < lm[10].y
    ensures f[3] == 1 <==> lm[16].y < lm[14].y
    ensures f[4] == 1 <==> lm[20].y < lm[18].y
  {
    [ Bit(lm[FingerTips[0]].x > lm[FingerPips[0]].x),
      Bit(IsFingerUp(lm, FingerTips[1], FingerPips[1])),
      Bit(IsFingerUp(lm, FingerTips[2], FingerPips[2])),
      Bit(IsFingerUp(lm, FingerTips[3], FingerPips[3])),
      Bit(IsFingerUp(lm, FingerTips[4], FingerPips[4])) ]
  }

  /** The flag list built the way the detector builds it: the thumb first,
      then one flag per remaining finger in a loop over the tip/PIP tables. */
  method DetectFingersUp(lm: seq<Landmark>) returns (fingers: seq<nat>)
    requires IsHand(lm)
    ensures fingers == FingerFlags(lm)
  {
    fingers := [];
    if lm[FingerTips[0]].x > lm[FingerPips[0]].x {
      fingers := fingers + [1];
    } else {
      fingers := fingers + [0];
    }
    var i := 1;
    while i < 5
      invariant 1 <= i <= 5
      invariant |fingers| == i
      invariant forall k :: 0 <= k < i ==> fingers[k] == FingerFlags(lm)[k]
    {
      FlagFromTables(lm, i);
      if IsFingerUp(lm, FingerTips[i], FingerPips[i]) {
        fingers := fingers + [1];
      } else {
        fingers := fingers + [0];
      }
      i := i + 1;
    }
  }

  /** Flag `i` of a non-thumb finger is the tip/PIP test on that finger's
      entries of the tables. */
  lemma FlagFromTables(lm: seq<Landmark>, i: nat)
    requires IsHand(lm) && 1 <= i < 5
    ensures FingerFlags(lm)[i] == Bit(IsFingerUp(lm, FingerTips[i], FingerPips[i]))
  {
  }

  /** The sum of a list of counts; on 0/1 flags it is the number of ones. */
  function Sum(s: seq<nat>): (r: nat)
    ensures (forall i :: 0 <= i < |s| ==> s[i] <= 1) ==> r <= |s|
    ensures r == 0 <==> forall i :: 0 <= i < |s| ==> s[i] == 0
  {
    if |s| == 0 then 0 else s[0] + Sum(s[1..])
  }

  /** Reference reading of one finger, written per finger against the named
      keypoints rather than through the tip/PIP tables. */
  predicate Extended(lm: seq<Landmark>, f: Finger)
    requires IsHand(lm)
  {
    match f
    case Thumb => lm[ThumbTip].x > lm[ThumbIp].x
    case Index => lm[IndexTip].y < lm[IndexPip].y
    case Middle => lm[MiddleTip].y < lm[MiddlePip].y
    case Ring => lm[RingTip].y < lm[RingPip].y
    case Pinky => lm[PinkyTip].y < lm[PinkyPip].y
  }

  /** How many of the given fingers are extended. */
  function CountExtended(lm: seq<Landmark>, fs: seq<Finger>): (n: nat)
    requires IsHand(lm)
    ensures n <= |fs|
  {
    if |fs| == 0 then 0 else Bit(Extended(lm, fs[0])) + CountExtended(lm, fs[1..])
  }

  /** How many of the hand's five fingers are extended. */
  function RaisedCount(lm: seq<Landmark>): nat
    requires IsHand(lm)
  {
    CountExtended(lm, AllFingers)
  }

  /** The raised-finger count written out finger by finger. */
  lemma RaisedCountByFinger(lm: seq<Landmark>)
    requires IsHand(lm)
    ensures RaisedCount(lm) ==
      Bit(Extended(lm, Thumb)) + Bit(Extended(lm, Index)) + Bit(Extended(lm, Middle))
      + Bit(Extended(lm, Ring)) + Bit(Extended(lm, Pinky))
  {
    assert AllFingers[1..] == [Index, Middle, Ring, Pinky];
    assert [Index, Middle, Ring, Pinky][1..] == [Middle, Ring, Pinky];
    assert [Middle, Ring, Pinky][1..] == [Ring, Pinky];
    assert [Ring, Pinky][1..] == [Pinky];
    assert [Pinky][1..] == [];
    assert CountExtended(lm, [Pinky]) == Bit(Extended(lm, Pinky));
    assert CountExtended(lm, [Ring, Pinky]) == Bit(Extended(lm, Ring)) + Bit(Extended(lm, Pinky));
    assert CountExtended(lm, [Middle, Ring, Pinky])
      == Bit(Extended(lm, Middle)) + CountExtended(lm, [Ring, Pinky]);
    assert CountExtended(lm, [Index, Middle, Ring, Pinky])
      == Bit(Extended(lm, Index)) + CountExtended(lm, [Middle, Ring, Pinky]);
  }

  /** Summing flags that mirror the reference reading of a list of fingers
      counts the extended fingers of that list. */
  lemma {:induction false} SumCountsExtended(lm: seq<Landmark>, flags: seq<nat>, fs: seq<Finger>)
    requires IsHand(lm) && |flags| == |fs|
    requires forall i :: 0 <= i < |fs| ==> flags[i] == Bit(Extended(lm, fs[i]))
    ensures Sum(flags) == CountExtended(lm, fs)
  {
    if |fs| > 0 {
      assert forall i :: 0 <= i < |fs[1..]| ==> flags[1..][i] == Bit(Extended(lm, fs[1..][i]));
      SumCountsExtended(lm, flags[1..], fs[1..]);
    }
  }

  /** Each flag is 1 exactly when the reference reading calls its finger
      extended, and the total of the flags is the number of raised fingers,
      which lies between 0 and 5. */
  lemma FlagsMatchFingers(lm: seq<Landmark>)
    requires IsHand(lm)
    ensures FingerFlags(lm)[0] == 1 <==> Extended(lm, Thumb)
    ensures FingerFlags(lm)[1] == 1 <==> Extended(lm, Index)
    ensures FingerFlags(lm)[2] == 1 <==> Extended(lm, Middle)
    ensures FingerFlags(lm)[3] == 1 <==> Extended(lm, Ring)
    ensures FingerFlags(lm)[4] == 1 <==> Extended(lm, Pinky)
    ensures Sum(FingerFlags(lm)) == RaisedCount(lm) <= 5
  {
    var f := FingerFlags(lm);
    forall i | 0 <= i < 5
      ensures f[i] == Bit(Extended(lm, AllFingers[i]))
    {
    }
    SumCountsExtended(lm, f, AllFingers);
  }
}
