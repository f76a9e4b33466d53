/** What the classifier promises, stated against the per-finger reading
    `Extended` and the raised-finger count `RaisedCount` rather than against the
    flag list the classifier computes internally. */
module GestureProperties {
  import opened Landmarks
  import opened Fingers
  import opened Gestures

  /** Peace is reported exactly for two raised fingers that are index and middle. */
  lemma PeaceExactly(lm: seq<Landmark>)
    requires IsHand(lm)
    ensures Classify(lm) == Peace <==>
      RaisedCount(lm) == 2 && Extended(lm, Index) && Extended(lm, Middle)
  {
    FlagsMatchFingers(lm);
  }

  /** Any other pair of raised fingers is reported as a count of two. */
  lemma OtherPairIsCount(lm: seq<Landmark>)
    requires IsHand(lm)
    requires RaisedCount(lm) == 2 && !(Extended(lm, Index) && Extended(lm, Middle))
    ensures Classify(lm) == OpenCount(2)
  {
    FlagsMatchFingers(lm);
  }

  /** HiFive is reported exactly when all five fingers are up. */
  lemma HiFiveExactly(lm: seq<Landmark>)
    requires IsHand(lm)
    ensures Classify(lm) == HiFive <==> RaisedCount(lm) == 5
  {
    FlagsMatchFingers(lm);
  }

  /** Fist is reported exactly when no finger is up. */
  lemma FistExactly(lm: seq<Landmark>)
    requires IsHand(lm)
    ensures Classify(lm) == Fist <==> RaisedCount(lm) == 0
  {
    FlagsMatchFingers(lm);
  }

  /** ThumbsUp is reported exactly when the thumb is the only finger up. */
  lemma ThumbsUpExactly(lm: seq<Landmark>)
    requires IsHand(lm)
    ensures Classify(lm) == ThumbsUp <==> RaisedCount(lm) == 1 && Extended(lm, Thumb)
  {
    FlagsMatchFingers(lm);
  }

  /** A single raised finger other than the thumb is reported as a count of one. */
  lemma LoneFingerIsCount(lm: seq<Landmark>)
    requires IsHand(lm)
    requires RaisedCount(lm) == 1 && !Extended(lm, Thumb)
    ensures Classify(lm) == OpenCount(1)
  {
    FlagsMatchFingers(lm);
  }

  /** OK is reported exactly when three fingers are up, the thumb among them
      and the index not, and thumb tip and index tip touch. */
  lemma OkExactly(lm: seq<Landmark>)
    requires IsHand(lm)
    ensures Classify(lm) == OK <==>
      && RaisedCount(lm) == 3
      && Extended(lm, Thumb)
      && !Extended(lm, Index)
      && CloseForOk(lm[ThumbTip], lm[IndexTip])
  {
    FlagsMatchFingers(lm);
  }

  /** The OK rule stated with the Euclidean distance `d` itself: the tips must
      be strictly closer than 0.05. */
  lemma OkByDistance(lm: seq<Landmark>, d: real)
    requires IsHand(lm)
    requires d >= 0.0 && d * d == SquaredDistance(lm[ThumbTip], lm[IndexTip])
    ensures Classify(lm) == OK <==>
      RaisedCount(lm) == 3 && Extended(lm, Thumb) && !Extended(lm, Index) && d < OkDistance
  {
    OkExactly(lm);
    SquaredTestMatchesDistance(lm[ThumbTip], lm[IndexTip], d);
  }

  /** When the finger pattern fits OK but the tips are too far apart, there is
      no separate label: the hand is reported as a count of three. */
  lemma OkMissIsCount(lm: seq<Landmark>)
    requires IsHand(lm)
    requires RaisedCount(lm) == 3 && Extended(lm, Thumb) && !Extended(lm, Index)
    requires !CloseForOk(lm[ThumbTip], lm[IndexTip])
    ensures Classify(lm) == OpenCount(3)
  {
    FlagsMatchFingers(lm);
  }

  /** The keypoints the classifier reads: thumb IP joint and tip, and the PIP
      joint and tip of the other fingers. */
  const ReadLandmarks: set<nat> :=
    {ThumbIp, ThumbTip, IndexPip, IndexTip, MiddlePip, MiddleTip, RingPip, RingTip, PinkyPip, PinkyTip}

  /** Two hands that agree on the keypoints the classifier reads are
      classified alike, whatever their other landmarks are. */
  lemma ClassifyReadsOnlyTipsAndJoints(a: seq<Landmark>, b: seq<Landmark>)
    requires IsHand(a) && IsHand(b)
    requires forall i :: i in ReadLandmarks ==> a[i] == b[i]
    ensures Classify(a) == Classify(b)
  {
    assert a[3] == b[3] && a[4] == b[4] && a[6] == b[6] && a[8] == b[8] && a[10] == b[10];
    assert a[12] == b[12] && a[14] == b[14] && a[16] == b[16] && a[18] == b[18] && a[20] == b[20];
    FlagsAgree(a, b);
  }

  lemma FlagsAgree(a: seq<Landmark>, b: seq<Landmark>)
    requires IsHand(a) && IsHand(b)
    requires a[3].x == b[3].x && a[4].x == b[4].x
    requires a[6].y == b[6].y && a[8].y == b[8].y && a[10].y == b[10].y && a[12].y == b[12].y
    requires a[14].y == b[14].y && a[16].y == b[16].y && a[18].y == b[18].y && a[20].y == b[20].y
    ensures FingerFlags(a) == FingerFlags(b)
  {
    var fa, fb := FingerFlags(a), FingerFlags(b);
    assert fa[0] == fb[0] && fa[1] == fb[1] && fa[2] == fb[2] && fa[3] == fb[3] && fa[4] == fb[4];
  }

  /** Moving a landmark the classifier does not read leaves its verdict unchanged. */
  lemma UnreadLandmarkIsIrrelevant(lm: seq<Landmark>, i: nat, p: Landmark)
    requires IsHand(lm) && i < |lm| && i !in ReadLandmarks
    ensures Classify(lm[i := p]) == Classify(lm)
  {
    ClassifyReadsOnlyTipsAndJoints(lm[i := p], lm);
  }

  /** A hand with every landmark at the centre of the image. */
  const Centred: seq<Landmark> := seq(LandmarkCount, _ => Landmark(0.5, 0.5))

  /** Thumb, index and middle up (the index as well as the thumb), ring and
      pinky curled. */
  const ThreeUpWithIndex: seq<Landmark> :=
    Centred[ThumbIp := Landmark(0.55, 0.50)][ThumbTip := Landmark(0.60, 0.50)]
           [IndexPip := Landmark(0.30, 0.40)][IndexTip := Landmark(0.30, 0.20)]
           [MiddlePip := Landmark(0.40, 0.40)][MiddleTip := Landmark(0.40, 0.20)]
           [RingPip := Landmark(0.50, 0.40)][RingTip := Landmark(0.50, 0.60)]
           [PinkyPip := Landmark(0.60, 0.40)][PinkyTip := Landmark(0.60, 0.60)]

  /** With the index up the OK rule cannot apply, so three raised fingers are
      reported as a count. */
  lemma ThreeUpWithIndexIsCount()
    ensures Classify(ThreeUpWithIndex) == OpenCount(3)
  {
    var h := ThreeUpWithIndex;
    assert h[ThumbIp] == Landmark(0.55, 0.50) && h[ThumbTip] == Landmark(0.60, 0.50);
    assert h[IndexPip].y == 0.40 && h[IndexTip].y == 0.20;
    assert h[MiddlePip].y == 0.40 && h[MiddleTip].y == 0.20;
    assert h[RingPip].y == 0.40 && h[RingTip].y == 0.60;
    assert h[PinkyPip].y == 0.40 && h[PinkyTip].y == 0.60;
    RaisedCountByFinger(h);
    FlagsMatchFingers(h);
  }

  /** Thumb, middle and ring up, index and pinky curled, thumb tip at
      (0.50, 0.50) and index tip at (0.52, 0.50), 0.02 apart. */
  const OkSign: seq<Landmark> :=
    Centred[ThumbIp := Landmark(0.45, 0.50)][ThumbTip := Landmark(0.50, 0.50)]
           [IndexPip := Landmark(0.52, 0.40)][IndexTip := Landmark(0.52, 0.50)]
           [MiddlePip := Landmark(0.60, 0.40)][MiddleTip := Landmark(0.60, 0.20)]
           [RingPip := Landmark(0.65, 0.40)][RingTip := Landmark(0.65, 0.20)]
           [PinkyPip := Landmark(0.70, 0.40)][PinkyTip := Landmark(0.70, 0.60)]

  lemma OkSignIsOk()
    ensures Classify(OkSign) == OK
  {
    var h := OkSign;
    assert h[ThumbIp] == Landmark(0.45, 0.50) && h[ThumbTip] == Landmark(0.50, 0.50);
    assert h[IndexPip] == Landmark(0.52, 0.40) && h[IndexTip] == Landmark(0.52, 0.50);
    assert h[MiddlePip].y == 0.40 && h[MiddleTip].y == 0.20;
    assert h[RingPip].y == 0.40 && h[RingTip].y == 0.20;
    assert h[PinkyPip].y == 0.40 && h[PinkyTip].y == 0.60;
    assert CloseForOk(h[ThumbTip], h[IndexTip]);
    RaisedCountByFinger(h);
    FlagsMatchFingers(h);
  }
}
