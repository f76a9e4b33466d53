/** Hand landmarks as the external hand-landmark estimator reports them, and the
    one geometric measure the gesture classifier takes between two of them. */
module Landmarks {

  /** One normalized 2-D keypoint, relative to the image width and height.
      The estimator also reports a depth coordinate, which nothing here reads. */
  datatype Landmark = Landmark(x: real, y: real)

  /** Number of keypoints the estimator reports for one hand. */
  const LandmarkCount: nat := 21

  // Keypoints the classifier reads: the thumb's IP joint and tip, and the
  // PIP joint and tip of each of the other four fingers.
  const ThumbIp: nat := 3
  const ThumbTip: nat := 4
  const IndexPip: nat := 6
  const IndexTip: nat := 8
  const MiddlePip: nat := 10
  const MiddleTip: nat := 12
  const RingPip: nat := 14
  const RingTip: nat := 16
  const PinkyPip: nat := 18
  const PinkyTip: nat := 20

  /** A landmark list the classifier can read: it indexes up to the pinky tip,
      so any list of at least 21 points will do (the estimator gives exactly 21). */
  predicate IsHand(lm: seq<Landmark>)
  {
    |lm| >= LandmarkCount
  }

  /** A landmark inside the frame: both normalized coordinates in [0, 1]. The
      estimator may also report points a little past the frame's edges. */
  predicate InFrame(p: Landmark)
  {
    0.0 <= p.x <= 1.0 && 0.0 <= p.y <= 1.0
  }

  /** The square of the Euclidean distance between two landmarks, in the
      normalized coordinate space (no scaling by the image size). */
  function SquaredDistance(p: Landmark, q: Landmark): (d: real)
    ensures d >= 0.0
  {
    (p.x - q.x) * (p.x - q.x) + (p.y - q.y) * (p.y - q.y)
  }

  /** Distance below which thumb tip and index tip count as touching. */
  const OkDistance: real := 0.05

  /** The OK test "distance < 0.05", stated without a square root. */
  predicate CloseForOk(p: Landmark, q: Landmark)
  {
    SquaredDistance(p, q) < OkDistance * OkDistance
  }

  /** For any non-negative `d` whose square is the squared distance, that is,
      for the exact Euclidean distance, comparing `d` with the threshold gives
      the same answer as the squared test `CloseForOk`. */
  lemma SquaredTestMatchesDistance(p: Landmark, q: Landmark, d: real)
    requires d >= 0.0 && d * d == SquaredDistance(p, q)
    ensures d < OkDistance <==> CloseForOk(p, q)
  {
    if d < OkDistance {
      assert d * d <= d * OkDistance;
      assert d * OkDistance < OkDistance * OkDistance;
    } else {
      assert d * d >= d * OkDistance;
      assert d * OkDistance >= OkDistance * OkDistance;
    }
  }
}
