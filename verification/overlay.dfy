/** The two pieces of arithmetic in the drawing code: the colour each landmark
    is painted with, and the bounding box drawn around a hand. */
module Overlay {
  import opened Landmarks

  /** A colour as the three channel values the drawing calls take. */
  datatype Color = Color(c0: int, c1: int, c2: int)

  /** Colour of a landmark that belongs to no finger group: the wrist. */
  const White: Color := Color(255, 255, 255)

  /** One colour per finger, thumb first. */
  const FingerColors: seq<Color> :=
    [Color(255, 0, 0), Color(0, 255, 0), Color(0, 0, 255), Color(255, 255, 0), Color(255, 0, 255)]

  /** The landmarks of each finger, thumb first, from its base joint to its tip. */
  const FingerGroups: seq<seq<nat>> :=
    [[1, 2, 3, 4], [5, 6, 7, 8], [9, 10, 11, 12], [13, 14, 15, 16], [17, 18, 19, 20]]

  /** The colour landmark `i` is painted with: the colour of the first finger
      group that holds `i`, or white when none does. Groups are four
      consecutive indices from 1 upwards, so landmark `i` of 1..20 takes the
      colour of finger `(i - 1) / 4`. */
  method LandmarkColor(i: nat) returns (color: Color)
    ensures 1 <= i <= 20 ==> color == FingerColors[(i - 1) / 4]
    ensures i == 0 || i > 20 ==> color == White
  {
    color := White;
    var k := 0;
    while k < |FingerGroups|
      invariant 0 <= k <= |FingerGroups|
      invariant color == White
      invariant forall j :: 0 <= j < k ==> i !in FingerGroups[j]
    {
      if i in FingerGroups[k] {
        color := FingerColors[k];
        return;
      }
      k := k + 1;
    }
    assert i !in FingerGroups[0] && i !in FingerGroups[1] && i !in FingerGroups[2];
    assert i !in FingerGroups[3] && i !in FingerGroups[4];
  }

  /** Pixels added on every side of the tight box around a hand. */
  const BoxMargin: int := 20

  /** An axis-aligned box of pixel coordinates, corners included. */
  datatype Box = Box(xMin: int, yMin: int, xMax: int, yMax: int)

  predicate Contains(b: Box, x: int, y: int)
  {
    b.xMin <= x <= b.xMax && b.yMin <= y <= b.yMax
  }

  /** The box grown by `m` pixels on every side, with no clamping. */
  function Grow(b: Box, m: int): Box
  {
    Box(b.xMin - m, b.yMin - m, b.xMax + m, b.yMax + m)
  }

  function Min(a: int, b: int): int
  {
    if a <= b then a else b
  }

  function Max(a: int, b: int): int
  {
    if a >= b then a else b
  }

  /** The tight box grown by the margin and clamped to a `w` by `h` image.
      Each corner is clamped on one side only: `0 <= xMin`, `0 <= yMin`,
      `xMax <= w`, `yMax <= h`; a box that lay inside the image still lies
      inside the result. */
  function ExpandBox(b: Box, w: int, h: int): (r: Box)
    ensures 0 <= r.xMin && 0 <= r.yMin && r.xMax <= w && r.yMax <= h
    ensures 0 <= b.xMin && 0 <= b.yMin && b.xMax <= w && b.yMax <= h ==>
      r.xMin <= b.xMin && r.yMin <= b.yMin && b.xMax <= r.xMax && b.yMax <= r.yMax
  {
    Box(Max(0, b.xMin - BoxMargin), Max(0, b.yMin - BoxMargin),
        Min(w, b.xMax + BoxMargin), Min(h, b.yMax + BoxMargin))
  }

  /** The expanded box holds exactly the pixels that lie both in the box grown
      by the margin and in the image. */
  lemma ExpandIsClippedGrowth(b: Box, w: int, h: int, x: int, y: int)
    ensures Contains(ExpandBox(b, w, h), x, y) <==>
      Contains(Grow(b, BoxMargin), x, y) && 0 <= x <= w && 0 <= y <= h
  {
  }

  /** Python's `int` on a float: truncation toward zero. */
  function Trunc(r: real): (n: int)
    ensures r >= 0.0 ==> n as real <= r < n as real + 1.0
    ensures r < 0.0 ==> n as real - 1.0 < r <= n as real
  {
    if r >= 0.0 then r.Floor else -((-r).Floor)
  }

  lemma TruncMonotone(a: real, b: real)
    requires a <= b
    ensures Trunc(a) <= Trunc(b)
  {
  }

  lemma ScaleMonotone(a: real, b: real, s: real)
    requires a <= b && s >= 0.0
    ensures a * s <= b * s
  {
    var d := b - a;
    assert d * s >= 0.0 * s;
    assert b * s == a * s + d * s;
  }

  /** A normalized coordinate as a pixel index along an image side of
      `size` pixels: scaled, then truncated. */
  function ToPixel(v: real, size: nat): int
  {
    Trunc(v * size as real)
  }

  /** A coordinate inside the frame lands on a pixel index from 0 to `size`. */
  lemma ToPixelInImage(v: real, size: nat)
    requires 0.0 <= v <= 1.0
    ensures 0 <= ToPixel(v, size) <= size
  {
    ToPixelMonotone(0.0, v, size);
    ToPixelMonotone(v, 1.0, size);
    assert 1.0 * size as real == size as real;
  }

  /** Scaling by a non-negative size and truncating keeps the order. */
  lemma ToPixelMonotone(a: real, b: real, size: nat)
    requires a <= b
    ensures ToPixel(a, size) <= ToPixel(b, size)
  {
    ScaleMonotone(a, b, size as real);
    TruncMonotone(a * size as real, b * size as real);
  }

  /** Smallest entry of a non-empty list. */
  function MinOf(s: seq<real>): (m: real)
    requires |s| > 0
    ensures m in s
    ensures forall i :: 0 <= i < |s| ==> m <= s[i]
  {
    if |s| == 1 then s[0] else var t := MinOf(s[1..]); if s[0] <= t then s[0] else t
  }

  /** Largest entry of a non-empty list. */
  function MaxOf(s: seq<real>): (m: real)
    requires |s| > 0
    ensures m in s
    ensures forall i :: 0 <= i < |s| ==> s[i] <= m
  {
    if |s| == 1 then s[0] else var t := MaxOf(s[1..]); if s[0] >= t then s[0] else t
  }

  function Xs(lm: seq<Landmark>): (xs: seq<real>)
    ensures |xs| == |lm| && forall i :: 0 <= i < |lm| ==> xs[i] == lm[i].x
  {
    seq(|lm|, i requires 0 <= i < |lm| => lm[i].x)
  }

  function Ys(lm: seq<Landmark>): (ys: seq<real>)
    ensures |ys| == |lm| && forall i :: 0 <= i < |lm| ==> ys[i] == lm[i].y
  {
    seq(|lm|, i requires 0 <= i < |lm| => lm[i].y)
  }

  /** Whether box `b` holds the pixel of landmark `p` in a `w` by `h` image. */
  predicate HoldsPixel(b: Box, p: Landmark, w: nat, h: nat)
  {
    Contains(b, ToPixel(p.x, w), ToPixel(p.y, h))
  }

  /** Whether the pixel of landmark `p` lies inside a `w` by `h` image. */
  predicate OnScreen(p: Landmark, w: nat, h: nat)
  {
    0 <= ToPixel(p.x, w) <= w && 0 <= ToPixel(p.y, h) <= h
  }

  /** The pixel of landmark `i` lies between the pixels of the smallest and
      the largest normalized coordinate. */
  lemma PixelBetweenExtremes(lm: seq<Landmark>, w: nat, h: nat, i: nat)
    requires i < |lm|
    ensures ToPixel(MinOf(Xs(lm)), w) <= ToPixel(lm[i].x, w) <= ToPixel(MaxOf(Xs(lm)), w)
    ensures ToPixel(MinOf(Ys(lm)), h) <= ToPixel(lm[i].y, h) <= ToPixel(MaxOf(Ys(lm)), h)
  {
    var xs, ys := Xs(lm), Ys(lm);
    assert MinOf(xs) <= xs[i] == lm[i].x <= MaxOf(xs);
    assert MinOf(ys) <= ys[i] == lm[i].y <= MaxOf(ys);
    ToPixelMonotone(MinOf(xs), lm[i].x, w);
    ToPixelMonotone(lm[i].x, MaxOf(xs), w);
    ToPixelMonotone(MinOf(ys), lm[i].y, h);
    ToPixelMonotone(lm[i].y, MaxOf(ys), h);
  }

  /** The tight box: the smallest and largest normalized coordinate, scaled to
      the image and truncated. It holds the pixel of every landmark, and each
      of its edges passes through the pixel of some landmark, so no smaller box
      holds them all. */
  function TightBox(lm: seq<Landmark>, w: nat, h: nat): (b: Box)
    requires |lm| > 0
    ensures forall i :: 0 <= i < |lm| ==> HoldsPixel(b, lm[i], w, h)
    ensures exists i :: 0 <= i < |lm| && b.xMin == ToPixel(lm[i].x, w)
    ensures exists i :: 0 <= i < |lm| && b.yMin == ToPixel(lm[i].y, h)
    ensures exists i :: 0 <= i < |lm| && b.xMax == ToPixel(lm[i].x, w)
    ensures exists i :: 0 <= i < |lm| && b.yMax == ToPixel(lm[i].y, h)
  {
    var xs, ys := Xs(lm), Ys(lm);
    var b := Box(ToPixel(MinOf(xs), w), ToPixel(MinOf(ys), h),
                 ToPixel(MaxOf(xs), w), ToPixel(MaxOf(ys), h));
    assert forall i :: 0 <= i < |lm| ==> HoldsPixel(b, lm[i], w, h) by {
      forall i | 0 <= i < |lm|
        ensures HoldsPixel(b, lm[i], w, h)
      {
        PixelBetweenExtremes(lm, w, h, i);
      }
    }
    var x0 :| 0 <= x0 < |xs| && xs[x0] == MinOf(xs);
    var y0 :| 0 <= y0 < |ys| && ys[y0] == MinOf(ys);
    var x1 :| 0 <= x1 < |xs| && xs[x1] == MaxOf(xs);
    var y1 :| 0 <= y1 < |ys| && ys[y1] == MaxOf(ys);
    assert b.xMin == ToPixel(lm[x0].x, w) && b.yMin == ToPixel(lm[y0].y, h);
    assert b.xMax == ToPixel(lm[x1].x, w) && b.yMax == ToPixel(lm[y1].y, h);
    b
  }

  /** The box drawn around a hand in a `w` by `h` image. Its corners satisfy
      `0 <= xMin`, `0 <= yMin`, `xMax <= w` and `yMax <= h`, and it holds the
      pixel of every landmark that is itself inside the image. When every
      landmark is inside the frame the box is also well formed, so it lies
      wholly inside the image. */
  function HandBox(lm: seq<Landmark>, w: nat, h: nat): (r: Box)
    requires |lm| > 0
    ensures 0 <= r.xMin && 0 <= r.yMin && r.xMax <= w && r.yMax <= h
    ensures forall i :: 0 <= i < |lm| && OnScreen(lm[i], w, h) ==> HoldsPixel(r, lm[i], w, h)
    ensures (forall i :: 0 <= i < |lm| ==> InFrame(lm[i])) ==> r.xMin <= r.xMax && r.yMin <= r.yMax
  {
    var b := TightBox(lm, w, h);
    var r := ExpandBox(b, w, h);
    assert forall i :: 0 <= i < |lm| && OnScreen(lm[i], w, h) ==> HoldsPixel(r, lm[i], w, h) by {
      forall i | 0 <= i < |lm| && OnScreen(lm[i], w, h)
        ensures HoldsPixel(r, lm[i], w, h)
      {
        assert HoldsPixel(b, lm[i], w, h);
        ExpandIsClippedGrowth(b, w, h, ToPixel(lm[i].x, w), ToPixel(lm[i].y, h));
      }
    }
    assert (forall i :: 0 <= i < |lm| ==> InFrame(lm[i])) ==> r.xMin <= r.xMax && r.yMin <= r.yMax by {
      if forall i :: 0 <= i < |lm| ==> InFrame(lm[i]) {
        assert HoldsPixel(b, lm[0], w, h);
        var x0 :| 0 <= x0 < |lm| && b.xMin == ToPixel(lm[x0].x, w);
        var y0 :| 0 <= y0 < |lm| && b.yMin == ToPixel(lm[y0].y, h);
        var x1 :| 0 <= x1 < |lm| && b.xMax == ToPixel(lm[x1].x, w);
        var y1 :| 0 <= y1 < |lm| && b.yMax == ToPixel(lm[y1].y, h);
        ToPixelInImage(lm[x0].x, w);
        ToPixelInImage(lm[y0].y, h);
        ToPixelInImage(lm[x1].x, w);
        ToPixelInImage(lm[y1].y, h);
        assert 0 <= b.xMin <= b.xMax <= w && 0 <= b.yMin <= b.yMax <= h;
      }
    }
    r
  }
}
