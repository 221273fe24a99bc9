/**
 * The camera of src/game/Camera.ts: it follows the mean of the players'
 * centres and zooms so that their bounding box, with padding, fits the
 * canvas, moving both smoothly by linear interpolation each frame.
 *
 * The per-frame targets are pure functions of the players' centres
 * (`Mean`, `Least`, `Greatest`, `TargetScaleOf`); the class methods are
 * proved to compute them, and the lemmas state what they guarantee.
 */
module Cameras {
  import opened Utils
  import opened Players

  /** Positional smoothness: the share of the way to the midpoint covered per frame. */
  const LerpFactor: real := 0.1
  /** Zoom smoothness. */
  const ScaleLerpFactor: real := 0.05
  const MinScale: real := 0.6
  const MaxScale: real := 1.0
  const PaddingX: real := 250.0
  const PaddingY: real := 150.0

  // ---------------------------------------------------------------------------
  // Centres, their mean and their extent
  // ---------------------------------------------------------------------------

  /** A target's centre, from its base (unsquashed) size. */
  function CentreX(p: Player): real
    reads p`x
  {
    p.x + p.baseWidth / 2.0
  }

  function CentreY(p: Player): real
    reads p`y
  {
    p.y + p.baseHeight / 2.0
  }

  function CentresX(ts: seq<Player>): (r: seq<real>)
    reads ts`x
    ensures |r| == |ts|
  {
    if |ts| == 0 then [] else CentresX(ts[..|ts| - 1]) + [CentreX(ts[|ts| - 1])]
  }

  lemma {:induction false} CentresXAt(ts: seq<Player>, k: nat)
    requires k < |ts|
    ensures CentresX(ts)[k] == CentreX(ts[k])
    decreases |ts|
  {
    if k < |ts| - 1 {
      CentresXAt(ts[..|ts| - 1], k);
    }
  }

  function CentresY(ts: seq<Player>): (r: seq<real>)
    reads ts`y
    ensures |r| == |ts|
  {
    if |ts| == 0 then [] else CentresY(ts[..|ts| - 1]) + [CentreY(ts[|ts| - 1])]
  }

  lemma {:induction false} CentresYAt(ts: seq<Player>, k: nat)
    requires k < |ts|
    ensures CentresY(ts)[k] == CentreY(ts[k])
    decreases |ts|
  {
    if k < |ts| - 1 {
      CentresYAt(ts[..|ts| - 1], k);
    }
  }

  /** The running sum the `forEach` builds, first element first. */
  function Sum(s: seq<real>): real
  {
    if |s| == 0 then 0.0 else Sum(s[..|s| - 1]) + s[|s| - 1]
  }

  lemma PrefixSum(s: seq<real>, i: nat)
    requires i < |s|
    ensures Sum(s[..i + 1]) == Sum(s[..i]) + s[i]
  {
    assert s[..i + 1][..i] == s[..i];
  }

  function Mean(s: seq<real>): real
    requires |s| > 0
  {
    Sum(s) / (|s| as real)
  }

  /** The running `Math.min`, starting from the first element (`Math.min(Infinity, c)` is `c`). */
  function Least(s: seq<real>): (r: real)
    requires |s| > 0
    ensures forall k :: 0 <= k < |s| ==> r <= s[k]
  {
    if |s| == 1 then s[0] else Min(Least(s[..|s| - 1]), s[|s| - 1])
  }

  /** The running `Math.max`, starting from the first element. */
  function Greatest(s: seq<real>): (r: real)
    requires |s| > 0
    ensures forall k :: 0 <= k < |s| ==> s[k] <= r
  {
    if |s| == 1 then s[0] else Max(Greatest(s[..|s| - 1]), s[|s| - 1])
  }

  /** `minX`, `maxX`, `minY` and `maxY` are the extremes of the centres seen. */
  predicate Extent(xs: seq<real>, ys: seq<real>, minX: real, maxX: real, minY: real, maxY: real)
  {
    |xs| > 0 && |ys| > 0 &&
    minX == Least(xs) && maxX == Greatest(xs) && minY == Least(ys) && maxY == Greatest(ys)
  }

  lemma PrefixExtremes(s: seq<real>, i: nat)
    requires 1 <= i < |s|
    ensures Least(s[..i + 1]) == Min(Least(s[..i]), s[i])
    ensures Greatest(s[..i + 1]) == Max(Greatest(s[..i]), s[i])
  {
    assert s[..i + 1][..i] == s[..i];
  }

  lemma LeastBelowGreatest(s: seq<real>)
    requires |s| > 0
    ensures Least(s) <= Greatest(s)
  {
    assert Least(s) <= s[0] <= Greatest(s);
  }

  lemma {:induction false} SumAtLeast(s: seq<real>, lo: real)
    requires forall k :: 0 <= k < |s| ==> lo <= s[k]
    ensures (|s| as real) * lo <= Sum(s)
  {
    if |s| > 0 {
      var p := s[..|s| - 1];
      SumAtLeast(p, lo);
      assert (|s| as real) * lo == (|p| as real) * lo + lo;
    }
  }

  lemma {:induction false} SumAtMost(s: seq<real>, hi: real)
    requires forall k :: 0 <= k < |s| ==> s[k] <= hi
    ensures Sum(s) <= (|s| as real) * hi
  {
    if |s| > 0 {
      var p := s[..|s| - 1];
      SumAtMost(p, hi);
      assert (|s| as real) * hi == (|p| as real) * hi + hi;
    }
  }

  /** A mean lies within any bounds of what it averages. */
  lemma MeanWithinBounds(s: seq<real>, lo: real, hi: real)
    requires |s| > 0
    requires forall k :: 0 <= k < |s| ==> lo <= s[k] <= hi
    ensures lo <= Mean(s) <= hi
  {
    SumAtLeast(s, lo);
    SumAtMost(s, hi);
    DivideBounds(Sum(s), |s| as real, lo, hi);
  }

  /** The midpoint lies inside the bounding box of the centres. */
  lemma MeanWithin(s: seq<real>)
    requires |s| > 0
    ensures Least(s) <= Mean(s) <= Greatest(s)
  {
    MeanWithinBounds(s, Least(s), Greatest(s));
  }

  lemma SignOfProduct(x: real, n: real)
    requires n > 0.0 && x * n >= 0.0
    ensures x >= 0.0
  {
  }

  lemma DivideBounds(sum: real, n: real, lo: real, hi: real)
    requires n > 0.0 && n * lo <= sum <= n * hi
    ensures lo <= sum / n <= hi
  {
    var q := sum / n;
    assert q * n == sum;
    assert (q - lo) * n == sum - n * lo;
    SignOfProduct(q - lo, n);
    assert (hi - q) * n == n * hi - sum;
    SignOfProduct(hi - q, n);
  }

  /** All centres the same: the midpoint is that centre. */
  lemma MeanOfEqual(s: seq<real>, c: real)
    requires |s| > 0 && forall k :: 0 <= k < |s| ==> s[k] == c
    ensures Mean(s) == c
  {
    MeanWithinBounds(s, c, c);
  }

  /** The mean of two values is their midpoint. */
  lemma MeanOfTwo(a: real, b: real)
    ensures Mean([a, b]) == (a + b) / 2.0
  {
    assert [a, b][..1] == [a];
    assert [a][..0] == [];
    assert Sum([a]) == a;
    assert Sum([a, b]) == a + b;
  }

  // ---------------------------------------------------------------------------
  // Zoom
  // ---------------------------------------------------------------------------

  /** The world extent the camera must show along one axis: the spread plus padding on both sides. */
  function RequiredSpan(s: seq<real>, padding: real): (w: real)
    requires |s| > 0
  {
    (Greatest(s) - Least(s)) + padding * 2.0
  }

  /** The required span is never below twice the padding, so the scale divisions are defined. */
  lemma RequiredSpanAtLeastPadding(s: seq<real>, padding: real)
    requires |s| > 0
    ensures RequiredSpan(s, padding) >= 2.0 * padding
  {
    LeastBelowGreatest(s);
  }

  function ClampScale(v: real): (r: real)
    ensures MinScale <= r <= MaxScale
    ensures MinScale <= v <= MaxScale ==> r == v
  {
    Max(MinScale, Min(MaxScale, v))
  }

  /** The scale at which spans `w` and `h` fill the canvas in one dimension and fit in the other, clamped. */
  function ClampedFit(canvasWidth: real, canvasHeight: real, w: real, h: real): real
    requires w > 0.0 && h > 0.0
  {
    ClampScale(Min(canvasWidth / w, canvasHeight / h))
  }

  /**
   * `calculateTargetScale`: 1 with no target, else the scale fitting the
   * centres' padded box, clamped to [MinScale, MaxScale]. The source's NaN
   * fallback is unreachable since the required spans are positive.
   */
  function TargetScaleOf(xs: seq<real>, ys: seq<real>, canvasWidth: real, canvasHeight: real): (r: real)
    requires |xs| == |ys|
    ensures MinScale <= r <= MaxScale
    ensures |xs| == 0 ==> r == MaxScale
  {
    if |xs| == 0 then 1.0
    else
      RequiredSpanAtLeastPadding(xs, PaddingX);
      RequiredSpanAtLeastPadding(ys, PaddingY);
      ClampedFit(canvasWidth, canvasHeight, RequiredSpan(xs, PaddingX), RequiredSpan(ys, PaddingY))
  }

  lemma FitsWithin(v: real, canvas: real, span: real)
    requires span > 0.0 && v <= canvas / span
    ensures v * span <= canvas
  {
    assert canvas == (canvas / span) * span;
  }

  lemma ClampedFitFits(canvasWidth: real, canvasHeight: real, w: real, h: real)
    requires w > 0.0 && h > 0.0
    requires ClampedFit(canvasWidth, canvasHeight, w, h) > MinScale
    ensures ClampedFit(canvasWidth, canvasHeight, w, h) * w <= canvasWidth
    ensures ClampedFit(canvasWidth, canvasHeight, w, h) * h <= canvasHeight
  {
    var r := ClampedFit(canvasWidth, canvasHeight, w, h);
    assert r <= canvasWidth / w && r <= canvasHeight / h;
    FitsWithin(r, canvasWidth, w);
    FitsWithin(r, canvasHeight, h);
  }

  lemma ClampedFitTight(canvasWidth: real, canvasHeight: real, w: real, h: real)
    requires w > 0.0 && h > 0.0
    requires MinScale < ClampedFit(canvasWidth, canvasHeight, w, h) < MaxScale
    ensures ClampedFit(canvasWidth, canvasHeight, w, h) * w == canvasWidth ||
            ClampedFit(canvasWidth, canvasHeight, w, h) * h == canvasHeight
  {
    var r := ClampedFit(canvasWidth, canvasHeight, w, h);
    assert r == canvasWidth / w || r == canvasHeight / h;
    assert canvasWidth == (canvasWidth / w) * w;
    assert canvasHeight == (canvasHeight / h) * h;
  }

  /**
   * Unless clamped at the furthest zoom-out, the padded box of all centres
   * fits the canvas in both dimensions at the target scale.
   */
  lemma TargetScaleFits(xs: seq<real>, ys: seq<real>, canvasWidth: real, canvasHeight: real)
    requires |xs| == |ys| && |xs| > 0
    requires TargetScaleOf(xs, ys, canvasWidth, canvasHeight) > MinScale
    ensures TargetScaleOf(xs, ys, canvasWidth, canvasHeight) * RequiredSpan(xs, PaddingX) <= canvasWidth
    ensures TargetScaleOf(xs, ys, canvasWidth, canvasHeight) * RequiredSpan(ys, PaddingY) <= canvasHeight
  {
    RequiredSpanAtLeastPadding(xs, PaddingX);
    RequiredSpanAtLeastPadding(ys, PaddingY);
    ClampedFitFits(canvasWidth, canvasHeight, RequiredSpan(xs, PaddingX), RequiredSpan(ys, PaddingY));
  }

  /**
   * Strictly between the two limits, the target scale is the largest that
   * fits: the padded box exactly fills the canvas in one dimension.
   */
  lemma TargetScaleTight(xs: seq<real>, ys: seq<real>, canvasWidth: real, canvasHeight: real)
    requires |xs| == |ys| && |xs| > 0
    requires MinScale < TargetScaleOf(xs, ys, canvasWidth, canvasHeight) < MaxScale
    ensures TargetScaleOf(xs, ys, canvasWidth, canvasHeight) * RequiredSpan(xs, PaddingX) == canvasWidth ||
            TargetScaleOf(xs, ys, canvasWidth, canvasHeight) * RequiredSpan(ys, PaddingY) == canvasHeight
  {
    RequiredSpanAtLeastPadding(xs, PaddingX);
    RequiredSpanAtLeastPadding(ys, PaddingY);
    ClampedFitTight(canvasWidth, canvasHeight, RequiredSpan(xs, PaddingX), RequiredSpan(ys, PaddingY));
  }

  // ---------------------------------------------------------------------------
  // Smoothing
  // ---------------------------------------------------------------------------

  /** A zoom step from a scale within the limits towards a target within them stays within them. */
  lemma ScaleStepInRange(scale: real, target: real)
    requires MinScale <= scale <= MaxScale && MinScale <= target <= MaxScale
    ensures MinScale <= Lerp(scale, target, ScaleLerpFactor) <= MaxScale
  {
    LerpBetween(scale, target, ScaleLerpFactor);
  }

  /** `n` frames of smoothing towards a fixed target. */
  function Approach(a: real, b: real, t: real, n: nat): real
  {
    if n == 0 then a else Lerp(Approach(a, b, t, n - 1), b, t)
  }

  function Power(q: real, n: nat): real
  {
    if n == 0 then 1.0 else q * Power(q, n - 1)
  }

  /** One further frame multiplies the offset from the target by 1 - t. */
  lemma OffsetStep(previous: real, b: real, t: real, p: real, d: real, p': real)
    requires previous - b == p * d && p' == (1.0 - t) * p
    ensures Lerp(previous, b, t) - b == p' * d
  {
    assert Lerp(previous, b, t) - b == (1.0 - t) * (previous - b);
  }

  /** With the target scale held fixed, `n` frames leave 0.95^n of the initial offset. */
  lemma {:induction false} ZoomOffset(scale: real, target: real, n: nat)
    ensures Approach(scale, target, ScaleLerpFactor, n) - target == Power(1.0 - ScaleLerpFactor, n) * (scale - target)
  {
    if n > 0 {
      ZoomOffset(scale, target, n - 1);
      OffsetStep(Approach(scale, target, ScaleLerpFactor, n - 1), target, ScaleLerpFactor,
                 Power(1.0 - ScaleLerpFactor, n - 1), scale - target, Power(1.0 - ScaleLerpFactor, n));
    }
  }

  /** With the midpoint held fixed, `n` frames leave 0.9^n of the initial offset. */
  lemma {:induction false} PanOffset(position: real, midpoint: real, n: nat)
    ensures Approach(position, midpoint, LerpFactor, n) - midpoint == Power(1.0 - LerpFactor, n) * (position - midpoint)
  {
    if n > 0 {
      PanOffset(position, midpoint, n - 1);
      OffsetStep(Approach(position, midpoint, LerpFactor, n - 1), midpoint, LerpFactor,
                 Power(1.0 - LerpFactor, n - 1), position - midpoint, Power(1.0 - LerpFactor, n));
    }
  }

  lemma {:induction false} PowerShrinks(q: real, n: nat)
    requires 0.0 <= q <= 1.0
    ensures 0.0 <= Power(q, n) <= 1.0
    ensures n > 0 ==> Power(q, n) <= q
  {
    if n > 0 {
      PowerShrinks(q, n - 1);
      MulNonNeg(q, Power(q, n - 1));
      MulNonNeg(q, 1.0 - Power(q, n - 1));
    }
  }

  /** An offset scaled by a factor in [0, 1]: its distance scales alike, and shrinks when the factor is below 1. */
  lemma ScaledDistance(e: real, p: real, d: real)
    requires 0.0 <= p <= 1.0 && e == p * d
    ensures Abs(e) == p * Abs(d)
    ensures p < 1.0 && d != 0.0 ==> Abs(e) < Abs(d)
  {
    if d < 0.0 {
      assert e == -(p * -d);
      MulNonNeg(p, -d);
      MulNonNeg(1.0 - p, -d);
      if p < 1.0 {
        assert Abs(d) - Abs(e) == (1.0 - p) * -d;
      }
    } else {
      MulNonNeg(p, d);
      if p < 1.0 && d != 0.0 {
        assert Abs(d) - Abs(e) == (1.0 - p) * d;
      }
    }
  }

  /**
   * The zoom converges: after `n` frames with a fixed target the distance to
   * it is 0.95^n of the initial one, and strictly smaller once n > 0.
   */
  lemma ZoomConverges(scale: real, target: real, n: nat)
    ensures Abs(Approach(scale, target, ScaleLerpFactor, n) - target) == Power(1.0 - ScaleLerpFactor, n) * Abs(scale - target)
    ensures n > 0 && scale != target ==> Abs(Approach(scale, target, ScaleLerpFactor, n) - target) < Abs(scale - target)
  {
    ZoomOffset(scale, target, n);
    PowerShrinks(1.0 - ScaleLerpFactor, n);
    ScaledDistance(Approach(scale, target, ScaleLerpFactor, n) - target, Power(1.0 - ScaleLerpFactor, n), scale - target);
  }

  /** The pan converges: 0.9^n of the distance to a fixed midpoint remains after `n` frames. */
  lemma PanConverges(position: real, midpoint: real, n: nat)
    ensures Abs(Approach(position, midpoint, LerpFactor, n) - midpoint) == Power(1.0 - LerpFactor, n) * Abs(position - midpoint)
    ensures n > 0 && position != midpoint ==> Abs(Approach(position, midpoint, LerpFactor, n) - midpoint) < Abs(position - midpoint)
  {
    PanOffset(position, midpoint, n);
    PowerShrinks(1.0 - LerpFactor, n);
    ScaledDistance(Approach(position, midpoint, LerpFactor, n) - midpoint, Power(1.0 - LerpFactor, n), position - midpoint);
  }

  /** One `update` leaves 95% of the distance to the target scale and 90% of the distance to the midpoint. */
  lemma UpdateContracts(scale: real, target: real, position: real, midpoint: real)
    ensures Abs(Lerp(scale, target, ScaleLerpFactor) - target) == 0.95 * Abs(scale - target)
    ensures Abs(Lerp(position, midpoint, LerpFactor) - midpoint) == 0.9 * Abs(position - midpoint)
  {
    LerpContracts(scale, target, ScaleLerpFactor);
    LerpContracts(position, midpoint, LerpFactor);
  }

  // ---------------------------------------------------------------------------
  // World and screen
  // ---------------------------------------------------------------------------

  /** The world-to-screen map along one axis: camera position `camera` is drawn at the canvas centre. */
  function ToScreen(w: real, camera: real, scale: real, canvasSize: real): real
  {
    (w - camera) * scale + canvasSize / 2.0
  }

  /** Its inverse, for a non-zero scale. */
  function ToWorld(s: real, camera: real, scale: real, canvasSize: real): real
    requires scale != 0.0
  {
    (s - canvasSize / 2.0) / scale + camera
  }

  lemma ScreenWorldRoundTrip(w: real, s: real, camera: real, scale: real, canvasSize: real)
    requires scale != 0.0
    ensures ToWorld(ToScreen(w, camera, scale, canvasSize), camera, scale, canvasSize) == w
    ensures ToScreen(ToWorld(s, camera, scale, canvasSize), camera, scale, canvasSize) == s
  {
    assert ((w - camera) * scale) / scale == w - camera;
    assert ((s - canvasSize / 2.0) / scale) * scale == s - canvasSize / 2.0;
  }

  lemma CameraAtCentre(camera: real, scale: real, canvasSize: real)
    ensures ToScreen(camera, camera, scale, canvasSize) == canvasSize / 2.0
  {
  }

  /**
   * The constructor's start position, `mid - size / 2 / scale`, draws the
   * midpoint at the far edge of the canvas (right, bottom), not at its
   * centre; `update` then pans it in.
   */
  lemma StartDrawsMidpointAtEdge(mid: real, scale: real, canvasSize: real)
    requires scale > 0.0
    ensures ToScreen(mid, mid - canvasSize / 2.0 / scale, scale, canvasSize) == canvasSize
  {
    assert (canvasSize / 2.0 / scale) * scale == canvasSize / 2.0;
  }

  // ---------------------------------------------------------------------------
  // The camera
  // ---------------------------------------------------------------------------

  class Camera {
    const targets: seq<Player>
    var canvasWidth: real
    var canvasHeight: real
    var x: real
    var y: real
    var midpointX: real
    var midpointY: real
    var scale: real
    var targetScale: real

    ghost predicate Valid()
      reads this
    {
      MinScale <= scale <= MaxScale && MinScale <= targetScale <= MaxScale
    }

    /**
     * The midpoint and the target scale are computed before the object is
     * initialised, by the same loops `calculateMidpoint` and
     * `calculateTargetScale` run.
     */
    constructor(targets: seq<Player>, canvasWidth: real, canvasHeight: real)
      ensures this.targets == targets
      ensures this.canvasWidth == canvasWidth && this.canvasHeight == canvasHeight
      ensures |targets| == 0 ==> midpointX == 0.0 && midpointY == 0.0
      ensures |targets| > 0 ==> midpointX == Mean(CentresX(targets)) && midpointY == Mean(CentresY(targets))
      ensures targetScale == TargetScaleOf(CentresX(targets), CentresY(targets), canvasWidth, canvasHeight)
      ensures scale == targetScale
      ensures x == midpointX - canvasWidth / 2.0 / scale
      ensures y == midpointY - canvasHeight / 2.0 / scale
      ensures Valid()
    {
      var mx, my := 0.0, 0.0;
      if |targets| > 0 {
        mx, my := Midpoint(targets);
      }
      var s := FittedScale(targets, canvasWidth, canvasHeight);
      this.targets := targets;
      this.canvasWidth := canvasWidth;
      this.canvasHeight := canvasHeight;
      midpointX, midpointY := mx, my;
      targetScale := s;
      scale := s;
      x := mx - canvasWidth / 2.0 / s;
      y := my - canvasHeight / 2.0 / s;
    }

    /** The `forEach` of `calculateMidpoint`: the mean of the centres. */
    static method Midpoint(targets: seq<Player>) returns (mx: real, my: real)
      requires |targets| > 0
      ensures mx == Mean(CentresX(targets)) && my == Mean(CentresY(targets))
    {
      ghost var xs := CentresX(targets);
      ghost var ys := CentresY(targets);
      var sumX := 0.0;
      var sumY := 0.0;
      var i := 0;
      while i < |targets|
        invariant 0 <= i <= |targets|
        invariant sumX == Sum(xs[..i]) && sumY == Sum(ys[..i])
      {
        var centreX := targets[i].x + targets[i].baseWidth / 2.0;
        var centreY := targets[i].y + targets[i].baseHeight / 2.0;
        CentresXAt(targets, i);
        CentresYAt(targets, i);
        PrefixSum(xs, i);
        PrefixSum(ys, i);
        sumX := sumX + centreX;
        sumY := sumY + centreY;
        i := i + 1;
      }
      assert xs[..i] == xs && ys[..i] == ys;
      mx, my := sumX / (|targets| as real), sumY / (|targets| as real);
    }

    /** `calculateMidpoint`: the mean of the centres, left as it was when there is no target. */
    method CalculateMidpoint()
      modifies this`midpointX, this`midpointY
      ensures |targets| == 0 ==> midpointX == old(midpointX) && midpointY == old(midpointY)
      ensures |targets| > 0 ==> midpointX == Mean(CentresX(targets)) && midpointY == Mean(CentresY(targets))
    {
      if |targets| == 0 {
        return;
      }
      ghost var xs := CentresX(targets);
      ghost var ys := CentresY(targets);
      midpointX, midpointY := Midpoint(targets);
      assert CentresX(targets) == xs && CentresY(targets) == ys;
    }

    /** The `forEach` of `calculateTargetScale`: the bounding box of the centres. */
    static method BoundingBox(targets: seq<Player>) returns (minX: real, maxX: real, minY: real, maxY: real)
      requires |targets| > 0
      ensures minX == Least(CentresX(targets)) && maxX == Greatest(CentresX(targets))
      ensures minY == Least(CentresY(targets)) && maxY == Greatest(CentresY(targets))
    {
      ghost var xs := CentresX(targets);
      ghost var ys := CentresY(targets);
      minX := targets[0].x + targets[0].baseWidth / 2.0;
      maxX := minX;
      minY := targets[0].y + targets[0].baseHeight / 2.0;
      maxY := minY;
      CentresXAt(targets, 0);
      CentresYAt(targets, 0);
      assert xs[..1] == [xs[0]] && ys[..1] == [ys[0]];
      var i := 1;
      while i < |targets|
        invariant 1 <= i <= |targets|
        invariant Extent(xs[..i], ys[..i], minX, maxX, minY, maxY)
      {
        var centreX := targets[i].x + targets[i].baseWidth / 2.0;
        var centreY := targets[i].y + targets[i].baseHeight / 2.0;
        CentresXAt(targets, i);
        CentresYAt(targets, i);
        PrefixExtremes(xs, i);
        PrefixExtremes(ys, i);
        minX := Min(minX, centreX);
        maxX := Max(maxX, centreX);
        minY := Min(minY, centreY);
        maxY := Max(maxY, centreY);
        i := i + 1;
      }
      assert xs[..i] == xs && ys[..i] == ys;
    }

    /** The body of `calculateTargetScale`: 1 with no target, else the padded box fitted and clamped. */
    static method FittedScale(targets: seq<Player>, canvasWidth: real, canvasHeight: real) returns (s: real)
      ensures s == TargetScaleOf(CentresX(targets), CentresY(targets), canvasWidth, canvasHeight)
    {
      if |targets| == 0 {
        return 1.0;
      }
      var minX, maxX, minY, maxY := BoundingBox(targets);
      RequiredSpanAtLeastPadding(CentresX(targets), PaddingX);
      RequiredSpanAtLeastPadding(CentresY(targets), PaddingY);
      var requiredWorldWidth := (maxX - minX) + PaddingX * 2.0;
      var requiredWorldHeight := (maxY - minY) + PaddingY * 2.0;
      var scaleX := canvasWidth / requiredWorldWidth;
      var scaleY := canvasHeight / requiredWorldHeight;
      s := Max(MinScale, Min(MaxScale, Min(scaleX, scaleY)));
    }

    /** `calculateTargetScale`. */
    method CalculateTargetScale()
      modifies this`targetScale
      ensures targetScale == TargetScaleOf(CentresX(targets), CentresY(targets), canvasWidth, canvasHeight)
    {
      ghost var xs := CentresX(targets);
      ghost var ys := CentresY(targets);
      targetScale := FittedScale(targets, canvasWidth, canvasHeight);
      assert CentresX(targets) == xs && CentresY(targets) == ys;
    }

    /**
     * `update`: recompute the targets as `calculateMidpoint` and
     * `calculateTargetScale` do, then move the scale 5% and the position 10%
     * of the way towards them.
     */
    method Update()
      requires Valid()
      modifies this`midpointX, this`midpointY, this`targetScale, this`scale, this`x, this`y
      ensures Valid()
      ensures |targets| == 0 ==> midpointX == old(midpointX) && midpointY == old(midpointY)
      ensures |targets| > 0 ==> midpointX == Mean(old(CentresX(targets))) && midpointY == Mean(old(CentresY(targets)))
      ensures targetScale == TargetScaleOf(old(CentresX(targets)), old(CentresY(targets)), canvasWidth, canvasHeight)
      ensures scale == Lerp(old(scale), targetScale, ScaleLerpFactor)
      ensures x == Lerp(old(x), midpointX, LerpFactor) && y == Lerp(old(y), midpointY, LerpFactor)
    {
      var mx, my := midpointX, midpointY;
      if |targets| > 0 {
        mx, my := Midpoint(targets);
      }
      var s := FittedScale(targets, canvasWidth, canvasHeight);
      ScaleStepInRange(scale, s);
      midpointX, midpointY, targetScale := mx, my, s;
      scale, x, y := Lerp(scale, s, ScaleLerpFactor), Lerp(x, mx, LerpFactor), Lerp(y, my, LerpFactor);
    }
  }
}
