/**
 The cone branch of the unroll kernel: from the two diameters, the label height
 and the label width to an annular sector, or the reason there is none.

 Both programs carry this arithmetic verbatim (taper_label_generator.py lines
 51-88 and viwtaper.py lines 50-89); it is defined here once and both callers
 use it. The label height is taken as the in-plane slant distance between the
 two edge circles, so the sine of the virtual cone's half apex angle is the
 radius difference over the height.
 */
module ConeKernel {
  import opened Outline
  import opened Arith
  import Trig

  /** `u`: the radius of the wider end. */
  function OuterRadius(top: real, bottom: real): (u: real)
    ensures 2.0 * u >= top && 2.0 * u >= bottom
    ensures 2.0 * u == top || 2.0 * u == bottom
  {
    Max(top, bottom) / 2.0
  }

  /** `d`: the radius of the narrower end. */
  function InnerRadius(top: real, bottom: real): (d: real)
    ensures 2.0 * d <= top && 2.0 * d <= bottom
    ensures 2.0 * d == top || 2.0 * d == bottom
  {
    Min(top, bottom) / 2.0
  }

  /** `p`: how much the two radii differ. */
  function RadiusDiff(top: real, bottom: real): (p: real)
    ensures 2.0 * p == Abs(top - bottom)
  {
    OuterRadius(top, bottom) - InnerRadius(top, bottom)
  }

  /** The mean of the two diameters. */
  function MeanDiameter(top: real, bottom: real): (m: real)
    ensures m == OuterRadius(top, bottom) + InnerRadius(top, bottom)
  {
    (top + bottom) / 2.0
  }

  /** `_`: the sine of the virtual cone's half apex angle, clamped into [-1, 1].
      Once the difference guard has passed, the clamp changes nothing. */
  function SinHalfApex(p: real, h: real): (q: real)
    requires 0.0 < p <= h
    ensures 0.0 < q <= 1.0
    ensures q * h == p
  {
    Clamp(p / h, -1.0, 1.0)
  }

  /** `e` and `n`: the distance, in the flattened plane, from the virtual apex to
      the edge circle of physical radius `radius`. */
  function ApexRadius(radius: real, q: real): (e: real)
    requires q > 0.0
    ensures e * q == radius
  {
    radius / q
  }

  /** `t`: the sweep angle. The requested width is the arc length at the mean
      of the two apex radii. */
  function Sweep(w: real, e: real, n: real): (t: real)
    requires e + n != 0.0
    ensures t * ((e + n) / 2.0) == w
  {
    2.0 * w / (e + n)
  }

  /** The wrap-around test: the outer arc `N` or the inner arc `A` is longer
      than the circumference of its physical circle. */
  predicate WrapsAround(pi: real, t: real, e: real, n: real, u: real, d: real) {
    t * e > pi * u * 2.0 || t * n > pi * d * 2.0
  }

  /** `a`: the chord between the outer endpoints, or the outer diameter once the
      sweep passes a half-turn. */
  function BoundingWidth(o: Trig.Oracle, e: real, t: real): real {
    2.0 * e * (if t > o.pi then 1.0 else o.sin(t / 2.0))
  }

  /** `r`: the depth of the sector, from the outer arc's apex down to the lower
      of the two corner projections `P` and `L`. */
  function BoundingHeight(o: Trig.Oracle, e: real, n: real, t: real): (r: real)
    ensures e > n > 0.0 && -1.0 <= o.cos(t / 2.0) <= 1.0 ==> 0.0 < r <= 2.0 * e
  {
    var c := o.cos(t / 2.0);
    assert e > n > 0.0 && -1.0 <= c <= 1.0 ==> 0.0 < e - Min(e * c, n * c) <= 2.0 * e by {
      if e > n > 0.0 && -1.0 <= c <= 1.0 {
        DepthBounds(e, n, c);
      }
    }
    e - Min(e * c, n * c)
  }

  lemma DepthBounds(e: real, n: real, c: real)
    requires e > n > 0.0 && -1.0 <= c <= 1.0
    ensures 0.0 < e - Min(e * c, n * c) <= 2.0 * e
  {
    if c >= 0.0 {
      assert 0.0 <= n * c <= n;
      assert n * c <= e * c;
    } else {
      var ec := e * c;
      assert e * (c + 1.0) >= 0.0;
      assert (e - n) * c < 0.0;
      assert -e <= ec < n * c;
      assert ec < 0.0;
      assert Min(ec, n * c) == ec;
      assert e - ec <= 2.0 * e;
    }
  }

  /** The cone branch, entered once the diameters are known to differ. */
  function ConeBranch(o: Trig.Oracle, h: real, w: real, top: real, bottom: real): (res: Result<Shape>)
    requires top != bottom
    ensures res.Ok? ==> res.value.Sector? && res.value.flipped == (top > bottom)
    ensures res.Ok? ==> res.value.largeArc == (res.value.sweep > o.pi)
    ensures res.Err? ==> !res.error.NonPositive?
  {
    var p := RadiusDiff(top, bottom);
    if p > h then Err(DiffExceedsHeight)
    else Develop(o, w, OuterRadius(top, bottom), InnerRadius(top, bottom), SinHalfApex(p, h), top >= bottom)
  }

  /** The cone branch after the difference guard: the apex radii, the sweep,
      the wrap-around test and the extents, for radii `u`, `d` and the sine `q`
      of the half apex angle. */
  function Develop(o: Trig.Oracle, w: real, u: real, d: real, q: real, flipped: bool): (res: Result<Shape>)
    requires q > 0.0
    ensures res.Ok? ==> res.value.Sector? && res.value.flipped == flipped
    ensures res.Ok? ==> res.value.largeArc == (res.value.sweep > o.pi)
    ensures res.Err? ==> res.error in {ZeroDivision, WrapsTwice}
  {
    var e := ApexRadius(u, q);
    var n := ApexRadius(d, q);
    if e + n == 0.0 then Err(ZeroDivision)
    else
      var t := Sweep(w, e, n);
      if WrapsAround(o.pi, t, e, n, u, d) then Err(WrapsTwice)
      else Ok(Sector(e, n, t, BoundingWidth(o, e, t), BoundingHeight(o, e, n, t), flipped, t > o.pi))
  }

  /** The corners `(E, k)`, `(D, S)`, `(T, z)`, `(M, F)` of a sector, about the
      virtual apex `(i, c)` placed so that the bounding box starts at the origin. */
  function SectorCorners(o: Trig.Oracle, s: Shape): Corners
    requires s.Sector?
  {
    var t := s.sweep;
    CornersAbout(s.boundingWidth / 2.0, s.boundingHeight - s.outerRadius, s.outerRadius, s.innerRadius,
                 o.sin(-t / 2.0), o.cos(-t / 2.0), o.sin(t / 2.0), o.cos(t / 2.0))
  }

  /** The inner and outer edge points at the two ends of the sweep, about the
      apex `(i, c)`, from the sine and cosine at -t/2 and at +t/2. */
  function CornersAbout(i: real, c: real, e: real, n: real,
                        sMinus: real, cMinus: real, sPlus: real, cPlus: real): Corners
  {
    Corners(Point(i + sMinus * n, c + cMinus * n), Point(i + sMinus * e, c + cMinus * e),
            Point(i + sPlus * e, c + cPlus * e), Point(i + sPlus * n, c + cPlus * n))
  }
}
