/**
 What the cone branch guarantees: when each error is raised, the shape of a
 successful sector, symmetry under swapping the diameters, monotonicity in the
 label width, and where the corners of the outline lie.

 Each property about `ConeBranch` is proved in two layers: a lemma over plain
 reals (or over the sine and cosine at one point) that does the arithmetic,
 and a short lemma that instantiates it for the kernel's values.
 */
module ConeLaws {
  import opened Outline
  import opened Arith
  import opened ConeKernel
  import Trig

  lemma MulLe(x: real, y: real, k: real)
    requires x <= y && k >= 0.0
    ensures x * k <= y * k
  {
    assert (y - x) * k >= 0.0;
  }

  lemma MulLt(x: real, y: real, k: real)
    requires x < y && k > 0.0
    ensures x * k < y * k
  {
    assert (y - x) * k > 0.0;
  }

  /** Once the diameters differ by the extension's tolerance, the wider end is
      strictly wider, both radii are positive, and they differ by at least
      half the tolerance. */
  lemma ConeBranchRadii(top: real, bottom: real)
    requires top > 0.0 && bottom > 0.0 && Abs(top - bottom) >= 0.001
    ensures OuterRadius(top, bottom) > InnerRadius(top, bottom) > 0.0
    ensures RadiusDiff(top, bottom) >= 0.0005
    ensures 2.0 * OuterRadius(top, bottom) == (if top >= bottom then top else bottom)
  {
  }

  /** The difference error is raised exactly when the radius difference exceeds
      the height: a difference equal to the height passes the guard. */
  lemma DiffGuardInclusive(o: Trig.Oracle, h: real, w: real, top: real, bottom: real)
    requires top != bottom
    ensures ConeBranch(o, h, w, top, bottom) == Err(DiffExceedsHeight) <==> RadiusDiff(top, bottom) > h
  {
  }

  /** A non-positive height never reaches the division by the height: the
      radius difference is positive, so the difference error comes first. */
  lemma NonPositiveHeightIsDiffError(o: Trig.Oracle, h: real, w: real, top: real, bottom: real)
    requires top != bottom && h <= 0.0
    ensures ConeBranch(o, h, w, top, bottom) == Err(DiffExceedsHeight)
  {
  }

  /** Past the difference guard the cone branch is the development of the two
      radii with the clamped sine of the half apex angle. */
  lemma ConeBranchDevelops(o: Trig.Oracle, h: real, w: real, top: real, bottom: real)
    requires top != bottom && RadiusDiff(top, bottom) <= h
    ensures RadiusDiff(top, bottom) > 0.0
    ensures ConeBranch(o, h, w, top, bottom)
        == Develop(o, w, OuterRadius(top, bottom), InnerRadius(top, bottom),
                   SinHalfApex(RadiusDiff(top, bottom), h), top >= bottom)
  {
  }

  lemma SumScales(e: real, n: real, u: real, d: real, q: real)
    requires e * q == u && n * q == d && q > 0.0
    ensures e + n == 0.0 <==> u + d == 0.0
    ensures e + n > 0.0 <==> u + d > 0.0
  {
    assert (e + n) * q == u + d;
    if e + n > 0.0 {
      MulLt(0.0, e + n, q);
    } else if e + n < 0.0 {
      MulLt(e + n, 0.0, q);
    }
  }

  /** For positive distinct diameters past the guard, what `Develop` is given:
      radii u > d > 0 summing to the mean diameter, and a sine in (0, 1]. */
  lemma DevelopArguments(h: real, top: real, bottom: real)
    requires top > 0.0 && bottom > 0.0 && top != bottom && RadiusDiff(top, bottom) <= h
    ensures RadiusDiff(top, bottom) > 0.0
    ensures OuterRadius(top, bottom) > InnerRadius(top, bottom) > 0.0
    ensures MeanDiameter(top, bottom) == OuterRadius(top, bottom) + InnerRadius(top, bottom)
    ensures 0.0 < SinHalfApex(RadiusDiff(top, bottom), h) <= 1.0
  {
  }

  /** The sweep divides by zero exactly when the two radii cancel out. */
  lemma DevelopZeroDivision(o: Trig.Oracle, w: real, u: real, d: real, q: real, j: bool)
    requires q > 0.0
    ensures Develop(o, w, u, d, q, j) == Err(ZeroDivision) <==> u + d == 0.0
  {
    var e := ApexRadius(u, q);
    var n := ApexRadius(d, q);
    SumScales(e, n, u, d, q);
  }

  /** The sweep divides by zero exactly when the difference guard passes and the
      diameters cancel out, which positive diameters never do. */
  lemma ZeroDivisionExactly(o: Trig.Oracle, h: real, w: real, top: real, bottom: real)
    requires top != bottom
    ensures ConeBranch(o, h, w, top, bottom) == Err(ZeroDivision)
        <==> RadiusDiff(top, bottom) <= h && MeanDiameter(top, bottom) == 0.0
  {
    if RadiusDiff(top, bottom) <= h {
      ConeBranchDevelops(o, h, w, top, bottom);
      DevelopZeroDivision(o, w, OuterRadius(top, bottom), InnerRadius(top, bottom),
                          SinHalfApex(RadiusDiff(top, bottom), h), top >= bottom);
    }
  }

  /** One wrap-around disjunct: an arc of apex radius e = radius / q spanning t
      is longer than the circumference 2 pi radius exactly when t > 2 pi q. */
  lemma OneDisjunct(pi: real, t: real, e: real, radius: real, q: real)
    requires radius > 0.0 && q > 0.0 && e * q == radius
    ensures t * e > pi * radius * 2.0 <==> t > 2.0 * pi * q
  {
    assert e > 0.0 by {
      if e <= 0.0 {
        MulLe(e, 0.0, q);
      }
    }
    assert t * e * q == t * radius;
    if t * e > pi * radius * 2.0 {
      MulLt(pi * radius * 2.0, t * e, q);
      if t <= 2.0 * pi * q {
        MulLe(t, 2.0 * pi * q, radius);
      }
    } else {
      MulLe(t * e, pi * radius * 2.0, q);
      if t > 2.0 * pi * q {
        MulLt(2.0 * pi * q, t, radius);
      }
    }
  }

  /** Given a smaller radius d > 0, the two wrap-around disjuncts agree: each
      holds exactly when the sweep exceeds 2 pi times the sine of the half apex
      angle. */
  lemma WrapDisjunctsAgree(pi: real, t: real, e: real, n: real, u: real, d: real, q: real)
    requires u > 0.0 && d > 0.0 && q > 0.0 && e * q == u && n * q == d
    ensures t * e > pi * u * 2.0 <==> t * n > pi * d * 2.0
    ensures WrapsAround(pi, t, e, n, u, d) <==> t > 2.0 * pi * q
  {
    OneDisjunct(pi, t, e, u, q);
    OneDisjunct(pi, t, n, d, q);
  }

  /** The wrap-around test in terms of the width: the sweep exceeds 2 pi q
      exactly when the width exceeds pi times the sum m of the radii. */
  lemma WrapsCore(pi: real, w: real, t: real, e: real, n: real, u: real, d: real, q: real, m: real)
    requires u > 0.0 && d > 0.0 && q > 0.0 && m == u + d
    requires e * q == u && n * q == d && t * ((e + n) / 2.0) == w
    ensures WrapsAround(pi, t, e, n, u, d) <==> w > pi * m
    ensures WrapsAround(pi, t, e, n, u, d) <==> t > 2.0 * pi * q
  {
    WrapDisjunctsAgree(pi, t, e, n, u, d, q);
    assert (e + n) * q == m;
    assert t * m == 2.0 * w * q by {
      calc {
        t * m;
        t * ((e + n) * q);
        (t * (e + n)) * q;
        2.0 * w * q;
      }
    }
    if t > 2.0 * pi * q {
      MulLt(2.0 * pi * q, t, m);
      if w <= pi * m {
        MulLe(2.0 * w, 2.0 * pi * m, q);
      }
    } else {
      MulLe(t, 2.0 * pi * q, m);
      if w > pi * m {
        MulLt(2.0 * pi * m, 2.0 * w, q);
      }
    }
  }

  /** With positive radii summing to m, the development wraps around exactly
      when the width exceeds pi m, and succeeds otherwise. */
  lemma DevelopWraps(o: Trig.Oracle, w: real, u: real, d: real, q: real, j: bool, m: real)
    requires u > 0.0 && d > 0.0 && q > 0.0 && m == u + d
    ensures Develop(o, w, u, d, q, j) == Err(WrapsTwice) <==> w > o.pi * m
    ensures Develop(o, w, u, d, q, j).Ok? <==> w <= o.pi * m
  {
    var e := ApexRadius(u, q);
    var n := ApexRadius(d, q);
    SumScales(e, n, u, d, q);
    var t := Sweep(w, e, n);
    WrapsCore(o.pi, w, t, e, n, u, d, q, m);
  }

  /** For positive diameters that pass the difference guard, the label circles
      the surface more than once exactly when the requested width exceeds the
      circumference at the mean diameter; the height plays no part. */
  lemma WrapsIffWiderThanMeanCircumference(o: Trig.Oracle, h: real, w: real, top: real, bottom: real)
    requires top > 0.0 && bottom > 0.0 && top != bottom
    requires RadiusDiff(top, bottom) <= h
    ensures ConeBranch(o, h, w, top, bottom) == Err(WrapsTwice) <==> w > o.pi * MeanDiameter(top, bottom)
    ensures ConeBranch(o, h, w, top, bottom).Ok? <==> w <= o.pi * MeanDiameter(top, bottom)
  {
    ConeBranchDevelops(o, h, w, top, bottom);
    DevelopWraps(o, w, OuterRadius(top, bottom), InnerRadius(top, bottom),
                 SinHalfApex(RadiusDiff(top, bottom), h), top >= bottom, MeanDiameter(top, bottom));
  }

  /** Proof glue: unfolds `Develop` once, so that callers can name the sector of
      a successful development without unfolding it themselves. */
  lemma DevelopOk(o: Trig.Oracle, w: real, u: real, d: real, q: real, j: bool)
    requires q > 0.0 && Develop(o, w, u, d, q, j).Ok?
    ensures ApexRadius(u, q) + ApexRadius(d, q) != 0.0
    ensures var e := ApexRadius(u, q);
            var n := ApexRadius(d, q);
            var t := Sweep(w, e, n);
      Develop(o, w, u, d, q, j) == Ok(Sector(e, n, t, BoundingWidth(o, e, t), BoundingHeight(o, e, n, t), j, t > o.pi))
  {
  }

  /** The sweep and radii of a development that succeeds, over plain reals. */
  lemma SectorCore(pi: real, w: real, t: real, e: real, n: real, u: real, d: real, q: real)
    requires u > d > 0.0 && 0.0 < q <= 1.0 && w > 0.0 && pi > 0.0
    requires e * q == u && n * q == d && t * ((e + n) / 2.0) == w
    requires w <= pi * (u + d)
    ensures e > n > 0.0
    ensures 0.0 < t <= 2.0 * pi * q <= 2.0 * pi
  {
    WrapsCore(pi, w, t, e, n, u, d, q, u + d);
    assert n > 0.0 by {
      if n <= 0.0 {
        MulLe(n, 0.0, q);
      }
    }
    if e <= n {
      MulLe(e, n, q);
    }
    MulLe(q, 1.0, 2.0 * pi);
  }

  /** What a successful development looks like: apex radii e > n > 0 with
      e q = u and n q = d, a positive sweep whose arc at the mean apex radius is
      the width and which stays within 2 pi q, and the kernel's extents. */
  lemma DevelopSector(o: Trig.Oracle, w: real, u: real, d: real, q: real, j: bool)
    requires u > d > 0.0 && 0.0 < q <= 1.0 && w > 0.0 && o.pi > 0.0
    requires Develop(o, w, u, d, q, j).Ok?
    ensures var s := Develop(o, w, u, d, q, j).value;
      && s.outerRadius * q == u && s.innerRadius * q == d
      && s.outerRadius > s.innerRadius > 0.0
      && s.sweep * ((s.outerRadius + s.innerRadius) / 2.0) == w
      && 0.0 < s.sweep <= 2.0 * o.pi * q <= 2.0 * o.pi
      && s.boundingWidth == BoundingWidth(o, s.outerRadius, s.sweep)
      && s.boundingHeight == BoundingHeight(o, s.outerRadius, s.innerRadius, s.sweep)
  {
    DevelopWraps(o, w, u, d, q, j, u + d);
    DevelopOk(o, w, u, d, q, j);
    DevelopedSweep(o.pi, w, u, d, q);
  }

  /** `SectorCore` for the kernel's apex radii and sweep. */
  lemma DevelopedSweep(pi: real, w: real, u: real, d: real, q: real)
    requires u > d > 0.0 && 0.0 < q <= 1.0 && w > 0.0 && pi > 0.0 && w <= pi * (u + d)
    ensures ApexRadius(u, q) > ApexRadius(d, q) > 0.0
    ensures 0.0 < Sweep(w, ApexRadius(u, q), ApexRadius(d, q)) <= 2.0 * pi * q <= 2.0 * pi
  {
    var e := ApexRadius(u, q);
    var n := ApexRadius(d, q);
    SectorCore(pi, w, Sweep(w, e, n), e, n, u, d, q);
  }

  /** A successful cone has apex radii e > n > 0 and a positive sweep of at
      most one full turn, with the kernel's extents. */
  lemma SectorGeometry(o: Trig.Oracle, h: real, w: real, top: real, bottom: real)
    requires top > 0.0 && bottom > 0.0 && top != bottom && w > 0.0 && o.pi > 0.0
    requires RadiusDiff(top, bottom) <= h && w <= o.pi * MeanDiameter(top, bottom)
    ensures ConeBranch(o, h, w, top, bottom).Ok?
    ensures var s := ConeBranch(o, h, w, top, bottom).value;
      && s.outerRadius > s.innerRadius > 0.0
      && 0.0 < s.sweep <= 2.0 * o.pi
      && s.boundingWidth == BoundingWidth(o, s.outerRadius, s.sweep)
      && s.boundingHeight == BoundingHeight(o, s.outerRadius, s.innerRadius, s.sweep)
  {
    WrapsIffWiderThanMeanCircumference(o, h, w, top, bottom);
    ConeBranchDevelops(o, h, w, top, bottom);
    DevelopSector(o, w, OuterRadius(top, bottom), InnerRadius(top, bottom),
                  SinHalfApex(RadiusDiff(top, bottom), h), top >= bottom);
  }

  /** Sine and cosine at half of the sweep t, as `Valid` oracles give them. */
  ghost predicate HalfSweepFacts(o: Trig.Oracle, t: real) {
    && -1.0 <= o.sin(t / 2.0) <= 1.0 && -1.0 <= o.cos(t / 2.0) <= 1.0
    && o.sin(-t / 2.0) == -o.sin(t / 2.0) && o.cos(-t / 2.0) == o.cos(t / 2.0)
    && (t <= o.pi ==> 0.0 < o.sin(t / 2.0) && 0.0 <= o.cos(t / 2.0))
    && (t > o.pi ==> o.cos(t / 2.0) < 0.0)
  }

  /** The trigonometric facts at the half sweep that the extent and corner
      proofs use, for a sweep within one turn. */
  lemma HalfSweepTrig(o: Trig.Oracle, t: real)
    requires Trig.Valid(o) && 0.0 < t <= 2.0 * o.pi
    ensures HalfSweepFacts(o, t)
  {
    assert -t / 2.0 + t / 2.0 == 0.0;
  }

  /** The kernel's extents for radii e > n > 0, given the half-sweep facts. */
  lemma ExtentCore(o: Trig.Oracle, e: real, n: real, t: real)
    requires e > n > 0.0 && HalfSweepFacts(o, t)
    ensures 0.0 < BoundingWidth(o, e, t) <= 2.0 * e
    ensures t > o.pi ==> BoundingWidth(o, e, t) == 2.0 * e
    ensures 0.0 < BoundingHeight(o, e, n, t) <= 2.0 * e
  {
    var sn := o.sin(t / 2.0);
    if t <= o.pi {
      MulLe(sn, 1.0, 2.0 * e);
      MulLt(0.0, sn, 2.0 * e);
    }
  }

  /** Bounding extents: the width is positive, at most the outer apex diameter
      and equal to it once the sweep passes a half-turn; the depth is positive
      and at most the outer apex diameter. */
  lemma ExtentBounds(o: Trig.Oracle, h: real, w: real, top: real, bottom: real)
    requires Trig.Valid(o)
    requires top > 0.0 && bottom > 0.0 && top != bottom && w > 0.0
    requires RadiusDiff(top, bottom) <= h && w <= o.pi * MeanDiameter(top, bottom)
    ensures ConeBranch(o, h, w, top, bottom).Ok?
    ensures var s := ConeBranch(o, h, w, top, bottom).value;
      && 0.0 < s.boundingWidth <= 2.0 * s.outerRadius
      && (s.largeArc ==> s.boundingWidth == 2.0 * s.outerRadius)
      && 0.0 < s.boundingHeight <= 2.0 * s.outerRadius
  {
    SectorGeometry(o, h, w, top, bottom);
    var s := ConeBranch(o, h, w, top, bottom).value;
    HalfSweepTrig(o, s.sweep);
    ExtentCore(o, s.outerRadius, s.innerRadius, s.sweep);
  }

  /** Swapping the diameters changes nothing but the orientation flag: the same
      error, or the same sector flipped the other way up. */
  lemma SwapSymmetry(o: Trig.Oracle, h: real, w: real, top: real, bottom: real)
    requires top != bottom
    ensures ConeBranch(o, h, w, bottom, top) == FlipResult(ConeBranch(o, h, w, top, bottom))
  {
    assert OuterRadius(bottom, top) == OuterRadius(top, bottom);
    assert InnerRadius(bottom, top) == InnerRadius(top, bottom);
    assert RadiusDiff(bottom, top) == RadiusDiff(top, bottom);
  }

  /** The sweep grows strictly with the width, over plain reals. */
  lemma SweepMonotoneCore(m: real, t1: real, t2: real, w1: real, w2: real)
    requires m > 0.0 && w1 < w2 && t1 * m == w1 && t2 * m == w2
    ensures t1 < t2
  {
    if t1 >= t2 {
      MulLe(t2, t1, m);
    }
  }

  /** The bounding width grows with the sweep, given the sine at both half sweeps. */
  lemma WidthGrowsCore(o: Trig.Oracle, e: real, t1: real, t2: real)
    requires e > 0.0 && t1 < t2 && -1.0 <= o.sin(t1 / 2.0) <= 1.0
    requires t2 <= o.pi ==> o.sin(t1 / 2.0) < o.sin(t2 / 2.0)
    requires t1 < o.pi ==> o.sin(t1 / 2.0) < 1.0
    ensures BoundingWidth(o, e, t1) <= BoundingWidth(o, e, t2)
    ensures t1 < o.pi ==> BoundingWidth(o, e, t1) < BoundingWidth(o, e, t2)
  {
    if t2 <= o.pi {
      MulLt(o.sin(t1 / 2.0), o.sin(t2 / 2.0), 2.0 * e);
    } else if t1 < o.pi {
      MulLt(o.sin(t1 / 2.0), 1.0, 2.0 * e);
    } else if t1 <= o.pi {
      MulLe(o.sin(t1 / 2.0), 1.0, 2.0 * e);
    }
  }

  /** Sine grows on the first quarter-turn, stated for two sweeps of at most a
      half-turn; below a half-turn the sine of the half sweep stays under 1. */
  lemma SinGrowsAtHalfSweeps(o: Trig.Oracle, t1: real, t2: real)
    requires Trig.Valid(o) && 0.0 < t1 < t2
    ensures -1.0 <= o.sin(t1 / 2.0) <= 1.0
    ensures t2 <= o.pi ==> o.sin(t1 / 2.0) < o.sin(t2 / 2.0)
    ensures t1 < o.pi ==> o.sin(t1 / 2.0) < 1.0
  {
    if t1 < o.pi {
      assert o.sin(t1 / 2.0) < o.sin(o.pi / 2.0);
    }
  }

  /** Over the same apex radii, a wider label sweeps a strictly larger angle. */
  lemma SweepGrows(w1: real, w2: real, e: real, n: real)
    requires e + n > 0.0 && w1 < w2
    ensures Sweep(w1, e, n) < Sweep(w2, e, n)
  {
    SweepMonotoneCore((e + n) / 2.0, Sweep(w1, e, n), Sweep(w2, e, n), w1, w2);
  }

  /** A narrower label develops wherever a wider one does, over the same apex
      radii and with a strictly smaller positive sweep. */
  lemma DevelopSweepGrows(o: Trig.Oracle, w1: real, w2: real, u: real, d: real, q: real, j: bool)
    requires u > d > 0.0 && 0.0 < q <= 1.0 && 0.0 < w1 < w2 && o.pi > 0.0
    requires Develop(o, w2, u, d, q, j).Ok?
    ensures ApexRadius(u, q) > 0.0 && ApexRadius(d, q) > 0.0
    ensures var e := ApexRadius(u, q);
            var n := ApexRadius(d, q);
            var t1 := Sweep(w1, e, n);
            var t2 := Sweep(w2, e, n);
      && 0.0 < t1 < t2
      && Develop(o, w1, u, d, q, j) == Ok(Sector(e, n, t1, BoundingWidth(o, e, t1), BoundingHeight(o, e, n, t1), j, t1 > o.pi))
      && Develop(o, w2, u, d, q, j) == Ok(Sector(e, n, t2, BoundingWidth(o, e, t2), BoundingHeight(o, e, n, t2), j, t2 > o.pi))
  {
    DevelopWraps(o, w1, u, d, q, j, u + d);
    DevelopWraps(o, w2, u, d, q, j, u + d);
    DevelopOk(o, w1, u, d, q, j);
    DevelopOk(o, w2, u, d, q, j);
    SweepsGrowCore(o.pi, w1, w2, u, d, q);
  }

  /** The arithmetic of `DevelopSweepGrows`, with the wider width within pi (u + d). */
  lemma SweepsGrowCore(pi: real, w1: real, w2: real, u: real, d: real, q: real)
    requires u > d > 0.0 && 0.0 < q <= 1.0 && 0.0 < w1 < w2 && pi > 0.0 && w2 <= pi * (u + d)
    ensures ApexRadius(u, q) > 0.0 && ApexRadius(d, q) > 0.0
    ensures 0.0 < Sweep(w1, ApexRadius(u, q), ApexRadius(d, q)) < Sweep(w2, ApexRadius(u, q), ApexRadius(d, q))
  {
    var e := ApexRadius(u, q);
    var n := ApexRadius(d, q);
    SectorCore(pi, w1, Sweep(w1, e, n), e, n, u, d, q);
    SweepGrows(w1, w2, e, n);
  }

  /** A narrower label develops wherever a wider one does, over the same
      radii, with a strictly smaller sweep and a bounding width no larger,
      strictly smaller while the narrower sweep is below a half-turn. */
  lemma DevelopWidthMonotone(o: Trig.Oracle, w1: real, w2: real, u: real, d: real, q: real, j: bool, m: real)
    requires Trig.Valid(o)
    requires u > d > 0.0 && 0.0 < q <= 1.0 && 0.0 < w1 < w2
    requires m == u + d && w2 <= o.pi * m
    ensures Develop(o, w1, u, d, q, j).Ok? && Develop(o, w2, u, d, q, j).Ok?
    ensures var s1 := Develop(o, w1, u, d, q, j).value;
            var s2 := Develop(o, w2, u, d, q, j).value;
      && s1.outerRadius == s2.outerRadius && s1.innerRadius == s2.innerRadius
      && s1.sweep < s2.sweep
      && s1.boundingWidth <= s2.boundingWidth
      && (s1.sweep < o.pi ==> s1.boundingWidth < s2.boundingWidth)
  {
    DevelopWraps(o, w2, u, d, q, j, m);
    DevelopSweepGrows(o, w1, w2, u, d, q, j);
    var e := ApexRadius(u, q);
    var n := ApexRadius(d, q);
    var t1 := Sweep(w1, e, n);
    var t2 := Sweep(w2, e, n);
    SinGrowsAtHalfSweeps(o, t1, t2);
    WidthGrowsCore(o, e, t1, t2);
  }

  /** A narrower label fits wherever a wider one does; its sweep is strictly
      smaller and its bounding width no larger, and strictly smaller while the
      narrower label's sweep is below a half-turn. */
  lemma WidthMonotone(o: Trig.Oracle, h: real, w1: real, w2: real, top: real, bottom: real)
    requires Trig.Valid(o)
    requires top > 0.0 && bottom > 0.0 && top != bottom && 0.0 < w1 < w2
    requires RadiusDiff(top, bottom) <= h && w2 <= o.pi * MeanDiameter(top, bottom)
    ensures ConeBranch(o, h, w1, top, bottom).Ok? && ConeBranch(o, h, w2, top, bottom).Ok?
    ensures var s1 := ConeBranch(o, h, w1, top, bottom).value;
            var s2 := ConeBranch(o, h, w2, top, bottom).value;
      && s1.outerRadius == s2.outerRadius && s1.innerRadius == s2.innerRadius
      && s1.sweep < s2.sweep
      && s1.boundingWidth <= s2.boundingWidth
      && (s1.sweep < o.pi ==> s1.boundingWidth < s2.boundingWidth)
  {
    WrapsIffWiderThanMeanCircumference(o, h, w2, top, bottom);
    BranchWidthMonotone(o, h, w1, w2, top, bottom);
  }

  /** `WidthMonotone` for a wider label already known to develop. */
  lemma BranchWidthMonotone(o: Trig.Oracle, h: real, w1: real, w2: real, top: real, bottom: real)
    requires Trig.Valid(o)
    requires top > 0.0 && bottom > 0.0 && top != bottom && 0.0 < w1 < w2
    requires RadiusDiff(top, bottom) <= h && ConeBranch(o, h, w2, top, bottom).Ok?
    ensures ConeBranch(o, h, w1, top, bottom).Ok?
    ensures var s1 := ConeBranch(o, h, w1, top, bottom).value;
            var s2 := ConeBranch(o, h, w2, top, bottom).value;
      && s1.outerRadius == s2.outerRadius && s1.innerRadius == s2.innerRadius
      && s1.sweep < s2.sweep
      && s1.boundingWidth <= s2.boundingWidth
      && (s1.sweep < o.pi ==> s1.boundingWidth < s2.boundingWidth)
  {
    DevelopArguments(h, top, bottom);
    var u, d, m := OuterRadius(top, bottom), InnerRadius(top, bottom), MeanDiameter(top, bottom);
    var q := SinHalfApex(RadiusDiff(top, bottom), h);
    ConeBranchDevelops(o, h, w1, top, bottom);
    ConeBranchDevelops(o, h, w2, top, bottom);
    DevelopWraps(o, w2, u, d, q, top >= bottom, m);
    DevelopWidthMonotone(o, w1, w2, u, d, q, top >= bottom, m);
  }

  /** The outline is symmetric about the vertical line through the middle of
      its bounding box: the corners at -t/2 mirror those at +t/2. */
  lemma CornersMirror(o: Trig.Oracle, s: Shape)
    requires Trig.Valid(o) && s.Sector?
    ensures var c := SectorCorners(o, s);
      && c.innerStart.x + c.innerEnd.x == s.boundingWidth && c.innerStart.y == c.innerEnd.y
      && c.outerStart.x + c.outerEnd.x == s.boundingWidth && c.outerStart.y == c.outerEnd.y
  {
    var t := s.sweep;
    assert -t / 2.0 + t / 2.0 == 0.0;
  }

  /** All four corners of `c` lie in the box [0, a] x [0, r]. */
  ghost predicate AllInBox(c: Corners, a: real, r: real) {
    InBox(c.innerStart, a, r) && InBox(c.outerStart, a, r) && InBox(c.outerEnd, a, r) && InBox(c.innerEnd, a, r)
  }

  /** A factor in [-1, 1] keeps a non-negative length within itself. */
  lemma UnitScale(f: real, k: real)
    requires -1.0 <= f <= 1.0 && k >= 0.0
    ensures -k <= f * k <= k
  {
    MulLe(-1.0, f, k);
    MulLe(f, 1.0, k);
  }

  /** A non-negative factor keeps the order of two non-negative lengths. */
  lemma ScaleOrder(f: real, x: real, y: real)
    requires 0.0 <= x <= y && f >= 0.0
    ensures 0.0 <= f * x <= f * y
  {
    MulLe(x, y, f);
    MulLe(0.0, x, f);
  }

  /** The corners about (a/2, r - e) with the products `sin * radius` and
      `cos * radius` already evaluated. */
  function ProductCorners(a: real, r: real, e: real, pn: real, pe: real, qn: real, qe: real): Corners {
    Corners(Point(a / 2.0 - pn, r - e + qn), Point(a / 2.0 - pe, r - e + qe),
            Point(a / 2.0 + pe, r - e + qe), Point(a / 2.0 + pn, r - e + qn))
  }

  lemma CornersAsProducts(e: real, n: real, sn: real, cs: real, a: real, r: real)
    ensures CornersAbout(a / 2.0, r - e, e, n, -sn, cs, sn, cs) == ProductCorners(a, r, e, sn * n, sn * e, cs * n, cs * e)
  {
  }

  /** The small-arc box, once every product is a plain number. */
  lemma SmallArcBox(e: real, pn: real, pe: real, qn: real, qe: real, a: real, r: real)
    requires 0.0 <= pn <= pe && 0.0 <= qn <= qe <= e
    requires a == 2.0 * pe && r == e - Min(qe, qn)
    ensures AllInBox(ProductCorners(a, r, e, pn, pe, qn, qe), a, r)
  {
  }

  /** The large-arc box, once every product is a plain number. */
  lemma LargeArcBox(e: real, n: real, pn: real, pe: real, qn: real, qe: real, a: real, r: real)
    requires -n <= pn <= n && -e <= pe <= e && n < e && qe <= qn < 0.0
    requires a == 2.0 * e && r == e - Min(qe, qn)
    ensures AllInBox(ProductCorners(a, r, e, pn, pe, qn, qe), a, r)
  {
  }

  /** Within a sweep of at most a half-turn the width is the chord 2 e sin(t/2)
      and the depth e - n cos(t/2); the corners about (a/2, r - e) fit the box. */
  lemma SmallArcCornersCore(e: real, n: real, sn: real, cs: real, a: real, r: real)
    requires e > n > 0.0 && 0.0 < sn <= 1.0 && 0.0 <= cs <= 1.0
    requires a == 2.0 * e * sn && r == e - Min(e * cs, n * cs)
    ensures AllInBox(CornersAbout(a / 2.0, r - e, e, n, -sn, cs, sn, cs), a, r)
  {
    ScaleOrder(sn, n, e);
    ScaleOrder(cs, n, e);
    UnitScale(cs, e);
    SmallArcBox(e, sn * n, sn * e, cs * n, cs * e, a, r);
    CornersAsProducts(e, n, sn, cs, a, r);
  }

  /** Past a half-turn the width is the outer apex diameter and the depth
      e - e cos(t/2); the corners about (a/2, r - e) fit the box. */
  lemma LargeArcCornersCore(e: real, n: real, sn: real, cs: real, a: real, r: real)
    requires e > n > 0.0 && -1.0 <= sn <= 1.0 && -1.0 <= cs < 0.0
    requires a == 2.0 * e * 1.0 && r == e - Min(e * cs, n * cs)
    ensures AllInBox(CornersAbout(a / 2.0, r - e, e, n, -sn, cs, sn, cs), a, r)
  {
    UnitScale(sn, n);
    UnitScale(sn, e);
    ScaleOrder(-cs, n, e);
    MulLt(cs, 0.0, n);
    LargeArcBox(e, n, sn * n, sn * e, cs * n, cs * e, a, r);
    CornersAsProducts(e, n, sn, cs, a, r);
  }

  /** Given the half-sweep facts, the corners at -t/2 use -sin(t/2) and cos(t/2). */
  lemma CornersAtHalfSweep(o: Trig.Oracle, s: Shape)
    requires s.Sector? && HalfSweepFacts(o, s.sweep)
    ensures SectorCorners(o, s)
        == CornersAbout(s.boundingWidth / 2.0, s.boundingHeight - s.outerRadius, s.outerRadius, s.innerRadius,
                        -o.sin(s.sweep / 2.0), o.cos(s.sweep / 2.0), o.sin(s.sweep / 2.0), o.cos(s.sweep / 2.0))
  {
  }

  /** The corners of a sector with radii e > n > 0 and the kernel's extents lie
      in its bounding box, given the half-sweep facts. */
  lemma CornersInBoxCore(o: Trig.Oracle, s: Shape)
    requires s.Sector? && s.outerRadius > s.innerRadius > 0.0 && HalfSweepFacts(o, s.sweep)
    requires s.boundingWidth == BoundingWidth(o, s.outerRadius, s.sweep)
    requires s.boundingHeight == BoundingHeight(o, s.outerRadius, s.innerRadius, s.sweep)
    ensures AllInBox(SectorCorners(o, s), s.boundingWidth, s.boundingHeight)
  {
    CornersAtHalfSweep(o, s);
    if s.sweep <= o.pi {
      SmallArcCornersInBox(o, s);
    } else {
      LargeArcCornersInBox(o, s);
    }
  }

  lemma SmallArcCornersInBox(o: Trig.Oracle, s: Shape)
    requires s.Sector? && s.outerRadius > s.innerRadius > 0.0 && HalfSweepFacts(o, s.sweep)
    requires s.sweep <= o.pi
    requires s.boundingWidth == BoundingWidth(o, s.outerRadius, s.sweep)
    requires s.boundingHeight == BoundingHeight(o, s.outerRadius, s.innerRadius, s.sweep)
    ensures AllInBox(CornersAbout(s.boundingWidth / 2.0, s.boundingHeight - s.outerRadius, s.outerRadius, s.innerRadius,
                                  -o.sin(s.sweep / 2.0), o.cos(s.sweep / 2.0), o.sin(s.sweep / 2.0), o.cos(s.sweep / 2.0)),
                     s.boundingWidth, s.boundingHeight)
  {
    var e, n, t, a, r := s.outerRadius, s.innerRadius, s.sweep, s.boundingWidth, s.boundingHeight;
    var sn := o.sin(t / 2.0);
    var cs := o.cos(t / 2.0);
    assert r == e - Min(e * cs, n * cs);
    assert a == 2.0 * e * sn;
    SmallArcCornersCore(e, n, sn, cs, a, r);
  }

  lemma LargeArcCornersInBox(o: Trig.Oracle, s: Shape)
    requires s.Sector? && s.outerRadius > s.innerRadius > 0.0 && HalfSweepFacts(o, s.sweep)
    requires s.sweep > o.pi
    requires s.boundingWidth == BoundingWidth(o, s.outerRadius, s.sweep)
    requires s.boundingHeight == BoundingHeight(o, s.outerRadius, s.innerRadius, s.sweep)
    ensures AllInBox(CornersAbout(s.boundingWidth / 2.0, s.boundingHeight - s.outerRadius, s.outerRadius, s.innerRadius,
                                  -o.sin(s.sweep / 2.0), o.cos(s.sweep / 2.0), o.sin(s.sweep / 2.0), o.cos(s.sweep / 2.0)),
                     s.boundingWidth, s.boundingHeight)
  {
    var e, n, t, a, r := s.outerRadius, s.innerRadius, s.sweep, s.boundingWidth, s.boundingHeight;
    var sn := o.sin(t / 2.0);
    var cs := o.cos(t / 2.0);
    assert r == e - Min(e * cs, n * cs);
    assert a == 2.0 * e * 1.0;
    LargeArcCornersCore(e, n, sn, cs, a, r);
  }

  /** Every corner of a successful sector lies in the bounding box
      [0, boundingWidth] x [0, boundingHeight]. */
  lemma CornersInBox(o: Trig.Oracle, h: real, w: real, top: real, bottom: real)
    requires Trig.Valid(o)
    requires top > 0.0 && bottom > 0.0 && top != bottom && w > 0.0
    requires RadiusDiff(top, bottom) <= h && w <= o.pi * MeanDiameter(top, bottom)
    ensures ConeBranch(o, h, w, top, bottom).Ok?
    ensures var s := ConeBranch(o, h, w, top, bottom).value;
      AllInBox(SectorCorners(o, s), s.boundingWidth, s.boundingHeight)
  {
    SectorGeometry(o, h, w, top, bottom);
    var s := ConeBranch(o, h, w, top, bottom).value;
    HalfSweepTrig(o, s.sweep);
    CornersInBoxCore(o, s);
  }
}
