/**
 The Inkscape extension's copy of the unroll kernel (taper_label_generator.py):
 `validate_input`, then `generate_conical_path`, as `effect` chains them.
 */
module TaperLabelGenerator {
  import opened Outline
  import opened Arith
  import opened ConeKernel
  import ConeLaws
  import Trig

  /** Diameters closer than this count as a cylinder. */
  const Tolerance: real := 0.001

  /** The outcome of `validate_input`: accepted, or the message it reports. */
  datatype Verdict = Accepted | Rejected(cause: InputError)

  /** `validate_input`: the label must have positive dimensions and the surface
      positive diameters, and a bad label is reported before bad diameters. */
  function ValidateInput(h: real, w: real, top: real, bottom: real): (v: Verdict)
    ensures v.Accepted? <==> h > 0.0 && w > 0.0 && top > 0.0 && bottom > 0.0
    ensures v == Rejected(LabelDimensionsNotPositive) <==> h <= 0.0 || w <= 0.0
    ensures v == Rejected(DiametersNotPositive) <==> h > 0.0 && w > 0.0 && (top <= 0.0 || bottom <= 0.0)
  {
    if h <= 0.0 || w <= 0.0 then Rejected(LabelDimensionsNotPositive)
    else if top <= 0.0 || bottom <= 0.0 then Rejected(DiametersNotPositive)
    else Accepted
  }

  /** The extension's cylinder test: the diameters agree within the tolerance. */
  predicate IsCylinder(top: real, bottom: real): (b: bool)
    ensures b <==> -Tolerance < top - bottom < Tolerance
    ensures top == bottom ==> b
  {
    Abs(top - bottom) < Tolerance
  }

  /** `generate_conical_path`: a rectangle of the label's own size for a
      cylinder, otherwise the cone branch. The raised `ValueError`s and the
      division by zero are the `Err` outcomes. */
  function GenerateConicalPath(o: Trig.Oracle, h: real, w: real, top: real, bottom: real): (res: Result<Shape>)
    ensures (res.Ok? && res.value.Rect?) <==> IsCylinder(top, bottom)
    ensures IsCylinder(top, bottom) ==> Width(res.value) == w && Height(res.value) == h && !Inverted(res.value)
    ensures res.Ok? && res.value.Sector? ==> Inverted(res.value) == (top >= bottom)
    ensures res.Ok? && res.value.Sector? ==> res.value.largeArc == (res.value.sweep > o.pi)
    ensures res.Err? ==> res.error in {DiffExceedsHeight, WrapsTwice, ZeroDivision}
  {
    if IsCylinder(top, bottom) then Ok(Rect(w, h))
    else ConeBranch(o, h, w, top, bottom)
  }

  /** What `effect` computes from the four options: the validation message, or
      the outcome of `generate_conical_path`. */
  function Unroll(o: Trig.Oracle, h: real, w: real, top: real, bottom: real): (res: Result<Shape>)
    ensures (res.Err? && res.error.NonPositive?) <==> !(h > 0.0 && w > 0.0 && top > 0.0 && bottom > 0.0)
  {
    match ValidateInput(h, w, top, bottom)
    case Rejected(cause) => Err(NonPositive(cause))
    case Accepted => GenerateConicalPath(o, h, w, top, bottom)
  }

  /** Validated inputs never reach the division by zero: it needs the
      diameters to cancel out. */
  lemma ValidatedNeverDividesByZero(o: Trig.Oracle, h: real, w: real, top: real, bottom: real)
    ensures Unroll(o, h, w, top, bottom) != Err(ZeroDivision)
  {
    if ValidateInput(h, w, top, bottom).Accepted? && !IsCylinder(top, bottom) {
      ConeLaws.ZeroDivisionExactly(o, h, w, top, bottom);
    }
  }

  /** For valid inputs, the result is the label-sized rectangle exactly when
      the diameters agree within the tolerance. */
  lemma CylinderIffRectangle(o: Trig.Oracle, h: real, w: real, top: real, bottom: real)
    requires h > 0.0 && w > 0.0 && top > 0.0 && bottom > 0.0
    ensures Unroll(o, h, w, top, bottom) == Ok(Rect(w, h)) <==> IsCylinder(top, bottom)
  {
  }

  /** Every outcome of valid inputs on a cone: the difference error exactly
      when the radius difference exceeds the height; otherwise the wrap-around
      error exactly when the width exceeds the circumference at the mean
      diameter; otherwise a sector. */
  lemma ConeOutcomes(o: Trig.Oracle, h: real, w: real, top: real, bottom: real)
    requires h > 0.0 && w > 0.0 && top > 0.0 && bottom > 0.0 && !IsCylinder(top, bottom)
    ensures Unroll(o, h, w, top, bottom) == Err(DiffExceedsHeight) <==> RadiusDiff(top, bottom) > h
    ensures Unroll(o, h, w, top, bottom) == Err(WrapsTwice)
        <==> RadiusDiff(top, bottom) <= h && w > o.pi * MeanDiameter(top, bottom)
    ensures Unroll(o, h, w, top, bottom).Ok?
        <==> RadiusDiff(top, bottom) <= h && w <= o.pi * MeanDiameter(top, bottom)
  {
    ConeLaws.DiffGuardInclusive(o, h, w, top, bottom);
    if RadiusDiff(top, bottom) <= h {
      ConeLaws.WrapsIffWiderThanMeanCircumference(o, h, w, top, bottom);
    }
  }

  /** Swapping the two diameters gives the same outcome with the orientation
      flag negated; a rectangle and every error are unchanged. */
  lemma UnrollSwap(o: Trig.Oracle, h: real, w: real, top: real, bottom: real)
    ensures Unroll(o, h, w, bottom, top) == FlipResult(Unroll(o, h, w, top, bottom))
  {
    assert Abs(bottom - top) == Abs(top - bottom);
    if !IsCylinder(top, bottom) {
      ConeLaws.SwapSymmetry(o, h, w, top, bottom);
    }
  }

  /** The extension's default label (height 100, width 50, diameters 80 and 100):
      radii 40 and 50, so the sine of the half apex angle is 0.1, the apex radii
      are 400 and 500, the sweep is 1/9 radian, and the label is not flipped. */
  lemma DefaultLabel(o: Trig.Oracle)
    requires Trig.Valid(o)
    ensures Unroll(o, 100.0, 50.0, 80.0, 100.0).Ok?
    ensures var s := Unroll(o, 100.0, 50.0, 80.0, 100.0).value;
      s == Sector(500.0, 400.0, 1.0 / 9.0, BoundingWidth(o, 500.0, 1.0 / 9.0),
                  BoundingHeight(o, 500.0, 400.0, 1.0 / 9.0), false, false)
  {
    assert SinHalfApex(10.0, 100.0) == 0.1;
    assert ApexRadius(50.0, 0.1) == 500.0;
    assert ApexRadius(40.0, 0.1) == 400.0;
    assert Sweep(50.0, 500.0, 400.0) == 1.0 / 9.0;
  }

  /** A label far wider than the mean circumference circles the surface more
      than once. */
  lemma TooWideLabel(o: Trig.Oracle)
    requires Trig.Valid(o)
    ensures Unroll(o, 100.0, 100000.0, 80.0, 100.0) == Err(WrapsTwice)
  {
    ConeOutcomes(o, 100.0, 100000.0, 80.0, 100.0);
  }

  /** Diameters within the tolerance give the plain rectangle. */
  lemma NearlyEqualDiameters(o: Trig.Oracle)
    ensures Unroll(o, 100.0, 50.0, 60.0, 60.0001) == Ok(Rect(50.0, 100.0))
  {
  }

  /** A zero height is reported as a bad label before anything else. */
  lemma ZeroHeight(o: Trig.Oracle)
    ensures Unroll(o, 0.0, 50.0, 80.0, 100.0) == Err(NonPositive(LabelDimensionsNotPositive))
  {
  }

  /** The difference guard is inclusive: a height equal to the radius
      difference develops, one a billionth shorter is refused. */
  lemma DiffBoundary(o: Trig.Oracle)
    requires Trig.Valid(o)
    ensures Unroll(o, 10.0, 50.0, 80.0, 100.0).Ok?
    ensures Unroll(o, 10.0 - 0.000000001, 50.0, 80.0, 100.0) == Err(DiffExceedsHeight)
  {
    ConeOutcomes(o, 10.0, 50.0, 80.0, 100.0);
  }
}
