/**
 The stand-alone generator's copy of the unroll kernel (viwtaper.py,
 `generate_conical_label`): an exact-equality cylinder test, the same cone
 arithmetic, and the page the outline is drawn on.
 */
module Viwtaper {
  import opened Outline
  import opened Arith
  import opened ConeKernel
  import ConeLaws
  import TaperLabelGenerator
  import Trig

  /** The blank border `s` around the outline, on every side. */
  const Margin: real := 0.5

  /** The `transform` of the drawing group: none, or translate(0, ty) scale(1, -1). */
  datatype Transform = Identity | Mirror(translateY: real)

  datatype ViewBox = ViewBox(minX: real, minY: real, width: real, height: real)

  /** The numbers of the SVG document: page size, viewBox, group transform, and
      the outline drawn in it. */
  datatype Document = Document(width: real, height: real, viewBox: ViewBox, transform: Transform, shape: Shape)

  /** Where a point of the outline lands on the page. */
  function Apply(tr: Transform, p: Point): (q: Point)
    ensures q.x == p.x
    ensures tr.Identity? ==> q == p
    ensures tr.Mirror? ==> q.y + p.y == tr.translateY
  {
    match tr
    case Identity => p
    case Mirror(ty) => Point(p.x, ty - p.y)
  }

  ghost predicate InViewBox(p: Point, vb: ViewBox) {
    vb.minX <= p.x <= vb.minX + vb.width && vb.minY <= p.y <= vb.minY + vb.height
  }

  /** The page around an outline of extents `a` by `r` and inversion flag `j`:
      a border of `Margin` on every side, and a mirror when `j` holds. */
  function Frame(s: Shape): (d: Document)
    ensures d.shape == s
    ensures d.width == d.viewBox.width && d.height == d.viewBox.height
    ensures d.width - Width(s) == d.height - Height(s) == 2.0 * Margin
    ensures d.transform.Mirror? <==> Inverted(s)
  {
    var a := Width(s);
    var r := Height(s);
    var j := Inverted(s);
    Document(a + Margin * 2.0, r + Margin * 2.0,
             ViewBox(-Margin, if j then Margin else -Margin, a + Margin * 2.0, r + Margin * 2.0),
             if j then Mirror(r + Margin * 2.0) else Identity,
             s)
  }

  function FrameResult(res: Result<Shape>): Result<Document> {
    match res
    case Ok(s) => Ok(Frame(s))
    case Err(f) => Err(f)
  }

  /** `generate_conical_label` on numeric inputs: the cone branch whenever the
      diameters differ at all, the label-sized rectangle otherwise. Each error
      is the message the program returns instead of a document. */
  function GenerateConicalLabel(o: Trig.Oracle, h: real, w: real, top: real, bottom: real): (res: Result<Document>)
    ensures res.Ok? ==> res.value == Frame(res.value.shape)
    ensures (res.Ok? && res.value.shape.Rect?) <==> top == bottom
    ensures top == bottom ==> Width(res.value.shape) == w && Height(res.value.shape) == h && !Inverted(res.value.shape)
    ensures res.Ok? ==> (res.value.transform.Mirror? <==> top > bottom)
    ensures res.Err? ==> res.error in {DiffExceedsHeight, WrapsTwice, ZeroDivision}
  {
    if top != bottom then FrameResult(ConeBranch(o, h, w, top, bottom))
    else Ok(Frame(Rect(w, h)))
  }

  /** The page is exactly the viewBox in size, and the outline's box
      [0, a] x [0, r], mirrored or not, sits `Margin` inside the viewBox on
      every side. */
  lemma FrameMargins(s: Shape)
    requires Width(s) >= 0.0 && Height(s) >= 0.0
    ensures var d := Frame(s);
            var lo := Apply(d.transform, Point(0.0, 0.0));
            var hi := Apply(d.transform, Point(Width(s), Height(s)));
      && d.width == d.viewBox.width && d.height == d.viewBox.height
      && Min(lo.x, hi.x) - d.viewBox.minX == Margin
      && d.viewBox.minX + d.viewBox.width - Max(lo.x, hi.x) == Margin
      && Min(lo.y, hi.y) - d.viewBox.minY == Margin
      && d.viewBox.minY + d.viewBox.height - Max(lo.y, hi.y) == Margin
  {
  }

  /** Every point of the outline's box is drawn inside the viewBox. */
  lemma VisibleInFrame(s: Shape, p: Point)
    requires InBox(p, Width(s), Height(s))
    ensures InViewBox(Apply(Frame(s).transform, p), Frame(s).viewBox)
  {
  }

  /** The four corners of every sector the generator draws are visible on its page. */
  lemma CornersVisible(o: Trig.Oracle, h: real, w: real, top: real, bottom: real)
    requires Trig.Valid(o)
    requires top > 0.0 && bottom > 0.0 && top != bottom && w > 0.0
    requires RadiusDiff(top, bottom) <= h && w <= o.pi * MeanDiameter(top, bottom)
    ensures GenerateConicalLabel(o, h, w, top, bottom).Ok?
    ensures GenerateConicalLabel(o, h, w, top, bottom).value.shape.Sector?
    ensures var d := GenerateConicalLabel(o, h, w, top, bottom).value;
            var c := SectorCorners(o, d.shape);
      && InViewBox(Apply(d.transform, c.innerStart), d.viewBox)
      && InViewBox(Apply(d.transform, c.outerStart), d.viewBox)
      && InViewBox(Apply(d.transform, c.outerEnd), d.viewBox)
      && InViewBox(Apply(d.transform, c.innerEnd), d.viewBox)
  {
    ConeLaws.CornersInBox(o, h, w, top, bottom);
    var s := ConeBranch(o, h, w, top, bottom).value;
    var c := SectorCorners(o, s);
    VisibleInFrame(s, c.innerStart);
    VisibleInFrame(s, c.outerStart);
    VisibleInFrame(s, c.outerEnd);
    VisibleInFrame(s, c.innerEnd);
  }

  /** Mirroring twice restores a point: the flipped page shows the outline
      upside down and nothing else. */
  lemma MirrorInvolution(ty: real, p: Point)
    ensures Apply(Mirror(ty), Apply(Mirror(ty), p)) == p
  {
  }

  /** Outside the tolerance gap the two path computations agree: the generator
      draws exactly the outcome of the extension's `generate_conical_path` on
      its page. Inside the gap, diameters that differ by less than the
      tolerance but are not equal, they disagree. The extension's validation
      is not part of this comparison (see `UnvalidatedZeroHeight`). */
  lemma AgreesWithExtension(o: Trig.Oracle, h: real, w: real, top: real, bottom: real)
    ensures GenerateConicalLabel(o, h, w, top, bottom)
        == FrameResult(TaperLabelGenerator.GenerateConicalPath(o, h, w, top, bottom))
        <==> !(0.0 < Abs(top - bottom) < TaperLabelGenerator.Tolerance)
  {
  }

  /** Only the extension validates its inputs: a zero label height on a
      cylinder is refused there, while this generator draws a rectangle of
      height 0 on a page one unit high. */
  lemma UnvalidatedZeroHeight(o: Trig.Oracle)
    ensures TaperLabelGenerator.Unroll(o, 0.0, 50.0, 60.0, 60.0) == Err(NonPositive(LabelDimensionsNotPositive))
    ensures GenerateConicalLabel(o, 0.0, 50.0, 60.0, 60.0) == Ok(Frame(Rect(50.0, 0.0)))
    ensures Frame(Rect(50.0, 0.0)).width == 51.0 && Frame(Rect(50.0, 0.0)).height == 1.0
  {
  }

  /** Diameters within the tolerance but not equal: the extension returns the
      plain rectangle, the generator takes the cone branch. */
  lemma ToleranceGap(o: Trig.Oracle, h: real, w: real, top: real, bottom: real)
    requires 0.0 < Abs(top - bottom) < TaperLabelGenerator.Tolerance
    ensures TaperLabelGenerator.GenerateConicalPath(o, h, w, top, bottom) == Ok(Rect(w, h))
    ensures GenerateConicalLabel(o, h, w, top, bottom) == FrameResult(ConeBranch(o, h, w, top, bottom))
    ensures !(GenerateConicalLabel(o, h, w, top, bottom).Ok? && GenerateConicalLabel(o, h, w, top, bottom).value.shape.Rect?)
  {
  }

  /** The generator's two messages appear under the extension's conditions: the
      radius difference exceeds the height, or, past that guard and for
      positive diameters, the width exceeds the circumference at the mean
      diameter. */
  lemma ErrorConditions(o: Trig.Oracle, h: real, w: real, top: real, bottom: real)
    ensures GenerateConicalLabel(o, h, w, top, bottom) == Err(DiffExceedsHeight)
        <==> top != bottom && RadiusDiff(top, bottom) > h
    ensures top > 0.0 && bottom > 0.0 ==>
      (GenerateConicalLabel(o, h, w, top, bottom) == Err(WrapsTwice) <==>
         top != bottom && RadiusDiff(top, bottom) <= h && w > o.pi * MeanDiameter(top, bottom))
  {
    if top != bottom {
      ConeLaws.DiffGuardInclusive(o, h, w, top, bottom);
      if top > 0.0 && bottom > 0.0 && RadiusDiff(top, bottom) <= h {
        ConeLaws.WrapsIffWiderThanMeanCircumference(o, h, w, top, bottom);
      }
    }
  }

  /** Nothing rejects a non-positive height, yet with distinct diameters the
      difference message comes before the division by the height. */
  lemma NonPositiveHeight(o: Trig.Oracle, h: real, w: real, top: real, bottom: real)
    requires top != bottom && h <= 0.0
    ensures GenerateConicalLabel(o, h, w, top, bottom) == Err(DiffExceedsHeight)
  {
    ConeLaws.NonPositiveHeightIsDiffError(o, h, w, top, bottom);
  }

  /** Nothing rejects a negative diameter either: diameters 1 and -1 pass the
      difference guard and the sweep divides by zero, an error the program
      does not catch. */
  lemma OppositeDiametersDivideByZero(o: Trig.Oracle)
    ensures GenerateConicalLabel(o, 10.0, 50.0, 1.0, -1.0) == Err(ZeroDivision)
  {
    ConeLaws.ZeroDivisionExactly(o, 10.0, 50.0, 1.0, -1.0);
  }

  /** Negative inputs can also draw: diameters -1 and -3 with width -100 give
      apex radii -5 and -15, a sweep of 10 radians, more than a full turn, that
      neither wrap-around test catches, and a negative bounding width. */
  lemma NegativeInputsSweepPastATurn(o: Trig.Oracle)
    requires Trig.Valid(o)
    ensures GenerateConicalLabel(o, 10.0, -100.0, -1.0, -3.0).Ok?
    ensures var s := GenerateConicalLabel(o, 10.0, -100.0, -1.0, -3.0).value.shape;
      && s.Sector? && s.outerRadius == -5.0 && s.innerRadius == -15.0
      && s.sweep == 10.0 && s.sweep > 2.0 * o.pi
      && s.boundingWidth == -10.0
  {
    assert RadiusDiff(-1.0, -3.0) == 1.0;
    assert SinHalfApex(1.0, 10.0) == 0.1;
    assert ApexRadius(-0.5, 0.1) == -5.0;
    assert ApexRadius(-1.5, 0.1) == -15.0;
    assert Sweep(-100.0, -5.0, -15.0) == 10.0;
  }

  /** The default label on its page: not flipped, so no mirror, and the viewBox
      starts half a unit above and left of the outline. */
  lemma DefaultPage(o: Trig.Oracle)
    requires Trig.Valid(o)
    ensures GenerateConicalLabel(o, 100.0, 50.0, 80.0, 100.0).Ok?
    ensures var d := GenerateConicalLabel(o, 100.0, 50.0, 80.0, 100.0).value;
      && d.transform == Identity
      && d.viewBox.minX == -0.5 && d.viewBox.minY == -0.5
      && d.width == BoundingWidth(o, 500.0, 1.0 / 9.0) + 1.0
  {
    TaperLabelGenerator.DefaultLabel(o);
  }

  /** Equal diameters give the label-sized rectangle on a page one unit larger. */
  lemma CylinderPage(o: Trig.Oracle)
    ensures GenerateConicalLabel(o, 100.0, 50.0, 60.0, 60.0)
        == Ok(Document(51.0, 101.0, ViewBox(-0.5, -0.5, 51.0, 101.0), Identity, Rect(50.0, 100.0)))
  {
  }
}
