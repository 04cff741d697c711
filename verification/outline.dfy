/**
 The values the unroll kernel produces: the flattened outline of a label, or
 the reason there is none.
 */
module Outline {

  /** Why `validate_input` of the Inkscape extension refused the inputs; the
      label-dimension message takes precedence over the diameter message. */
  datatype InputError = LabelDimensionsNotPositive | DiametersNotPositive

  datatype Failure =
    | NonPositive(cause: InputError)
      /** the radius difference is greater than the label height */
    | DiffExceedsHeight
      /** the label would circle the surface more than once */
    | WrapsTwice
      /** Python's ZeroDivisionError in the sweep; only non-positive diameters reach it */
    | ZeroDivision

  datatype Result<+T> = Ok(value: T) | Err(error: Failure)

  /** The developed surface. A `Sector` is an annular sector whose arcs have the
      apex-relative radii `outerRadius` (e) and `innerRadius` (n), spanning
      `sweep` (t) radians; `boundingWidth` (a) and `boundingHeight` (r) are the
      extents of its bounding box, `flipped` (j) says the top diameter is the
      larger one, and `largeArc` (g) is the SVG large-arc flag of both arcs. */
  datatype Shape =
    | Rect(width: real, height: real)
    | Sector(outerRadius: real, innerRadius: real, sweep: real,
             boundingWidth: real, boundingHeight: real, flipped: bool, largeArc: bool)

  /** The width, height and inversion flag that both programs return beside the path. */
  function Width(s: Shape): real {
    match s
    case Rect(w, _) => w
    case Sector(_, _, _, a, _, _, _) => a
  }

  function Height(s: Shape): real {
    match s
    case Rect(_, h) => h
    case Sector(_, _, _, _, r, _, _) => r
  }

  function Inverted(s: Shape): bool {
    match s
    case Rect(_, _) => false
    case Sector(_, _, _, _, _, j, _) => j
  }

  /** The same outline with the orientation flag negated (a rectangle has none). */
  function Flip(s: Shape): Shape {
    match s
    case Rect(_, _) => s
    case Sector(e, n, t, a, r, j, g) => Sector(e, n, t, a, r, !j, g)
  }

  function FlipResult(res: Result<Shape>): Result<Shape> {
    match res
    case Ok(s) => Ok(Flip(s))
    case Err(f) => res
  }

  datatype Point = Point(x: real, y: real)

  /** The four corners of a sector outline in path order: inner edge at -t/2
      (the start point), outer edge at -t/2, outer edge at +t/2, inner edge at +t/2. */
  datatype Corners = Corners(innerStart: Point, outerStart: Point, outerEnd: Point, innerEnd: Point)

  ghost predicate InBox(p: Point, w: real, h: real) {
    0.0 <= p.x <= w && 0.0 <= p.y <= h
  }
}
