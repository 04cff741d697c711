# Tapered label generator: the frustum-unroll kernel

The Tapered Label Generator draws the flat outline of a label that is wrapped
around a truncated cone, such as a tapered bottle or a cup. The cone is given by
its top and bottom diameters, and the label by its height and width. Equal
diameters give a plain rectangle. Otherwise the label unrolls to an annular
sector cut from a virtual cone. Its arcs have the apex radii `e` (outer) and
`n` (inner), and it spans a sweep angle `t`. Its bounding box is `a` by `r`,
and a flag `j` says whether the top is the wider end.

The kernel exists twice in the program:

- The Inkscape extension (`Inkscape_extension_taper_label/taper_label_generator.py`)
  works in two steps:
  - `validate_input` checks that all four numbers are positive.
  - `generate_conical_path` then treats diameters within 0.001 of each other
    as a cylinder.
- The stand-alone generator (`viwtaper.py`, `generate_conical_label`) differs
  in three ways:
  - It does not check signs.
  - Its cylinder test is exact equality.
  - It frames the outline on a page with a half-unit border, a viewBox, and a
    vertical mirror for labels whose top is the wider end.

The project is laid out like this:

| module | file | what it holds |
|---|---|---|
| `Arith` | `arith.dfy` | The builtins the kernel uses on reals: `abs` (`Abs`), `max` and `min` (`Max`, `Min`), and the clamp `min(max(x, lo), hi)` (`Clamp`). |
| `Trig` | `trig.dfy` | `math.sin`, `math.cos` and `math.pi` as an `Oracle` parameter, with the facts the proofs use (`Valid`), and a piecewise-linear oracle that meets them. |
| `Outline` | `outline.dfy` | The result types: `Shape` (`Rect` or `Sector`), `Failure`, `Result`, corner points. |
| `ConeKernel` | `cone_kernel.dfy` | The cone arithmetic, which both files share verbatim, defined once. `ConeBranch` is the difference guard. `Develop` is the rest: apex radii, sweep, wrap-around test and extents. `SectorCorners` gives the eight corner coordinates. |
| `ConeLaws` | `cone_laws.dfy` | What the cone branch guarantees. |
| `TaperLabelGenerator` | `taper_label_generator.dfy` | `validate_input`, `generate_conical_path`, and the two chained as `effect` chains them (`Unroll`). |
| `Viwtaper` | `viwtaper.dfy` | `generate_conical_label`: the exact cylinder test, the page, and how it relates to the extension. |

Raised `ValueError`s and the messages that `viwtaper.py` returns are modelled
as `Err` values. So is Python's `ZeroDivisionError` at the sweep:

- `DiffExceedsHeight`: the radius difference is greater than the label height.
- `WrapsTwice`: the label would circle the surface more than once.
- `ZeroDivision`: the division by zero at the sweep.
- `NonPositive`: the extension's validation message.

Trigonometry enters only through `Trig.Oracle`. Every property that needs it
assumes `Trig.Valid`, which states these facts and nothing more:

- `3 < pi < 4`;
- sine and cosine lie in [-1, 1];
- sine is odd and cosine is even;
- sine is positive on (0, pi) and increasing on [0, pi/2];
- cosine is non-negative on [0, pi/2] and negative on (pi/2, pi].

`Trig.Piecewise` shows that these assumptions are consistent.

The main results:

- **No division by zero after validation.** In the extension, positive inputs
  never divide by zero (`ValidatedNeverDividesByZero`). In `viwtaper.py`, a
  non-positive height is caught by the difference guard before the division by
  the height (`NonPositiveHeight`). Diameters that cancel out, such as 1 and
  -1, do reach the division by zero in the sweep
  (`OppositeDiametersDivideByZero`).
- **The difference guard is inclusive** (`DiffGuardInclusive`, `DiffBoundary`).
- **The two wrap-around tests are the same test.** For positive diameters the
  outer test and the inner test agree. Both hold exactly when the sweep
  exceeds 2π times the sine of the half apex angle
  (`WrapDisjunctsAgree`, `WrapsCore`). They also hold exactly when the label is
  wider than the circumference at the mean diameter, whatever the label height
  (`WrapsIffWiderThanMeanCircumference`). Hence, for positive diameters and
  width, every sector sweeps at most one full turn (`SectorGeometry`). Negative
  inputs, which `viwtaper.py` accepts, can draw a sector of more than one turn
  (`NegativeInputsSweepPastATurn`).
- **Swapping the diameters only flips the orientation flag** (`SwapSymmetry`,
  `UnrollSwap`).
- **Width monotonicity.** For positive diameters and widths, a narrower label fits
  wherever a wider one does, with a smaller sweep and a bounding width no
  larger, strictly smaller while the narrower sweep is below a half-turn
  (`WidthMonotone`). Once the narrower sweep passes a half-turn both widths
  are the outer apex diameter 2e, so the growth is no longer strict.
- **The corners fit.** For positive diameters and width, every corner of the
  outline lies in the bounding box (`CornersInBox`) and on the generated page
  (`CornersVisible`).
- **The two path computations agree.** `generate_conical_label` draws exactly
  what `generate_conical_path` computes, framed on its page, except in the
  tolerance gap 0 < |top - bottom| < 0.001 (`AgreesWithExtension`). The
  programs as a whole differ further, because only the extension runs
  `validate_input` first. A zero label height on a cylinder is refused there,
  while `viwtaper.py` draws a rectangle of height 0 (`UnvalidatedZeroHeight`).

## Model

| member | source | states |
|---|---|---|
| `TaperLabelGenerator.ValidateInput` | Inkscape_extension_taper_label/taper_label_generator.py:33-39 | Accepted exactly when height, width and both diameters are positive. The label-dimension message exactly when the height or width is non-positive, so it takes precedence. The diameter message exactly when the label is fine but a diameter is not. |
| `TaperLabelGenerator.IsCylinder` | Inkscape_extension_taper_label/taper_label_generator.py:45 | Holds exactly when top - bottom lies strictly between -0.001 and 0.001, so equal diameters always count as a cylinder. |
| `TaperLabelGenerator.GenerateConicalPath` | Inkscape_extension_taper_label/taper_label_generator.py:41-96 | A rectangle exactly when the diameters agree within 0.001, and then it is label-sized and not inverted. A sector is inverted exactly when top >= bottom, and its large-arc flag is sweep > pi. The only errors are the difference error, the wrap-around error and the division by zero. |
| `TaperLabelGenerator.Unroll` | Inkscape_extension_taper_label/taper_label_generator.py:111-121 | The outcome is a validation error exactly when some input is non-positive. |
| `TaperLabelGenerator.ValidatedNeverDividesByZero` | Inkscape_extension_taper_label/taper_label_generator.py:59-62 | The chained validation and path generation never divide by zero at the sweep, for any inputs. |
| `TaperLabelGenerator.CylinderIffRectangle` | Inkscape_extension_taper_label/taper_label_generator.py:45-48 | For valid inputs, the result is exactly the rectangle (width, height) if and only if the diameters differ by less than 0.001. |
| `TaperLabelGenerator.ConeOutcomes` | Inkscape_extension_taper_label/taper_label_generator.py:56-67 | For valid inputs on a cone there are three outcomes. The difference error exactly when p > h. Otherwise the wrap-around error exactly when w > pi·(top + bottom)/2. Otherwise a sector. |
| `TaperLabelGenerator.UnrollSwap` | Inkscape_extension_taper_label/taper_label_generator.py:51-53 | Swapping top and bottom gives the same error, rectangle or sector, with only the inversion flag negated. |
| `TaperLabelGenerator.DefaultLabel` | Inkscape_extension_taper_label/taper_label_generator.py:16-23 | The default options (100, 50, 80, 100) give e = 500, n = 400, t = 1/9, not inverted, small arc. |
| `TaperLabelGenerator.TooWideLabel` | Inkscape_extension_taper_label/taper_label_generator.py:66-67 | A width of 100000 on the default cone is the wrap-around error. |
| `TaperLabelGenerator.NearlyEqualDiameters` | Inkscape_extension_taper_label/taper_label_generator.py:45-48 | Diameters 60 and 60.0001 give the plain rectangle. |
| `TaperLabelGenerator.ZeroHeight` | Inkscape_extension_taper_label/taper_label_generator.py:35-36 | A zero height gives the label-dimension message. |
| `TaperLabelGenerator.DiffBoundary` | Inkscape_extension_taper_label/taper_label_generator.py:56-57 | A height equal to the radius difference develops. A height 1e-9 shorter gives the difference error. |
| `Arith.Abs` | Inkscape_extension_taper_label/taper_label_generator.py:45 | Python's abs: non-negative, and equal to x or -x. |
| `Arith.Clamp` | Inkscape_extension_taper_label/taper_label_generator.py:59 | The result lies in [lo, hi], and equals x exactly when x already lies there. |
| `ConeKernel.OuterRadius` | Inkscape_extension_taper_label/taper_label_generator.py:52 | `u` is half of the larger diameter: twice it bounds both diameters and equals one of them. |
| `ConeKernel.InnerRadius` | Inkscape_extension_taper_label/taper_label_generator.py:53 | `d` is half of the smaller diameter. |
| `ConeKernel.RadiusDiff` | Inkscape_extension_taper_label/taper_label_generator.py:54 | `p` is half the absolute difference of the diameters. |
| `ConeKernel.SinHalfApex` | Inkscape_extension_taper_label/taper_label_generator.py:59 | Once 0 < p <= h, the clamped ratio lies in (0, 1] and times h gives back p, so the clamp is the identity. |
| `ConeKernel.ApexRadius` | Inkscape_extension_taper_label/taper_label_generator.py:60-61 | The apex radius times the sine of the half apex angle is the physical radius. |
| `ConeKernel.Sweep` | Inkscape_extension_taper_label/taper_label_generator.py:62 | The arc of the sweep at the mean apex radius is the label width. |
| `ConeKernel.BoundingHeight` | Inkscape_extension_taper_label/taper_label_generator.py:71-73 | For e > n > 0, the depth is positive and at most 2e, using only abs(cos) <= 1. |
| `ConeKernel.ConeBranch` | Inkscape_extension_taper_label/taper_label_generator.py:51-88 | A sector is flipped exactly when top > bottom, and is large-arc exactly when the sweep exceeds pi. An error is never a validation error. |
| `ConeKernel.Develop` | Inkscape_extension_taper_label/taper_label_generator.py:59-88 | After the difference guard, the only errors are the division by zero and the wrap-around error. A sector keeps the orientation it is given. |
| `ConeKernel.WrapsAround` | Inkscape_extension_taper_label/taper_label_generator.py:63-66 | No contract of its own: the test that the outer arc exceeds 2·pi·u or the inner arc exceeds 2·pi·d, both disjuncts as written. `WrapDisjunctsAgree` and `WrapsCore` show that it holds exactly when w > pi·(u + d). |
| `ConeKernel.BoundingWidth` | Inkscape_extension_taper_label/taper_label_generator.py:69-70 | No contract of its own: the chord 2e·sin(t/2), or 2e once the sweep passes pi. `ExtentCore` puts it in (0, 2e] and `WidthGrowsCore` shows that it grows with the sweep. |
| `ConeKernel.SectorCorners` | Inkscape_extension_taper_label/taper_label_generator.py:74-87 | No contract of its own: the corners (E, k), (D, S), (T, z), (M, F) about the apex (a/2, r - e), from the sine and cosine at -t/2 and +t/2. `CornersMirror`, `CornersInBox` and `CornersVisible` state where they lie. |
| `ConeKernel.CornersAbout` | Inkscape_extension_taper_label/taper_label_generator.py:78-87 | No contract of its own: the inner and outer edge points at both ends of the sweep about a given apex. The corner lemmas above state where they lie. |
| `ConeLaws.ConeBranchRadii` | Inkscape_extension_taper_label/taper_label_generator.py:51-54 | For positive diameters outside the tolerance, u > d > 0, p >= 0.0005, and 2u is the top diameter exactly when top >= bottom. |
| `ConeLaws.DiffGuardInclusive` | Inkscape_extension_taper_label/taper_label_generator.py:56-57 | The difference error is raised exactly when p > h, so p == h passes. |
| `ConeLaws.NonPositiveHeightIsDiffError` | viwtaper.py:55-59 | With distinct diameters and h <= 0, the difference error comes before the division by h. |
| `ConeLaws.ConeBranchDevelops` | Inkscape_extension_taper_label/taper_label_generator.py:56-62 | Past the guard p > 0, and the branch is the development of u and d with the sine p/h. |
| `ConeLaws.DevelopArguments` | Inkscape_extension_taper_label/taper_label_generator.py:51-59 | For positive distinct diameters that pass the guard: p > 0, u > d > 0, u + d is the mean diameter, and the sine of the half apex angle lies in (0, 1]. |
| `ConeLaws.DevelopZeroDivision` | Inkscape_extension_taper_label/taper_label_generator.py:60-62 | The sweep divides by zero exactly when u + d == 0. |
| `ConeLaws.ZeroDivisionExactly` | Inkscape_extension_taper_label/taper_label_generator.py:56-62 | The cone branch divides by zero exactly when the guard passes and top + bottom == 0. |
| `ConeLaws.OneDisjunct` | Inkscape_extension_taper_label/taper_label_generator.py:63-66 | An arc t·e is longer than the circumference 2·pi·u exactly when t > 2·pi·q. |
| `ConeLaws.WrapDisjunctsAgree` | Inkscape_extension_taper_label/taper_label_generator.py:63-67 | For d > 0, the outer and inner wrap-around tests are equivalent, and both mean t > 2·pi·p/h. |
| `ConeLaws.WrapsCore` | Inkscape_extension_taper_label/taper_label_generator.py:62-67 | The wrap-around test holds exactly when w > pi·(u + d). |
| `ConeLaws.DevelopWraps` | Inkscape_extension_taper_label/taper_label_generator.py:59-67 | For positive radii, development fails with wrap-around exactly when w > pi·(u + d), and succeeds otherwise. |
| `ConeLaws.WrapsIffWiderThanMeanCircumference` | Inkscape_extension_taper_label/taper_label_generator.py:51-67 | For positive diameters past the guard, wrap-around holds exactly when the width exceeds pi times the mean diameter, independent of the height. Success holds exactly otherwise. |
| `ConeLaws.SectorCore` | Inkscape_extension_taper_label/taper_label_generator.py:60-67 | When the wrap-around test fails: e > n > 0 and 0 < t <= 2·pi·q <= 2·pi. |
| `ConeLaws.DevelopSector` | Inkscape_extension_taper_label/taper_label_generator.py:59-73 | A successful development has e·q = u, n·q = d, e > n > 0, and an arc at the mean apex radius equal to w. Its sweep t satisfies 0 < t <= 2·pi·q, and it carries the kernel's extents. |
| `ConeLaws.DevelopedSweep` | Inkscape_extension_taper_label/taper_label_generator.py:60-62 | Within the circumference bound, the apex radii are ordered and positive and the sweep lies in (0, 2·pi·q]. |
| `ConeLaws.SectorGeometry` | Inkscape_extension_taper_label/taper_label_generator.py:51-73 | For positive distinct diameters past the guard, with w <= pi·(top + bottom)/2: the cone branch succeeds, with e > n > 0, 0 < t <= 2·pi and the kernel's extents. |
| `ConeLaws.HalfSweepTrig` | Inkscape_extension_taper_label/taper_label_generator.py:76-79 | For 0 < t <= 2·pi, the sines and cosines at ±t/2 obey the range, symmetry and sign facts that the extents and corners use. |
| `ConeLaws.ExtentCore` | Inkscape_extension_taper_label/taper_label_generator.py:69-73 | For e > n > 0, given the half-sweep facts (sine and cosine of t/2 in [-1, 1], sine odd and cosine even, sin(t/2) > 0 and cos(t/2) >= 0 when t <= pi, cos(t/2) < 0 when t > pi): 0 < a <= 2e, a = 2e once t > pi, and 0 < r <= 2e. |
| `ConeLaws.ExtentBounds` | Inkscape_extension_taper_label/taper_label_generator.py:69-73 | For positive distinct diameters past the guard, with w <= pi·(top + bottom)/2: the sector has 0 < a <= 2e, a = 2e when large-arc, and 0 < r <= 2e. |
| `ConeLaws.SwapSymmetry` | Inkscape_extension_taper_label/taper_label_generator.py:51-53 | Swapping the diameters gives the same error, or the same sector with the flag negated. |
| `ConeLaws.SweepMonotoneCore` | Inkscape_extension_taper_label/taper_label_generator.py:62 | At a fixed positive mean radius, a wider label has a strictly larger sweep. |
| `ConeLaws.SweepGrows` | Inkscape_extension_taper_label/taper_label_generator.py:62 | t strictly increases with the label width. |
| `ConeLaws.WidthGrowsCore` | Inkscape_extension_taper_label/taper_label_generator.py:69-70 | a never decreases as t grows, and strictly increases while the smaller sweep is below pi. |
| `ConeLaws.DevelopSweepGrows` | Inkscape_extension_taper_label/taper_label_generator.py:59-67 | If the wider label develops, so does the narrower one, over the same apex radii, with 0 < t1 < t2. |
| `ConeLaws.SweepsGrowCore` | Inkscape_extension_taper_label/taper_label_generator.py:60-62 | Within the circumference bound, 0 < t1 < t2 for w1 < w2. |
| `ConeLaws.DevelopWidthMonotone` | Inkscape_extension_taper_label/taper_label_generator.py:59-70 | For radii u > d > 0 and 0 < w1 < w2 <= pi·(u + d): both widths develop. The narrower sweep is smaller and its width is no larger, and strictly smaller while the narrower sweep is below pi. |
| `ConeLaws.WidthMonotone` | Inkscape_extension_taper_label/taper_label_generator.py:51-70 | For positive distinct diameters past the guard and 0 < w1 < w2 <= pi·(top + bottom)/2: both widths develop, with the same radii, t1 < t2, a1 <= a2, and a1 < a2 while t1 < pi. |
| `ConeLaws.BranchWidthMonotone` | Inkscape_extension_taper_label/taper_label_generator.py:51-70 | If a wider label develops on positive distinct diameters, the narrower one does too, with the same radii, t1 < t2, a1 <= a2, and a1 < a2 while t1 < pi. |
| `ConeLaws.CornersMirror` | Inkscape_extension_taper_label/taper_label_generator.py:74-87 | The corners at -t/2 and +t/2 mirror each other about x = a/2. |
| `ConeLaws.SmallArcCornersCore` | Inkscape_extension_taper_label/taper_label_generator.py:69-87 | Up to a half-turn, all four corners about (a/2, r - e) lie in [0, a] x [0, r]. |
| `ConeLaws.LargeArcCornersCore` | Inkscape_extension_taper_label/taper_label_generator.py:69-87 | Past a half-turn, all four corners lie in [0, a] x [0, r]. |
| `ConeLaws.CornersAtHalfSweep` | Inkscape_extension_taper_label/taper_label_generator.py:76-87 | The corners at -t/2 use -sin(t/2) and cos(t/2). |
| `ConeLaws.SmallArcCornersInBox` | Inkscape_extension_taper_label/taper_label_generator.py:69-87 | The kernel's extents contain all four corners of a sector up to a half-turn. |
| `ConeLaws.LargeArcCornersInBox` | Inkscape_extension_taper_label/taper_label_generator.py:69-87 | The kernel's extents contain all four corners of a sector past a half-turn. |
| `ConeLaws.CornersInBoxCore` | Inkscape_extension_taper_label/taper_label_generator.py:74-87 | A sector with e > n > 0 and the kernel's extents has all four corners in its bounding box. |
| `ConeLaws.CornersInBox` | Inkscape_extension_taper_label/taper_label_generator.py:69-87 | For positive distinct diameters past the guard, with w <= pi·(top + bottom)/2: the branch succeeds and every corner of the sector lies in [0, a] x [0, r]. |
| `Viwtaper.Apply` | viwtaper.py:102 | The mirror keeps x and sends y to translateY - y. The empty transform changes nothing. |
| `Viwtaper.Frame` | viwtaper.py:100-104 | The page holds the shape it frames and has the size of its viewBox. It is 2·0.5 larger than the outline in both directions, and it is mirrored exactly when the shape is inverted. |
| `Viwtaper.GenerateConicalLabel` | viwtaper.py:34-104 | The page is the frame of its shape. The shape is a rectangle exactly when top == bottom, and then it is label-sized and not inverted. The mirror is present exactly when top > bottom. The only errors are the difference error, the wrap-around error and the division by zero. |
| `Viwtaper.FrameMargins` | viwtaper.py:100-104 | For an outline with non-negative extents a and r: the page size equals the viewBox size, and the outline's box, mirrored or not, lies exactly 0.5 inside the viewBox on all four sides. |
| `Viwtaper.VisibleInFrame` | viwtaper.py:100-102 | Every point of the outline's box lands inside the viewBox. |
| `Viwtaper.CornersVisible` | viwtaper.py:74-104 | For positive distinct diameters past the guard, with 0 < w <= pi·(top + bottom)/2: the page holds a sector, and its four corners land inside the viewBox. |
| `Viwtaper.MirrorInvolution` | viwtaper.py:102 | Applying the mirror twice restores every point. |
| `Viwtaper.AgreesWithExtension` | viwtaper.py:49-98 | The outcome of `generate_conical_label` equals the frame of `generate_conical_path`'s outcome if and only if the diameters are not in the gap 0 < abs(top - bottom) < 0.001. |
| `Viwtaper.UnvalidatedZeroHeight` | viwtaper.py:49-104 | Height 0, width 50 and diameters 60 and 60 are refused by the extension with the label-dimension message, while this generator returns the frame of a 50 by 0 rectangle on a 51 by 1 page. |
| `Viwtaper.ToleranceGap` | viwtaper.py:49 | In the gap, the extension returns the rectangle and this file takes the cone branch, so it never draws a rectangle. |
| `Viwtaper.ErrorConditions` | viwtaper.py:55-68 | The difference message appears exactly when the diameters differ and p > h. For positive diameters, the wrap-around message appears exactly when the guard passes and w > pi·(top + bottom)/2. |
| `Viwtaper.NonPositiveHeight` | viwtaper.py:55-59 | Distinct diameters with h <= 0 give the difference message, never a division by h. |
| `Viwtaper.OppositeDiametersDivideByZero` | viwtaper.py:59-62 | Diameters 1 and -1 at height 10 reach the division by zero in the sweep. |
| `Viwtaper.NegativeInputsSweepPastATurn` | viwtaper.py:49-74 | Height 10, width -100 and diameters -1 and -3 pass both guards and give a sector with e = -5, n = -15, a sweep of 10 > 2·pi, and a bounding width of -10. |
| `Viwtaper.DefaultPage` | viwtaper.py:100-104 | The default label is not mirrored. Its viewBox starts at (-0.5, -0.5), and its page is a + 1 wide. |
| `Viwtaper.CylinderPage` | viwtaper.py:95-104 | Equal diameters 60 give a 51 by 101 page with viewBox (-0.5, -0.5, 51, 101), no transform, and the label-sized rectangle. |

## Left out

- The Tkinter interface of `viwtaper.py` is not modelled. This covers `generate_label`, the timer in `blink_label`, tooltips, window layout, the file dialog and opening a browser. It is user-interface code. `blink_label` is treated as doing nothing.
- SVG and XML assembly and output are not modelled: `create_svg`, `save_svg`, and the inkex plumbing of the extension (`add_arguments`, the styling and layer handling in `effect`, `add_dimension_text`). These are calls into foreign libraries. The model stops at the numbers those calls receive.
- The extension applies a mirror transform of its own to inverted labels (taper_label_generator.py:137-140). It is not modelled: it is part of `effect`'s document handling. Only the inversion flag it depends on is modelled.
- The path strings are not modelled, because that is float-to-decimal formatting. This covers the `:.3f` strings of the extension and the plain ones of `viwtaper.py`. The eight corner coordinates they print are modelled as reals (`SectorCorners`), and so is the large-arc flag.
- Parsing text into numbers is not modelled. This is `validate_input` in `viwtaper.py`, lines 24-32. Its inputs are taken to be reals already, so the "please enter numeric values" message never arises.
- The message texts, and the extension's catching of `ValueError` and other exceptions, are left out. Each message is modelled as the `Failure` that selects it.
- IEEE-754 arithmetic is not modelled: rounding, overflow, infinities and NaN. All arithmetic is exact over `real`. So the clamp at line 59 is provably the identity, and the rounding overshoot it exists to absorb does not arise.
- Sine, cosine and pi are not computed. They are a parameter constrained only by the facts in `Trig.Valid`. Identities such as sin² + cos² = 1 are not assumed, and the model proves nothing that would need them.
- `viwtaperlabel1.py` and `inkscape_taper.py` are not part of this model. They are alternative unrolling formulas with no branching. They take the label height as a vertical height and derive the slant by Pythagoras, whereas this kernel treats the height as the slant distance itself.
- Concurrency and timing are not modelled. The programs have none in the kernel.
