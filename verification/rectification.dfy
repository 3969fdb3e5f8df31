/**
 Rectification of a single-channel image against a pinhole camera model,
 optionally with one radial distortion coefficient `k1`.

 Coordinates and samples are `real`. The camera model's `calibrate` (pixel to
 normalised coordinates) and `uncalibrate` (normalised to pixel coordinates)
 belong to an external crate and are left uninterpreted: they are the two
 function values of a `CameraModel` supplied by the caller.
 */
module Rectification {
  import opened Primitives
  import opened Errors

  // ---------------------------------------------------------------------------
  // Data
  // ---------------------------------------------------------------------------

  datatype Point = Point(x: real, y: real)

  /** Rectification parameters of one camera, as deserialised from a file. */
  datatype RectifParams = RectifParams(
    focals: (real, real),
    principalPoint: (real, real),
    skew: real,
    k1: Option<real>)

  /** Parameters of a left/right camera pair. */
  datatype StereoRectifParams = StereoRectifParams(left: RectifParams, right: RectifParams)

  /** The linear pinhole model. */
  datatype CameraIntrinsics = CameraIntrinsics(focals: (real, real), principalPoint: (real, real), skew: real)

  /** The pinhole model with one radial distortion coefficient. */
  datatype K1Intrinsics = K1Intrinsics(simpleIntrinsics: CameraIntrinsics, k1: real)

  /** The two camera-model variants a parameter set can turn into. */
  datatype Intrinsics = Simple(simple: CameraIntrinsics) | K1(distorted: K1Intrinsics)

  /** The external projection functions of both variants. */
  datatype CameraModel = CameraModel(
    calibrate: (Intrinsics, Point) -> Point,
    uncalibrate: (Intrinsics, Point) -> Point)

  /** A grey-scale image: `rows[y][x]` is the sample in column `x` of row `y`. */
  datatype GrayImage = GrayImage(width: nat, height: nat, rows: seq<seq<real>>) {
    predicate Wf() {
      |rows| == height && forall y :: 0 <= y < |rows| ==> |rows[y]| == width
    }

    function At(x: nat, y: nat): real
      requires Wf() && x < width && y < height
    {
      rows[y][x]
    }
  }

  /** Every sample of `img` lies in `[lo, hi]`. */
  predicate Bounded(img: GrayImage, lo: real, hi: real) {
    img.Wf() && forall y, x :: 0 <= y < img.height && 0 <= x < img.width ==> lo <= img.rows[y][x] <= hi
  }

  /** Every sample of `img` equals `v`. */
  predicate Uniform(img: GrayImage, v: real) {
    img.Wf() && forall y, x :: 0 <= y < img.height && 0 <= x < img.width ==> img.rows[y][x] == v
  }

  // ---------------------------------------------------------------------------
  // Intrinsics conversions
  // ---------------------------------------------------------------------------

  /** The distortion-free conversion; refused when it would discard `k1`. */
  function ToPinholeIntrinsics(p: RectifParams): (r: Result<CameraIntrinsics>)
    ensures r.Ok? <==> p.k1.None?
    ensures r.Ok? ==> r.value.focals == p.focals && r.value.principalPoint == p.principalPoint && r.value.skew == p.skew
    ensures r.Err? ==> r.error.RectifToCamIntrisicsError? && r.error.k1 == p.k1 && r.error.k1.Some?
  {
    if p.k1.None? then
      Ok(CameraIntrinsics(p.focals, p.principalPoint, p.skew))
    else
      Err(RectifToCamIntrisicsError(p.k1))
  }

  /** The radially distorted conversion; refused when there is no `k1`. */
  function ToPinholeIntrinsicsK1(p: RectifParams): (r: Result<K1Intrinsics>)
    ensures r.Ok? <==> p.k1.Some?
    ensures r.Ok? ==> Some(r.value.k1) == p.k1
    ensures r.Ok? ==> var s := r.value.simpleIntrinsics;
                      s.focals == p.focals && s.principalPoint == p.principalPoint && s.skew == p.skew
    ensures r.Err? ==> r.error == RectifToCamIntrisicsK1DistortionError
  {
    if p.k1.Some? then
      Ok(K1Intrinsics(CameraIntrinsics(p.focals, p.principalPoint, p.skew), p.k1.value))
    else
      Err(RectifToCamIntrisicsK1DistortionError)
  }

  /** Exactly one of the two conversions succeeds on any parameter set. */
  lemma ExactlyOneConversionSucceeds(p: RectifParams)
    ensures ToPinholeIntrinsics(p).Ok? != ToPinholeIntrinsicsK1(p).Ok?
  {
  }

  /** A successful conversion loses nothing: its result determines the parameter set. */
  lemma ConversionsAreLossless(p: RectifParams, q: RectifParams)
    ensures ToPinholeIntrinsics(p).Ok? && ToPinholeIntrinsics(p) == ToPinholeIntrinsics(q) ==> p == q
    ensures ToPinholeIntrinsicsK1(p).Ok? && ToPinholeIntrinsicsK1(p) == ToPinholeIntrinsicsK1(q) ==> p == q
  {
  }

  /**
   The variant a parameter set denotes, built field by field: the `k1` variant
   exactly when a coefficient is present.
   */
  function ChosenIntrinsics(p: RectifParams): Intrinsics {
    var linear := CameraIntrinsics(p.focals, p.principalPoint, p.skew);
    match p.k1
    case Some(k) => K1(K1Intrinsics(linear, k))
    case None => Simple(linear)
  }

  // ---------------------------------------------------------------------------
  // Pixel centres in normalised coordinates
  // ---------------------------------------------------------------------------

  /** The point a fraction `t` of the way from `a` to `b`. */
  function Lerp(a: real, b: real, t: real): real {
    a + t * (b - a)
  }

  /** `v` lies strictly between `a` and `b`, or equals both when they coincide. */
  predicate StrictlyBetween(v: real, a: real, b: real) {
    && (a < b ==> a < v < b)
    && (b < a ==> b < v < a)
    && (a == b ==> v == a)
  }

  lemma LerpAbove(a: real, d: real, t: real)
    requires t > 0.0 && d > 0.0
    ensures a < Lerp(a, a + d, t)
  {
    Positive(t, d);
  }

  lemma LerpBelow(a: real, d: real, t: real)
    requires t < 1.0 && d > 0.0
    ensures Lerp(a, a + d, t) < a + d
  {
    ShrinkBelow(t, d);
  }

  lemma LerpIncreasing(a: real, b: real, t: real)
    requires 0.0 < t < 1.0 && a < b
    ensures a < Lerp(a, b, t) < b
  {
    var d := b - a;
    assert a + d == b;
    LerpAbove(a, d, t);
    LerpBelow(a, d, t);
  }

  lemma LerpStrictlyBetween(a: real, b: real, t: real)
    requires 0.0 < t < 1.0
    ensures StrictlyBetween(Lerp(a, b, t), a, b)
  {
    if a < b {
      LerpIncreasing(a, b, t);
    } else if b < a {
      LerpIncreasing(b, a, 1.0 - t);
      assert Lerp(b, a, 1.0 - t) == Lerp(a, b, t);
    }
  }

  /** The centre of pixel `i` of `n`, as a fraction of the extent. */
  function PixelCentre(i: nat, n: nat): (t: real)
    requires i < n
    ensures 0.0 < t < 1.0
  {
    FractionBelowOne(i as real + 0.5, n as real);
    (i as real + 0.5) / n as real
  }

  /**
   The normalised point of the centre of pixel `(x, y)`: the pixel centre's
   fraction of the width (height) of the way from the top-left corner `tl` to
   the bottom-right corner `br`, hence strictly between the two.
   */
  function ImageXyToNormKp(x: nat, y: nat, width: nat, height: nat, tl: Point, br: Point): (r: Point)
    requires x < width && y < height
    ensures r.x == Lerp(tl.x, br.x, PixelCentre(x, width))
    ensures r.y == Lerp(tl.y, br.y, PixelCentre(y, height))
    ensures StrictlyBetween(r.x, tl.x, br.x) && StrictlyBetween(r.y, tl.y, br.y)
  {
    var nw := tl.x - br.x;
    var nh := tl.y - br.y;
    var nhx := nw / width as real;
    var nhy := nh / height as real;
    var r := Point(tl.x - nhx * (x as real + 0.5), tl.y - nhy * (y as real + 0.5));
    ScaledStep(tl.x, br.x, x, width);
    ScaledStep(tl.y, br.y, y, height);
    LerpStrictlyBetween(tl.x, br.x, PixelCentre(x, width));
    LerpStrictlyBetween(tl.y, br.y, PixelCentre(y, height));
    r
  }

  /** Subtracting `i + 0.5` steps of `(a - b) / n` from `a` is the pixel-centre lerp. */
  lemma ScaledStep(a: real, b: real, i: nat, n: nat)
    requires i < n
    ensures a - ((a - b) / n as real) * (i as real + 0.5) == Lerp(a, b, PixelCentre(i, n))
  {
    var w := n as real;
    var c := i as real + 0.5;
    calc {
      ((a - b) / w) * c;
      (a - b) * c / w;
      (c / w) * (a - b);
    }
  }

  /** Along a row, the normalised x-coordinate moves monotonically from `tl.x` towards `br.x`. */
  lemma {:induction false} NormKpMonotone(x1: nat, x2: nat, y: nat, width: nat, height: nat, tl: Point, br: Point)
    requires x1 < x2 < width && y < height
    ensures tl.x < br.x ==> ImageXyToNormKp(x1, y, width, height, tl, br).x < ImageXyToNormKp(x2, y, width, height, tl, br).x
    ensures br.x < tl.x ==> ImageXyToNormKp(x2, y, width, height, tl, br).x < ImageXyToNormKp(x1, y, width, height, tl, br).x
    ensures tl.x == br.x ==> ImageXyToNormKp(x1, y, width, height, tl, br).x == ImageXyToNormKp(x2, y, width, height, tl, br).x
    ensures ImageXyToNormKp(x1, y, width, height, tl, br).y == ImageXyToNormKp(x2, y, width, height, tl, br).y
  {
    var t1 := PixelCentre(x1, width);
    var t2 := PixelCentre(x2, width);
    DivideMonotone(x1 as real + 0.5, x2 as real + 0.5, width as real);
    var d := br.x - tl.x;
    assert Lerp(tl.x, br.x, t2) - Lerp(tl.x, br.x, t1) == (t2 - t1) * d;
    if d > 0.0 {
      Positive(t2 - t1, d);
    } else if d < 0.0 {
      Positive(t2 - t1, -d);
    }
  }

  /** Down a column, the normalised y-coordinate moves monotonically from `tl.y` towards `br.y`. */
  lemma {:induction false} NormKpMonotoneY(x: nat, y1: nat, y2: nat, width: nat, height: nat, tl: Point, br: Point)
    requires x < width && y1 < y2 < height
    ensures tl.y < br.y ==> ImageXyToNormKp(x, y1, width, height, tl, br).y < ImageXyToNormKp(x, y2, width, height, tl, br).y
    ensures br.y < tl.y ==> ImageXyToNormKp(x, y2, width, height, tl, br).y < ImageXyToNormKp(x, y1, width, height, tl, br).y
    ensures tl.y == br.y ==> ImageXyToNormKp(x, y1, width, height, tl, br).y == ImageXyToNormKp(x, y2, width, height, tl, br).y
    ensures ImageXyToNormKp(x, y1, width, height, tl, br).x == ImageXyToNormKp(x, y2, width, height, tl, br).x
  {
    var t1 := PixelCentre(y1, height);
    var t2 := PixelCentre(y2, height);
    DivideMonotone(y1 as real + 0.5, y2 as real + 0.5, height as real);
    var d := br.y - tl.y;
    assert Lerp(tl.y, br.y, t2) - Lerp(tl.y, br.y, t1) == (t2 - t1) * d;
    if d > 0.0 {
      Positive(t2 - t1, d);
    } else if d < 0.0 {
      Positive(t2 - t1, -d);
    }
  }

  /** Mirror pixels about the centre column map to points symmetric about the corners' midpoint. */
  lemma NormKpSymmetric(x: nat, y: nat, width: nat, height: nat, tl: Point, br: Point)
    requires x < width && y < height
    ensures ImageXyToNormKp(x, y, width, height, tl, br).x
          + ImageXyToNormKp(width - 1 - x, y, width, height, tl, br).x == tl.x + br.x
  {
    var w := width as real;
    var t1 := PixelCentre(x, width);
    var t2 := PixelCentre(width - 1 - x, width);
    assert t1 + t2 == 1.0 by {
      assert (x as real + 0.5) + ((width - 1 - x) as real + 0.5) == w;
      DivideSum(x as real + 0.5, (width - 1 - x) as real + 0.5, w);
    }
    var d := br.x - tl.x;
    assert Lerp(tl.x, br.x, t1) + Lerp(tl.x, br.x, t2) == 2.0 * tl.x + (t1 + t2) * d;
  }

  // Real-arithmetic steps the solver does not find on its own.

  lemma Positive(a: real, b: real)
    requires a > 0.0 && b > 0.0
    ensures a * b > 0.0
  {
  }

  lemma NonNegative(a: real, b: real)
    requires a >= 0.0 && b >= 0.0
    ensures a * b >= 0.0
  {
  }

  lemma ShrinkBelow(t: real, d: real)
    requires t < 1.0 && d > 0.0
    ensures t * d < d
  {
  }

  lemma FractionBelowOne(c: real, w: real)
    requires 0.0 < c < w
    ensures 0.0 < c / w < 1.0
  {
    var t := c / w;
    assert t * w == c;
    if t <= 0.0 { assert false; }
    if t >= 1.0 { assert false; }
  }

  lemma DivideMonotone(a: real, b: real, w: real)
    requires a < b && w > 0.0
    ensures a / w < b / w
  {
    assert (b / w - a / w) * w == b - a;
  }

  lemma DivideSum(a: real, b: real, w: real)
    requires w > 0.0
    ensures a / w + b / w == (a + b) / w
  {
  }

  // ---------------------------------------------------------------------------
  // Sampling
  // ---------------------------------------------------------------------------

  /** The fractional part of a real, `r - floor(r)`. */
  function Fract(r: real): (f: real)
    ensures 0.0 <= f < 1.0
    ensures r == r.Floor as real + f
  {
    r - r.Floor as real
  }

  /**
   The edge guard: a negative coordinate, or a floor that reaches the last
   column or row (so that no forward neighbour exists), yields black.
   */
  function OutsideSampleGrid(kp: Point, img: GrayImage): (r: bool)
    ensures !r <==> 0.0 <= kp.x < (img.width - 1) as real && 0.0 <= kp.y < (img.height - 1) as real
  {
    kp.x < 0.0 || kp.y < 0.0 || kp.x.Floor >= img.width - 1 || kp.y.Floor >= img.height - 1
  }

  /**
   Samples `img` at the real-valued pixel coordinate `kp`. Inside the guard
   the weights are `(2 - fx - fy) / 2`, `fx / 2` and `fy / 2` on the samples at
   `(x, y)`, `(x + 1, y)` and `(x, y + 1)`; the diagonal neighbour `(x + 1, y + 1)`
   is not used, so this is the mean of a horizontal and a vertical linear
   interpolation rather than bilinear interpolation.
   */
  function LinterpPixels(kp: Point, img: GrayImage): (r: real)
    requires img.Wf() && img.width >= 1 && img.height >= 1
    ensures OutsideSampleGrid(kp, img) ==> r == 0.0
    ensures !OutsideSampleGrid(kp, img) ==>
              var x, y := kp.x.Floor, kp.y.Floor;
              && 0 <= x && x + 1 < img.width && 0 <= y && y + 1 < img.height
              && r == (Lerp(img.At(x, y), img.At(x + 1, y), Fract(kp.x))
                       + Lerp(img.At(x, y), img.At(x, y + 1), Fract(kp.y))) / 2.0
  {
    if kp.x < 0.0 || kp.y < 0.0 then
      0.0
    else
      var x := kp.x.Floor;
      var y := kp.y.Floor;
      if x >= img.width - 1 || y >= img.height - 1 then
        0.0
      else
        var fractX := kp.x - x as real;
        var fractY := kp.y - y as real;
        0.5 * (img.At(x, y) * (2.0 - fractX - fractY)
               + img.At(x + 1, y) * fractX
               + img.At(x, y + 1) * fractY)
  }

  /** Inside the guard the sample is a convex combination of its three neighbours. */
  lemma LinterpWithinNeighbours(kp: Point, img: GrayImage, lo: real, hi: real)
    requires img.Wf() && img.width >= 1 && img.height >= 1
    requires !OutsideSampleGrid(kp, img)
    requires var x, y := kp.x.Floor, kp.y.Floor;
             && 0 <= x < img.width - 1 && 0 <= y < img.height - 1
             && lo <= img.At(x, y) <= hi && lo <= img.At(x + 1, y) <= hi && lo <= img.At(x, y + 1) <= hi
    ensures lo <= LinterpPixels(kp, img) <= hi
  {
    var x, y := kp.x.Floor, kp.y.Floor;
    LerpWithin(img.At(x, y), img.At(x + 1, y), Fract(kp.x), lo, hi);
    LerpWithin(img.At(x, y), img.At(x, y + 1), Fract(kp.y), lo, hi);
  }

  lemma LerpWithin(a: real, b: real, t: real, lo: real, hi: real)
    requires 0.0 <= t <= 1.0 && lo <= a <= hi && lo <= b <= hi
    ensures lo <= Lerp(a, b, t) <= hi
  {
    assert Lerp(a, b, t) == (1.0 - t) * a + t * b;
    NonNegative(1.0 - t, a - lo);
    NonNegative(t, b - lo);
    NonNegative(1.0 - t, hi - a);
    NonNegative(t, hi - b);
  }

  /** The interpolation weights sum to one: a flat neighbourhood of value `v` samples to `v`. */
  lemma LinterpFlat(kp: Point, img: GrayImage, v: real)
    requires img.Wf() && img.width >= 1 && img.height >= 1
    requires !OutsideSampleGrid(kp, img)
    requires var x, y := kp.x.Floor, kp.y.Floor;
             && 0 <= x < img.width - 1 && 0 <= y < img.height - 1
             && img.At(x, y) == v && img.At(x + 1, y) == v && img.At(x, y + 1) == v
    ensures LinterpPixels(kp, img) == v
  {
  }

  /** At a whole-pixel coordinate inside the guard the sample is that pixel, unchanged. */
  lemma LinterpAtGridPoint(kp: Point, img: GrayImage)
    requires img.Wf() && img.width >= 1 && img.height >= 1
    requires !OutsideSampleGrid(kp, img) && Fract(kp.x) == 0.0 && Fract(kp.y) == 0.0
    ensures 0 <= kp.x.Floor < img.width && 0 <= kp.y.Floor < img.height
    ensures LinterpPixels(kp, img) == img.At(kp.x.Floor, kp.y.Floor)
  {
  }

  /** Only the three neighbours are read: images agreeing there sample identically. */
  lemma LinterpReadsOnlyNeighbours(kp: Point, a: GrayImage, b: GrayImage)
    requires a.Wf() && b.Wf() && a.width == b.width >= 1 && a.height == b.height >= 1
    requires !OutsideSampleGrid(kp, a) ==>
               var x, y := kp.x.Floor, kp.y.Floor;
               && 0 <= x < a.width - 1 && 0 <= y < a.height - 1
               && a.At(x, y) == b.At(x, y) && a.At(x + 1, y) == b.At(x + 1, y) && a.At(x, y + 1) == b.At(x, y + 1)
    ensures LinterpPixels(kp, a) == LinterpPixels(kp, b)
  {
  }

  // ---------------------------------------------------------------------------
  // Rectification
  // ---------------------------------------------------------------------------

  /** The source coordinate that destination pixel `(x, y)` is resampled from. */
  function SourcePoint(intr: Intrinsics, img: GrayImage, model: CameraModel, x: nat, y: nat): Point
    requires x < img.width && y < img.height
  {
    var tl := model.calibrate(intr, Point(0.0, 0.0));
    var br := model.calibrate(intr, Point(img.width as real, img.height as real));
    model.uncalibrate(intr, ImageXyToNormKp(x, y, img.width, img.height, tl, br))
  }

  /** The value of destination pixel `(x, y)`. */
  function RemapPixel(intr: Intrinsics, img: GrayImage, model: CameraModel, x: nat, y: nat): real
    requires img.Wf() && x < img.width && y < img.height
  {
    LinterpPixels(SourcePoint(intr, img, model, x, y), img)
  }

  /** Rectified values stay within any range of source values that contains black. */
  lemma RemapPixelBounded(intr: Intrinsics, img: GrayImage, model: CameraModel, x: nat, y: nat, lo: real, hi: real)
    requires x < img.width && y < img.height
    requires Bounded(img, lo, hi) && lo <= 0.0 <= hi
    ensures lo <= RemapPixel(intr, img, model, x, y) <= hi
  {
    var kp := SourcePoint(intr, img, model, x, y);
    if !OutsideSampleGrid(kp, img) {
      LinterpWithinNeighbours(kp, img, lo, hi);
    }
  }

  /** A uniform source of value `v` rectifies to `v` or, where the guard applies, to black. */
  lemma RemapPixelUniform(intr: Intrinsics, img: GrayImage, model: CameraModel, x: nat, y: nat, v: real)
    requires x < img.width && y < img.height
    requires Uniform(img, v)
    ensures RemapPixel(intr, img, model, x, y) == v || RemapPixel(intr, img, model, x, y) == 0.0
    ensures !OutsideSampleGrid(SourcePoint(intr, img, model, x, y), img) ==> RemapPixel(intr, img, model, x, y) == v
  {
    var kp := SourcePoint(intr, img, model, x, y);
    if !OutsideSampleGrid(kp, img) {
      LinterpFlat(kp, img, v);
    }
  }

  /**
   Rectifies `img` with `p`: the `k1` variant is used exactly when a
   coefficient is present, so neither conversion can fail. The result has the
   source's dimensions and every pixel holds its own remapped sample.
   */
  method Rectify(p: RectifParams, img: GrayImage, model: CameraModel) returns (out: GrayImage)
    requires img.Wf()
    ensures out.Wf() && out.width == img.width && out.height == img.height
    ensures forall y, x :: 0 <= y < out.height && 0 <= x < out.width ==>
              out.rows[y][x] == RemapPixel(ChosenIntrinsics(p), img, model, x, y)
    ensures forall y, x ::
              (0 <= y < out.height && 0 <= x < out.width &&
               OutsideSampleGrid(SourcePoint(ChosenIntrinsics(p), img, model, x, y), img)) ==> out.rows[y][x] == 0.0
    ensures Bounded(img, 0.0, 1.0) ==> Bounded(out, 0.0, 1.0)
    ensures forall v :: Uniform(img, v) ==>
              forall y, x :: 0 <= y < out.height && 0 <= x < out.width ==> out.rows[y][x] == v || out.rows[y][x] == 0.0
  {
    var intr: Intrinsics;
    match p.k1 {
      case Some(_) =>
        var converted := ToPinholeIntrinsicsK1(p);
        intr := K1(converted.value);
      case None =>
        var converted := ToPinholeIntrinsics(p);
        intr := Simple(converted.value);
    }
    assert intr == ChosenIntrinsics(p);
    out := Remap(intr, img, model);
    forall y, x | 0 <= y < out.height && 0 <= x < out.width && Bounded(img, 0.0, 1.0)
      ensures 0.0 <= out.rows[y][x] <= 1.0
    {
      RemapPixelBounded(intr, img, model, x, y, 0.0, 1.0);
    }
    forall v, y, x | Uniform(img, v) && 0 <= y < out.height && 0 <= x < out.width
      ensures out.rows[y][x] == v || out.rows[y][x] == 0.0
    {
      RemapPixelUniform(intr, img, model, x, y, v);
    }
  }

  /**
   The per-pixel loop shared by both variants: the corners are calibrated once,
   then every destination pixel, row by row, is filled with its remapped sample.
   */
  method Remap(intr: Intrinsics, img: GrayImage, model: CameraModel) returns (out: GrayImage)
    requires img.Wf()
    ensures out.Wf() && out.width == img.width && out.height == img.height
    ensures forall y, x :: 0 <= y < out.height && 0 <= x < out.width ==>
              out.rows[y][x] == RemapPixel(intr, img, model, x, y)
  {
    var tl := model.calibrate(intr, Point(0.0, 0.0));
    var br := model.calibrate(intr, Point(img.width as real, img.height as real));
    var rows: seq<seq<real>> := [];
    var y := 0;
    while y < img.height
      invariant 0 <= y <= img.height && |rows| == y
      invariant forall j :: 0 <= j < y ==> |rows[j]| == img.width
      invariant forall j, i :: 0 <= j < y && 0 <= i < img.width ==> rows[j][i] == RemapPixel(intr, img, model, i, j)
    {
      var row: seq<real> := [];
      var x := 0;
      while x < img.width
        invariant 0 <= x <= img.width && |row| == x
        invariant forall i :: 0 <= i < x ==> row[i] == RemapPixel(intr, img, model, i, y)
      {
        var normkp := ImageXyToNormKp(x, y, img.width, img.height, tl, br);
        var kp := model.uncalibrate(intr, normkp);
        row := row + [LinterpPixels(kp, img)];
        x := x + 1;
      }
      rows := rows + [row];
      y := y + 1;
    }
    out := GrayImage(img.width, img.height, rows);
  }
}
