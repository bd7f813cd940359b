/**
 * The geometry planner of `imageProcessor::process`: from the source size
 * `sw × sh`, the target box `tw × th` and the method, the source crop
 * rectangle and the destination canvas size handed to `imagecopyresampled`.
 *
 * PHP compares the ratios `width/height` and `input_width/input_height` as
 * floats; here they are compared exactly by cross-multiplying
 * (`tw/th < sw/sh` iff `tw*sh < sw*th`, see RatioOrder). `fill`'s
 * `floor((tw/th)*sh)` is the integer quotient `(tw*sh)/th` (see FloorDiv).
 * `fit`'s scaled sizes are fractional in PHP and are exact reals here.
 */
module Geometry {

  /** The two geometric policies of `process`. */
  datatype Method = Fill | Fit

  /** A rectangle in source pixel coordinates: `src_x, src_y, src_width, src_height`. */
  datatype Rect = Rect(x: int, y: int, width: int, height: int)

  /** The source crop and the destination canvas size (`dst_width × dst_height`). */
  datatype ResamplePlan = ResamplePlan(src: Rect, dstWidth: real, dstHeight: real)

  predicate Positive(sw: int, sh: int, tw: int, th: int)
  {
    sw > 0 && sh > 0 && tw > 0 && th > 0
  }

  /** `ratio < input_ratio`: the target box is narrower than the source. */
  predicate TargetNarrower(sw: int, sh: int, tw: int, th: int)
  {
    tw * sh < sw * th
  }

  /** `ratio > input_ratio`: the target box is wider than the source. */
  predicate TargetWider(sw: int, sh: int, tw: int, th: int)
  {
    tw * sh > sw * th
  }

  /** `r` lies within a `sw × sh` source and has no negative side. */
  predicate Inside(r: Rect, sw: int, sh: int)
  {
    0 <= r.x && 0 <= r.y && 0 <= r.width && 0 <= r.height &&
    r.x + r.width <= sw && r.y + r.height <= sh
  }

  /** The crop `fill` takes from the source. */
  function FillCrop(sw: int, sh: int, tw: int, th: int): Rect
    requires Positive(sw, sh, tw, th)
  {
    if TargetNarrower(sw, sh, tw, th) then
      var w := (tw * sh) / th;
      Rect((sw - w) / 2, 0, w, sh)
    else if TargetWider(sw, sh, tw, th) then
      var h := (th * sw) / tw;
      Rect(0, (sh - h) / 2, sw, h)
    else
      Rect(0, 0, sw, sh)
  }

  /** The destination size `fit` computes: (dst_width, dst_height). */
  function FitSize(sw: int, sh: int, tw: int, th: int): (real, real)
    requires Positive(sw, sh, tw, th)
  {
    if sw <= tw && sh <= th then (sw as real, sh as real)
    else if TargetNarrower(sw, sh, tw, th) then (tw as real, (tw as real / sw as real) * sh as real)
    else if TargetWider(sw, sh, tw, th) then ((th as real / sh as real) * sw as real, th as real)
    else (tw as real, th as real)
  }

  /** The plan of `process` for a `sw × sh` source, a `tw × th` target and method `m`. */
  function Plan(sw: int, sh: int, tw: int, th: int, m: Method): (p: ResamplePlan)
    requires Positive(sw, sh, tw, th)
    ensures Inside(p.src, sw, sh)
    ensures m == Fill ==> p.dstWidth == tw as real && p.dstHeight == th as real
    ensures m == Fit ==> p.src == Rect(0, 0, sw, sh)
  {
    match m
    case Fill =>
      FillCropInside(sw, sh, tw, th);
      ResamplePlan(FillCrop(sw, sh, tw, th), tw as real, th as real)
    case Fit =>
      var size := FitSize(sw, sh, tw, th);
      ResamplePlan(Rect(0, 0, sw, sh), size.0, size.1)
  }

  /** The integer canvas `imagecreatetruecolor` receives: PHP truncates the float sizes. */
  function Canvas(p: ResamplePlan): (int, int)
  {
    (p.dstWidth.Floor, p.dstHeight.Floor)
  }

  // ---------------------------------------------------------------------
  // Arithmetic bridges between PHP's float expressions and the integer plan

  /** Comparing the float ratios is comparing the cross products. */
  lemma RatioOrder(sw: int, sh: int, tw: int, th: int)
    requires Positive(sw, sh, tw, th)
    ensures (tw as real / th as real < sw as real / sh as real) <==> TargetNarrower(sw, sh, tw, th)
    ensures (tw as real / th as real > sw as real / sh as real) <==> TargetWider(sw, sh, tw, th)
  {
    var a, b := tw as real / th as real, sw as real / sh as real;
    assert a * (th as real * sh as real) == tw as real * sh as real;
    assert b * (th as real * sh as real) == sw as real * th as real;
    MulMonotonic(a, b, th as real * sh as real);
  }

  lemma MulMonotonic(a: real, b: real, k: real)
    requires k > 0.0
    ensures a < b <==> a * k < b * k
    ensures a > b <==> a * k > b * k
  {
  }

  /** `floor(a / b)` over the reals is Dafny's integer quotient when `b > 0`. */
  lemma FloorDiv(a: int, b: int)
    requires b > 0
    ensures (a as real / b as real).Floor == a / b
  {
    var q, r := a / b, a % b;
    assert a == q * b + r && 0 <= r < b;
    var x := a as real / b as real;
    assert x * b as real == a as real;
    assert q as real * b as real <= a as real;
    MulMonotonic(q as real, x, b as real);
    assert q as real <= x;
    assert a as real < (q + 1) as real * b as real;
    MulMonotonic(x, (q + 1) as real, b as real);
    assert x < (q + 1) as real;
  }

  /** `floor((a/b)*c)` is the integer quotient `(a*c)/b`. */
  lemma ScaledFloor(a: int, b: int, c: int)
    requires b > 0
    ensures ((a as real / b as real) * c as real).Floor == (a * c) / b
  {
    assert (a as real / b as real) * c as real == (a * c) as real / b as real;
    FloorDiv(a * c, b);
  }

  // ---------------------------------------------------------------------
  // fill

  /** Every `fill` crop lies within the source. */
  lemma FillCropInside(sw: int, sh: int, tw: int, th: int)
    requires Positive(sw, sh, tw, th)
    ensures Inside(FillCrop(sw, sh, tw, th), sw, sh)
  {
    if TargetNarrower(sw, sh, tw, th) {
      var w := (tw * sh) / th;
      QuotientBelow(tw * sh, th, sw);
      assert 0 <= w <= sw;
    } else if TargetWider(sw, sh, tw, th) {
      var h := (th * sw) / tw;
      QuotientBelow(th * sw, tw, sh);
      assert 0 <= h <= sh;
    }
  }

  /** If `n < m * d` then the quotient `n / d` is below `m`. */
  lemma QuotientBelow(n: int, d: int, m: int)
    requires n >= 0 && d > 0 && n < m * d
    ensures 0 <= n / d < m
  {
    var q := n / d;
    assert q * d <= n;
  }

  /**
   * The `fill` crop is centred on the cropped axis and spans the whole
   * source on the other; at equal ratios it is the whole source.
   */
  lemma FillCropCentred(sw: int, sh: int, tw: int, th: int)
    requires Positive(sw, sh, tw, th)
    ensures var r := FillCrop(sw, sh, tw, th);
      r.x == (sw - r.width) / 2 && r.y == (sh - r.height) / 2 &&
      (TargetNarrower(sw, sh, tw, th) ==> r.y == 0 && r.height == sh) &&
      (TargetWider(sw, sh, tw, th) ==> r.x == 0 && r.width == sw) &&
      (!TargetNarrower(sw, sh, tw, th) && !TargetWider(sw, sh, tw, th) ==> r == Rect(0, 0, sw, sh))
  {
  }

  /**
   * The `fill` crop has the target's aspect ratio rounded down: on the
   * cropped axis it is the largest whole length whose ratio to the other
   * side does not exceed the target's.
   */
  lemma FillCropAspect(sw: int, sh: int, tw: int, th: int)
    requires Positive(sw, sh, tw, th)
    ensures var r := FillCrop(sw, sh, tw, th);
      (TargetNarrower(sw, sh, tw, th) ==>
        r.width * th <= tw * r.height < (r.width + 1) * th) &&
      (TargetWider(sw, sh, tw, th) ==>
        r.height * tw <= th * r.width < (r.height + 1) * tw) &&
      (!TargetNarrower(sw, sh, tw, th) && !TargetWider(sw, sh, tw, th) ==>
        r.width * th == tw * r.height)
  {
    var r := FillCrop(sw, sh, tw, th);
    if TargetNarrower(sw, sh, tw, th) {
      QuotientBounds(tw * sh, th);
    } else if TargetWider(sw, sh, tw, th) {
      QuotientBounds(th * sw, tw);
      assert th * r.width == th * sw;
    }
  }

  lemma QuotientBounds(n: int, d: int)
    requires d > 0
    ensures (n / d) * d <= n < (n / d + 1) * d
  {
  }

  /**
   * The `fill` crop is empty exactly when the source is too small on the
   * kept axis to give one whole pixel on the cropped axis.
   */
  lemma FillCropEmpty(sw: int, sh: int, tw: int, th: int)
    requires Positive(sw, sh, tw, th)
    ensures var r := FillCrop(sw, sh, tw, th);
      (r.width == 0 || r.height == 0) <==>
        (TargetNarrower(sw, sh, tw, th) && tw * sh < th) ||
        (TargetWider(sw, sh, tw, th) && th * sw < tw)
  {
    if TargetNarrower(sw, sh, tw, th) {
      QuotientZero(tw * sh, th);
    } else if TargetWider(sw, sh, tw, th) {
      QuotientZero(th * sw, tw);
    }
  }

  lemma QuotientZero(n: int, d: int)
    requires n >= 0 && d > 0
    ensures n / d == 0 <==> n < d
  {
    QuotientBounds(n, d);
  }

  // ---------------------------------------------------------------------
  // fit

  /** `fit` never enlarges a source that already fits the box: it is copied at its own size. */
  lemma FitNoUpscale(sw: int, sh: int, tw: int, th: int)
    requires Positive(sw, sh, tw, th)
    requires sw <= tw && sh <= th
    ensures Plan(sw, sh, tw, th, Fit) == ResamplePlan(Rect(0, 0, sw, sh), sw as real, sh as real)
  {
  }

  /**
   * The `fit` destination is never larger than the box nor than the
   * source, is never empty in real terms, and keeps the source's aspect
   * ratio exactly.
   */
  lemma FitInsideBox(sw: int, sh: int, tw: int, th: int)
    requires Positive(sw, sh, tw, th)
    ensures var p := Plan(sw, sh, tw, th, Fit);
      0.0 < p.dstWidth <= tw as real && 0.0 < p.dstHeight <= th as real &&
      p.dstWidth <= sw as real && p.dstHeight <= sh as real &&
      p.dstWidth * sh as real == p.dstHeight * sw as real
  {
    FitBranches(sw, sh, tw, th);
  }

  /**
   * The branches of `fit` for a source larger than the box: a relatively
   * wider source is scaled to the box width and comes out less tall than
   * the box; a relatively taller one is scaled to the box height and comes
   * out narrower than the box; at equal ratios it fills the box. In each
   * case it is scaled down, never up.
   */
  lemma FitBranches(sw: int, sh: int, tw: int, th: int)
    requires Positive(sw, sh, tw, th)
    ensures var p := Plan(sw, sh, tw, th, Fit);
      var fits := sw <= tw && sh <= th;
      (fits ==> p.dstWidth == sw as real && p.dstHeight == sh as real) &&
      (!fits && TargetNarrower(sw, sh, tw, th) ==>
        p.dstWidth == tw as real && p.dstHeight < th as real && tw < sw &&
        p.dstHeight < sh as real && p.dstHeight * sw as real == tw as real * sh as real) &&
      (!fits && TargetWider(sw, sh, tw, th) ==>
        p.dstHeight == th as real && p.dstWidth < tw as real && th < sh &&
        p.dstWidth < sw as real && p.dstWidth * sh as real == th as real * sw as real) &&
      (!fits && !TargetNarrower(sw, sh, tw, th) && !TargetWider(sw, sh, tw, th) ==>
        p.dstWidth == tw as real && p.dstHeight == th as real && tw < sw && th < sh)
  {
    var fits := sw <= tw && sh <= th;
    if !fits && TargetNarrower(sw, sh, tw, th) {
      FitScalesToWidth(sw, sh, tw, th);
    } else if !fits && TargetWider(sw, sh, tw, th) {
      FitScalesToHeight(sw, sh, tw, th);
    } else if !fits && !TargetNarrower(sw, sh, tw, th) && !TargetWider(sw, sh, tw, th) {
      EqualRatioLarger(sw, sh, tw, th);
    }
  }

  /** The "wider" branch of `fit`. */
  lemma FitScalesToWidth(sw: int, sh: int, tw: int, th: int)
    requires Positive(sw, sh, tw, th)
    requires !(sw <= tw && sh <= th) && TargetNarrower(sw, sh, tw, th)
    ensures var p := Plan(sw, sh, tw, th, Fit);
      p.dstWidth == tw as real && p.dstHeight < th as real && tw < sw &&
      p.dstHeight < sh as real && p.dstHeight * sw as real == tw as real * sh as real
  {
    NarrowerScalesWidth(sw, sh, tw, th);
  }

  /** The "taller" branch of `fit`: the "wider" one with the axes swapped. */
  lemma FitScalesToHeight(sw: int, sh: int, tw: int, th: int)
    requires Positive(sw, sh, tw, th)
    requires !(sw <= tw && sh <= th) && TargetWider(sw, sh, tw, th)
    ensures var p := Plan(sw, sh, tw, th, Fit);
      p.dstHeight == th as real && p.dstWidth < tw as real && th < sh &&
      p.dstWidth < sw as real && p.dstWidth * sh as real == th as real * sw as real
  {
    assert th * sw < sh * tw;
    NarrowerScalesWidth(sh, sw, th, tw);
    var p := Plan(sw, sh, tw, th, Fit);
    assert p.dstWidth == (th as real / sh as real) * sw as real;
  }

  /** At equal ratios, a source that does not fit the box exceeds it on both axes. */
  lemma EqualRatioLarger(sw: int, sh: int, tw: int, th: int)
    requires Positive(sw, sh, tw, th)
    requires !(sw <= tw && sh <= th) && tw * sh == sw * th
    ensures tw < sw && th < sh
  {
    if sw <= tw {
      IntMulMonotonic(sw, tw, th);
      IntMulMonotonic(sh, th, tw);
    } else {
      IntMulMonotonic(tw, sw, sh);
      IntMulMonotonic(th, sh, sw);
    }
  }

  lemma IntMulMonotonic(a: int, b: int, k: int)
    requires k > 0
    ensures a < b <==> a * k < b * k
    ensures a <= b <==> a * k <= b * k
  {
  }

  /** The scaling of the "wider" `fit` branch, stated once for both axes. */
  lemma NarrowerScalesWidth(sw: int, sh: int, tw: int, th: int)
    requires Positive(sw, sh, tw, th)
    requires !(sw <= tw && sh <= th) && tw * sh < sw * th
    ensures tw < sw
    ensures var h := (tw as real / sw as real) * sh as real;
      h < th as real && h < sh as real && h > 0.0 && h * sw as real == tw as real * sh as real
  {
    NarrowerIsSmaller(sw, sh, tw, th);
    assert (tw * sh) as real < (sw * th) as real;
    ScaleDown(tw as real, sw as real, sh as real, th as real);
  }

  /** Scaling `c` by `a/b < 1` shrinks it, and below `t` when `a*c < b*t`. */
  lemma ScaleDown(a: real, b: real, c: real, t: real)
    requires 0.0 < a < b && c > 0.0 && a * c < b * t
    ensures var h := (a / b) * c;
      0.0 < h && h < c && h < t && h * b == a * c
  {
    var r := a / b;
    var h := r * c;
    ScaleBack(a, b, c);
    RatioBelowOne(a, b);
    MulMonotonic(r, 1.0, c);
    MulMonotonic(0.0, r, c);
    assert h * b < t * b;
    MulMonotonic(h, t, b);
  }

  lemma RatioBelowOne(a: real, b: real)
    requires 0.0 < a < b
    ensures 0.0 < a / b < 1.0
  {
    var r := a / b;
    assert r * b == a;
    MulMonotonic(r, 1.0, b);
    assert 1.0 * b == b;
    assert r < 1.0;
    MulMonotonic(0.0, r, b);
    assert 0.0 * b == 0.0;
    assert 0.0 < r;
  }

  lemma NarrowerIsSmaller(sw: int, sh: int, tw: int, th: int)
    requires Positive(sw, sh, tw, th)
    requires !(sw <= tw && sh <= th) && tw * sh < sw * th
    ensures tw < sw
  {
    if sw <= tw {
      IntMulMonotonic(sw, tw, sh);
      IntMulMonotonic(th, sh, sw);
    }
  }

  /** `(a / b) * c`, scaled back by `b`, is `a * c`. */
  lemma ScaleBack(a: real, b: real, c: real)
    requires b > 0.0
    ensures (a / b) * c * b == a * c
    ensures (a / b) * b == a
  {
  }

  /**
   * The integer canvas of `fit` has no pixel rows (or columns) exactly
   * when a scaled side falls below one pixel.
   */
  lemma FitCanvasEmpty(sw: int, sh: int, tw: int, th: int)
    requires Positive(sw, sh, tw, th)
    ensures var c := Canvas(Plan(sw, sh, tw, th, Fit));
      var fits := sw <= tw && sh <= th;
      (c.1 == 0 <==> !fits && TargetNarrower(sw, sh, tw, th) && tw * sh < sw) &&
      (c.0 == 0 <==> !fits && TargetWider(sw, sh, tw, th) && th * sw < sh) &&
      c.0 >= 0 && c.1 >= 0
  {
    FitCanvasHeight(sw, sh, tw, th);
    FitCanvasWidth(sw, sh, tw, th);
  }

  /** The canvas height of `fit` is 0 exactly when the width-scaled height is below one pixel. */
  lemma FitCanvasHeight(sw: int, sh: int, tw: int, th: int)
    requires Positive(sw, sh, tw, th)
    ensures var c := Canvas(Plan(sw, sh, tw, th, Fit));
      (c.1 == 0 <==> !(sw <= tw && sh <= th) && TargetNarrower(sw, sh, tw, th) && tw * sh < sw) &&
      c.1 >= 0
  {
    FitBranches(sw, sh, tw, th);
    var p := Plan(sw, sh, tw, th, Fit);
    if !(sw <= tw && sh <= th) && TargetNarrower(sw, sh, tw, th) {
      NarrowerScalesWidth(sw, sh, tw, th);
      BelowOne(p.dstHeight, sw as real, (tw * sh) as real);
    }
  }

  /** The canvas width of `fit` is 0 exactly when the height-scaled width is below one pixel. */
  lemma FitCanvasWidth(sw: int, sh: int, tw: int, th: int)
    requires Positive(sw, sh, tw, th)
    ensures var c := Canvas(Plan(sw, sh, tw, th, Fit));
      (c.0 == 0 <==> !(sw <= tw && sh <= th) && TargetWider(sw, sh, tw, th) && th * sw < sh) &&
      c.0 >= 0
  {
    FitBranches(sw, sh, tw, th);
    var p := Plan(sw, sh, tw, th, Fit);
    if !(sw <= tw && sh <= th) && TargetWider(sw, sh, tw, th) {
      NarrowerScalesWidth(sh, sw, th, tw);
      BelowOne(p.dstWidth, sh as real, (th * sw) as real);
    }
  }

  lemma BelowOne(x: real, k: real, n: real)
    requires x > 0.0 && k > 0.0 && x * k == n
    ensures x < 1.0 <==> n < k
  {
    MulMonotonic(x, 1.0, k);
  }

  // ---------------------------------------------------------------------
  // worked examples

  /** A 4000×2000 source filled into 800×800 keeps the middle 2000×2000 square. */
  lemma FillExample()
    ensures Plan(4000, 2000, 800, 800, Fill) == ResamplePlan(Rect(1000, 0, 2000, 2000), 800.0, 800.0)
  {
  }

  /**
   * An 800×600 source fitted into 400×400 is relatively wider than the box,
   * so it is scaled to the box width: 400×300.
   */
  lemma FitExample()
    ensures Plan(800, 600, 400, 400, Fit) == ResamplePlan(Rect(0, 0, 800, 600), 400.0, 300.0)
  {
  }
}
