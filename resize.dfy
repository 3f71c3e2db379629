/** Long-side-fit resizing: shrink an image so that its longer side matches a target, never enlarge it. */
module Resize {
  import opened Images
  import opened Results

  function LongSide(s: Size): (l: nat)
    ensures l >= s.width && l >= s.height
    ensures l == s.width || l == s.height
  {
    if s.width >= s.height then s.width else s.height
  }

  /**
   * The dimensions an image of size `s` is resized to for `target`.
   * Each side of a shrunk image is its old side times target / long side, truncated:
   * the largest whole number of pixels not exceeding the exact scaled length.
   */
  function FitSize(s: Size, target: nat): (r: Size)
    ensures LongSide(s) <= target ==> r == s
  {
    var long := LongSide(s);
    if long <= target then s
    else Size(ScaleSide(s.width, target, long), ScaleSide(s.height, target, long))
  }

  /** A side length times target / long, truncated toward zero. */
  function ScaleSide(side: nat, target: nat, long: nat): (scaled: nat)
    requires long > 0
  {
    side * target / long
  }

  /** Each side of a shrunk image is the truncation of its exact scaled length side * target / long. */
  lemma FitSizeTruncatesScaledSides(s: Size, target: nat)
    requires LongSide(s) > target
    ensures var r, long := FitSize(s, target), LongSide(s);
      && r.width * long <= s.width * target < (r.width + 1) * long
      && r.height * long <= s.height * target < (r.height + 1) * long
  {
    var long := LongSide(s);
    assert FitSize(s, target) == Size(s.width * target / long, s.height * target / long);
    DivBounds(s.width * target, long);
    DivBounds(s.height * target, long);
  }

  /** Truncating division brackets the exact quotient. */
  lemma DivBounds(x: nat, d: nat)
    requires d > 0
    ensures (x / d) * d <= x < (x / d + 1) * d
  {
    var q, m := x / d, x % d;
    assert x == q * d + m && 0 <= m < d;
    assert (q + 1) * d == q * d + d;
  }

  /** A multiple of a positive number that lies below it is zero times it. */
  lemma MulBelowDivisor(k: int, d: nat)
    requires d > 0 && 0 <= k * d < d
    ensures k == 0
  {
    if k >= 1 {
      MulMonotone(d, 1, k);
    }
  }

  /** Integer division by a positive divisor is monotone. */
  lemma DivMonotone(x: nat, y: nat, d: nat)
    requires x <= y && d > 0
    ensures x / d <= y / d
  {
    DivBounds(x, d);
    DivBounds(y, d);
    MulLessCancel(x / d, y / d + 1, d);
  }

  lemma MulLessCancel(a: int, b: int, d: nat)
    requires d > 0 && a * d < b * d
    ensures a < b
  {
    if a >= b {
      MulMonotone(d, b, a);
    }
  }

  lemma MulDivCancel(a: nat, d: nat)
    requires d > 0
    ensures a * d / d == a
  {
    var q := a * d / d;
    DivBounds(a * d, d);
    assert (a - q) * d == a * d - q * d;
    MulBelowDivisor(a - q, d);
  }

  lemma MulMonotone(a: nat, b: int, c: int)
    requires b <= c
    ensures a * b <= a * c
  {
  }

  /** One side scaled by target / long never exceeds its old length. */
  lemma ScaledSideAtMostSide(x: nat, target: nat, long: nat)
    requires target < long
    ensures x * target / long <= x
  {
    MulMonotone(x, target, long);
    DivMonotone(x * target, x * long, long);
    MulDivCancel(x, long);
  }

  /** A side no longer than the long side, scaled by target / long, never exceeds the target. */
  lemma ScaledSideAtMostTarget(x: nat, target: nat, long: nat)
    requires target < long && x <= long
    ensures x * target / long <= target
  {
    MulMonotone(target, x, long);
    assert x * target <= long * target;
    DivMonotone(x * target, long * target, long);
    MulDivCancel(target, long);
  }

  lemma ScaledSideBound(x: nat, target: nat, long: nat)
    requires target < long && x <= long
    ensures x * target / long <= x
    ensures x * target / long <= target
  {
    ScaledSideAtMostSide(x, target, long);
    ScaledSideAtMostTarget(x, target, long);
  }

  /** Resizing never enlarges either side. */
  lemma FitSizeNeverUpscales(s: Size, target: nat)
    ensures FitSize(s, target).width <= s.width
    ensures FitSize(s, target).height <= s.height
    ensures LongSide(FitSize(s, target)) <= LongSide(s)
  {
    var long := LongSide(s);
    if long > target {
      ScaledSideBound(s.width, target, long);
      ScaledSideBound(s.height, target, long);
    }
  }

  /** A shrunk image has exactly the target as its long side. */
  lemma FitSizeLongSideIsTarget(s: Size, target: nat)
    requires LongSide(s) > target
    ensures LongSide(FitSize(s, target)) == target
  {
    var long := LongSide(s);
    ScaledSideBound(s.width, target, long);
    ScaledSideBound(s.height, target, long);
    if s.width == long {
      assert s.width * target == target * long;
      MulDivCancel(target, long);
    } else {
      assert s.height * target == target * long;
      MulDivCancel(target, long);
    }
  }

  /**
   * A very elongated image loses its short side altogether: a shrunk side is
   * zero pixels exactly when side * target is less than the long side.
   */
  lemma FitSizeCollapses(s: Size, target: nat)
    requires LongSide(s) > target
    ensures FitSize(s, target).width == 0 <==> s.width * target < LongSide(s)
    ensures FitSize(s, target).height == 0 <==> s.height * target < LongSide(s)
  {
    FitSizeTruncatesScaledSides(s, target);
    var r, long := FitSize(s, target), LongSide(s);
    SideCollapses(r.width, s.width * target, long);
    SideCollapses(r.height, s.height * target, long);
  }

  lemma SideCollapses(q: nat, x: nat, d: nat)
    requires d > 0 && q * d <= x < (q + 1) * d
    ensures q == 0 <==> x < d
  {
    if x < d {
      MulLessCancel(q, 1, d);
    }
  }

  /**
   * Resizing never turns the sides' order around: a size no wider than tall
   * stays no wider than tall, and one no taller than wide stays no taller
   * than wide. (Strict orientation can be lost: both sides may round to the
   * same length.)
   */
  lemma FitSizeKeepsOrientation(s: Size, target: nat)
    ensures s.width <= s.height ==> FitSize(s, target).width <= FitSize(s, target).height
    ensures s.height <= s.width ==> FitSize(s, target).height <= FitSize(s, target).width
  {
    var long := LongSide(s);
    if long > target {
      if s.width <= s.height {
        ScaledSideOrder(s.width, s.height, target, long);
      } else {
        ScaledSideOrder(s.height, s.width, target, long);
      }
    }
  }

  lemma ScaledSideOrder(x: nat, y: nat, target: nat, long: nat)
    requires x <= y && long > 0
    ensures x * target / long <= y * target / long
  {
    MulMonotone(target, x, y);
    assert x * target <= y * target;
    DivMonotone(x * target, y * target, long);
  }

  /** Fitting an already fitted size changes nothing. */
  lemma FitSizeIdempotent(s: Size, target: nat)
    ensures FitSize(FitSize(s, target), target) == FitSize(s, target)
  {
    if LongSide(s) > target {
      FitSizeLongSideIsTarget(s, target);
    }
  }

  /** The library's Lanczos resampler: resamples an image to the given size, or raises. */
  type Resampler = (Image, Size) -> Result<Image>

  /** The resampler produces a well-formed image of exactly the requested size. */
  ghost predicate HonoursSize(resample: Resampler) {
    forall img: Image, s: Size {:trigger resample(img, s)} ::
      img.Valid() && resample(img, s).Ok? ==>
        resample(img, s).value.Valid() && resample(img, s).value.Dimensions() == s
  }

  /**
   * resize_image: the image itself when its long side is within the target,
   * otherwise the resampler's result at the fitted size.
   */
  function ResizeImage(img: Image, target: nat, resample: Resampler): (r: Result<Image>)
    ensures LongSide(img.Dimensions()) <= target ==> r == Ok(img)
    ensures LongSide(img.Dimensions()) > target ==> r == resample(img, FitSize(img.Dimensions(), target))
  {
    var long := LongSide(img.Dimensions());
    if long <= target then Ok(img)
    else resample(img, FitSize(img.Dimensions(), target))
  }

  /** A successfully resized image is well formed, has the fitted size and fits the target. */
  lemma ResizeImageShape(img: Image, target: nat, resample: Resampler)
    requires img.Valid() && HonoursSize(resample)
    requires ResizeImage(img, target, resample).Ok?
    ensures ResizeImage(img, target, resample).value.Valid()
    ensures ResizeImage(img, target, resample).value.Dimensions() == FitSize(img.Dimensions(), target)
    ensures LongSide(img.Dimensions()) > target ==>
      LongSide(ResizeImage(img, target, resample).value.Dimensions()) == target
  {
    if LongSide(img.Dimensions()) > target {
      FitSizeLongSideIsTarget(img.Dimensions(), target);
    }
  }
}
