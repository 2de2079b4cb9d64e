/** Pixel geometry of the original and cropped images (js/calculator.js,
    calculateDiagonal, calculateCropFactor, the horizontal and vertical crop
    factors and calculateCropRatio). `Math.sqrt` is supplied by the caller as
    `sqrt`, any function that returns the non-negative square root. */
module Geometry {

  /** `sqrt` returns the non-negative square root of every non-negative real.
      The last two clauses follow from the first for the true square root;
      they are stated because the solver does not derive them from it. */
  ghost predicate IsSqrt(sqrt: real -> real)
  {
    && (forall x: real :: 0.0 <= x ==> 0.0 <= sqrt(x) && sqrt(x) * sqrt(x) == x)
    && sqrt(0.0) == 0.0
    && (forall x: real, y: real :: 0.0 <= x < y ==> sqrt(x) < sqrt(y))
  }

  // ---- real arithmetic the solver needs spelled out ----

  /** A product of a positive and a non-positive real is non-positive, so a
      non-positive product with a positive factor has a non-positive cofactor. */
  lemma FactorSign(d: real, s: real)
    requires s > 0.0 && d * s <= 0.0
    ensures d <= 0.0
  {
  }

  /** Difference of squares, factored. */
  lemma DifferenceOfSquares(x: real, y: real)
    ensures (x - y) * (x + y) == x * x - y * y
  {
  }

  /** Among non-negative reals, the one with the smaller square is smaller. */
  lemma SquareMonotone(x: real, y: real)
    requires 0.0 <= x && 0.0 <= y && x * x <= y * y
    ensures x <= y
  {
    DifferenceOfSquares(x, y);
    if x + y > 0.0 {
      FactorSign(x - y, x + y);
    }
  }

  /** Non-negative reals with equal squares are equal. */
  lemma SquareInjective(x: real, y: real)
    requires 0.0 <= x && 0.0 <= y && x * x == y * y
    ensures x == y
  {
    SquareMonotone(x, y);
    SquareMonotone(y, x);
  }

  /** Squaring a product squares each factor. */
  lemma ScaledSquare(k: real, c: real)
    ensures (k * c) * (k * c) == (k * k) * (c * c)
  {
  }

  /** Converting an integer product to a real multiplies the converted factors. */
  lemma CastProduct(a: int, b: int)
    ensures (a * b) as real == (a as real) * (b as real)
  {
  }

  /** Division by a positive real is undone by multiplying back. */
  lemma QuotientTimesDivisor(n: real, d: real)
    requires d > 0.0
    ensures (n / d) * d == n
    ensures n >= 0.0 ==> n / d >= 0.0
  {
  }

  /** Equal multiples of a positive real have equal factors. */
  lemma CancelFactor(x: real, y: real, d: real)
    requires d > 0.0
    requires x * d == y * d
    ensures x == y
  {
    FactorSign(x - y, d);
  }

  /** A quotient of positive reals whose numerator is the larger is at least
      one, and exactly one when they are equal. */
  lemma QuotientAtLeastOne(n: real, d: real)
    requires 0.0 < d <= n
    ensures n / d >= 1.0
    ensures n / d == 1.0 <==> n == d
  {
  }

  /** A quotient of positive reals whose numerator is the smaller lies in
      (0, 1], and is exactly one when they are equal. */
  lemma QuotientAtMostOne(n: real, d: real)
    requires 0.0 < n <= d
    ensures 0.0 < n / d <= 1.0
    ensures n / d == 1.0 <==> n == d
  {
  }

  // ---- the model ----

  /** Sum of squares of width and height, the squared diagonal. */
  function SquaredDiagonal(width: int, height: int): (d2: int)
    ensures d2 >= 0
    ensures d2 == 0 <==> width == 0 && height == 0
  {
    width * width + height * height
  }

  /** Euclidean length of the diagonal of a `width` by `height` frame. */
  function Diagonal(width: int, height: int, sqrt: real -> real): (d: real)
    requires IsSqrt(sqrt)
    ensures d >= 0.0
  {
    sqrt(SquaredDiagonal(width, height) as real)
  }

  /** The diagonal is the square root of the sum of the squared sides. */
  lemma DiagonalSquared(width: int, height: int, sqrt: real -> real)
    requires IsSqrt(sqrt)
    ensures Diagonal(width, height, sqrt) * Diagonal(width, height, sqrt)
            == (width * width + height * height) as real
  {
    var d2 := SquaredDiagonal(width, height) as real;
    assert sqrt(d2) * sqrt(d2) == d2;
  }

  /** Only the empty frame has a zero diagonal. */
  lemma DiagonalPositive(width: int, height: int, sqrt: real -> real)
    requires IsSqrt(sqrt)
    ensures Diagonal(width, height, sqrt) > 0.0 <==> width != 0 || height != 0
  {
    var d2 := SquaredDiagonal(width, height) as real;
    if width != 0 || height != 0 {
      assert 0.0 < d2;
      assert sqrt(0.0) < sqrt(d2);
    } else {
      assert d2 == 0.0;
    }
  }

  /** A frame no larger on either side has no longer a diagonal. */
  lemma DiagonalMonotone(ow: int, oh: int, cw: int, ch: int, sqrt: real -> real)
    requires IsSqrt(sqrt)
    requires 0 <= cw <= ow && 0 <= ch <= oh
    ensures Diagonal(cw, ch, sqrt) <= Diagonal(ow, oh, sqrt)
  {
    SquaredDiagonalMonotone(ow, oh, cw, ch);
    var c2 := SquaredDiagonal(cw, ch) as real;
    var o2 := SquaredDiagonal(ow, oh) as real;
    assert c2 < o2 ==> sqrt(c2) < sqrt(o2);
  }

  /** Diagonal-based crop factor: original diagonal over cropped diagonal. */
  function CropFactor(ow: int, oh: int, cw: int, ch: int, sqrt: real -> real): (f: real)
    requires IsSqrt(sqrt)
    requires cw != 0 || ch != 0
    ensures f >= 0.0
    ensures f * Diagonal(cw, ch, sqrt) == Diagonal(ow, oh, sqrt)
  {
    DiagonalPositive(cw, ch, sqrt);
    QuotientTimesDivisor(Diagonal(ow, oh, sqrt), Diagonal(cw, ch, sqrt));
    Diagonal(ow, oh, sqrt) / Diagonal(cw, ch, sqrt)
  }

  /** The square of the crop factor is the ratio of the squared diagonals,
      whichever square root was used. */
  lemma CropFactorSquared(ow: int, oh: int, cw: int, ch: int, sqrt: real -> real)
    requires IsSqrt(sqrt)
    requires cw != 0 || ch != 0
    ensures CropFactor(ow, oh, cw, ch, sqrt) * CropFactor(ow, oh, cw, ch, sqrt)
            * SquaredDiagonal(cw, ch) as real
            == SquaredDiagonal(ow, oh) as real
  {
    var o2 := SquaredDiagonal(ow, oh) as real;
    var c2 := SquaredDiagonal(cw, ch) as real;
    DiagonalSquared(ow, oh, sqrt);
    DiagonalSquared(cw, ch, sqrt);
    SquaredRatio(CropFactor(ow, oh, cw, ch, sqrt), Diagonal(cw, ch, sqrt), Diagonal(ow, oh, sqrt), c2, o2);
  }

  /** If `f` maps `c` onto `o`, then `f * f` maps the square of `c` onto the
      square of `o`. */
  lemma SquaredRatio(f: real, c: real, o: real, c2: real, o2: real)
    requires f * c == o
    requires c * c == c2 && o * o == o2
    ensures f * f * c2 == o2
  {
    ScaledSquare(f, c);
  }

  /** Crop factor along one axis: the original side over the cropped side
      (width for the horizontal factor, height for the vertical one). */
  function AxisCropFactor(original: int, cropped: int): (f: real)
    requires cropped != 0
    ensures f * cropped as real == original as real
  {
    original as real / cropped as real
  }

  /** Cropped area as a percentage of the original area. */
  function CropRatio(ow: int, oh: int, cw: int, ch: int): (p: real)
    requires ow * oh != 0
    ensures p * (ow * oh) as real == 100.0 * (cw * ch) as real
  {
    var area := (ow * oh) as real;
    var cropArea := (cw * ch) as real;
    assert (cropArea / area) * area == cropArea;
    (cropArea / area) * 100.0
  }

  /** A crop side no longer than the original gives an axis factor of at
      least 1, and exactly 1 when it keeps the whole side. */
  lemma AxisFactorAtLeastOne(original: int, cropped: int)
    requires 0 < cropped <= original
    ensures AxisCropFactor(original, cropped) >= 1.0
    ensures AxisCropFactor(original, cropped) == 1.0 <==> cropped == original
  {
    QuotientAtLeastOne(original as real, cropped as real);
  }

  /** The squared diagonal grows with each side. */
  lemma SquaredDiagonalMonotone(ow: int, oh: int, cw: int, ch: int)
    requires 0 <= cw <= ow && 0 <= ch <= oh
    ensures SquaredDiagonal(cw, ch) <= SquaredDiagonal(ow, oh)
  {
    assert cw * cw <= cw * ow <= ow * ow;
    assert ch * ch <= ch * oh <= oh * oh;
  }

  /** A crop inside the original has diagonal crop factor at least 1. */
  lemma CropFactorAtLeastOne(ow: int, oh: int, cw: int, ch: int, sqrt: real -> real)
    requires IsSqrt(sqrt)
    requires 0 < cw <= ow && 0 < ch <= oh
    ensures CropFactor(ow, oh, cw, ch, sqrt) >= 1.0
  {
    DiagonalMonotone(ow, oh, cw, ch, sqrt);
    DiagonalPositive(cw, ch, sqrt);
    QuotientAtLeastOne(Diagonal(ow, oh, sqrt), Diagonal(cw, ch, sqrt));
  }

  /** Keeping the whole frame gives diagonal crop factor exactly 1. */
  lemma CropFactorOfWholeFrame(w: int, h: int, sqrt: real -> real)
    requires IsSqrt(sqrt)
    requires w != 0 || h != 0
    ensures CropFactor(w, h, w, h, sqrt) == 1.0
  {
    DiagonalPositive(w, h, sqrt);
  }

  /** Scaling both sides by `k` scales the squared diagonal by `k * k`. */
  lemma SquaredDiagonalScales(w: int, h: int, k: int)
    ensures SquaredDiagonal(k * w, k * h) == (k * k) * SquaredDiagonal(w, h)
  {
    assert (k * w) * (k * w) == (k * k) * (w * w);
    assert (k * h) * (k * h) == (k * k) * (h * h);
  }

  /** Non-negative roots of squares that differ by the factor `k * k`
      differ by the factor `k`. */
  lemma RootsScale(sd: real, d: real, k: real)
    requires 0.0 <= sd && 0.0 <= d && 0.0 <= k
    requires sd * sd == (k * k) * (d * d)
    ensures sd == k * d
  {
    ScaledSquare(k, d);
    SquareInjective(sd, k * d);
  }

  /** Scaling both sides by `k >= 0` scales the diagonal by `k`. */
  lemma DiagonalScales(w: int, h: int, k: nat, sqrt: real -> real)
    requires IsSqrt(sqrt)
    ensures Diagonal(k * w, k * h, sqrt) == k as real * Diagonal(w, h, sqrt)
  {
    SquaredDiagonalScalesAsReal(w, h, k);
    DiagonalSquared(k * w, k * h, sqrt);
    DiagonalSquared(w, h, sqrt);
    ScaledRoots(Diagonal(k * w, k * h, sqrt), Diagonal(w, h, sqrt), k as real,
                SquaredDiagonal(k * w, k * h) as real, SquaredDiagonal(w, h) as real);
  }

  /** `SquaredDiagonalScales` over the reals. */
  lemma SquaredDiagonalScalesAsReal(w: int, h: int, k: int)
    ensures SquaredDiagonal(k * w, k * h) as real
            == (k as real * k as real) * SquaredDiagonal(w, h) as real
  {
    SquaredDiagonalScales(w, h, k);
    CastProduct(k * k, SquaredDiagonal(w, h));
    CastProduct(k, k);
  }

  /** Non-negative roots of two values that differ by the factor `k * k`
      differ by the factor `k`. */
  lemma ScaledRoots(sd: real, d: real, k: real, s2: real, d2: real)
    requires 0.0 <= sd && 0.0 <= d && 0.0 <= k
    requires sd * sd == s2 && d * d == d2
    requires s2 == (k * k) * d2
    ensures sd == k * d
  {
    RootsScale(sd, d, k);
  }

  /** Scaling both sides down by the same integer factor `k` gives crop
      factor exactly `k`, whatever the aspect ratio. */
  lemma CropFactorOfUniformScaling(cw: int, ch: int, k: nat, sqrt: real -> real)
    requires IsSqrt(sqrt)
    requires cw != 0 || ch != 0
    requires k > 0
    ensures CropFactor(k * cw, k * ch, cw, ch, sqrt) == k as real
  {
    DiagonalScales(cw, ch, k, sqrt);
    DiagonalPositive(cw, ch, sqrt);
    CancelFactor(CropFactor(k * cw, k * ch, cw, ch, sqrt), k as real, Diagonal(cw, ch, sqrt));
  }

  /** A crop inside the original covers a positive share of at most 100
      percent, and all of it exactly when it is the whole frame. */
  lemma CropRatioWithinPercent(ow: int, oh: int, cw: int, ch: int)
    requires 0 < cw <= ow && 0 < ch <= oh
    ensures 0.0 < CropRatio(ow, oh, cw, ch) <= 100.0
    ensures CropRatio(ow, oh, cw, ch) == 100.0 <==> cw == ow && ch == oh
  {
    assert 0 < cw * ch <= cw * oh <= ow * oh;
    if cw != ow || ch != oh {
      assert cw * ch < ow * oh by {
        if cw < ow {
          assert cw * ch <= cw * oh < ow * oh;
        } else {
          assert cw * ch < cw * oh;
        }
      }
    }
    QuotientAtMostOne((cw * ch) as real, (ow * oh) as real);
  }
}
