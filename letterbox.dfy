/** The dimension and padding arithmetic of `resizeWithAspectRatio` in
    client/src/ai/utils/preprocess.js: fit an image into a target box keeping
    its aspect ratio, then pad it back to the box, splitting each padding
    between the two sides. The tensor resize and pad calls are not modelled;
    numbers are exact rationals rather than floating point. */
module Letterbox {
  import opened JsMath

  /** `Math.floor(n / 2)`: the integer half of `n`, rounded down, so the
      other half `n - HalfDown(n)` is the same or one more. */
  function HalfDown(n: int): (h: int)
    ensures h == n / 2
    ensures 0 <= (n - h) - h <= 1
  {
    var half := n / 2;
    assert n == 2 * half || n == 2 * half + 1;
    assert half as real <= n as real / 2.0 < (half + 1) as real;
    (n as real / 2.0).Floor
  }

  /** `[newHeight, newWidth]` of the resized image and the
      `[topPad, bottomPad, leftPad, rightPad]` it is padded with. */
  datatype Letterboxed = Letterboxed(newWidth: int, newHeight: int, padding: seq<int>)

  /** `targetWidth / targetHeight > aspectRatio` with
      `aspectRatio = originalWidth / originalHeight`: the target box is wider
      exactly when the cross-multiplied integers say so. */
  function TargetIsWider(originalHeight: int, originalWidth: int, targetWidth: int, targetHeight: int): (wider: bool)
    requires originalHeight > 0 && targetHeight > 0
    ensures wider <==> targetWidth * originalHeight > originalWidth * targetHeight
  {
    var a, b := targetWidth as real, targetHeight as real;
    var c, d := originalWidth as real, originalHeight as real;
    assert a / b * (b * d) == a * d;
    assert c / d * (b * d) == c * b;
    assert (targetWidth * originalHeight) as real == a * d;
    assert (originalWidth * targetHeight) as real == c * b;
    assert a / b > c / d <==> a / b * (b * d) > c / d * (b * d);
    a / b > c / d
  }

  /** Math.round(p / q) for positive `q` and `p >= 0` is the integer quotient
      `(2p + q) div 2q`: no rationals needed. */
  lemma RoundQuotient(p: int, q: int)
    requires p >= 0 && q > 0
    ensures Round(p as real / q as real) == (2 * p + q) / (2 * q)
  {
    var r := (2 * p + q) / (2 * q);
    var x := p as real / q as real + 0.5;
    assert r * (2 * q) <= 2 * p + q < (r + 1) * (2 * q);
    assert x * (2 * q) as real == (2 * p + q) as real;
    assert (r as real) * (2 * q) as real <= x * (2 * q) as real;
    assert x * (2 * q) as real < (r + 1) as real * (2 * q) as real;
    assert r as real <= x < (r + 1) as real;
  }

  /** A rounded value below `bound` is at most `bound`, and never negative. */
  lemma RoundBelow(x: real, bound: int)
    requires 0.0 <= x <= bound as real
    ensures 0 <= Round(x) <= bound
  {
  }

  /** The arithmetic of `resizeWithAspectRatio(image, targetWidth, targetHeight)`
      for an image of `originalHeight` rows and `originalWidth` columns. */
  function ResizeWithAspectRatio(originalHeight: int, originalWidth: int,
                                 targetWidth: int, targetHeight: int): (r: Letterboxed)
    requires originalHeight > 0 && originalWidth > 0 && targetWidth > 0 && targetHeight > 0
    ensures |r.padding| == 4
    ensures TargetIsWider(originalHeight, originalWidth, targetWidth, targetHeight) ==>
      r.newHeight == targetHeight && 0 <= r.newWidth <= targetWidth
    ensures !TargetIsWider(originalHeight, originalWidth, targetWidth, targetHeight) ==>
      r.newWidth == targetWidth && 0 <= r.newHeight <= targetHeight
    ensures r.padding[0] + r.padding[1] + r.newHeight == targetHeight
    ensures r.padding[2] + r.padding[3] + r.newWidth == targetWidth
    ensures r.padding[0] == (targetHeight - r.newHeight) / 2
    ensures r.padding[2] == (targetWidth - r.newWidth) / 2
    ensures 0 <= r.padding[1] - r.padding[0] <= 1 && 0 <= r.padding[3] - r.padding[2] <= 1
    ensures forall i :: 0 <= i < 4 ==> r.padding[i] >= 0
  {
    var aspectRatio := originalWidth as real / originalHeight as real;
    var newWidth :=
      if TargetIsWider(originalHeight, originalWidth, targetWidth, targetHeight)
      then Round(targetHeight as real * aspectRatio) else targetWidth;
    var newHeight :=
      if TargetIsWider(originalHeight, originalWidth, targetWidth, targetHeight)
      then targetHeight else Round(targetWidth as real / aspectRatio);
    BoundsOfNewSide(originalHeight, originalWidth, targetWidth, targetHeight);
    var topPad := HalfDown(targetHeight - newHeight);
    var bottomPad := targetHeight - newHeight - topPad;
    var leftPad := HalfDown(targetWidth - newWidth);
    var rightPad := targetWidth - newWidth - leftPad;
    Letterboxed(newWidth, newHeight, [topPad, bottomPad, leftPad, rightPad])
  }

  /** The recomputed side never exceeds its target, nor drops below zero. */
  lemma BoundsOfNewSide(originalHeight: int, originalWidth: int, targetWidth: int, targetHeight: int)
    requires originalHeight > 0 && originalWidth > 0 && targetWidth > 0 && targetHeight > 0
    ensures var aspectRatio := originalWidth as real / originalHeight as real;
      && (TargetIsWider(originalHeight, originalWidth, targetWidth, targetHeight) ==>
            0 <= Round(targetHeight as real * aspectRatio) <= targetWidth)
      && (!TargetIsWider(originalHeight, originalWidth, targetWidth, targetHeight) ==>
            0 <= Round(targetWidth as real / aspectRatio) <= targetHeight)
  {
    var aspectRatio := originalWidth as real / originalHeight as real;
    var tw, th := targetWidth as real, targetHeight as real;
    assert aspectRatio > 0.0;
    if TargetIsWider(originalHeight, originalWidth, targetWidth, targetHeight) {
      assert tw / th > aspectRatio;
      assert th * aspectRatio < th * (tw / th) == tw;
      RoundBelow(th * aspectRatio, targetWidth);
    } else {
      assert tw / th <= aspectRatio;
      assert tw / aspectRatio <= (th * aspectRatio) / aspectRatio == th;
      RoundBelow(tw / aspectRatio, targetHeight);
    }
  }

  /** `a * (b / c)` is `(a * b) / c`. */
  lemma MulDiv(a: real, b: real, c: real)
    requires c > 0.0
    ensures a * (b / c) == (a * b) / c
  {
    var q := b / c;
    assert q * c == b;
    assert (a * q) * c == a * b;
  }

  lemma WidthByIntegers(originalHeight: int, originalWidth: int, targetHeight: int)
    requires originalHeight > 0 && originalWidth > 0 && targetHeight > 0
    ensures Round(targetHeight as real * (originalWidth as real / originalHeight as real)) ==
            (2 * targetHeight * originalWidth + originalHeight) / (2 * originalHeight)
  {
    var p := targetHeight * originalWidth;
    MulDiv(targetHeight as real, originalWidth as real, originalHeight as real);
    assert p as real == targetHeight as real * originalWidth as real;
    RoundQuotient(p, originalHeight);
  }

  lemma HeightByIntegers(originalHeight: int, originalWidth: int, targetWidth: int)
    requires originalHeight > 0 && originalWidth > 0 && targetWidth > 0
    ensures Round(targetWidth as real / (originalWidth as real / originalHeight as real)) ==
            (2 * targetWidth * originalHeight + originalWidth) / (2 * originalWidth)
  {
    var tw, ow, oh := targetWidth as real, originalWidth as real, originalHeight as real;
    var q := ow / oh;
    assert q * oh == ow;
    var y := tw / q;
    assert y * q == tw;
    assert y * ow == (y * q) * oh == tw * oh;
    assert (targetWidth * originalHeight) as real == tw * oh;
    assert y == (tw * oh) / ow;
    RoundQuotient(targetWidth * originalHeight, originalWidth);
  }

  /** With integer arithmetic only: the branch is the cross-multiplied
      comparison and the recomputed side is a rounded integer quotient. */
  lemma NewSideByIntegers(originalHeight: int, originalWidth: int,
                          targetWidth: int, targetHeight: int)
    requires originalHeight > 0 && originalWidth > 0 && targetWidth > 0 && targetHeight > 0
    ensures var r := ResizeWithAspectRatio(originalHeight, originalWidth, targetWidth, targetHeight);
      if targetWidth * originalHeight > originalWidth * targetHeight then
        r.newWidth == (2 * targetHeight * originalWidth + originalHeight) / (2 * originalHeight)
      else
        r.newHeight == (2 * targetWidth * originalHeight + originalWidth) / (2 * originalWidth)
  {
    WidthByIntegers(originalHeight, originalWidth, targetHeight);
    HeightByIntegers(originalHeight, originalWidth, targetWidth);
  }
}
