/**
 * Placing a recognised box over the displayed image: the ContentScale.Fit
 * transform from image pixels to container pixels, then to Dp. Two copies
 * exist in the app: components/camera/TextRecognitionBox.kt (a zero guard and
 * unscaled padding) and components/TextRecognitionBox.kt (an orientation swap
 * and padding scaled with the image). Kotlin `Float` arithmetic is modelled
 * over the reals.
 */
module Geometry {
  import opened TextBoxes

  /** `BoxDimensionsDp` / the `Quadruple<Dp, Dp, Dp, Dp>` of the overlay. */
  datatype BoxDimensions = BoxDimensions(leftDp: real, topDp: real, widthDp: real, heightDp: real)

  /** The fit of an image into a container: a uniform scale and the centring offsets. */
  datatype Fitting = Fitting(scale: real, offsetX: real, offsetY: real)

  function Min(a: real, b: real): (m: real)
    ensures m <= a && m <= b && (m == a || m == b)
  {
    if a <= b then a else b
  }

  /**
   * ContentScale.Fit of an `imageWidth` x `imageHeight` image into a
   * `containerWidth` x `containerHeight` container: the smaller of the two
   * ratios, and offsets that centre the scaled image.
   */
  function Fit(imageWidth: int, imageHeight: int, containerWidth: int, containerHeight: int): Fitting
    requires imageWidth != 0 && imageHeight != 0
  {
    var scale := Min(containerWidth as real / imageWidth as real, containerHeight as real / imageHeight as real);
    Fitting(scale, (containerWidth as real - imageWidth as real * scale) / 2.0,
                   (containerHeight as real - imageHeight as real * scale) / 2.0)
  }

  /** The fit's scale is the smaller of the two ratios, and the offsets split the slack evenly. */
  lemma FitCentres(imageWidth: int, imageHeight: int, containerWidth: int, containerHeight: int)
    requires imageWidth != 0 && imageHeight != 0
    ensures var f := Fit(imageWidth, imageHeight, containerWidth, containerHeight);
      && f.scale <= containerWidth as real / imageWidth as real
      && f.scale <= containerHeight as real / imageHeight as real
      && (f.scale == containerWidth as real / imageWidth as real || f.scale == containerHeight as real / imageHeight as real)
      && 2.0 * f.offsetX + imageWidth as real * f.scale == containerWidth as real
      && 2.0 * f.offsetY + imageHeight as real * f.scale == containerHeight as real
  {
  }

  lemma MulLe(a: real, x: real, y: real)
    requires a >= 0.0 && x <= y
    ensures a * x <= a * y
  {
  }

  /**
   * For a real image and container the scaled image fits inside the
   * container, fills it along at least one axis, and sits centred with
   * non-negative margins.
   */
  lemma FitFits(imageWidth: int, imageHeight: int, containerWidth: int, containerHeight: int)
    requires imageWidth > 0 && imageHeight > 0 && containerWidth > 0 && containerHeight > 0
    ensures var f := Fit(imageWidth, imageHeight, containerWidth, containerHeight);
      && f.scale > 0.0
      && imageWidth as real * f.scale <= containerWidth as real
      && imageHeight as real * f.scale <= containerHeight as real
      && (imageWidth as real * f.scale == containerWidth as real || imageHeight as real * f.scale == containerHeight as real)
      && f.offsetX >= 0.0 && f.offsetY >= 0.0
  {
    var iw, ih, cw, ch := imageWidth as real, imageHeight as real, containerWidth as real, containerHeight as real;
    var f := Fit(imageWidth, imageHeight, containerWidth, containerHeight);
    FitCentres(imageWidth, imageHeight, containerWidth, containerHeight);
    assert iw * (cw / iw) == cw;
    assert ih * (ch / ih) == ch;
    MulLe(iw, f.scale, cw / iw);
    MulLe(ih, f.scale, ch / ih);
  }

  /** An 800 x 600 image in a 400 x 400 container is halved and sits 50 pixels down. */
  lemma FitExample()
    ensures Fit(800, 600, 400, 400) == Fitting(0.5, 0.0, 50.0)
  {
    assert 400.0 / 800.0 == 0.5;
    assert 400.0 / 600.0 > 0.5;
  }

  /**
   * The camera-screen placement of `rect` under `fit`: each edge maps to
   * `coordinate * scale + offset`, the box grows by `paddingPx` on every side,
   * and pixels become Dp by dividing by `density`.
   */
  function PlaceBox(rect: Rect, fit: Fitting, density: real, paddingPx: real): (d: BoxDimensions)
    requires density != 0.0
    ensures d.leftDp * density == rect.left as real * fit.scale + fit.offsetX - paddingPx
    ensures d.topDp * density == rect.top as real * fit.scale + fit.offsetY - paddingPx
    ensures d.widthDp * density == (rect.right - rect.left) as real * fit.scale + 2.0 * paddingPx
    ensures d.heightDp * density == (rect.bottom - rect.top) as real * fit.scale + 2.0 * paddingPx
  {
    var left := rect.left as real * fit.scale + fit.offsetX - paddingPx;
    var top := rect.top as real * fit.scale + fit.offsetY - paddingPx;
    var right := rect.right as real * fit.scale + fit.offsetX + paddingPx;
    var bottom := rect.bottom as real * fit.scale + fit.offsetY + paddingPx;
    assert right - left == (rect.right - rect.left) as real * fit.scale + 2.0 * paddingPx;
    assert bottom - top == (rect.bottom - rect.top) as real * fit.scale + 2.0 * paddingPx;
    BoxDimensions(left / density, top / density, (right - left) / density, (bottom - top) / density)
  }

  /** `calculateBoxDimensions` of the camera screen (default padding 4 pixels). */
  function CameraBoxDimensions(rect: Rect, imageWidth: int, imageHeight: int, containerWidth: int,
                               containerHeight: int, density: real, paddingPx: real := 4.0): (d: BoxDimensions)
    requires density != 0.0
    ensures imageWidth == 0 || imageHeight == 0 || containerWidth == 0 || containerHeight == 0 ==>
      d == BoxDimensions(0.0, 0.0, 0.0, 0.0)
    ensures imageWidth != 0 && imageHeight != 0 && containerWidth != 0 && containerHeight != 0 ==>
      d == PlaceBox(rect, Fit(imageWidth, imageHeight, containerWidth, containerHeight), density, paddingPx)
  {
    if imageWidth == 0 || imageHeight == 0 || containerWidth == 0 || containerHeight == 0 then
      BoxDimensions(0.0, 0.0, 0.0, 0.0)
    else
      PlaceBox(rect, Fit(imageWidth, imageHeight, containerWidth, containerHeight), density, paddingPx)
  }

  /**
   * Raising the padding by `extra` moves the box's corner up and left by
   * `extra / density` and widens and heightens it by `2 * extra / density`.
   */
  lemma PaddingGrowsBox(rect: Rect, fit: Fitting, density: real, paddingPx: real, extra: real)
    requires density != 0.0
    ensures var a, b := PlaceBox(rect, fit, density, paddingPx), PlaceBox(rect, fit, density, paddingPx + extra);
      && b.leftDp == a.leftDp - extra / density
      && b.topDp == a.topDp - extra / density
      && b.widthDp == a.widthDp + 2.0 * extra / density
      && b.heightDp == a.heightDp + 2.0 * extra / density
  {
    var a, b := PlaceBox(rect, fit, density, paddingPx), PlaceBox(rect, fit, density, paddingPx + extra);
    var e := extra / density;
    assert e * density == extra;
    assert (b.leftDp - a.leftDp + e) * density == 0.0;
    assert (b.topDp - a.topDp + e) * density == 0.0;
    assert (b.widthDp - a.widthDp - 2.0 * e) * density == 0.0;
    assert (b.heightDp - a.heightDp - 2.0 * e) * density == 0.0;
  }

  /**
   * `calculateScalingFactors` of the overlay: a landscape image is fitted as
   * if turned to portrait (its two dimensions swapped). There is no zero
   * guard, so both dimensions must be non-zero.
   */
  function ScalingFactors(imageWidth: int, imageHeight: int, screenWidth: int, screenHeight: int): (f: Fitting)
    requires imageWidth != 0 && imageHeight != 0
    ensures imageWidth > imageHeight ==> f == Fit(imageHeight, imageWidth, screenWidth, screenHeight)
    ensures imageWidth <= imageHeight ==> f == Fit(imageWidth, imageHeight, screenWidth, screenHeight)
  {
    var (finalWidth, finalHeight) := if imageWidth > imageHeight then (imageHeight, imageWidth) else (imageWidth, imageHeight);
    Fit(finalWidth, finalHeight, screenWidth, screenHeight)
  }

  /** The overlay fit does not depend on which way round the image dimensions are given. */
  lemma ScalingFactorsSymmetric(imageWidth: int, imageHeight: int, screenWidth: int, screenHeight: int)
    requires imageWidth != 0 && imageHeight != 0
    ensures ScalingFactors(imageWidth, imageHeight, screenWidth, screenHeight)
         == ScalingFactors(imageHeight, imageWidth, screenWidth, screenHeight)
  {
  }

  /** For a real image and screen, the image, shorter side across, fits the screen centred. */
  lemma ScalingFactorsFit(imageWidth: int, imageHeight: int, screenWidth: int, screenHeight: int)
    requires imageWidth > 0 && imageHeight > 0 && screenWidth > 0 && screenHeight > 0
    ensures var f := ScalingFactors(imageWidth, imageHeight, screenWidth, screenHeight);
      var across := if imageWidth > imageHeight then imageHeight else imageWidth;
      var down := if imageWidth > imageHeight then imageWidth else imageHeight;
      && across <= down
      && across as real * f.scale <= screenWidth as real
      && down as real * f.scale <= screenHeight as real
      && f.offsetX >= 0.0 && f.offsetY >= 0.0
  {
    if imageWidth > imageHeight {
      FitFits(imageHeight, imageWidth, screenWidth, screenHeight);
    } else {
      FitFits(imageWidth, imageHeight, screenWidth, screenHeight);
    }
  }

  /** `calculateBoxDimensions` of the overlay: like the camera placement, but the padding is scaled too. */
  function OverlayBoxDimensions(rect: Rect, scale: real, offsetX: real, offsetY: real, density: real,
                                padding: real := 0.0): BoxDimensions
    requires density != 0.0
  {
    var paddingScaled := padding * scale;
    var scaledLeft := rect.left as real * scale - paddingScaled + offsetX;
    var scaledTop := rect.top as real * scale - paddingScaled + offsetY;
    var scaledWidth := rect.Width() as real * scale + paddingScaled * 2.0;
    var scaledHeight := rect.Height() as real * scale + paddingScaled * 2.0;
    BoxDimensions(scaledLeft / density, scaledTop / density, scaledWidth / density, scaledHeight / density)
  }

  /** The overlay places the box as the camera screen does with the padding multiplied by the scale. */
  lemma OverlayScalesPadding(rect: Rect, scale: real, offsetX: real, offsetY: real, density: real, padding: real)
    requires density != 0.0
    ensures OverlayBoxDimensions(rect, scale, offsetX, offsetY, density, padding)
         == PlaceBox(rect, Fitting(scale, offsetX, offsetY), density, padding * scale)
  {
    var o := OverlayBoxDimensions(rect, scale, offsetX, offsetY, density, padding);
    var p := PlaceBox(rect, Fitting(scale, offsetX, offsetY), density, padding * scale);
    assert o.leftDp * density == p.leftDp * density;
    assert o.topDp * density == p.topDp * density;
    assert o.widthDp * density == p.widthDp * density;
    assert o.heightDp * density == p.heightDp * density;
  }

  /** The padding, in image pixels, the overlay draws around every box. */
  const BoxPadding: real := 8.0

  /** The placement `TextRecognitionBox` computes for `textBox` over an image shown on the screen. */
  function OverlayBox(textBox: ChineseTextBox, imageWidth: int, imageHeight: int, screenWidth: int,
                      screenHeight: int, density: real): BoxDimensions
    requires imageWidth != 0 && imageHeight != 0 && density != 0.0
  {
    var f := ScalingFactors(imageWidth, imageHeight, screenWidth, screenHeight);
    OverlayBoxDimensions(textBox.boundingBox, f.scale, f.offsetX, f.offsetY, density, BoxPadding)
  }

  /** Padding scaled with the image is the same as growing the rectangle before scaling. */
  lemma ScaledPaddingGrowsRect(rect: Rect, fit: Fitting, density: real)
    requires density != 0.0
    ensures var d := PlaceBox(rect, fit, density, BoxPadding * fit.scale);
      && d.widthDp * density == ((rect.right - rect.left) as real + 2.0 * BoxPadding) * fit.scale
      && d.heightDp * density == ((rect.bottom - rect.top) as real + 2.0 * BoxPadding) * fit.scale
      && d.leftDp * density == (rect.left as real - BoxPadding) * fit.scale + fit.offsetX
      && d.topDp * density == (rect.top as real - BoxPadding) * fit.scale + fit.offsetY
  {
    PaddedProduct((rect.right - rect.left) as real, fit.scale);
    PaddedProduct((rect.bottom - rect.top) as real, fit.scale);
    PaddedProduct(rect.left as real, fit.scale);
    PaddedProduct(rect.top as real, fit.scale);
  }

  lemma PaddedProduct(w: real, s: real)
    ensures (w + 2.0 * BoxPadding) * s == w * s + 2.0 * (BoxPadding * s)
    ensures (w - BoxPadding) * s == w * s - BoxPadding * s
  {
  }

  /** The overlay placement with `BoxPadding`: the rectangle grown by the padding, then scaled and shifted. */
  lemma OverlayGrowsRect(rect: Rect, fit: Fitting, density: real)
    requires density != 0.0
    ensures var d := OverlayBoxDimensions(rect, fit.scale, fit.offsetX, fit.offsetY, density, BoxPadding);
      && d.widthDp * density == (rect.Width() as real + 2.0 * BoxPadding) * fit.scale
      && d.heightDp * density == (rect.Height() as real + 2.0 * BoxPadding) * fit.scale
      && d.leftDp * density == (rect.left as real - BoxPadding) * fit.scale + fit.offsetX
      && d.topDp * density == (rect.top as real - BoxPadding) * fit.scale + fit.offsetY
  {
    OverlayScalesPadding(rect, fit.scale, fit.offsetX, fit.offsetY, density, BoxPadding);
    assert Fitting(fit.scale, fit.offsetX, fit.offsetY) == fit;
    ScaledPaddingGrowsRect(rect, fit, density);
  }
}
