/**
 * Cropping a bitmap to a recognised box: `cropBitmapByRect(bitmap, rect,
 * paddingPx)` of utils/ImageUtils.kt, which pads the box, clamps it to the
 * bitmap and gives up on an empty region, and the two-argument
 * `cropBitmapByRect(bitmap, rect)` of components/TextBoxPopup.kt, which only
 * clamps. Only the bitmap's size and the region `Bitmap.createBitmap` is
 * asked to copy are modelled, not the pixels.
 */
module Cropping {
  import opened Wrappers
  import opened TextBoxes

  /** The size of a bitmap. */
  datatype Bitmap = Bitmap(width: int, height: int)

  /** The region `Bitmap.createBitmap(bitmap, x, y, width, height)` copies. */
  datatype Region = Region(x: int, y: int, width: int, height: int)

  function Max(a: int, b: int): int { if a >= b then a else b }
  function Min(a: int, b: int): int { if a <= b then a else b }

  /** The region lies within the bitmap and is not empty. */
  predicate InsideBitmap(r: Region, bitmap: Bitmap) {
    0 <= r.x && 0 <= r.y && 0 < r.width && 0 < r.height
    && r.x + r.width <= bitmap.width && r.y + r.height <= bitmap.height
  }

  /** Pixel (px, py) lies in the region. */
  predicate RegionHas(r: Region, px: int, py: int) {
    r.x <= px < r.x + r.width && r.y <= py < r.y + r.height
  }

  /** Pixel (px, py) lies both in the rectangle and in the bitmap. */
  predicate VisiblePixel(rect: Rect, bitmap: Bitmap, px: int, py: int) {
    rect.left <= px < rect.right && rect.top <= py < rect.bottom
    && 0 <= px < bitmap.width && 0 <= py < bitmap.height
  }

  /** `safeRect` of the padded crop: the rectangle grown by `paddingPx`, then clamped to the bitmap. */
  function SafeRect(bitmap: Bitmap, rect: Rect, paddingPx: int): Rect {
    Rect(Max(0, rect.left - paddingPx), Max(0, rect.top - paddingPx),
         Min(bitmap.width, rect.right + paddingPx), Min(bitmap.height, rect.bottom + paddingPx))
  }

  /**
   * The padded crop (default padding 10 pixels): `None` exactly when the
   * clamped region is empty, otherwise a non-empty region inside the bitmap
   * that holds every visible pixel of the rectangle.
   */
  function CropPadded(bitmap: Bitmap, rect: Rect, paddingPx: int := 10): (r: Option<Region>)
    ensures r.None? <==> SafeRect(bitmap, rect, paddingPx).Width() <= 0 || SafeRect(bitmap, rect, paddingPx).Height() <= 0
    ensures r.Some? ==> InsideBitmap(r.value, bitmap)
    ensures r.Some? ==> r.value.x == Max(0, rect.left - paddingPx) && r.value.y == Max(0, rect.top - paddingPx)
    ensures r.Some? ==> r.value.x + r.value.width == Min(bitmap.width, rect.right + paddingPx)
    ensures r.Some? ==> r.value.y + r.value.height == Min(bitmap.height, rect.bottom + paddingPx)
    ensures r.Some? && paddingPx >= 0 ==>
      forall px, py :: VisiblePixel(rect, bitmap, px, py) ==> RegionHas(r.value, px, py)
  {
    var safe := SafeRect(bitmap, rect, paddingPx);
    if safe.Width() <= 0 || safe.Height() <= 0 then None
    else Some(Region(safe.left, safe.top, safe.Width(), safe.Height()))
  }

  /** With a non-negative padding, the crop gives up only when no pixel of the rectangle is in the bitmap. */
  lemma CropPaddedNoneMeansNothingVisible(bitmap: Bitmap, rect: Rect, paddingPx: int, px: int, py: int)
    requires paddingPx >= 0 && CropPadded(bitmap, rect, paddingPx).None?
    ensures !VisiblePixel(rect, bitmap, px, py)
  {
  }

  /**
   * The popup's crop: the rectangle clamped to the bitmap, no padding. It
   * has no emptiness check, and `Bitmap.createBitmap` rejects an empty
   * region, so the clamped region must not be empty.
   */
  function CropClamped(bitmap: Bitmap, rect: Rect): (r: Region)
    requires Min(bitmap.width, rect.right) - Max(0, rect.left) > 0
    requires Min(bitmap.height, rect.bottom) - Max(0, rect.top) > 0
    ensures InsideBitmap(r, bitmap)
    ensures forall px, py :: VisiblePixel(rect, bitmap, px, py) <==> RegionHas(r, px, py)
  {
    var safe := Rect(Max(0, rect.left), Max(0, rect.top), Min(bitmap.width, rect.right), Min(bitmap.height, rect.bottom));
    Region(safe.left, safe.top, safe.Width(), safe.Height())
  }

  /** A rectangle already inside the bitmap is cropped exactly. */
  lemma CropClampedInside(bitmap: Bitmap, rect: Rect)
    requires 0 <= rect.left < rect.right <= bitmap.width && 0 <= rect.top < rect.bottom <= bitmap.height
    ensures CropClamped(bitmap, rect) == Region(rect.left, rect.top, rect.Width(), rect.Height())
  {
  }

  /** The popup's crop is the padded crop with no padding, where that one does not give up. */
  lemma CropClampedIsUnpadded(bitmap: Bitmap, rect: Rect)
    requires Min(bitmap.width, rect.right) - Max(0, rect.left) > 0
    requires Min(bitmap.height, rect.bottom) - Max(0, rect.top) > 0
    ensures CropPadded(bitmap, rect, 0) == Some(CropClamped(bitmap, rect))
  {
  }

  /** More padding never shrinks the crop. */
  lemma CropPaddedMonotone(bitmap: Bitmap, rect: Rect, p: int, q: int, px: int, py: int)
    requires p <= q && CropPadded(bitmap, rect, p).Some?
    ensures CropPadded(bitmap, rect, q).Some?
    ensures RegionHas(CropPadded(bitmap, rect, p).value, px, py) ==> RegionHas(CropPadded(bitmap, rect, q).value, px, py)
  {
  }
}
