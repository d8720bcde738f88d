/**
 * A recognised text box (components/ChineseTextBox.kt) and the integer
 * rectangle it carries (android.graphics.Rect: left, top, right, bottom).
 */
module TextBoxes {

  /** An `android.graphics.Rect`; nothing forces `left <= right` or `top <= bottom`. */
  datatype Rect = Rect(left: int, top: int, right: int, bottom: int) {
    /** `Rect.width()`. */
    function Width(): (w: int)
      ensures left + w == right
    {
      right - left
    }

    /** `Rect.height()`. */
    function Height(): (h: int)
      ensures top + h == bottom
    {
      bottom - top
    }
  }

  /** The values stored in the metadata map; Kotlin's `Any` is not modelled further. */
  datatype MetaValue = MetaText(text: string) | MetaInt(number: int) | MetaReal(ratio: real) | MetaBool(flag: bool)

  /** A detected text box; the `Float` confidence is a real number here. */
  datatype ChineseTextBox = ChineseTextBox(
    boundingBox: Rect,
    text: string,
    rotation: int,
    language: string := "",
    confidence: real := 0.0,
    metadata: map<string, MetaValue> := map[])
  {
    /** `width()`: the width of the bounding box. */
    function Width(): (w: int)
      ensures w == boundingBox.right - boundingBox.left
    {
      boundingBox.Width()
    }

    /** `height()`: the height of the bounding box. */
    function Height(): (h: int)
      ensures h == boundingBox.bottom - boundingBox.top
    {
      boundingBox.Height()
    }

    /** `meetsMinimumConfidence(threshold)`. */
    predicate MeetsMinimumConfidence(threshold: real) {
      confidence >= threshold
    }

    /**
     * `withMetadata(key, value)`: a copy whose metadata maps `key` to
     * `value`; the receiver, a value, is left as it was.
     */
    function WithMetadata(key: string, value: MetaValue): (r: ChineseTextBox)
      ensures key in r.metadata && r.metadata[key] == value
      ensures r.metadata.Keys == metadata.Keys + {key}
      ensures forall k :: k in metadata && k != key ==> r.metadata[k] == metadata[k]
      ensures r.boundingBox == boundingBox && r.text == text && r.rotation == rotation
      ensures r.language == language && r.confidence == confidence
    {
      this.(metadata := metadata[key := value])
    }
  }

  /** A box that meets a threshold meets every lower one. */
  lemma ConfidenceMonotone(box: ChineseTextBox, low: real, high: real)
    requires low <= high
    ensures box.MeetsMinimumConfidence(high) ==> box.MeetsMinimumConfidence(low)
    ensures box.MeetsMinimumConfidence(box.confidence)
  {
  }

  /** Setting the same entry twice is the same as setting it once. */
  lemma WithMetadataIdempotent(box: ChineseTextBox, key: string, value: MetaValue)
    ensures box.WithMetadata(key, value).WithMetadata(key, value) == box.WithMetadata(key, value)
  {
    var once := box.WithMetadata(key, value);
    assert once.WithMetadata(key, value).metadata == once.metadata;
  }

  /** Entries under different keys can be set in either order; the later of two values for one key wins. */
  lemma WithMetadataOrder(box: ChineseTextBox, k1: string, v1: MetaValue, k2: string, v2: MetaValue)
    ensures k1 != k2 ==>
      box.WithMetadata(k1, v1).WithMetadata(k2, v2) == box.WithMetadata(k2, v2).WithMetadata(k1, v1)
    ensures box.WithMetadata(k1, v1).WithMetadata(k1, v2) == box.WithMetadata(k1, v2)
  {
    if k1 != k2 {
      assert box.WithMetadata(k1, v1).WithMetadata(k2, v2).metadata
          == box.WithMetadata(k2, v2).WithMetadata(k1, v1).metadata;
    }
    assert box.WithMetadata(k1, v1).WithMetadata(k1, v2).metadata == box.WithMetadata(k1, v2).metadata;
  }

  /** A box built with only its rectangle, text and rotation has language "", confidence 0 and no metadata. */
  lemma BoxDefaults(rect: Rect, text: string, rotation: int)
    ensures var box := ChineseTextBox(rect, text, rotation);
      box.language == "" && box.confidence == 0.0 && box.metadata == map[]
      && box.Width() == rect.right - rect.left && box.Height() == rect.bottom - rect.top
  {
  }
}
