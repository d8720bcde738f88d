/**
 * The success path of `ImageTextAnalyzer.analyzeImage` (utils/ImageTextAnalyzer.kt):
 * every recognised block that has a bounding box becomes a `ChineseTextBox`
 * tagged with the script detected in its text. The recogniser itself, the
 * bitmap decoding and the logging are outside the model; the recognised
 * text, blocks and image size are parameters.
 */
module ImageText {
  import opened Wrappers
  import opened TextBoxes

  /** CJK Unified Ideographs, U+4E00..U+9FFF. */
  predicate IsHan(c: char) { '\U{4E00}' <= c <= '\U{9FFF}' }

  /** Hiragana U+3040..U+309F or Katakana U+30A0..U+30FF. */
  predicate IsKana(c: char) { '\U{3040}' <= c <= '\U{309F}' || '\U{30A0}' <= c <= '\U{30FF}' }

  /** Hangul syllables, U+AC00..U+D7A3. */
  predicate IsHangul(c: char) { '\U{AC00}' <= c <= '\U{D7A3}' }

  /** `s.any(p)`, scanning from the left. */
  function AnyChar(s: string, p: char -> bool): bool
    decreases |s|
  {
    if s == [] then false else p(s[0]) || AnyChar(s[1..], p)
  }

  /** `any` holds exactly when some character satisfies the predicate. */
  lemma {:induction false} AnyCharIffExists(s: string, p: char -> bool)
    ensures AnyChar(s, p) <==> exists i :: 0 <= i < |s| && p(s[i])
    decreases |s|
  {
    if s != [] {
      AnyCharIffExists(s[1..], p);
      if exists i :: 0 <= i < |s| && p(s[i]) {
        var i :| 0 <= i < |s| && p(s[i]);
        if i > 0 {
          assert s[1..][i - 1] == s[i];
        }
      }
      if exists i :: 0 <= i < |s[1..]| && p(s[1..][i]) {
        var i :| 0 <= i < |s[1..]| && p(s[1..][i]);
        assert s[i + 1] == s[1..][i];
      }
    }
  }

  ghost predicate HasHan(s: string) { exists i :: 0 <= i < |s| && IsHan(s[i]) }
  ghost predicate HasKana(s: string) { exists i :: 0 <= i < |s| && IsKana(s[i]) }
  ghost predicate HasHangul(s: string) { exists i :: 0 <= i < |s| && IsHangul(s[i]) }

  /** `detectLanguage(text)`: the first script found in the order Han, kana, Hangul. */
  function DetectLanguage(text: string): string {
    if AnyChar(text, IsHan) then "zh"
    else if AnyChar(text, IsKana) then "ja"
    else if AnyChar(text, IsHangul) then "ko"
    else "en"
  }

  /**
   * One Han character makes the text Chinese whatever else it holds; kana
   * without Han make it Japanese; Hangul alone makes it Korean; anything
   * else, the empty text included, is English. Only these four codes occur.
   */
  lemma DetectLanguagePrecedence(text: string)
    ensures DetectLanguage(text) == "zh" <==> HasHan(text)
    ensures DetectLanguage(text) == "ja" <==> !HasHan(text) && HasKana(text)
    ensures DetectLanguage(text) == "ko" <==> !HasHan(text) && !HasKana(text) && HasHangul(text)
    ensures DetectLanguage(text) == "en" <==> !HasHan(text) && !HasKana(text) && !HasHangul(text)
    ensures DetectLanguage(text) in {"zh", "ja", "ko", "en"}
  {
    AnyCharIffExists(text, IsHan);
    AnyCharIffExists(text, IsKana);
    AnyCharIffExists(text, IsHangul);
  }

  /** A block of recognised text, whose bounding box the recogniser may leave out. */
  datatype TextBlock = TextBlock(text: string, boundingBox: Option<Rect>)

  /** The box made for a block: its rectangle and text, rotation 0, the detected language, confidence 0. */
  function BoxOf(block: TextBlock): (box: ChineseTextBox)
    requires block.boundingBox.Some?
    ensures box.boundingBox == block.boundingBox.value && box.text == block.text
    ensures box.rotation == 0 && box.confidence == 0.0 && box.metadata == map[]
    ensures box.language == DetectLanguage(block.text)
  {
    ChineseTextBox(block.boundingBox.value, block.text, 0, DetectLanguage(block.text), 0.0)
  }

  /** The blocks that have a bounding box, in their original order. */
  function Kept(blocks: seq<TextBlock>): (kept: seq<TextBlock>)
    ensures |kept| <= |blocks|
    ensures forall i :: 0 <= i < |kept| ==> kept[i].boundingBox.Some?
    decreases |blocks|
  {
    if blocks == [] then []
    else
      var last := blocks[|blocks| - 1];
      Kept(blocks[..|blocks| - 1]) + (if last.boundingBox.Some? then [last] else [])
  }

  /** The boxes the success listener collects from `blocks`. */
  function BoxesOf(blocks: seq<TextBlock>): seq<ChineseTextBox> {
    var kept := Kept(blocks);
    seq(|kept|, i requires 0 <= i < |kept| => BoxOf(kept[i]))
  }

  /** Filtering commutes with concatenation, so the blocks that are kept keep their order. */
  lemma {:induction false} KeptAppend(a: seq<TextBlock>, b: seq<TextBlock>)
    ensures Kept(a + b) == Kept(a) + Kept(b)
    decreases |b|
  {
    if b == [] {
      assert a + b == a;
    } else {
      var front, last := b[..|b| - 1], b[|b| - 1];
      KeptAppend(a, front);
      assert (a + b)[..|a + b| - 1] == a + front;
      assert (a + b)[|a + b| - 1] == last;
    }
  }

  /** A block is kept exactly when it is one of the input blocks and has a bounding box. */
  lemma {:induction false} KeptMembers(blocks: seq<TextBlock>, block: TextBlock)
    ensures block in Kept(blocks) <==> block in blocks && block.boundingBox.Some?
    decreases |blocks|
  {
    if blocks != [] {
      var front := blocks[..|blocks| - 1];
      KeptMembers(front, block);
      assert blocks == front + [blocks[|blocks| - 1]];
    }
  }

  /** The outcome handed to `onAnalysisComplete`. */
  datatype Analysis = Analysis(detectedText: string, boxes: seq<ChineseTextBox>, width: int, height: int)

  /**
   * The success listener: collect a box per block that has a bounding box,
   * then report the recognised text with them, or an empty text and no boxes
   * when there are none.
   */
  method OnSuccess(detectedText: string, blocks: seq<TextBlock>, width: int, height: int)
    returns (result: Analysis)
    ensures result.boxes == BoxesOf(blocks)
    ensures result.boxes != [] <==> exists b :: b in blocks && b.boundingBox.Some?
    ensures result.detectedText == (if result.boxes != [] then detectedText else "")
    ensures result.width == width && result.height == height
  {
    var textBoxes: seq<ChineseTextBox> := [];
    var i := 0;
    while i < |blocks|
      invariant 0 <= i <= |blocks|
      invariant textBoxes == BoxesOf(blocks[..i])
    {
      var block := blocks[i];
      assert blocks[..i + 1][..i] == blocks[..i];
      match block.boundingBox {
        case Some(boundingBox) =>
          var language := DetectLanguage(block.text);
          var textBox := ChineseTextBox(boundingBox, block.text, 0, language, 0.0);
          textBoxes := textBoxes + [textBox];
        case None =>
      }
      i := i + 1;
    }
    assert blocks[..i] == blocks;
    if textBoxes != [] {
      result := Analysis(detectedText, textBoxes, width, height);
    } else {
      result := Analysis("", [], width, height);
    }
    if exists b :: b in blocks && b.boundingBox.Some? {
      var b :| b in blocks && b.boundingBox.Some?;
      KeptMembers(blocks, b);
    } else if textBoxes != [] {
      KeptMembers(blocks, Kept(blocks)[0]);
    }
  }
}
