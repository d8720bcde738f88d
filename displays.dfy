/**
 * What the pronunciation displays show (components/textBoxPopUp/display/ChineseDisplay.kt,
 * display/JapaneseDisplay.kt and PronunciationDisplay.kt): one column per
 * part, its word above the readings of its granules. Layout, fonts and
 * colours are not modelled.
 */
module Displays {
  import opened Wrappers
  import opened Pronunciations
  import opened Mandarin
  import opened Processors

  /** One column of a display: a part's word above a row of readings. */
  datatype Column = Column(word: string, readings: seq<string>)

  /** What the Mandarin display shows for a granule. */
  function MandarinGranuleText(g: Granule): (s: string)
    ensures g.pinyin.None? ==> s == g.character
    ensures g.pinyin.Some? ==> s == FormatMandarinTone(g.pinyin, g.pinyinTone)
    ensures g.pinyin.Some? ==> |g.pinyin.value| <= |s| && s[..|g.pinyin.value|] == g.pinyin.value
    ensures g.pinyin.Some? ==> (|s| > |g.pinyin.value| <==> 1 <= g.pinyinTone <= 4)
  {
    if g.pinyin.Some? then FormatMandarinTone(g.pinyin, g.pinyinTone) else g.character
  }

  /** What the Cantonese display shows for a granule. */
  function CantoneseGranuleText(g: Granule): (s: string)
    ensures g.jyutping.None? ==> s == g.character
    ensures g.jyutping.Some? ==> s == FormatCantoneseTone(g.jyutping, g.jyutpingTone)
    ensures g.jyutping.Some? ==> |g.jyutping.value| <= |s| && s[..|g.jyutping.value|] == g.jyutping.value
    ensures g.jyutping.Some? ==> (|s| > |g.jyutping.value| <==> 1 <= g.jyutpingTone <= 6)
  {
    if g.jyutping.Some? then FormatCantoneseTone(g.jyutping, g.jyutpingTone) else g.character
  }

  /** The inner `forEach`: the readings of `granules`, in granule order. */
  function Readings(granules: seq<Granule>, format: Granule -> string): (rs: seq<string>)
    ensures |rs| == |granules|
    ensures forall j :: 0 <= j < |rs| ==> rs[j] == format(granules[j])
    decreases |granules|
  {
    if granules == [] then [] else [format(granules[0])] + Readings(granules[1..], format)
  }

  /** The outer `forEach` of `ChineseDisplay`: one column per part, in part order. */
  function Columns(parts: seq<Part>, format: Granule -> string): (cols: seq<Column>)
    ensures |cols| == |parts|
    ensures forall i :: 0 <= i < |cols| ==>
      cols[i].word == parts[i].word && cols[i].readings == Readings(parts[i].granules, format)
    decreases |parts|
  {
    if parts == [] then []
    else [Column(parts[0].word, Readings(parts[0].granules, format))] + Columns(parts[1..], format)
  }

  /** The words of the columns, left to right. */
  function ColumnWords(cols: seq<Column>): string
    decreases |cols|
  {
    if cols == [] then "" else cols[0].word + ColumnWords(cols[1..])
  }

  /** The columns spell the words of the parts they come from. */
  lemma {:induction false} ColumnsSpellWords(parts: seq<Part>, format: Granule -> string)
    ensures ColumnWords(Columns(parts, format)) == Words(parts)
    decreases |parts|
  {
    if parts != [] {
      ColumnsSpellWords(parts[1..], format);
      assert Columns(parts, format)[1..] == Columns(parts[1..], format);
    }
  }

  /** `MandarinDisplay`: the Mandarin processor's parts, each granule shown by `MandarinGranuleText`. */
  function MandarinDisplay(text: string, lookup: PinyinLookup): seq<Column> {
    Columns(ProcessSentence(MANDARIN, text, lookup).parts, MandarinGranuleText)
  }

  /** `CantoneseDisplay`: the Cantonese processor's parts, each granule shown by `CantoneseGranuleText`. */
  function CantoneseDisplay(text: string): seq<Column> {
    Columns(CantoneseSentence(text).parts, CantoneseGranuleText)
  }

  /** `JapaneseDisplay`: the Japanese processor's parts, each word above its reading or nothing. */
  function JapaneseDisplay(text: string): seq<Column> {
    var parts := JapaneseSentence(text).parts;
    seq(|parts|, i requires 0 <= i < |parts| => Column(parts[i].word, [parts[i].reading.GetOr("")]))
  }

  /** The Mandarin display spells the text it was given and shows one reading per granule. */
  lemma MandarinDisplaySpellsText(text: string, lookup: PinyinLookup)
    ensures ColumnWords(MandarinDisplay(text, lookup)) == text
    ensures forall i :: 0 <= i < |MandarinDisplay(text, lookup)| ==>
      var part := ProcessSentence(MANDARIN, text, lookup).parts[i];
      |MandarinDisplay(text, lookup)[i].readings| == |part.granules|
  {
    var parts := ProcessSentence(MANDARIN, text, lookup).parts;
    ProcessorsReconstruct(MANDARIN, text, lookup);
    ColumnsSpellWords(parts, MandarinGranuleText);
  }

  /** Columns of well-formed parts show one reading per character of their word. */
  lemma ColumnsPerCharacter(parts: seq<Part>, format: Granule -> string)
    requires forall p :: p in parts ==> WellFormedPart(p)
    ensures forall c :: c in Columns(parts, format) ==> |c.readings| == |c.word|
  {
    var cols := Columns(parts, format);
    forall c | c in cols
      ensures |c.readings| == |c.word|
    {
      var i :| 0 <= i < |cols| && cols[i] == c;
      assert parts[i] in parts;
    }
  }

  /** Each Mandarin column shows one reading per character of its word. */
  lemma MandarinReadingPerCharacter(text: string, lookup: PinyinLookup)
    ensures forall c :: c in MandarinDisplay(text, lookup) ==> |c.readings| == |c.word|
  {
    WordDictionaryValid();
    SortedKeysNonEmpty(WordDictionary);
    SegmentPartsWellFormed(WordDictionary, KeysByLength(WordDictionary), text, lookup);
    ColumnsPerCharacter(ProcessSentence(MANDARIN, text, lookup).parts, MandarinGranuleText);
  }

  /**
   * The Cantonese processor gives no jyutping yet, so the Cantonese display
   * shows every character of the text under itself, one column each; the
   * Japanese display shows the characters with empty readings.
   */
  lemma PlaceholderDisplays(text: string)
    ensures CantoneseDisplay(text) == seq(|text|, i requires 0 <= i < |text| => Column([text[i]], [[text[i]]]))
    ensures JapaneseDisplay(text) == seq(|text|, i requires 0 <= i < |text| => Column([text[i]], [""]))
  {
    var cols := CantoneseDisplay(text);
    var parts := CantoneseSentence(text).parts;
    forall i | 0 <= i < |text|
      ensures cols[i] == Column([text[i]], [[text[i]]])
    {
      assert parts[i].granules == [Granule([text[i]])];
      assert Readings(parts[i].granules, CantoneseGranuleText) == [[text[i]]];
    }
  }

  /** The display `PronunciationDisplay` composes. */
  datatype Shown = Nothing | MandarinShown | CantoneseShown | JapaneseShown

  /** `PronunciationDisplay(text, language, pronunciationType)`: which display, if any, is shown. */
  function PronunciationDisplay(language: string, pronunciationType: MiteiruProcess): Shown {
    if language == "zh" then
      match pronunciationType
      case MANDARIN => MandarinShown
      case CANTONESE => CantoneseShown
      case JAPANESE => Nothing
    else if language == "ja" then JapaneseShown
    else Nothing
  }

  /** The columns a display shows for `text`; nothing shows none. */
  function Render(shown: Shown, text: string, lookup: PinyinLookup): seq<Column> {
    match shown
    case Nothing => []
    case MandarinShown => MandarinDisplay(text, lookup)
    case CantoneseShown => CantoneseDisplay(text)
    case JapaneseShown => JapaneseDisplay(text)
  }

  /**
   * Chinese text gets the display of the chosen Chinese pronunciation and
   * nothing for JAPANESE; Japanese text gets the Japanese display whatever
   * the choice; any other language gets nothing.
   */
  lemma PronunciationDisplayDispatch(language: string, t: MiteiruProcess)
    ensures PronunciationDisplay(language, t) == MandarinShown <==> language == "zh" && t == MANDARIN
    ensures PronunciationDisplay(language, t) == CantoneseShown <==> language == "zh" && t == CANTONESE
    ensures PronunciationDisplay(language, t) == JapaneseShown <==> language == "ja"
    ensures PronunciationDisplay(language, t) == Nothing <==>
      (language == "zh" && t == JAPANESE) || (language != "zh" && language != "ja")
  {
  }
}
