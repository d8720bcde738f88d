/**
 * The per-character placeholder processors
 * (utils/language/CantoneseProcessor.kt, utils/language/JapaneseProcessor.kt)
 * and the choice of processor by `MiteiruProcess`
 * (utils/language/LanguageProcessor.kt), which stands in for the
 * `PronunciationProcessor` interface as a closed variant.
 */
module Processors {
  import opened Wrappers
  import opened Pronunciations
  import opened Mandarin

  /** `text` cut into one part per character, each with one bare granule. */
  ghost predicate SingleCharacterParts(parts: seq<Part>, text: string) {
    && |parts| == |text|
    && forall i :: 0 <= i < |text| ==>
         && parts[i].word == [text[i]]
         && parts[i].granules == [Granule([text[i]])]
         && parts[i].reading == None && parts[i].pinyin == None && parts[i].jyutping == None
  }

  /** `CantoneseProcessor.processSentence`: one part per character, no jyutping yet. */
  function CantoneseSentence(text: string): (info: PronunciationInfo)
    ensures info.text == text
    ensures SingleCharacterParts(info.parts, text)
  {
    PronunciationInfo(text, seq(|text|, i requires 0 <= i < |text| => Part([text[i]], jyutping := None, granules := [Granule([text[i]], jyutping := None, jyutpingTone := 0)])))
  }

  /** `JapaneseProcessor.processSentence`: one part per character, no reading yet. */
  function JapaneseSentence(text: string): (info: PronunciationInfo)
    ensures info.text == text
    ensures SingleCharacterParts(info.parts, text)
  {
    PronunciationInfo(text, seq(|text|, i requires 0 <= i < |text| => Part([text[i]], reading := None, granules := [Granule([text[i]], reading := None)])))
  }

  /** The words of single-character parts spell the text back. */
  lemma {:induction false} SingleCharacterWords(parts: seq<Part>, text: string)
    requires SingleCharacterParts(parts, text)
    ensures Words(parts) == text
    decreases |text|
  {
    if text != [] {
      SingleCharacterWords(parts[1..], text[1..]);
      assert text == [text[0]] + text[1..];
    }
  }

  /** Single-character parts hold one granule per character, in order. */
  lemma {:induction false} SingleCharacterGranules(parts: seq<Part>, text: string)
    requires SingleCharacterParts(parts, text)
    ensures Covers(AllGranules(parts), text)
    ensures forall g :: g in AllGranules(parts) ==> g.reading == None && g.jyutping == None && g.jyutpingTone == 0
    decreases |text|
  {
    if text != [] {
      SingleCharacterGranules(parts[1..], text[1..]);
      CoversAppend(parts[0].granules, [text[0]], AllGranules(parts[1..]), text[1..]);
      assert text == [text[0]] + text[1..];
    }
  }

  /** The two placeholders produce the same parts. */
  lemma PlaceholdersAgree(text: string)
    ensures CantoneseSentence(text) == JapaneseSentence(text)
  {
    var c, j := CantoneseSentence(text).parts, JapaneseSentence(text).parts;
    assert forall i :: 0 <= i < |text| ==> c[i] == j[i];
  }

  /** The processor a `MiteiruProcess` stands for, applied to `text`. */
  function ProcessSentence(process: MiteiruProcess, text: string, lookup: PinyinLookup): PronunciationInfo {
    match process
    case MANDARIN =>
      WordDictionaryValid();
      PronunciationInfo(text, Segment(WordDictionary, text, lookup))
    case CANTONESE => CantoneseSentence(text)
    case JAPANESE => JapaneseSentence(text)
  }

  /**
   * The contract every processor keeps: the text comes back unchanged, the
   * words of the parts spell it, and there is one granule per character.
   */
  lemma ProcessorsReconstruct(process: MiteiruProcess, text: string, lookup: PinyinLookup)
    ensures var info := ProcessSentence(process, text, lookup);
      && info.text == text
      && Words(info.parts) == text
      && Covers(AllGranules(info.parts), text)
      && (text == [] ==> info.parts == [])
  {
    var info := ProcessSentence(process, text, lookup);
    match process
    case MANDARIN =>
      WordDictionaryValid();
      SortedKeysNonEmpty(WordDictionary);
      SegmentReconstructs(WordDictionary, KeysByLength(WordDictionary), text, lookup);
      SegmentCoversCharacters(WordDictionary, KeysByLength(WordDictionary), text, lookup);
    case _ =>
      SingleCharacterWords(info.parts, text);
      SingleCharacterGranules(info.parts, text);
  }
}
