/**
 * The Mandarin pronunciation processor
 * (app/src/main/java/id/hocky/miteiru/utils/language/MandarinProcessor.kt):
 * a greedy longest-match segmenter over a small word dictionary, with a
 * per-character fallback to an external pinyin lookup (pinyin4j), which
 * is a parameter here.
 */
module Mandarin {
  import opened Wrappers
  import opened Text
  import opened Sorting
  import opened Pronunciations

  /** What pinyin4j's `toHanyuPinyinStringArray` does for one character. */
  datatype Lookup = Throws | ReturnsNull | Candidates(readings: seq<string>)

  /** The external single-character lookup, e.g. '好' to Candidates(["hao3", "hao4"]). */
  type PinyinLookup = char -> Lookup

  /** `wordDictionary`: word to space-separated, tone-numbered pinyin, in declaration order. */
  const WordDictionary: seq<(string, string)> := [
    ("你好", "ni3 hao3"),
    ("中国", "zhong1 guo2"),
    ("日本", "ri4 ben3"),
    ("谢谢", "xie4 xie4"),
    ("早上好", "zao3 shang4 hao3"),
    ("晚上好", "wan3 shang4 hao3"),
    ("学生", "xue2 sheng1"),
    ("老师", "lao3 shi1"),
    ("电脑", "dian4 nao3"),
    ("手机", "shou3 ji1"),
    ("朋友", "peng2 you3"),
    ("家人", "jia1 ren2")
  ]

  /** A dictionary is a map (no key twice) whose keys are all non-empty. */
  predicate ValidDictionary(dict: seq<(string, string)>) {
    && (forall i :: 0 <= i < |dict| ==> |dict[i].0| > 0)
    && (forall i, j :: 0 <= i < j < |dict| ==> dict[i].0 != dict[j].0)
  }

  lemma WordDictionaryValid()
    ensures ValidDictionary(WordDictionary)
  {
    forall i, j | 0 <= i < j < |WordDictionary| ensures WordDictionary[i].0 != WordDictionary[j].0 {
      assert WordDictionary[i].0[0] != WordDictionary[j].0[0];
    }
  }

  /** `wordDictionary.keys`, in declaration order. */
  function Keys(dict: seq<(string, string)>): (keys: seq<string>)
    ensures |keys| == |dict| && forall i :: 0 <= i < |dict| ==> keys[i] == dict[i].0
  {
    seq(|dict|, i requires 0 <= i < |dict| => dict[i].0)
  }

  /** `wordDictionary[key]`. */
  function Get(dict: seq<(string, string)>, key: string): (r: Option<string>)
    ensures r.Some? <==> key in Keys(dict)
    ensures r.Some? ==> exists i :: 0 <= i < |dict| && dict[i] == (key, r.value)
    decreases |dict|
  {
    if dict == [] then None
    else if dict[0].0 == key then Some(dict[0].1)
    else
      var r := Get(dict[1..], key);
      assert Keys(dict) == [dict[0].0] + Keys(dict[1..]);
      assert r.Some? ==> exists i :: 0 <= i < |dict[1..]| && dict[1..][i] == (key, r.value);
      r
  }

  /** `wordDictionary.keys.sortedByDescending { it.length }`. */
  function KeysByLength(dict: seq<(string, string)>): (keys: seq<string>)
    ensures |keys| == |dict|
    ensures forall k :: k in keys <==> k in Keys(dict)
    ensures forall i, j :: 0 <= i < j < |keys| ==> |keys[i]| >= |keys[j]|
  {
    var keys := SortDescBy(Keys(dict), (k: string) => |k|);
    PermutationFacts(keys, Keys(dict));
    assert SortedDescBy(keys, (k: string) => |k|);
    keys
  }

  /** `text.startsWith(prefix)`. */
  predicate StartsWith(text: string, prefix: string) {
    |prefix| <= |text| && text[..|prefix|] == prefix
  }

  /** The position of the first key in `keys` that `text` starts with. */
  function FirstPrefix(keys: seq<string>, text: string): (r: Option<nat>)
    ensures r.Some? ==> r.value < |keys| && StartsWith(text, keys[r.value])
    ensures r.Some? ==> forall j :: 0 <= j < r.value ==> !StartsWith(text, keys[j])
    ensures r.None? ==> forall j :: 0 <= j < |keys| ==> !StartsWith(text, keys[j])
    decreases |keys|
  {
    if keys == [] then None
    else if StartsWith(text, keys[0]) then Some(0)
    else match FirstPrefix(keys[1..], text)
      case None => None
      case Some(i) => Some(i + 1)
  }

  /** `token.lastOrNull()?.toString()?.toIntOrNull() ?: 0`: the value of a trailing digit, else 0. */
  function ToneOf(token: string): (tone: int)
    ensures 0 <= tone <= 9
    ensures token != [] && '0' <= token[|token| - 1] <= '9' ==> DigitChar(tone) == token[|token| - 1]
    ensures token == [] || !('0' <= token[|token| - 1] <= '9') ==> tone == 0
  {
    if token == [] then 0 else DigitValue(token[|token| - 1]).GetOr(0)
  }

  /** The syllable without its tone digit; the digit is dropped only for a tone above 0. */
  function StripTone(token: string): (pinyin: string)
    ensures ToneOf(token) > 0 ==> pinyin + [DigitChar(ToneOf(token))] == token
    ensures ToneOf(token) == 0 ==> pinyin == token
  {
    if ToneOf(token) > 0 then token[..|token| - 1] else token
  }

  /** A syllable followed by a digit 1..9 splits back into the syllable and that tone. */
  lemma ToneRoundTrip(pinyin: string, tone: int)
    requires 1 <= tone <= 9
    ensures ToneOf(pinyin + [DigitChar(tone)]) == tone
    ensures StripTone(pinyin + [DigitChar(tone)]) == pinyin
  {
    var token := pinyin + [DigitChar(tone)];
    assert token[|token| - 1] == DigitChar(tone);
    assert token[..|token| - 1] == pinyin;
  }

  /** The granule of character `c` read as the tone-numbered syllable `token`. */
  function TokenGranule(c: char, token: string): (g: Granule)
    ensures g.character == [c] && g.pinyin.Some?
    ensures g.reading == None && g.jyutping == None && g.jyutpingTone == 0
    ensures 0 <= g.pinyinTone <= 9
    ensures g.pinyinTone > 0 ==> g.pinyin.value + [DigitChar(g.pinyinTone)] == token
    ensures g.pinyinTone == 0 ==> g.pinyin.value == token
  {
    Granule([c], pinyin := Some(StripTone(token)), pinyinTone := ToneOf(token))
  }

  /** Whether the lookup yields at least one candidate reading. */
  predicate HasCandidate(l: Lookup) {
    l.Candidates? && |l.readings| > 0
  }

  /**
   * `processCharToPinyinGranule`: the first candidate reading of `c`; the
   * bare character with no pinyin and tone 0 when the lookup throws,
   * returns null or returns no candidate.
   */
  function CharToGranule(c: char, lookup: PinyinLookup): (g: Granule)
    ensures g.character == [c]
    ensures g.pinyin.Some? <==> HasCandidate(lookup(c))
    ensures HasCandidate(lookup(c)) ==> g == TokenGranule(c, lookup(c).readings[0])
    ensures !HasCandidate(lookup(c)) ==> g == Granule([c]) && g.pinyinTone == 0
  {
    match lookup(c)
    case Candidates(readings) =>
      if |readings| > 0 then TokenGranule(c, readings[0]) else Granule([c])
    case _ => Granule([c])
  }

  /**
   * `processWordToPinyinGranules`: one granule per character of `word`.
   * When the pinyin has as many space-separated syllables as the word has
   * characters, character i takes syllable i; otherwise every character
   * goes through the single-character lookup.
   */
  function WordToGranules(word: string, pinyinWithTones: string, lookup: PinyinLookup): (gs: seq<Granule>)
    ensures |gs| == |word|
    ensures forall i :: 0 <= i < |word| ==> gs[i].character == [word[i]]
    ensures |Split(pinyinWithTones, ' ')| == |word| ==>
      forall i :: 0 <= i < |word| ==> gs[i] == TokenGranule(word[i], Split(pinyinWithTones, ' ')[i])
    ensures |Split(pinyinWithTones, ' ')| != |word| ==>
      forall i :: 0 <= i < |word| ==> gs[i] == CharToGranule(word[i], lookup)
  {
    var syllables := Split(pinyinWithTones, ' ');
    if |syllables| != |word| then
      seq(|word|, i requires 0 <= i < |word| => CharToGranule(word[i], lookup))
    else
      seq(|word|, i requires 0 <= i < |word| => TokenGranule(word[i], syllables[i]))
  }

  /** The part of a dictionary word: the whole dictionary pinyin, and its granules. */
  function WordPart(dict: seq<(string, string)>, word: string, lookup: PinyinLookup): Part {
    var pinyinWithTones := Get(dict, word).GetOr("");
    Part(word, pinyin := Some(pinyinWithTones), granules := WordToGranules(word, pinyinWithTones, lookup))
  }

  /** The part of an unmatched character: one granule; its pinyin carries the tone number, even 0. */
  function CharPart(c: char, lookup: PinyinLookup): Part {
    var g := CharToGranule(c, lookup);
    Part([c], pinyin := if g.pinyin.Some? then Some(g.pinyin.value + DecimalString(g.pinyinTone)) else None,
         granules := [g])
  }

  /** Every key is non-empty, so each round consumes at least one character. */
  predicate NonEmptyKeys(keys: seq<string>) {
    forall i :: 0 <= i < |keys| ==> |keys[i]| > 0
  }

  /**
   * The parts `processSentence` emits for `text` when it tries the keys in
   * the order `keys`: at each step the first key that the rest of the text
   * starts with is one part; when none does, the next character is one part.
   */
  function SegmentWith(dict: seq<(string, string)>, keys: seq<string>, text: string, lookup: PinyinLookup): seq<Part>
    requires NonEmptyKeys(keys)
    decreases |text|
  {
    if text == [] then []
    else
      match FirstPrefix(keys, text)
      case Some(i) =>
        [WordPart(dict, keys[i], lookup)] + SegmentWith(dict, keys, text[|keys[i]|..], lookup)
      case None =>
        [CharPart(text[0], lookup)] + SegmentWith(dict, keys, text[1..], lookup)
  }

  /** The keys of a valid dictionary, sorted by length, are all non-empty. */
  lemma SortedKeysNonEmpty(dict: seq<(string, string)>)
    requires ValidDictionary(dict)
    ensures NonEmptyKeys(KeysByLength(dict))
  {
    forall i | 0 <= i < |KeysByLength(dict)| ensures |KeysByLength(dict)[i]| > 0 {
      assert KeysByLength(dict)[i] in Keys(dict);
    }
  }

  /** The parts of `processSentence`: the keys are tried longest first. */
  function Segment(dict: seq<(string, string)>, text: string, lookup: PinyinLookup): seq<Part>
    requires ValidDictionary(dict)
  {
    SortedKeysNonEmpty(dict);
    SegmentWith(dict, KeysByLength(dict), text, lookup)
  }

  /** `SegmentWith` when the first matching key is the j-th. */
  lemma SegmentWord(dict: seq<(string, string)>, keys: seq<string>, text: string, lookup: PinyinLookup, j: nat)
    requires NonEmptyKeys(keys) && FirstPrefix(keys, text) == Some(j)
    ensures 0 < |keys[j]| <= |text| && text == keys[j] + text[|keys[j]|..]
    ensures SegmentWith(dict, keys, text, lookup)
      == [WordPart(dict, keys[j], lookup)] + SegmentWith(dict, keys, text[|keys[j]|..], lookup)
  {
    assert text == text[..|keys[j]|] + text[|keys[j]|..];
  }

  /** `SegmentWith` when no key matches. */
  lemma SegmentChar(dict: seq<(string, string)>, keys: seq<string>, text: string, lookup: PinyinLookup)
    requires NonEmptyKeys(keys) && text != [] && FirstPrefix(keys, text) == None
    ensures text == [text[0]] + text[1..]
    ensures SegmentWith(dict, keys, text, lookup) == [CharPart(text[0], lookup)] + SegmentWith(dict, keys, text[1..], lookup)
  {
  }

  /** A round of `processSentence` that consumes the key `keys[j]`. */
  lemma WordRound(dict: seq<(string, string)>, keys: seq<string>, text: string, rest: string, done: seq<Part>, lookup: PinyinLookup, j: nat)
    requires NonEmptyKeys(keys) && done + SegmentWith(dict, keys, rest, lookup) == SegmentWith(dict, keys, text, lookup)
    requires j < |keys| && StartsWith(rest, keys[j])
    requires forall k :: 0 <= k < j ==> !StartsWith(rest, keys[k])
    ensures (done + [WordPart(dict, keys[j], lookup)]) + SegmentWith(dict, keys, rest[|keys[j]|..], lookup)
      == SegmentWith(dict, keys, text, lookup)
  {
    assert FirstPrefix(keys, rest) == Some(j);
    SegmentWord(dict, keys, rest, lookup, j);
  }

  /** A round of `processSentence` in which no key matches. */
  lemma CharRound(dict: seq<(string, string)>, keys: seq<string>, text: string, rest: string, done: seq<Part>, lookup: PinyinLookup)
    requires NonEmptyKeys(keys) && done + SegmentWith(dict, keys, rest, lookup) == SegmentWith(dict, keys, text, lookup)
    requires rest != [] && forall k :: 0 <= k < |keys| ==> !StartsWith(rest, keys[k])
    ensures (done + [CharPart(rest[0], lookup)]) + SegmentWith(dict, keys, rest[1..], lookup)
      == SegmentWith(dict, keys, text, lookup)
  {
    assert FirstPrefix(keys, rest) == None;
    SegmentChar(dict, keys, rest, lookup);
  }

  /** Concatenating the words of the parts gives back exactly the input text, whatever the keys. */
  lemma {:induction false} SegmentReconstructs(dict: seq<(string, string)>, keys: seq<string>, text: string, lookup: PinyinLookup)
    requires NonEmptyKeys(keys)
    ensures Words(SegmentWith(dict, keys, text, lookup)) == text
    decreases |text|
  {
    if text != [] {
      match FirstPrefix(keys, text)
      case Some(i) =>
        SegmentWord(dict, keys, text, lookup, i);
        var rest := text[|keys[i]|..];
        SegmentReconstructs(dict, keys, rest, lookup);
        WordsAppend([WordPart(dict, keys[i], lookup)], SegmentWith(dict, keys, rest, lookup));
      case None =>
        SegmentChar(dict, keys, text, lookup);
        SegmentReconstructs(dict, keys, text[1..], lookup);
        WordsAppend([CharPart(text[0], lookup)], SegmentWith(dict, keys, text[1..], lookup));
    }
  }

  /**
   * One granule per character: the granules of all parts, in order, are
   * the characters of the input, one each, none dropped or repeated.
   */
  lemma {:induction false} SegmentCoversCharacters(dict: seq<(string, string)>, keys: seq<string>, text: string, lookup: PinyinLookup)
    requires NonEmptyKeys(keys)
    ensures Covers(AllGranules(SegmentWith(dict, keys, text, lookup)), text)
    decreases |text|
  {
    if text != [] {
      match FirstPrefix(keys, text)
      case Some(i) =>
        SegmentWord(dict, keys, text, lookup, i);
        var part, rest := WordPart(dict, keys[i], lookup), text[|keys[i]|..];
        SegmentCoversCharacters(dict, keys, rest, lookup);
        AllGranulesAppend([part], SegmentWith(dict, keys, rest, lookup));
        CoversAppend(part.granules, keys[i], AllGranules(SegmentWith(dict, keys, rest, lookup)), rest);
      case None =>
        SegmentChar(dict, keys, text, lookup);
        var part, rest := CharPart(text[0], lookup), text[1..];
        SegmentCoversCharacters(dict, keys, rest, lookup);
        AllGranulesAppend([part], SegmentWith(dict, keys, rest, lookup));
        CoversAppend(part.granules, [text[0]], AllGranules(SegmentWith(dict, keys, rest, lookup)), rest);
    }
  }

  /** Every part the segmenter emits is well formed. */
  lemma {:induction false} SegmentPartsWellFormed(dict: seq<(string, string)>, keys: seq<string>, text: string, lookup: PinyinLookup)
    requires NonEmptyKeys(keys)
    ensures forall p :: p in SegmentWith(dict, keys, text, lookup) ==> WellFormedPart(p)
    decreases |text|
  {
    if text != [] {
      match FirstPrefix(keys, text)
      case Some(i) =>
        SegmentWord(dict, keys, text, lookup, i);
        SegmentPartsWellFormed(dict, keys, text[|keys[i]|..], lookup);
      case None =>
        SegmentChar(dict, keys, text, lookup);
        SegmentPartsWellFormed(dict, keys, text[1..], lookup);
    }
  }

  /** Where a key of the dictionary sits among the keys sorted by length. */
  lemma SortedPosition(dict: seq<(string, string)>, i: nat) returns (n: nat)
    requires i < |dict|
    ensures n < |KeysByLength(dict)| && KeysByLength(dict)[n] == dict[i].0
  {
    assert dict[i].0 in Keys(dict);
    n :| 0 <= n < |KeysByLength(dict)| && KeysByLength(dict)[n] == dict[i].0;
  }

  /**
   * Longest match: when some dictionary key starts the text, the first part
   * is the part of such a key, no key that starts the text is longer, and
   * none of the same length differs from it.
   */
  lemma LongestMatch(dict: seq<(string, string)>, text: string, lookup: PinyinLookup, i: nat)
    requires ValidDictionary(dict) && i < |dict| && StartsWith(text, dict[i].0)
    ensures |Segment(dict, text, lookup)| > 0
    ensures var first := Segment(dict, text, lookup)[0];
      && (exists n :: 0 <= n < |dict| && dict[n].0 == first.word)
      && StartsWith(text, first.word)
      && first == WordPart(dict, first.word, lookup)
      && |dict[i].0| <= |first.word|
      && (|dict[i].0| == |first.word| ==> dict[i].0 == first.word)
  {
    var keys := KeysByLength(dict);
    SortedKeysNonEmpty(dict);
    var n := SortedPosition(dict, i);
    var m :| FirstPrefix(keys, text) == Some(m);
    SegmentWord(dict, keys, text, lookup, m);
    assert keys[m] in Keys(dict);
    assert m <= n;
  }

  /** When no key starts the text, its first character is the first part. */
  lemma NoPrefix(dict: seq<(string, string)>, text: string, lookup: PinyinLookup)
    requires ValidDictionary(dict) && text != []
    requires forall j :: 0 <= j < |dict| ==> !StartsWith(text, dict[j].0)
    ensures Segment(dict, text, lookup) == [CharPart(text[0], lookup)] + Segment(dict, text[1..], lookup)
  {
    var keys := KeysByLength(dict);
    SortedKeysNonEmpty(dict);
    forall n | 0 <= n < |keys| ensures !StartsWith(text, keys[n]) {
      assert keys[n] in Keys(dict);
    }
    SegmentChar(dict, keys, text, lookup);
  }

  /**
   * The part of an unmatched character: the character alone, one granule,
   * and a pinyin exactly when the lookup has a candidate. That pinyin is the
   * first candidate when it ends in a tone digit 1..9, and the candidate with
   * "0" appended otherwise (the granule's tone is then 0).
   */
  lemma CharPartPinyin(c: char, lookup: PinyinLookup)
    ensures var p := CharPart(c, lookup);
      && p.word == [c] && |p.granules| == 1 && p.granules[0] == CharToGranule(c, lookup)
      && (p.pinyin.Some? <==> HasCandidate(lookup(c)))
      && (HasCandidate(lookup(c)) ==>
            var first := lookup(c).readings[0];
            p.pinyin == Some(if ToneOf(first) > 0 then first else first + "0"))
  {
    var g := CharToGranule(c, lookup);
    if HasCandidate(lookup(c)) {
      assert DecimalString(g.pinyinTone) == [DigitChar(g.pinyinTone)];
    }
  }

  /**
   * The part of a dictionary word carries the dictionary's pinyin for it and
   * one granule per character; with one syllable per character, granule i
   * takes syllable i, its tone being a trailing digit 1..9.
   */
  lemma WordPartShape(dict: seq<(string, string)>, i: nat, lookup: PinyinLookup)
    requires i < |dict| && ValidDictionary(dict)
    ensures var p := WordPart(dict, dict[i].0, lookup);
      var syllables := Split(dict[i].1, ' ');
      && p.word == dict[i].0 && p.pinyin == Some(dict[i].1) && WellFormedPart(p)
      && (|syllables| == |p.word| ==>
            forall k :: 0 <= k < |p.word| ==>
              p.granules[k].pinyin.Some? && 0 <= p.granules[k].pinyinTone <= 9
              && p.granules[k].pinyin.value
                 + (if p.granules[k].pinyinTone > 0 then [DigitChar(p.granules[k].pinyinTone)] else "")
                 == syllables[k])
      && (|syllables| != |p.word| ==>
            forall k :: 0 <= k < |p.word| ==> p.granules[k] == CharToGranule(p.word[k], lookup))
  {
    var r := Get(dict, dict[i].0);
    assert dict[i].0 in Keys(dict);
    var n :| 0 <= n < |dict| && dict[n] == (dict[i].0, r.value);
    assert n == i;
  }

  /** A granule read from a syllable with a tone digit 1..9 has that syllable and that tone. */
  lemma TokenGranuleOfTone(c: char, pinyin: string, tone: int)
    requires 1 <= tone <= 9
    ensures TokenGranule(c, pinyin + [DigitChar(tone)]) == Granule([c], pinyin := Some(pinyin), pinyinTone := tone)
  {
    ToneRoundTrip(pinyin, tone);
  }

  /** No word of the dictionary is longer than three characters. */
  lemma WordDictionaryShortWords()
    ensures forall j :: 0 <= j < |WordDictionary| ==> |WordDictionary[j].0| <= 3
  {
  }

  /** A key that no other key outgrows wins whenever it starts the text. */
  lemma LongestKeyWins(dict: seq<(string, string)>, text: string, lookup: PinyinLookup, i: nat)
    requires ValidDictionary(dict) && i < |dict| && StartsWith(text, dict[i].0)
    requires forall j :: 0 <= j < |dict| ==> |dict[j].0| <= |dict[i].0|
    ensures var parts := Segment(dict, text, lookup);
      |parts| > 0 && parts[0] == WordPart(dict, dict[i].0, lookup)
  {
    LongestMatch(dict, text, lookup, i);
  }

  /** Any text that starts with 早上好 gives 早上好 as its first part. */
  lemma ZaoShangHaoFirst(text: string, lookup: PinyinLookup)
    requires StartsWith(text, "早上好")
    ensures ValidDictionary(WordDictionary)
    ensures var parts := Segment(WordDictionary, text, lookup);
      |parts| > 0 && parts[0].word == "早上好" && parts[0] == WordPart(WordDictionary, "早上好", lookup)
  {
    WordDictionaryValid();
    WordDictionaryShortWords();
    LongestKeyWins(WordDictionary, text, lookup, 4);
  }

  /** The Mandarin processor; it owns its word dictionary. */
  class MandarinProcessor {
    const wordDictionary: seq<(string, string)>

    constructor ()
      ensures wordDictionary == WordDictionary && ValidDictionary(wordDictionary)
    {
      wordDictionary := WordDictionary;
      WordDictionaryValid();
    }

    /**
     * `processSentence`: consumes the text from the front, one dictionary word
     * or one character per round.
     */
    method ProcessSentence(text: string, lookup: PinyinLookup) returns (info: PronunciationInfo)
      requires ValidDictionary(wordDictionary)
      ensures info == PronunciationInfo(text, Segment(wordDictionary, text, lookup))
    {
      ghost var sorted := KeysByLength(wordDictionary);
      SortedKeysNonEmpty(wordDictionary);
      var parts: seq<Part> := [];
      var remainingText := text;
      while remainingText != []
        invariant parts + SegmentWith(wordDictionary, sorted, remainingText, lookup) == SegmentWith(wordDictionary, sorted, text, lookup)
        decreases |remainingText|
      {
        var keys := KeysByLength(wordDictionary);
        var matched := FirstMatchingWord(keys, remainingText);
        match matched
        case Some(j) =>
          WordRound(wordDictionary, keys, text, remainingText, parts, lookup, j);
          var word := keys[j];
          var pinyinWithTones := Get(wordDictionary, word).GetOr("");
          var granules := WordToGranules(word, pinyinWithTones, lookup);
          var part := Part(word, pinyin := Some(pinyinWithTones), granules := granules);
          assert part == WordPart(wordDictionary, keys[j], lookup);
          parts := parts + [part];
          remainingText := remainingText[|word|..];
        case None =>
          CharRound(wordDictionary, keys, text, remainingText, parts, lookup);
          var c := remainingText[0];
          var granule := CharToGranule(c, lookup);
          var part := Part([c],
                           pinyin := if granule.pinyin.Some? then Some(granule.pinyin.value + DecimalString(granule.pinyinTone)) else None,
                           granules := [granule]);
          assert part == CharPart(c, lookup);
          parts := parts + [part];
          remainingText := remainingText[1..];
      }
      info := PronunciationInfo(text, parts);
    }

    /** The inner loop of `processSentence`: the position of the first key the text starts with. */
    static method FirstMatchingWord(keys: seq<string>, remainingText: string) returns (matched: Option<nat>)
      ensures matched == FirstPrefix(keys, remainingText)
    {
      var j := 0;
      while j < |keys|
        invariant 0 <= j <= |keys|
        invariant forall k :: 0 <= k < j ==> !StartsWith(remainingText, keys[k])
      {
        if StartsWith(remainingText, keys[j]) {
          return Some(j);
        }
        j := j + 1;
      }
      return None;
    }
  }
}
