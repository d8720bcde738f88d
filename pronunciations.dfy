/**
 * The pronunciation data model (granules, parts, sentence info) and the
 * tone-mark formatter (app/src/main/java/id/hocky/miteiru/utils/Pronunciations.kt),
 * with the processor selector of utils/language/LanguageProcessor.kt.
 */
module Pronunciations {
  import opened Wrappers

  /** One character with its readings; a tone of 0 means "no tone known". */
  datatype Granule = Granule(
    character: string,  // Kotlin `char`
    reading: Option<string> := None,
    pinyin: Option<string> := None,
    pinyinTone: int := 0,
    jyutping: Option<string> := None,
    jyutpingTone: int := 0)

  /** A word or a single character, with whole-word readings. */
  datatype Part = Part(
    word: string,
    reading: Option<string> := None,
    pinyin: Option<string> := None,
    jyutping: Option<string> := None,
    granules: seq<Granule>)

  /** The segmentation of one sentence. */
  datatype PronunciationInfo = PronunciationInfo(text: string, parts: seq<Part>)

  /** The pronunciation a processor produces (`MiteiruProcess`). */
  datatype MiteiruProcess = MANDARIN | CANTONESE | JAPANESE

  /** The concatenation of the words of `parts`, in order. */
  function Words(parts: seq<Part>): string
    decreases |parts|
  {
    if parts == [] then "" else parts[0].word + Words(parts[1..])
  }

  /** All granules of `parts`, part by part, in order. */
  function AllGranules(parts: seq<Part>): seq<Granule>
    decreases |parts|
  {
    if parts == [] then [] else parts[0].granules + AllGranules(parts[1..])
  }

  lemma {:induction false} WordsAppend(a: seq<Part>, b: seq<Part>)
    ensures Words(a + b) == Words(a) + Words(b)
    decreases |a|
  {
    if a != [] {
      assert (a + b)[0] == a[0] && (a + b)[1..] == a[1..] + b;
      WordsAppend(a[1..], b);
    } else {
      assert a + b == b;
    }
  }

  lemma {:induction false} AllGranulesAppend(a: seq<Part>, b: seq<Part>)
    ensures AllGranules(a + b) == AllGranules(a) + AllGranules(b)
    decreases |a|
  {
    if a != [] {
      assert (a + b)[0] == a[0] && (a + b)[1..] == a[1..] + b;
      AllGranulesAppend(a[1..], b);
    } else {
      assert a + b == b;
    }
  }

  /** `gs` holds one granule per character of `s`, in order. */
  ghost predicate Covers(gs: seq<Granule>, s: string) {
    |gs| == |s| && forall i :: 0 <= i < |s| ==> gs[i].character == [s[i]]
  }

  lemma CoversAppend(gs: seq<Granule>, s: string, hs: seq<Granule>, t: string)
    requires Covers(gs, s) && Covers(hs, t)
    ensures Covers(gs + hs, s + t)
  {
    forall i | 0 <= i < |s| + |t| ensures (gs + hs)[i].character == [(s + t)[i]] {
      if i >= |s| {
        assert (gs + hs)[i] == hs[i - |s|] && (s + t)[i] == t[i - |s|];
      }
    }
  }

  /** A part is well formed: its granules spell its word, one character each. */
  ghost predicate WellFormedPart(p: Part) {
    |p.granules| > 0 && Covers(p.granules, p.word)
  }

  /** A granule built with only its character has no reading and tone 0. */
  lemma GranuleDefaults(c: string)
    ensures var g := Granule(c);
      && g.character == c && g.reading == None && g.pinyin == None && g.jyutping == None
      && g.pinyinTone == 0 && g.jyutpingTone == 0
  {
  }

  /** `mandarinToneMarks[tone]`. */
  function MandarinToneMark(tone: int): Option<string> {
    if tone == 1 then Some("ˉ¹")
    else if tone == 2 then Some("⸍²")
    else if tone == 3 then Some("ᵛ₃")
    else if tone == 4 then Some("⸌⁴")
    else None
  }

  /** `cantoneseToneMarks[tone]`. */
  function CantoneseToneMark(tone: int): Option<string> {
    if tone == 1 then Some("ˉ¹")
    else if tone == 2 then Some("⸍²")
    else if tone == 3 then Some("-₃")
    else if tone == 4 then Some("⸜₄")
    else if tone == 5 then Some("⸝₅")
    else if tone == 6 then Some("ˍ₆")
    else None
  }

  /**
   * `formatMandarinTone`: nothing for a missing pinyin, otherwise the pinyin
   * followed by the mark of its tone, which only tones 1..4 have.
   */
  function FormatMandarinTone(pinyin: Option<string>, tone: int): (r: string)
    ensures pinyin.None? ==> r == ""
    ensures pinyin.Some? ==> |pinyin.value| <= |r| && r[..|pinyin.value|] == pinyin.value
    ensures pinyin.Some? ==> (|r| > |pinyin.value| <==> 1 <= tone <= 4)
  {
    match pinyin
    case None => ""
    case Some(p) => p + MandarinToneMark(tone).GetOr("")
  }

  /**
   * `formatCantoneseTone`: nothing for a missing jyutping, otherwise the
   * jyutping followed by the mark of its tone, which only tones 1..6 have.
   */
  function FormatCantoneseTone(jyutping: Option<string>, tone: int): (r: string)
    ensures jyutping.None? ==> r == ""
    ensures jyutping.Some? ==> |jyutping.value| <= |r| && r[..|jyutping.value|] == jyutping.value
    ensures jyutping.Some? ==> (|r| > |jyutping.value| <==> 1 <= tone <= 6)
  {
    match jyutping
    case None => ""
    case Some(j) => j + CantoneseToneMark(tone).GetOr("")
  }

  /** Tones 1..4 get pairwise distinct marks, so the formatted text tells the tone. */
  lemma MandarinMarksDistinct(p: string, t1: int, t2: int)
    requires 1 <= t1 <= 4 && 1 <= t2 <= 4
    ensures FormatMandarinTone(Some(p), t1) == FormatMandarinTone(Some(p), t2) <==> t1 == t2
  {
    var r1, r2 := FormatMandarinTone(Some(p), t1), FormatMandarinTone(Some(p), t2);
    if r1 == r2 {
      assert r1[|p|..] == MandarinToneMark(t1).value;
      assert r2[|p|..] == MandarinToneMark(t2).value;
    }
  }

  /** Tones 1..6 get pairwise distinct marks, so the formatted text tells the tone. */
  lemma CantoneseMarksDistinct(j: string, t1: int, t2: int)
    requires 1 <= t1 <= 6 && 1 <= t2 <= 6
    ensures FormatCantoneseTone(Some(j), t1) == FormatCantoneseTone(Some(j), t2) <==> t1 == t2
  {
    var r1, r2 := FormatCantoneseTone(Some(j), t1), FormatCantoneseTone(Some(j), t2);
    if r1 == r2 {
      assert r1[|j|..] == CantoneseToneMark(t1).value;
      assert r2[|j|..] == CantoneseToneMark(t2).value;
    }
  }

  /** A tone outside 1..4 (0 and 5 included) leaves the pinyin as it is. */
  lemma MandarinUnmarkedTone(p: string, tone: int)
    requires !(1 <= tone <= 4)
    ensures FormatMandarinTone(Some(p), tone) == p
  {
  }
}
