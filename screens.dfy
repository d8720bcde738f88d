/**
 * The sentence and request rules of the two text screens
 * (components/camera/TextDetailScreen.kt and CaptureReviewScreen.kt): how a
 * box's text is cut into sentences, which sentence is selected, which
 * pronunciation is shown first, and when a translation may be requested or
 * a crop saved. Layout and the translation call itself are not modelled.
 */
module Screens {
  import opened Wrappers
  import opened Text
  import opened TextBoxes
  import opened Pronunciations
  import opened Repository

  /** What one line contributes: its trimmed text, unless that is empty. */
  function LineSentence(line: string): (r: seq<string>)
    ensures |r| <= 1
    ensures forall k :: 0 <= k < |r| ==> r[k] != "" && !IsWhitespace(r[k][0]) && !IsWhitespace(r[k][|r[k]| - 1])
  {
    var t := Trim(line);
    if t == "" then [] else [t]
  }

  /** `.map { it.trim() }.filter { it.isNotEmpty() }` over the lines. */
  function TrimmedNonEmpty(lines: seq<string>): (r: seq<string>)
    ensures |r| <= |lines|
    ensures forall k :: 0 <= k < |r| ==> r[k] != "" && !IsWhitespace(r[k][0]) && !IsWhitespace(r[k][|r[k]| - 1])
    decreases |lines|
  {
    if lines == [] then []
    else LineSentence(lines[0]) + TrimmedNonEmpty(lines[1..])
  }

  /** One line gives its trimmed text, or nothing when it is blank. */
  lemma TrimmedNonEmptyLine(line: string)
    ensures TrimmedNonEmpty([line]) == if IsBlank(line) then [] else [Trim(line)]
  {
    TrimEmptyIffBlank(line);
    assert [line][1..] == [];
  }

  /** The concatenation of `f` over `xs`, in order: Kotlin's `flatMap`. */
  function ConcatMap<T, U>(xs: seq<T>, f: T -> seq<U>): seq<U>
    decreases |xs|
  {
    if xs == [] then [] else f(xs[0]) + ConcatMap(xs[1..], f)
  }

  /** `flatMap` distributes over concatenation. */
  lemma {:induction false} ConcatMapAppend<T, U>(a: seq<T>, b: seq<T>, f: T -> seq<U>)
    ensures ConcatMap(a + b, f) == ConcatMap(a, f) + ConcatMap(b, f)
    decreases |a|
  {
    if a == [] {
      assert a + b == b;
    } else {
      ConcatMapAppend(a[1..], b, f);
      assert (a + b)[0] == a[0] && (a + b)[1..] == a[1..] + b;
    }
  }

  /** The filter is `flatMap` of the per-line step. */
  lemma {:induction false} TrimmedNonEmptyConcatMap(lines: seq<string>)
    ensures TrimmedNonEmpty(lines) == ConcatMap(lines, LineSentence)
    decreases |lines|
  {
    if lines != [] {
      TrimmedNonEmptyConcatMap(lines[1..]);
    }
  }

  /** The filter works line by line: the sentences of two blocks of lines are those of the first, then those of the second. */
  lemma TrimmedNonEmptyAppend(a: seq<string>, b: seq<string>)
    ensures TrimmedNonEmpty(a + b) == TrimmedNonEmpty(a) + TrimmedNonEmpty(b)
  {
    TrimmedNonEmptyConcatMap(a + b);
    TrimmedNonEmptyConcatMap(a);
    TrimmedNonEmptyConcatMap(b);
    ConcatMapAppend(a, b, LineSentence);
  }

  /** Nothing survives the filter exactly when every line is blank. */
  lemma {:induction false} TrimmedNonEmptyEmpty(lines: seq<string>)
    ensures TrimmedNonEmpty(lines) == [] <==> forall k :: 0 <= k < |lines| ==> IsBlank(lines[k])
    decreases |lines|
  {
    if lines != [] {
      TrimEmptyIffBlank(lines[0]);
      TrimmedNonEmptyEmpty(lines[1..]);
      assert forall k :: 1 <= k < |lines| ==> lines[k] == lines[1..][k - 1];
    }
  }

  /** A concatenation is blank exactly when both halves are. */
  lemma BlankConcat(a: string, b: string)
    ensures IsBlank(a + b) <==> IsBlank(a) && IsBlank(b)
  {
    assert forall k :: 0 <= k < |a| ==> a[k] == (a + b)[k];
    assert forall k :: 0 <= k < |b| ==> b[k] == (a + b)[|a| + k];
    if IsBlank(a) && IsBlank(b) {
      forall k | 0 <= k < |a + b| ensures IsWhitespace((a + b)[k]) {
        if k >= |a| {
          assert (a + b)[k] == b[k - |a|];
        }
      }
    }
  }

  /** Pieces joined by a whitespace separator are blank exactly when every piece is. */
  lemma {:induction false} BlankJoin(pieces: seq<string>, sep: char)
    requires IsWhitespace(sep)
    ensures IsBlank(Join(pieces, sep)) <==> forall k :: 0 <= k < |pieces| ==> IsBlank(pieces[k])
    decreases |pieces|
  {
    if |pieces| > 1 {
      BlankJoin(pieces[1..], sep);
      BlankConcat(pieces[0] + [sep], Join(pieces[1..], sep));
      BlankConcat(pieces[0], [sep]);
      assert forall k :: 1 <= k < |pieces| ==> pieces[k] == pieces[1..][k - 1];
    }
  }

  /**
   * The `sentences` of both screens: the lines of `text`, trimmed, without
   * the empty ones; if none is left, the whole text as the only sentence.
   */
  function Sentences(text: string): (r: seq<string>)
    ensures |r| >= 1
    ensures |r| <= Occurrences(text, '\n') + 1
  {
    SplitCount(text, '\n');
    var kept := TrimmedNonEmpty(Split(text, '\n'));
    if kept == [] then [text] else kept
  }

  /**
   * A text that is not blank is cut into trimmed, non-empty sentences; a
   * blank text (the empty one included) is its own only sentence.
   */
  lemma SentencesFallback(text: string)
    ensures IsBlank(text) ==> Sentences(text) == [text]
    ensures !IsBlank(text) ==> Sentences(text) == TrimmedNonEmpty(Split(text, '\n'))
    ensures !IsBlank(text) ==> forall k :: 0 <= k < |Sentences(text)| ==>
      var s := Sentences(text)[k];
      s != "" && !IsWhitespace(s[0]) && !IsWhitespace(s[|s| - 1])
  {
    var lines := Split(text, '\n');
    JoinSplit(text, '\n');
    BlankJoin(lines, '\n');
    TrimmedNonEmptyEmpty(lines);
  }

  /**
   * Text made of lines joined by newlines yields exactly the trimmed,
   * non-blank lines, in their order; only when every line is blank is the
   * whole text the one sentence.
   */
  lemma SentencesOfLines(lines: seq<string>)
    requires |lines| >= 1 && forall k :: 0 <= k < |lines| ==> '\n' !in lines[k]
    ensures (forall k :: 0 <= k < |lines| ==> IsBlank(lines[k])) ==> Sentences(Join(lines, '\n')) == [Join(lines, '\n')]
    ensures (exists k :: 0 <= k < |lines| && !IsBlank(lines[k])) ==> Sentences(Join(lines, '\n')) == TrimmedNonEmpty(lines)
  {
    SplitJoin(lines, '\n');
    TrimmedNonEmptyEmpty(lines);
  }

  /** Two lines, the second blank: the first line is the only sentence. */
  lemma SentencesExample()
    ensures Sentences("你好\n  ") == ["你好"]
  {
    var lines := ["你好", "  "];
    assert Join(lines, '\n') == "你好\n  ";
    assert lines[0][0] == '你' && !IsWhitespace(lines[0][0]);
    SentencesOfLines(lines);
    assert lines == [lines[0]] + [lines[1]];
    TrimmedNonEmptyAppend([lines[0]], [lines[1]]);
    TrimmedNonEmptyLine(lines[0]);
    TrimmedNonEmptyLine(lines[1]);
    TrimUnpadded(lines[0]);
  }

  /** `sentences.getOrElse(index) { text }`. */
  function SelectedSentence(sentences: seq<string>, index: int, text: string): (s: string)
    ensures 0 <= index < |sentences| ==> s == sentences[index]
    ensures !(0 <= index < |sentences|) ==> s == text
  {
    if 0 <= index < |sentences| then sentences[index] else text
  }

  /** The sentence selector is shown only when there is a choice to make (both screens). */
  predicate SentenceSelectorShown(sentences: seq<string>) {
    |sentences| > 1
  }

  /** The pronunciation first shown for a language tag. */
  function InitialPronunciation(language: string): (p: MiteiruProcess)
    ensures p != CANTONESE
    ensures p == JAPANESE <==> language == "ja"
    ensures p == MANDARIN <==> language != "ja"
  {
    if language == "zh" then MANDARIN
    else if language == "ja" then JAPANESE
    else MANDARIN
  }

  /** A translation request: the trimmed key and the sentence to explain. */
  datatype Request = Request(apiKey: string, sentence: string)

  /** Why a translation was refused. */
  datatype Refusal = ApiKeyRequired | NothingSelected

  /** The detail screen's translate handler: a blank key is refused; the key is sent trimmed. */
  function DetailTranslate(apiKey: string, selectedSentence: string): (r: Result<Request, Refusal>)
    ensures r.Failure? <==> IsBlank(apiKey)
    ensures r.Failure? ==> r.error == ApiKeyRequired
    ensures r.Success? ==> r.value == Request(Trim(apiKey), selectedSentence) && r.value.apiKey != ""
  {
    TrimEmptyIffBlank(apiKey);
    if IsBlank(apiKey) then Failure(ApiKeyRequired) else Success(Request(Trim(apiKey), selectedSentence))
  }

  /** The detail screen's translate button is enabled when idle and the key is not blank. */
  predicate TranslateEnabled(isTranslating: bool, apiKey: string) {
    !isTranslating && !IsBlank(apiKey)
  }

  /** Whenever the button can be pressed, the handler sends a request. */
  lemma EnabledTranslateIsSent(isTranslating: bool, apiKey: string, selectedSentence: string)
    requires TranslateEnabled(isTranslating, apiKey)
    ensures DetailTranslate(apiKey, selectedSentence).Success?
  {
  }

  /** The detail screen's mutable state: the crop, whether it was saved, and whether a request is running. */
  class DetailScreen {
    const text: string
    const language: string
    var hasCrop: bool
    var isSaved: bool
    var isTranslating: bool
    var selectedSentenceIndex: int

    constructor (text: string, language: string)
      ensures this.text == text && this.language == language
      ensures !hasCrop && !isSaved && !isTranslating && selectedSentenceIndex == 0
    {
      this.text := text;
      this.language := language;
      hasCrop := false;
      isSaved := false;
      isTranslating := false;
      selectedSentenceIndex := 0;
    }

    /** The save button is enabled when there is a crop that has not been saved. */
    predicate SaveEnabled()
      reads this
    {
      hasCrop && !isSaved
    }

    /** The crop arrives. */
    method CropLoaded()
      modifies this
      ensures hasCrop && isSaved == old(isSaved) && isTranslating == old(isTranslating)
      ensures selectedSentenceIndex == old(selectedSentenceIndex)
    {
      hasCrop := true;
    }

    /**
     * A press on the save button: the launched coroutine stores the crop with
     * this box's text and language. The screen is marked saved only when
     * that work has finished (`SaveDone`), so until then the button stays
     * enabled and a second press stores a second capture.
     */
    method Save(repository: CaptureRepository, stamp: nat, createdAt: int) returns (id: int)
      requires SaveEnabled() && repository.Valid()
      modifies repository, repository.smallDao
      ensures repository.Valid() && unchanged(repository.previousDao) && unchanged(this)
      ensures SaveEnabled()
      ensures id == old(repository.smallDao.nextId)
      ensures repository.files == old(repository.files) + {repository.SmallPath(stamp)}
      ensures repository.smallDao.rows == old(repository.smallDao.rows)
        + [Entities.SmallCapture(id, repository.SmallPath(stamp), text, language, None, None, createdAt)]
    {
      id := repository.SaveSmallCapture(text, language, stamp, createdAt);
    }

    /** The save coroutine has finished: the screen is marked saved, which disables the button. */
    method SaveDone()
      modifies this
      ensures isSaved && !SaveEnabled()
      ensures hasCrop == old(hasCrop) && isTranslating == old(isTranslating)
      ensures selectedSentenceIndex == old(selectedSentenceIndex)
    {
      isSaved := true;
    }

    /** A tap on a sentence in the selector. */
    method SelectSentence(index: int)
      modifies this
      ensures selectedSentenceIndex == index
      ensures hasCrop == old(hasCrop) && isSaved == old(isSaved) && isTranslating == old(isTranslating)
    {
      selectedSentenceIndex := index;
    }

    /** The translate button: a request for the selected sentence, marking the screen busy; a blank key changes nothing. */
    method Translate(apiKey: string) returns (r: Result<Request, Refusal>)
      modifies this
      ensures r == DetailTranslate(apiKey, SelectedSentence(Sentences(text), selectedSentenceIndex, text))
      ensures isTranslating == (r.Success? || old(isTranslating))
      ensures hasCrop == old(hasCrop) && isSaved == old(isSaved)
      ensures selectedSentenceIndex == old(selectedSentenceIndex)
    {
      r := DetailTranslate(apiKey, SelectedSentence(Sentences(text), selectedSentenceIndex, text));
      if r.Success? {
        isTranslating := true;
      }
    }

    /** The request came back. */
    method TranslationDone()
      modifies this
      ensures !isTranslating && hasCrop == old(hasCrop) && isSaved == old(isSaved)
      ensures selectedSentenceIndex == old(selectedSentenceIndex)
    {
      isTranslating := false;
    }
  }

  /** The review screen's first selection: the first box, or none. */
  function FirstBox(boxes: seq<ChineseTextBox>): (r: Option<ChineseTextBox>)
    ensures r.None? <==> boxes == []
    ensures r.Some? ==> r.value == boxes[0]
  {
    if boxes == [] then None else Some(boxes[0])
  }

  /** The review screen's sentences: those of the selected box, none without a selection. */
  function ReviewSentences(selected: Option<ChineseTextBox>): (r: seq<string>)
    ensures selected.None? <==> r == []
    ensures selected.Some? ==> r == Sentences(selected.value.text)
  {
    match selected
    case None => []
    case Some(box) => Sentences(box.text)
  }

  /** The selected box's text, or "" without a selection. */
  function SelectedText(selected: Option<ChineseTextBox>): string {
    match selected
    case None => ""
    case Some(box) => box.text
  }

  /** `sentences.getOrNull(index) ?: selectedBox?.text.orEmpty()`. */
  function ReviewSelectedSentence(sentences: seq<string>, index: int, selected: Option<ChineseTextBox>): (s: string)
    ensures 0 <= index < |sentences| ==> s == sentences[index]
    ensures !(0 <= index < |sentences|) ==> s == SelectedText(selected)
  {
    SelectedSentence(sentences, index, SelectedText(selected))
  }

  /** The review screen's pronunciation, recomputed whenever the selected box's language changes. */
  function ReviewPronunciation(selected: Option<ChineseTextBox>): (p: MiteiruProcess)
    ensures p != CANTONESE
    ensures p == JAPANESE <==> selected.Some? && selected.value.language == "ja"
  {
    InitialPronunciation(if selected.Some? then selected.value.language else "")
  }

  /**
   * The review screen's translate handler: the selected sentence, or the
   * box's text when that is blank; a blank key is refused before a blank
   * text.
   */
  function ReviewTranslate(apiKey: string, selectedSentence: string, selected: Option<ChineseTextBox>): (r: Result<Request, Refusal>)
    ensures r.Success? <==> !IsBlank(apiKey) && !IsBlank(if IsBlank(selectedSentence) then SelectedText(selected) else selectedSentence)
    ensures IsBlank(apiKey) ==> r == Failure(ApiKeyRequired)
    ensures !IsBlank(apiKey) && IsBlank(selectedSentence) && IsBlank(SelectedText(selected)) ==> r == Failure(NothingSelected)
    ensures r.Success? ==> !IsBlank(r.value.sentence) && r.value.apiKey == Trim(apiKey)
    ensures r.Success? && !IsBlank(selectedSentence) ==> r.value.sentence == selectedSentence
    ensures r.Success? && IsBlank(selectedSentence) ==> r.value.sentence == SelectedText(selected)
  {
    var text := if IsBlank(selectedSentence) then SelectedText(selected) else selectedSentence;
    if IsBlank(apiKey) then Failure(ApiKeyRequired)
    else if IsBlank(text) then Failure(NothingSelected)
    else Success(Request(Trim(apiKey), text))
  }

  /** With a non-blank selected box, a non-blank key always yields a request, whatever the sentence. */
  lemma ReviewTranslateAccepted(apiKey: string, index: int, boxes: seq<ChineseTextBox>)
    requires !IsBlank(apiKey) && boxes != [] && !IsBlank(boxes[0].text)
    ensures var selected := FirstBox(boxes);
      ReviewTranslate(apiKey, ReviewSelectedSentence(ReviewSentences(selected), index, selected), selected).Success?
  {
  }
}
