/**
 * `CaptureRepository` (data/CaptureRepository.kt): saves, annotates and
 * deletes captures through the two tables, writing and deleting the image
 * files they point to. The file system is the set of paths that exist; the
 * JPEG encoding is not modelled. The clock is read twice per save (for the
 * file name and for `createdAt`), and both readings are parameters.
 */
module Repository {
  import opened Wrappers
  import opened Text
  import opened TextBoxes
  import opened Entities
  import opened Daos

  /** The `TextBoxInfo` stored for a box: its text, language and corners, no analysis yet. */
  function BoxToInfo(box: ChineseTextBox): (info: TextBoxInfo)
    ensures info.text == box.text && info.language == box.language
    ensures Rect(info.left, info.top, info.right, info.bottom) == box.boundingBox
    ensures info.analysis.None? && info.sourceLanguage.None?
  {
    TextBoxInfo(box.text, box.language, box.boundingBox.left, box.boundingBox.top,
                box.boundingBox.right, box.boundingBox.bottom)
  }

  /** `textBoxInfoToChineseTextBox`: a box rebuilt from a stored entry, upright, with default confidence and no metadata. */
  function InfoToBox(info: TextBoxInfo): (box: ChineseTextBox)
    ensures box.text == info.text && box.language == info.language
    ensures box.boundingBox == Rect(info.left, info.top, info.right, info.bottom)
    ensures box.rotation == 0 && box.confidence == 0.0 && box.metadata == map[]
  {
    ChineseTextBox(Rect(info.left, info.top, info.right, info.bottom), info.text, 0, info.language)
  }

  /** The entries stored for a page's boxes, one per box, in order. */
  function Infos(boxes: seq<ChineseTextBox>): (infos: seq<TextBoxInfo>)
    ensures |infos| == |boxes| && forall i :: 0 <= i < |boxes| ==> infos[i] == BoxToInfo(boxes[i])
  {
    seq(|boxes|, i requires 0 <= i < |boxes| => BoxToInfo(boxes[i]))
  }

  /**
   * Storing a page and reading it back gives each box's text, language and
   * rectangle; the rotation comes back as 0, and confidence and metadata
   * as their defaults.
   */
  lemma SaveThenConvert(boxes: seq<ChineseTextBox>)
    ensures Decode(Encode(Infos(boxes))) == Success(Infos(boxes))
    ensures forall i :: 0 <= i < |boxes| ==>
      InfoToBox(Infos(boxes)[i]) == ChineseTextBox(boxes[i].boundingBox, boxes[i].text, 0, boxes[i].language)
  {
    DecodeEncode(Infos(boxes));
  }

  /** The boxes with entry `boxIndex` given an analysis and its source language. */
  function Annotate(boxes: seq<TextBoxInfo>, boxIndex: int, analysis: string, sourceLanguage: string): (r: seq<TextBoxInfo>)
    requires 0 <= boxIndex < |boxes|
    ensures |r| == |boxes|
    ensures forall j :: 0 <= j < |boxes| && j != boxIndex ==> r[j] == boxes[j]
    ensures r[boxIndex].analysis == Some(analysis) && r[boxIndex].sourceLanguage == Some(sourceLanguage)
    ensures r[boxIndex].(analysis := None, sourceLanguage := None) == boxes[boxIndex].(analysis := None, sourceLanguage := None)
  {
    boxes[boxIndex := boxes[boxIndex].(analysis := Some(analysis), sourceLanguage := Some(sourceLanguage))]
  }

  /**
   * What annotating box `boxIndex` of a stored page comes to: the reader's
   * error, `None` for an index outside the page, or the annotated boxes.
   */
  function AnnotateStored(json: JsonText, boxIndex: int, analysis: string, sourceLanguage: string)
    : (r: Result<Option<seq<TextBoxInfo>>, JsonError>)
    ensures r.Failure? <==> Decode(json).Failure?
    ensures r.Failure? ==> r.error == Decode(json).error
    ensures r.Success? && r.value.None? <==> Decode(json).Success? && !(0 <= boxIndex < |Decode(json).value|)
  {
    match Decode(json)
    case Failure(e) => Failure(e)
    case Success(boxes) =>
      if 0 <= boxIndex < |boxes| then Success(Some(Annotate(boxes, boxIndex, analysis, sourceLanguage)))
      else Success(None)
  }

  /**
   * An annotation that goes through changes only the chosen entry's
   * analysis, and the page written back reads back as the annotated boxes.
   */
  lemma AnnotateStoredRoundTrip(json: JsonText, boxIndex: int, analysis: string, sourceLanguage: string)
    requires AnnotateStored(json, boxIndex, analysis, sourceLanguage).Success?
    requires AnnotateStored(json, boxIndex, analysis, sourceLanguage).value.Some?
    ensures var boxes := Decode(json).value;
      var annotated := AnnotateStored(json, boxIndex, analysis, sourceLanguage).value.value;
      && 0 <= boxIndex < |boxes| == |annotated|
      && (forall j :: 0 <= j < |boxes| && j != boxIndex ==> annotated[j] == boxes[j])
      && annotated[boxIndex].analysis == Some(analysis)
      && annotated[boxIndex].sourceLanguage == Some(sourceLanguage)
      && Decode(Encode(annotated)) == Success(annotated)
  {
    DecodeEncode(AnnotateStored(json, boxIndex, analysis, sourceLanguage).value.value);
  }

  /**
   * The column step of `updatePreviousCaptureAnalysis`: read the stored
   * boxes, annotate the chosen one and write the list back, or report why
   * nothing is to be written.
   */
  method AnnotateColumn(json: JsonText, boxIndex: int, analysis: string, sourceLanguage: string)
    returns (r: Result<Option<JsonText>, JsonError>)
    ensures var stored := AnnotateStored(json, boxIndex, analysis, sourceLanguage);
      && (stored.Failure? ==> r == Failure(stored.error))
      && (stored.Success? && stored.value.None? ==> r == Success(None))
      && (stored.Success? && stored.value.Some? ==> r == Success(Some(Encode(stored.value.value))))
  {
    var decoded := ToTextBoxList(json);
    if decoded.Failure? {
      return Failure(decoded.error);
    }
    var textBoxes := decoded.value;
    if 0 <= boxIndex < |textBoxes| {
      textBoxes := Annotate(textBoxes, boxIndex, analysis, sourceLanguage);
      var written := FromTextBoxList(textBoxes);
      return Success(Some(written));
    }
    return Success(None);
  }

  /**
   * The table and the error after annotating box `boxIndex` of page
   * `captureId`: the page's stored boxes rewritten when the annotation goes
   * through, the table as it was otherwise.
   */
  function AnnotatePage(rows: seq<PreviousCapture>, captureId: int, boxIndex: int, analysis: string,
                        sourceLanguage: string): (seq<PreviousCapture>, Option<JsonError>)
  {
    match Find(rows, PreviousId, captureId)
    case None => (rows, None)
    case Some(page) =>
      match AnnotateStored(page.textBoxesJson, boxIndex, analysis, sourceLanguage)
      case Failure(e) => (rows, Some(e))
      case Success(None) => (rows, None)
      case Success(Some(annotated)) =>
        (ReplaceId(rows, PreviousId, captureId, WithTextBoxes(Encode(annotated))), None)
  }

  /**
   * A missing page, unreadable stored boxes or an index outside the page
   * leave the table as it was, and only unreadable boxes report an error
   * (the reader's). Otherwise no error is reported, the ids and every other
   * page are kept, and the page now reads back as its boxes with the chosen
   * one annotated.
   */
  lemma AnnotatePageEffect(rows: seq<PreviousCapture>, captureId: int, boxIndex: int, analysis: string,
                           sourceLanguage: string)
    ensures var (after, error) := AnnotatePage(rows, captureId, boxIndex, analysis, sourceLanguage);
      var page := Find(rows, PreviousId, captureId);
      var r := if page.Some? then AnnotateStored(page.value.textBoxesJson, boxIndex, analysis, sourceLanguage)
               else Success(None);
      && (error.Some? <==> page.Some? && r.Failure?)
      && (page.Some? && r.Failure? ==> error.value == Decode(page.value.textBoxesJson).error)
      && (r.Failure? || r.value.None? ==> after == rows)
      && (r.Success? && r.value.Some? ==>
            && |after| == |rows|
            && (forall i :: 0 <= i < |rows| ==> PreviousId(after[i]) == PreviousId(rows[i]))
            && (forall i :: 0 <= i < |rows| && rows[i].id != captureId ==> after[i] == rows[i])
            && Find(after, PreviousId, captureId).Some?
            && Decode(Find(after, PreviousId, captureId).value.textBoxesJson) == Success(r.value.value))
  {
    var page := Find(rows, PreviousId, captureId);
    if page.Some? {
      var r := AnnotateStored(page.value.textBoxesJson, boxIndex, analysis, sourceLanguage);
      if r.Success? && r.value.Some? {
        FindReplaced(rows, PreviousId, captureId, WithTextBoxes(Encode(r.value.value)));
        AnnotateStoredRoundTrip(page.value.textBoxesJson, boxIndex, analysis, sourceLanguage);
      }
    }
  }

  class CaptureRepository {
    const filesDir: string
    const smallDao: SmallCaptureDao
    const previousDao: PreviousCaptureDao
    /** The image files that exist. */
    var files: set<string>

    ghost predicate Valid()
      reads this, smallDao, previousDao
    {
      smallDao.Valid() && previousDao.Valid()
    }

    constructor (filesDir: string)
      ensures Valid() && this.filesDir == filesDir && files == {}
      ensures fresh(smallDao) && fresh(previousDao) && smallDao.rows == [] && previousDao.rows == []
    {
      this.filesDir := filesDir;
      smallDao := new SmallCaptureDao();
      previousDao := new PreviousCaptureDao();
      files := {};
    }

    /** Where a cropped capture taken at `stamp` is written. */
    function SmallPath(stamp: nat): string
      reads this
    {
      filesDir + "/captures/small/small_" + DecimalString(stamp) + ".jpg"
    }

    /** Where a full page taken at `stamp` is written. */
    function FullPath(stamp: nat): string
      reads this
    {
      filesDir + "/captures/full/full_" + DecimalString(stamp) + ".jpg"
    }

    /** `saveSmallCapture`: write the image, then add a record with no analysis pointing at it. */
    method SaveSmallCapture(text: string, language: string, stamp: nat, createdAt: int) returns (id: int)
      requires Valid()
      modifies this, smallDao
      ensures Valid() && unchanged(previousDao)
      ensures files == old(files) + {SmallPath(stamp)}
      ensures id == old(smallDao.nextId)
      ensures smallDao.rows == old(smallDao.rows) + [SmallCapture(id, SmallPath(stamp), text, language, None, None, createdAt)]
    {
      var path := SmallPath(stamp);
      files := files + {path};
      var inserted := smallDao.Insert(SmallCapture(imagePath := path, text := text, language := language, createdAt := createdAt));
      id := inserted.value;
    }

    /** `updateSmallCaptureAnalysis`. */
    method UpdateSmallCaptureAnalysis(id: int, analysis: string, sourceLanguage: string)
      requires Valid()
      modifies smallDao
      ensures Valid() && unchanged(previousDao)
      ensures smallDao.rows == ReplaceId(old(smallDao.rows), SmallId, id, WithAnalysis(analysis, sourceLanguage))
    {
      smallDao.UpdateAnalysis(id, analysis, sourceLanguage);
    }

    /** `deleteSmallCapture`: delete the image and the record of a present id; an absent id changes nothing. */
    method DeleteSmallCapture(id: int)
      requires Valid()
      modifies this, smallDao
      ensures Valid() && unchanged(previousDao)
      ensures old(smallDao.ById(id)).None? ==> files == old(files) && smallDao.rows == old(smallDao.rows)
      ensures old(smallDao.ById(id)).Some? ==>
        && files == old(files) - {old(smallDao.ById(id)).value.imagePath}
        && smallDao.rows == RemoveId(old(smallDao.rows), SmallId, id)
        && |smallDao.rows| == |old(smallDao.rows)| - 1
      ensures smallDao.ById(id).None?
    {
      match smallDao.ById(id)
      case Some(capture) =>
        files := files - {capture.imagePath};
        smallDao.DeleteById(id);
      case None =>
    }

    /** `savePreviousCapture`: write the page image, then add a record storing one entry per box. */
    method SavePreviousCapture(textBoxes: seq<ChineseTextBox>, stamp: nat, createdAt: int) returns (id: int)
      requires Valid()
      modifies this, previousDao
      ensures Valid() && unchanged(smallDao)
      ensures files == old(files) + {FullPath(stamp)}
      ensures id == old(previousDao.nextId)
      ensures previousDao.rows == old(previousDao.rows) + [PreviousCapture(id, FullPath(stamp), Encode(Infos(textBoxes)), createdAt)]
    {
      var path := FullPath(stamp);
      files := files + {path};
      var textBoxInfoList := Infos(textBoxes);
      var json := FromTextBoxList(textBoxInfoList);
      var inserted := previousDao.Insert(PreviousCapture(imagePath := path, textBoxesJson := json, createdAt := createdAt));
      id := inserted.value;
    }

    /**
     * `updatePreviousCaptureAnalysis`: give one stored box of a page an
     * analysis. A missing page or an index outside the page's boxes changes
     * nothing; stored boxes that cannot be read raise the reader's error and
     * change nothing.
     */
    method UpdatePreviousCaptureAnalysis(captureId: int, boxIndex: int, analysis: string, sourceLanguage: string)
      returns (error: Option<JsonError>)
      requires Valid()
      modifies previousDao
      ensures Valid() && unchanged(smallDao)
      ensures (previousDao.rows, error) == AnnotatePage(old(previousDao.rows), captureId, boxIndex, analysis, sourceLanguage)
    {
      var found := previousDao.ById(captureId);
      ghost var rows := previousDao.rows;
      assert found == Find(rows, PreviousId, captureId);
      if found.None? {
        return None;
      }
      var written := AnnotateColumn(found.value.textBoxesJson, boxIndex, analysis, sourceLanguage);
      ghost var stored := AnnotateStored(found.value.textBoxesJson, boxIndex, analysis, sourceLanguage);
      if written.Failure? {
        assert AnnotatePage(rows, captureId, boxIndex, analysis, sourceLanguage) == (rows, Some(written.error));
        return Some(written.error);
      }
      if written.value.Some? {
        assert AnnotatePage(rows, captureId, boxIndex, analysis, sourceLanguage)
            == (ReplaceId(rows, PreviousId, captureId, WithTextBoxes(written.value.value)), None);
        previousDao.UpdateTextBoxes(captureId, written.value.value);
      } else {
        assert AnnotatePage(rows, captureId, boxIndex, analysis, sourceLanguage) == (rows, None);
      }
      error := None;
    }

    /** `deletePreviousCapture`: delete the image and the record of a present id; an absent id changes nothing. */
    method DeletePreviousCapture(id: int)
      requires Valid()
      modifies this, previousDao
      ensures Valid() && unchanged(smallDao)
      ensures old(previousDao.ById(id)).None? ==> files == old(files) && previousDao.rows == old(previousDao.rows)
      ensures old(previousDao.ById(id)).Some? ==>
        && files == old(files) - {old(previousDao.ById(id)).value.imagePath}
        && previousDao.rows == RemoveId(old(previousDao.rows), PreviousId, id)
        && |previousDao.rows| == |old(previousDao.rows)| - 1
      ensures previousDao.ById(id).None?
    {
      match previousDao.ById(id)
      case Some(capture) =>
        files := files - {capture.imagePath};
        previousDao.DeleteById(id);
      case None =>
    }
  }
}
