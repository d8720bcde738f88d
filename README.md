# Miteiru core, modelled in Dafny

Miteiru is an Android reader for photographed Chinese and Japanese text. It
runs text recognition on a camera frame or an imported image. It draws a
box over every recognised block and opens a detail screen for the block
that is tapped. There it splits the text into sentences and shows a
pronunciation line above every word. Captures can be kept in a local
history database.

This project models the core of the app as verified Dafny:

- **Pronunciation pipeline** (`pronunciations.dfy`, `mandarin.dfy`, `processors.dfy`, `displays.dfy`, `text.dfy`).
  - The `Granule`/`Part`/`PronunciationInfo` records and the tone-mark formatters.
  - The Mandarin segmenter: greedy longest-match against a 12-word dictionary, with one character at a time as the fallback. Character pinyin comes from a lookup function that stands in for the pinyin4j library.
  - The Cantonese and Japanese placeholder processors.
  - The column layout the Chinese display renders, and the choice of display.
- **Recognition** (`analyzer.dfy`, `textbox.dfy`). The script detector, the success listener that turns recognised blocks into `ChineseTextBox`es, and the box record with its metadata.
- **Geometry** (`geometry.dfy`, `crop.dfy`).
  - The fit-and-centre scaling and the padded overlay boxes of the two `TextRecognitionBox` composables.
  - The two `cropBitmapByRect` variants, on integer pixel coordinates.
- **History store** (`entities.dfy`, `sorting.dfy`, `daos.dfy`, `repository.dfy`).
  - The Room entities and the JSON `TextBoxConverter`.
  - The two DAOs as classes over a row sequence: descending `createdAt` order, `LIMIT`, auto-generated ids and the uniqueness of the primary key.
  - `CaptureRepository` as a class over the two DAOs and the set of image files on disk.
- **Screen rules** (`screens.dfy`).
  - Sentence splitting, the selected sentence and the initial pronunciation type.
  - The guards on the translate and save buttons of the detail screen and the review screen. The detail screen's state is a class.

The operations in the table below are stated against a partner: an inverse
(JSON decode after encode, split after join, tone strip after tone append),
a reference definition (the segmentation as a recursive function against
which the `while` loop is proved; the sentence filter as the line-by-line
concatenation of trimmed lines), or an invariant it keeps (distinct ids,
sorted history, a crop that stays inside the bitmap). The helper functions
without a contract of their own are listed under "Left out" with the lemmas
that state their properties.

## Model

| member | source | states |
|---|---|---|
| Pronunciations.FormatMandarinTone | app/src/main/java/id/hocky/miteiru/utils/Pronunciations.kt:32-50 | no pinyin gives ""; otherwise the result starts with the pinyin and is longer than it exactly for tones 1..4 |
| Pronunciations.FormatCantoneseTone | app/src/main/java/id/hocky/miteiru/utils/Pronunciations.kt:39-54 | no jyutping gives ""; otherwise the result starts with the jyutping and is longer than it exactly for tones 1..6 |
| Pronunciations.MandarinMarksDistinct | app/src/main/java/id/hocky/miteiru/utils/Pronunciations.kt:32-37 | the four Mandarin marks tell the tones apart: equal marked texts iff equal tones |
| Pronunciations.CantoneseMarksDistinct | app/src/main/java/id/hocky/miteiru/utils/Pronunciations.kt:39-46 | the six Cantonese marks tell the tones apart: equal marked texts iff equal tones |
| Pronunciations.MandarinUnmarkedTone | app/src/main/java/id/hocky/miteiru/utils/Pronunciations.kt:48-50 | a tone outside 1..4 (the neutral tone 0 included) leaves the pinyin unmarked |
| Pronunciations.GranuleDefaults | app/src/main/java/id/hocky/miteiru/utils/Pronunciations.kt:7-14 | a granule built from a character alone has no readings and tones 0 |
| Pronunciations.WordsAppend | app/src/main/java/id/hocky/miteiru/utils/Pronunciations.kt:17-23 | the words of concatenated parts are the concatenated words |
| Pronunciations.AllGranulesAppend | app/src/main/java/id/hocky/miteiru/utils/Pronunciations.kt:17-23 | the granules of concatenated parts are the concatenated granules |
| Mandarin.WordDictionaryValid | app/src/main/java/id/hocky/miteiru/utils/language/MandarinProcessor.kt:21-35 | the built-in dictionary has non-empty, distinct words |
| Mandarin.WordDictionaryShortWords | app/src/main/java/id/hocky/miteiru/utils/language/MandarinProcessor.kt:21-35 | no dictionary word is longer than three characters |
| Mandarin.Get | app/src/main/java/id/hocky/miteiru/utils/language/MandarinProcessor.kt:50 | the lookup finds a pinyin exactly for the dictionary's words, and that pinyin is the word's entry |
| Mandarin.KeysByLength | app/src/main/java/id/hocky/miteiru/utils/language/MandarinProcessor.kt:46 | the sorted keys are the dictionary's keys, as many as entries, longest first |
| Mandarin.FirstPrefix | app/src/main/java/id/hocky/miteiru/utils/language/MandarinProcessor.kt:47 | the index found is the first key the remaining text starts with; none means no key is a prefix |
| Mandarin.MandarinProcessor.FirstMatchingWord | app/src/main/java/id/hocky/miteiru/utils/language/MandarinProcessor.kt:47 | the scan over the sorted keys returns the first prefix key |
| Mandarin.ToneOf | app/src/main/java/id/hocky/miteiru/utils/language/MandarinProcessor.kt:95-96 | the tone is the trailing digit of the syllable, and 0 when it has none |
| Mandarin.StripTone | app/src/main/java/id/hocky/miteiru/utils/language/MandarinProcessor.kt:95-96 | the pinyin with the tone digit put back is the syllable; without a digit the syllable is kept |
| Mandarin.ToneRoundTrip | app/src/main/java/id/hocky/miteiru/utils/language/MandarinProcessor.kt:95-96 | appending a tone digit 1..9 and reading it back gives the same pinyin and tone |
| Mandarin.TokenGranule | app/src/main/java/id/hocky/miteiru/utils/language/MandarinProcessor.kt:93-103 | a granule read from a syllable carries the character, no Cantonese or Japanese reading, and pinyin plus tone that spell the syllable |
| Mandarin.TokenGranuleOfTone | app/src/main/java/id/hocky/miteiru/utils/language/MandarinProcessor.kt:95-102 | a syllable with tone digit 1..9 yields that pinyin and that tone |
| Mandarin.CharToGranule | app/src/main/java/id/hocky/miteiru/utils/language/MandarinProcessor.kt:106-127 | a character with a candidate takes the first candidate's pinyin and tone; without one it is a bare granule of tone 0 |
| Mandarin.WordToGranules | app/src/main/java/id/hocky/miteiru/utils/language/MandarinProcessor.kt:85-104 | one granule per character; granule i from syllable i when the counts agree, otherwise from the per-character lookup |
| Mandarin.WordPartShape | app/src/main/java/id/hocky/miteiru/utils/language/MandarinProcessor.kt:48-61 | a dictionary word's part carries the word, its dictionary pinyin, and one granule per character built from the matching syllable |
| Mandarin.CharPartPinyin | app/src/main/java/id/hocky/miteiru/utils/language/MandarinProcessor.kt:65-79 | the fallback part is the character with its one granule; its pinyin is the first candidate, with "0" appended when its tone is 0 (so "a0" becomes "a00") |
| Mandarin.SortedKeysNonEmpty | app/src/main/java/id/hocky/miteiru/utils/language/MandarinProcessor.kt:46 | no sorted key is empty, so each round consumes text |
| Mandarin.SegmentWord | app/src/main/java/id/hocky/miteiru/utils/language/MandarinProcessor.kt:47-63 | when a key matches, the segmentation is that word's part followed by the segmentation of the rest |
| Mandarin.SegmentChar | app/src/main/java/id/hocky/miteiru/utils/language/MandarinProcessor.kt:65-79 | when no key matches, the segmentation is the first character's part followed by the segmentation of the rest |
| Mandarin.SegmentReconstructs | app/src/main/java/id/hocky/miteiru/utils/language/MandarinProcessor.kt:42-80 | the words of the parts spell the input text |
| Mandarin.SegmentCoversCharacters | app/src/main/java/id/hocky/miteiru/utils/language/MandarinProcessor.kt:42-80 | the granules of all parts are the characters of the text, one each, in order |
| Mandarin.SegmentPartsWellFormed | app/src/main/java/id/hocky/miteiru/utils/language/MandarinProcessor.kt:42-80 | every part has one granule per character of its word |
| Mandarin.LongestMatch | app/src/main/java/id/hocky/miteiru/utils/language/MandarinProcessor.kt:46-61 | when some dictionary word starts the text, the first part is a dictionary word that starts it, and no word that starts the text is longer |
| Mandarin.LongestKeyWins | app/src/main/java/id/hocky/miteiru/utils/language/MandarinProcessor.kt:46-61 | a word that starts the text and is at least as long as every key becomes the first part |
| Mandarin.NoPrefix | app/src/main/java/id/hocky/miteiru/utils/language/MandarinProcessor.kt:65-79 | text that starts with no dictionary word loses one character to a fallback part |
| Mandarin.ZaoShangHaoFirst | app/src/main/java/id/hocky/miteiru/utils/language/MandarinProcessor.kt:21-61 | text beginning with 早上好 becomes that three-character word before anything else |
| Mandarin.MandarinProcessor.constructor | app/src/main/java/id/hocky/miteiru/utils/language/MandarinProcessor.kt:21-35 | the processor holds the built-in dictionary, which is valid |
| Mandarin.MandarinProcessor.ProcessSentence | app/src/main/java/id/hocky/miteiru/utils/language/MandarinProcessor.kt:37-83 | the while loop returns the text and exactly the recursive segmentation |
| Processors.CantoneseSentence | app/src/main/java/id/hocky/miteiru/utils/language/CantoneseProcessor.kt:9-26 | the placeholder keeps the text and makes one part per character, with no jyutping |
| Processors.JapaneseSentence | app/src/main/java/id/hocky/miteiru/utils/language/JapaneseProcessor.kt:9-25 | the placeholder keeps the text and makes one part per character, with no reading |
| Processors.SingleCharacterWords | app/src/main/java/id/hocky/miteiru/utils/language/CantoneseProcessor.kt:11-23 | one-character parts spell the text |
| Processors.SingleCharacterGranules | app/src/main/java/id/hocky/miteiru/utils/language/JapaneseProcessor.kt:11-23 | one-character parts cover the text granule by granule and set no granule reading |
| Processors.PlaceholdersAgree | app/src/main/java/id/hocky/miteiru/utils/language/CantoneseProcessor.kt:9-26 | the Cantonese and Japanese placeholders produce the same parts |
| Processors.ProcessorsReconstruct | app/src/main/java/id/hocky/miteiru/utils/language/LanguageProcessor.kt:6-14 | whichever process is chosen, the parts spell the text and cover it character by character, and empty text gives no parts |
| ImageText.AnyCharIffExists | app/src/main/java/id/hocky/miteiru/utils/ImageTextAnalyzer.kt:80-87 | `any` holds exactly when some character satisfies the predicate |
| ImageText.DetectLanguagePrecedence | app/src/main/java/id/hocky/miteiru/utils/ImageTextAnalyzer.kt:80-87 | zh iff a Han character occurs; ja iff kana but no Han; ko iff Hangul only; en otherwise; no other code |
| ImageText.BoxOf | app/src/main/java/id/hocky/miteiru/utils/ImageTextAnalyzer.kt:51-57 | a box keeps the block's rectangle and text, rotation 0, confidence 0, and the detected language |
| ImageText.Kept | app/src/main/java/id/hocky/miteiru/utils/ImageTextAnalyzer.kt:47-61 | only blocks with a bounding box are kept, and never more blocks than given |
| ImageText.KeptAppend | app/src/main/java/id/hocky/miteiru/utils/ImageTextAnalyzer.kt:47-61 | filtering commutes with concatenation, so the kept blocks keep their order |
| ImageText.KeptMembers | app/src/main/java/id/hocky/miteiru/utils/ImageTextAnalyzer.kt:47-61 | a block is kept iff it is an input block with a bounding box |
| ImageText.OnSuccess | app/src/main/java/id/hocky/miteiru/utils/ImageTextAnalyzer.kt:41-69 | the loop builds one box per block with a bounding box; there are boxes iff such a block exists, and otherwise the text is reported empty |
| TextBoxes.WithMetadata | app/src/main/java/id/hocky/miteiru/components/ChineseTextBox.kt:29-34 | the key maps to the value, other keys keep theirs, and no other field changes |
| TextBoxes.WithMetadataIdempotent | app/src/main/java/id/hocky/miteiru/components/ChineseTextBox.kt:29-34 | adding the same entry twice is adding it once |
| TextBoxes.WithMetadataOrder | app/src/main/java/id/hocky/miteiru/components/ChineseTextBox.kt:29-34 | entries under different keys commute; the later value under one key wins |
| TextBoxes.ConfidenceMonotone | app/src/main/java/id/hocky/miteiru/components/ChineseTextBox.kt:26 | a box meeting a threshold meets every lower one, and meets its own confidence |
| TextBoxes.BoxDefaults | app/src/main/java/id/hocky/miteiru/components/ChineseTextBox.kt:13-19 | a new box has empty language, confidence 0 and no metadata |
| Displays.MandarinGranuleText | app/src/main/java/id/hocky/miteiru/components/textBoxPopUp/display/ChineseDisplay.kt:93-101 | a granule without pinyin shows its character; otherwise its pinyin, tone-marked exactly for tones 1..4 |
| Displays.CantoneseGranuleText | app/src/main/java/id/hocky/miteiru/components/textBoxPopUp/display/ChineseDisplay.kt:116-124 | a granule without jyutping shows its character; otherwise its jyutping, tone-marked exactly for tones 1..6 |
| Displays.Readings | app/src/main/java/id/hocky/miteiru/components/textBoxPopUp/display/ChineseDisplay.kt:63-72 | one reading per granule, each the formatter's text for it |
| Displays.Columns | app/src/main/java/id/hocky/miteiru/components/textBoxPopUp/display/ChineseDisplay.kt:43-76 | one column per part, carrying the part's word and its granules' readings |
| Displays.ColumnsSpellWords | app/src/main/java/id/hocky/miteiru/components/textBoxPopUp/display/ChineseDisplay.kt:43-76 | the column words, read left to right, are the parts' words |
| Displays.MandarinDisplaySpellsText | app/src/main/java/id/hocky/miteiru/components/textBoxPopUp/display/ChineseDisplay.kt:85-102 | the Mandarin columns spell the text, each with one reading per granule of its part |
| Displays.ColumnsPerCharacter | app/src/main/java/id/hocky/miteiru/components/textBoxPopUp/display/ChineseDisplay.kt:43-76 | columns of well-formed parts show one reading per character of their word |
| Displays.MandarinReadingPerCharacter | app/src/main/java/id/hocky/miteiru/components/textBoxPopUp/display/ChineseDisplay.kt:85-102 | every Mandarin column shows one reading per character of its word |
| Displays.PlaceholderDisplays | app/src/main/java/id/hocky/miteiru/components/textBoxPopUp/display/JapaneseDisplay.kt:21-70 | Cantonese shows each character over itself; Japanese shows each character over an empty reading |
| Displays.PronunciationDisplayDispatch | app/src/main/java/id/hocky/miteiru/components/textBoxPopUp/PronunciationDisplay.kt:13-44 | Mandarin iff zh and MANDARIN; Cantonese iff zh and CANTONESE; Japanese iff ja; nothing otherwise |
| Geometry.FitCentres | app/src/main/java/id/hocky/miteiru/components/camera/TextRecognitionBox.kt:176-186 | the scale is the smaller of the two ratios and the offsets centre the scaled image |
| Geometry.FitFits | app/src/main/java/id/hocky/miteiru/components/camera/TextRecognitionBox.kt:176-186 | the scaled image fits the container and fills it along one side, with offsets at least 0 |
| Geometry.FitExample | app/src/main/java/id/hocky/miteiru/components/camera/TextRecognitionBox.kt:176-186 | an 800x600 image in a 400x400 container scales by 0.5 with a 50 px top offset |
| Geometry.PlaceBox | app/src/main/java/id/hocky/miteiru/components/camera/TextRecognitionBox.kt:185-201 | times density, the box's edges are the scaled rectangle moved by the offsets and grown by the padding on each side |
| Geometry.CameraBoxDimensions | app/src/main/java/id/hocky/miteiru/components/camera/TextRecognitionBox.kt:161-202 | any zero image or container side gives the zero box; otherwise the fitted, padded box |
| Geometry.PaddingGrowsBox | app/src/main/java/id/hocky/miteiru/components/camera/TextRecognitionBox.kt:168-193 | extra padding moves the left and top edges out and grows width and height by twice the extra |
| Geometry.ScalingFactors | app/src/main/java/id/hocky/miteiru/components/TextRecognitionBox.kt:62-86 | a landscape image is fitted with its sides swapped; a portrait or square one as it is |
| Geometry.ScalingFactorsSymmetric | app/src/main/java/id/hocky/miteiru/components/TextRecognitionBox.kt:69-73 | an image and its rotation get the same factors |
| Geometry.ScalingFactorsFit | app/src/main/java/id/hocky/miteiru/components/TextRecognitionBox.kt:69-83 | the rotated image fits the screen with non-negative offsets |
| Geometry.OverlayScalesPadding | app/src/main/java/id/hocky/miteiru/components/TextRecognitionBox.kt:88-114 | the overlay is the placed box with the padding scaled by the image scale |
| Geometry.ScaledPaddingGrowsRect | app/src/main/java/id/hocky/miteiru/components/TextRecognitionBox.kt:97-105 | with padding scaled by the fit, the box is the rectangle grown by the padding on every side, then scaled |
| Geometry.OverlayGrowsRect | app/src/main/java/id/hocky/miteiru/components/TextRecognitionBox.kt:88-114 | times density, the overlay's width, height, left and top are the rectangle grown by 8 px of padding, then scaled and offset |
| Cropping.CropPadded | app/src/main/java/id/hocky/miteiru/utils/ImageUtils.kt:6-28 | no crop iff the clamped, padded rectangle is empty; otherwise the region lies inside the bitmap, has exactly the clamped edges, and holds every visible pixel of the rectangle |
| Cropping.CropPaddedNoneMeansNothingVisible | app/src/main/java/id/hocky/miteiru/utils/ImageUtils.kt:16-18 | with non-negative padding, a missing crop means no pixel of the rectangle lies in the bitmap |
| Cropping.CropPaddedMonotone | app/src/main/java/id/hocky/miteiru/utils/ImageUtils.kt:8-13 | more padding never loses a crop or a pixel of it |
| Cropping.CropClamped | app/src/main/java/id/hocky/miteiru/components/TextBoxPopup.kt:40-57 | the region lies inside the bitmap and holds exactly the rectangle's pixels that lie in the bitmap |
| Cropping.CropClampedInside | app/src/main/java/id/hocky/miteiru/components/TextBoxPopup.kt:42-47 | a rectangle inside the bitmap is cropped as itself |
| Cropping.CropClampedIsUnpadded | app/src/main/java/id/hocky/miteiru/components/TextBoxPopup.kt:40-57 | the popup's crop is the padded crop with padding 0 |
| Entities.EncodeBox | app/src/main/java/id/hocky/miteiru/data/entities/PreviousCapture.kt:43-52 | the object has exactly the eight keys, each holding its field, with null exactly for a missing analysis or source language |
| Entities.Encode | app/src/main/java/id/hocky/miteiru/data/entities/PreviousCapture.kt:40-56 | an array with one object per box, in order |
| Entities.FromTextBoxList | app/src/main/java/id/hocky/miteiru/data/entities/PreviousCapture.kt:40-56 | the loop writes exactly the encoding of the list |
| Entities.ToTextBoxList | app/src/main/java/id/hocky/miteiru/data/entities/PreviousCapture.kt:59-79 | the loop reads exactly the decoding: empty column gives [], a non-array or a bad element gives the first error |
| Entities.FailureSticks | app/src/main/java/id/hocky/miteiru/data/entities/PreviousCapture.kt:63-77 | once an element fails to decode, the whole array fails with that element's error |
| Entities.DecodeItemsLength | app/src/main/java/id/hocky/miteiru/data/entities/PreviousCapture.kt:63-77 | a decoded list has one box per array element |
| Entities.DecodeEncodeBox | app/src/main/java/id/hocky/miteiru/data/entities/PreviousCapture.kt:43-74 | a box read back from its own object is the same box |
| Entities.DecodeEncode | app/src/main/java/id/hocky/miteiru/data/entities/PreviousCapture.kt:40-79 | reading what fromTextBoxList wrote gives the same boxes in the same order |
| Entities.NullIsNotEmpty | app/src/main/java/id/hocky/miteiru/data/entities/PreviousCapture.kt:50-74 | a missing analysis is written as null and an empty one as ""; the analysis survives the round trip |
| Sorting.SortDescBy | app/src/main/java/id/hocky/miteiru/data/dao/SmallCaptureDao.kt:9-10 | the result is a permutation of the rows, ordered by descending key |
| Sorting.InsertKeepsSorted | app/src/main/java/id/hocky/miteiru/data/dao/SmallCaptureDao.kt:9-10 | inserting into a descending list keeps it descending |
| Sorting.PermutationFacts | app/src/main/java/id/hocky/miteiru/data/dao/SmallCaptureDao.kt:9-10 | a permutation has the same length and the same members |
| Daos.Find | app/src/main/java/id/hocky/miteiru/data/dao/SmallCaptureDao.kt:15-16 | a row found has the id; none found iff no row has it |
| Daos.FindUnique | app/src/main/java/id/hocky/miteiru/data/dao/SmallCaptureDao.kt:15-16 | with distinct ids, looking up a row's id finds that row |
| Daos.RemoveId | app/src/main/java/id/hocky/miteiru/data/dao/SmallCaptureDao.kt:27-28 | exactly the rows with other ids remain |
| Daos.RemoveAbsent | app/src/main/java/id/hocky/miteiru/data/dao/SmallCaptureDao.kt:27-28 | deleting an absent id changes nothing |
| Daos.RemovePresent | app/src/main/java/id/hocky/miteiru/data/dao/SmallCaptureDao.kt:27-28 | deletion keeps ids distinct, removes one row when the id was present, and leaves no row with it |
| Daos.ReplaceId | app/src/main/java/id/hocky/miteiru/data/dao/SmallCaptureDao.kt:21-31 | same length and ids; rows with the id are updated, all others unchanged |
| Daos.FindReplaced | app/src/main/java/id/hocky/miteiru/data/dao/PreviousCaptureDao.kt:30-31 | after an update by id, the row found is the update of the row found before |
| Daos.Limit | app/src/main/java/id/hocky/miteiru/data/dao/SmallCaptureDao.kt:12-13 | SQLite LIMIT: the first limit rows, all of them for a negative or too-large limit |
| Daos.SmallCaptureDao.constructor | app/src/main/java/id/hocky/miteiru/data/dao/SmallCaptureDao.kt:7-8 | an empty table whose first generated id is 1 |
| Daos.SmallCaptureDao.All | app/src/main/java/id/hocky/miteiru/data/dao/SmallCaptureDao.kt:9-10 | all rows, newest first |
| Daos.SmallCaptureDao.Recent | app/src/main/java/id/hocky/miteiru/data/dao/SmallCaptureDao.kt:12-13 | the newest limit rows, or all rows for a negative or too-large limit, as a prefix of All |
| Daos.SmallCaptureDao.ById | app/src/main/java/id/hocky/miteiru/data/dao/SmallCaptureDao.kt:15-16 | the row with the id, or none iff no row has it |
| Daos.SmallCaptureDao.Insert | app/src/main/java/id/hocky/miteiru/data/dao/SmallCaptureDao.kt:18-19 | id 0 is replaced by the next generated id; an explicit id already present fails and changes nothing; success appends the row, which ById then finds, and moves the next generated id past every id used (old next id or stored id + 1, whichever is larger), so two inserts of id 0 get consecutive ids |
| Daos.SmallCaptureDao.Update | app/src/main/java/id/hocky/miteiru/data/dao/SmallCaptureDao.kt:21-22 | the row with the capture's id becomes the capture; no other row changes |
| Daos.SmallCaptureDao.DeleteById | app/src/main/java/id/hocky/miteiru/data/dao/SmallCaptureDao.kt:27-28 | the id's row is gone, one row fewer if it existed, nothing changed otherwise |
| Daos.SmallCaptureDao.UpdateAnalysis | app/src/main/java/id/hocky/miteiru/data/dao/SmallCaptureDao.kt:30-31 | only the id's row changes, and only its analysis and source language |
| Daos.PreviousCaptureDao.constructor | app/src/main/java/id/hocky/miteiru/data/dao/PreviousCaptureDao.kt:7-8 | an empty table whose first generated id is 1 |
| Daos.PreviousCaptureDao.All | app/src/main/java/id/hocky/miteiru/data/dao/PreviousCaptureDao.kt:9-10 | all rows, newest first |
| Daos.PreviousCaptureDao.Recent | app/src/main/java/id/hocky/miteiru/data/dao/PreviousCaptureDao.kt:12-13 | the newest limit rows, or all rows for a negative or too-large limit, as a prefix of All |
| Daos.PreviousCaptureDao.ById | app/src/main/java/id/hocky/miteiru/data/dao/PreviousCaptureDao.kt:15-16 | the row with the id, or none iff no row has it |
| Daos.PreviousCaptureDao.Insert | app/src/main/java/id/hocky/miteiru/data/dao/PreviousCaptureDao.kt:18-19 | id 0 is replaced by the next generated id; an explicit id already present fails and changes nothing; success appends the row, which ById then finds, and moves the next generated id past every id used (old next id or stored id + 1, whichever is larger), so two inserts of id 0 get consecutive ids |
| Daos.PreviousCaptureDao.Update | app/src/main/java/id/hocky/miteiru/data/dao/PreviousCaptureDao.kt:21-22 | the row with the capture's id becomes the capture; no other row changes |
| Daos.PreviousCaptureDao.DeleteById | app/src/main/java/id/hocky/miteiru/data/dao/PreviousCaptureDao.kt:27-28 | the id's row is gone, one row fewer if it existed, nothing changed otherwise |
| Daos.PreviousCaptureDao.UpdateTextBoxes | app/src/main/java/id/hocky/miteiru/data/dao/PreviousCaptureDao.kt:30-31 | only the id's row changes, and only its stored boxes |
| Repository.BoxToInfo | app/src/main/java/id/hocky/miteiru/data/CaptureRepository.kt:80-89 | the stored box keeps text, language and edges, with no analysis yet |
| Repository.InfoToBox | app/src/main/java/id/hocky/miteiru/data/CaptureRepository.kt:126-134 | the rebuilt box has the stored text, language and edges, rotation 0, confidence 0, no metadata |
| Repository.Infos | app/src/main/java/id/hocky/miteiru/data/CaptureRepository.kt:80-89 | one stored box per box, in order |
| Repository.SaveThenConvert | app/src/main/java/id/hocky/miteiru/data/CaptureRepository.kt:80-134 | a saved page reads back as its boxes, and each converts back to its box with rotation and confidence reset |
| Repository.Annotate | app/src/main/java/id/hocky/miteiru/data/CaptureRepository.kt:109-115 | only the chosen box changes, and only its analysis and source language |
| Repository.AnnotateStored | app/src/main/java/id/hocky/miteiru/data/CaptureRepository.kt:107-115 | fails iff the column does not decode, with its error; nothing to write iff the index is out of range |
| Repository.AnnotateStoredRoundTrip | app/src/main/java/id/hocky/miteiru/data/CaptureRepository.kt:107-115 | the annotated list keeps every other box and reads back from its encoding unchanged |
| Repository.AnnotateColumn | app/src/main/java/id/hocky/miteiru/data/CaptureRepository.kt:107-115 | decode, annotate and re-encode give the stored error, nothing, or the encoding of the annotated list |
| Repository.AnnotatePageEffect | app/src/main/java/id/hocky/miteiru/data/CaptureRepository.kt:99-116 | an error iff the page exists and its column does not decode; the table changes only by rewriting that page's column, which then reads back as the annotated boxes |
| Repository.CaptureRepository.constructor | app/src/main/java/id/hocky/miteiru/data/CaptureRepository.kt:16-28 | two empty tables and no files |
| Repository.CaptureRepository.SaveSmallCapture | app/src/main/java/id/hocky/miteiru/data/CaptureRepository.kt:35-52 | one image file added and one row appended under the next generated id |
| Repository.CaptureRepository.UpdateSmallCaptureAnalysis | app/src/main/java/id/hocky/miteiru/data/CaptureRepository.kt:54-56 | the capture's analysis and source language are set; nothing else changes |
| Repository.CaptureRepository.DeleteSmallCapture | app/src/main/java/id/hocky/miteiru/data/CaptureRepository.kt:58-63 | a missing id changes nothing; otherwise its image file and its row are removed |
| Repository.CaptureRepository.SavePreviousCapture | app/src/main/java/id/hocky/miteiru/data/CaptureRepository.kt:70-97 | one image file added and one row appended whose column encodes the boxes |
| Repository.CaptureRepository.UpdatePreviousCaptureAnalysis | app/src/main/java/id/hocky/miteiru/data/CaptureRepository.kt:99-116 | the table and the reported error are exactly those of the page annotation |
| Repository.CaptureRepository.DeletePreviousCapture | app/src/main/java/id/hocky/miteiru/data/CaptureRepository.kt:118-123 | a missing id changes nothing; otherwise its image file and its row are removed |
| Text.JoinSplit | app/src/main/java/id/hocky/miteiru/components/camera/TextDetailScreen.kt:78-79 | joining the pieces of a split with the separator gives the text back |
| Text.SplitJoin | app/src/main/java/id/hocky/miteiru/components/camera/TextDetailScreen.kt:78-79 | splitting a join of separator-free pieces gives the pieces back |
| Text.SplitCount | app/src/main/java/id/hocky/miteiru/components/camera/TextDetailScreen.kt:78-79 | a split has one piece more than the separators in the text |
| Text.Trim | app/src/main/java/id/hocky/miteiru/components/camera/TextDetailScreen.kt:80 | the trimmed text is a slice of the text with no whitespace at either end |
| Text.Split | app/src/main/java/id/hocky/miteiru/components/camera/TextDetailScreen.kt:79 | at least one piece, none containing the delimiter |
| Text.TrimUnpadded | app/src/main/java/id/hocky/miteiru/components/camera/TextDetailScreen.kt:80 | a string with no whitespace at either end is its own trim |
| Text.TrimEmptyIffBlank | app/src/main/java/id/hocky/miteiru/components/camera/TextDetailScreen.kt:80-81 | trimming gives "" iff the text is blank |
| Screens.TrimmedNonEmpty | app/src/main/java/id/hocky/miteiru/components/camera/TextDetailScreen.kt:80-81 | at most one sentence per line, each non-empty and trimmed |
| Screens.TrimmedNonEmptyLine | app/src/main/java/id/hocky/miteiru/components/camera/TextDetailScreen.kt:80-81 | one line gives its trimmed text, or nothing when it is blank |
| Screens.TrimmedNonEmptyConcatMap | app/src/main/java/id/hocky/miteiru/components/camera/TextDetailScreen.kt:80-81 | the map-then-filter over the lines equals the concatenation, in line order, of what each line contributes (its trimmed text, or nothing) |
| Screens.TrimmedNonEmptyAppend | app/src/main/java/id/hocky/miteiru/components/camera/TextDetailScreen.kt:80-81 | the filter works line by line and keeps line order: the result for two blocks of lines is the first block's result followed by the second's |
| Screens.TrimmedNonEmptyEmpty | app/src/main/java/id/hocky/miteiru/components/camera/TextDetailScreen.kt:80-82 | no sentence survives iff every line is blank |
| Screens.BlankJoin | app/src/main/java/id/hocky/miteiru/components/camera/TextDetailScreen.kt:78-82 | lines joined by a newline are blank iff every line is |
| Screens.Sentences | app/src/main/java/id/hocky/miteiru/components/camera/TextDetailScreen.kt:77-83 | at least one sentence, and no more than the lines |
| Screens.SentencesOfLines | app/src/main/java/id/hocky/miteiru/components/camera/TextDetailScreen.kt:77-83 | for newline-joined lines: the trimmed non-blank lines in their order, or the whole text alone when every line is blank |
| Screens.SentencesExample | app/src/main/java/id/hocky/miteiru/components/camera/TextDetailScreen.kt:77-83 | "你好" followed by a blank line gives the one sentence "你好" |
| Screens.SentencesFallback | app/src/main/java/id/hocky/miteiru/components/camera/TextDetailScreen.kt:82 | blank text is its own single sentence; otherwise the sentences are the filtered lines of the newline split, each non-empty and trimmed |
| Screens.SelectedSentence | app/src/main/java/id/hocky/miteiru/components/camera/TextDetailScreen.kt:85 | the indexed sentence, or the whole text for an index out of range |
| Screens.InitialPronunciation | app/src/main/java/id/hocky/miteiru/components/camera/TextDetailScreen.kt:88-96 | Japanese iff the language is ja, Mandarin otherwise, never Cantonese |
| Screens.DetailTranslate | app/src/main/java/id/hocky/miteiru/components/camera/TextDetailScreen.kt:171-187 | refused iff the key is blank; otherwise a request with the trimmed, non-empty key and the sentence |
| Screens.EnabledTranslateIsSent | app/src/main/java/id/hocky/miteiru/components/camera/TextDetailScreen.kt:171-189 | when the button is enabled, a press sends a request |
| Screens.DetailScreen.constructor | app/src/main/java/id/hocky/miteiru/components/camera/TextDetailScreen.kt:61-107 | the screen opens uncropped, unsaved, idle, on sentence 0 |
| Screens.DetailScreen.CropLoaded | app/src/main/java/id/hocky/miteiru/components/camera/TextDetailScreen.kt:66-73 | the crop becomes available; nothing else changes |
| Screens.DetailScreen.Save | app/src/main/java/id/hocky/miteiru/components/camera/TextDetailScreen.kt:240-253 | a press stores one file and one row with the box's text and language under the next id; the screen is untouched, so the button stays enabled until the save completes |
| Screens.DetailScreen.SaveDone | app/src/main/java/id/hocky/miteiru/components/camera/TextDetailScreen.kt:248 | once the save has completed the screen is marked saved and the button is disabled |
| Screens.DetailScreen.SelectSentence | app/src/main/java/id/hocky/miteiru/components/camera/TextDetailScreen.kt:84-85 | only the selected index changes |
| Screens.DetailScreen.Translate | app/src/main/java/id/hocky/miteiru/components/camera/TextDetailScreen.kt:171-187 | the press sends the selected sentence exactly as DetailTranslate says, and translating starts iff it is sent |
| Screens.DetailScreen.TranslationDone | app/src/main/java/id/hocky/miteiru/components/camera/TextDetailScreen.kt:185-186 | translating stops; nothing else changes |
| Screens.FirstBox | app/src/main/java/id/hocky/miteiru/components/camera/CaptureReviewScreen.kt:78 | no box iff the page has none; otherwise the first |
| Screens.ReviewSentences | app/src/main/java/id/hocky/miteiru/components/camera/CaptureReviewScreen.kt:106-113 | no sentences iff no box is selected; otherwise the sentences of its text |
| Screens.ReviewSelectedSentence | app/src/main/java/id/hocky/miteiru/components/camera/CaptureReviewScreen.kt:115 | the indexed sentence, or the selected box's text (or "") for an index out of range |
| Screens.ReviewPronunciation | app/src/main/java/id/hocky/miteiru/components/camera/CaptureReviewScreen.kt:88-104 | Japanese iff the selected box's language is ja, Mandarin otherwise, never Cantonese |
| Screens.ReviewTranslate | app/src/main/java/id/hocky/miteiru/components/camera/CaptureReviewScreen.kt:257-279 | a request is sent iff the key is not blank and the sentence (or the box text when the sentence is blank) is not blank; a blank key is refused first, then a blank text; a request carries the trimmed key and that text |
| Screens.ReviewTranslateAccepted | app/src/main/java/id/hocky/miteiru/components/camera/CaptureReviewScreen.kt:257-279 | with a key and a first box with text, translating sends a request whatever sentence is selected |

## Left out

- The Jetpack Compose layout, navigation, toasts and the camera preview are not modelled; only the rules the screens apply are.
- The text recogniser (ML Kit), bitmap decoding and pixel copying are left out. Recognised blocks, image sizes and bitmap dimensions are parameters, and a crop is a pixel region.
- The OpenRouter request and its reply are left out. The model stops at the request a press would send, and `TranslationDone` stands for its completion.
- pinyin4j is replaced by a `PinyinLookup` parameter, which returns a character's candidate syllables or a failure.
- Kotlin `Float` is modelled as `real`, with no rounding. Dividing by a zero density is excluded by `requires density != 0.0`.
- Geometry.OverlayBox: the overlay in components/TextRecognitionBox.kt divides by the image sides without a guard. The model requires them non-zero and carries no ensures of its own. Its properties are stated by `OverlayGrowsRect` and `OverlayScalesPadding` on the same arithmetic.
- Geometry.Fit: no contract of its own; its properties are `FitCentres`, `FitFits` and `FitExample`.
- Geometry.OverlayBoxDimensions: no ensures; its properties are `OverlayScalesPadding` and `OverlayGrowsRect`.
- ImageText.DetectLanguage: no ensures; its properties are `DetectLanguagePrecedence`.
- Mandarin.Segment and Mandarin.SegmentWith: no ensures; their properties are `SegmentWord`, `SegmentChar`, `SegmentReconstructs`, `SegmentCoversCharacters`, `SegmentPartsWellFormed`, `LongestMatch`, `LongestKeyWins`, `NoPrefix` and `ZaoShangHaoFirst`. `MandarinProcessor.ProcessSentence` is proved equal to `Segment`.
- Mandarin.WordPart and Mandarin.CharPart: no ensures; their properties are `WordPartShape` and `CharPartPinyin`.
- Entities.Decode, Entities.DecodeItems and Entities.DecodeBox: no ensures; their properties are `DecodeEncode`, `DecodeEncodeBox`, `DecodeItemsLength`, `FailureSticks` and `NullIsNotEmpty`. `ToTextBoxList` is proved equal to `Decode`.
- Entities.GetString, Entities.GetInt, Entities.GetOptional and Entities.OrNull: no ensures; they are the org.json accessors that `DecodeEncodeBox` and `NullIsNotEmpty` rely on.
- Displays.MandarinDisplay, Displays.CantoneseDisplay, Displays.JapaneseDisplay, Displays.ColumnWords and Displays.Render: no ensures; their properties are `MandarinDisplaySpellsText`, `PlaceholderDisplays` and `ColumnsSpellWords`.
- Displays.PronunciationDisplay: no ensures; its properties are `PronunciationDisplayDispatch`.
- Repository.AnnotatePage: no ensures; its properties are `AnnotatePageEffect`. `CaptureRepository.UpdatePreviousCaptureAnalysis` is proved equal to it.
- Repository.CaptureRepository.SmallPath and FullPath: no ensures; they only name the image files (`small_<stamp>.jpg`, `full_<stamp>.jpg`).
- TextBoxes.MeetsMinimumConfidence: no ensures; its properties are `ConfidenceMonotone`.
- Screens.TranslateEnabled: no ensures; its property is `EnabledTranslateIsSent`.
- Screens.DetailScreen.SaveEnabled: no ensures; `Save` keeps it true and `SaveDone` makes it false.
- Screens.SelectedText: no ensures; it is `selectedBox?.text.orEmpty()`, used in the contracts of `ReviewSelectedSentence` and `ReviewTranslate`.
- Cropping.CropClamped: requires a non-empty clamped region. There `Bitmap.createBitmap` in components/TextBoxPopup.kt throws `IllegalArgumentException`, and that exception path is not modelled.
- Cropping.CropPadded: does not model 32-bit `Int` overflow in `left - padding` or `right + padding`; integers are unbounded.
- The detail screen's crop with padding 20 (TextDetailScreen.kt line 69) is `CropPadded` applied with that padding argument. Loading the bitmap from its URI is left out.
- Daos: ids are Kotlin `Long` (64-bit) and are modelled as unbounded `int`; id exhaustion is not modelled.
- The DAOs' `Flow` results are modelled as the current query result. Re-emission on change is left out.
- Daos.SmallCaptureDao.All: SQLite leaves the order of rows with equal `createdAt` unspecified. The model fixes one order (insertion sort) and promises only "a permutation, newest first".
- The DAOs' `delete(entity)` is modelled through `DeleteById`. Room deletes by primary key, so the two have the same effect.
- The repository's getters only delegate to the DAOs (CaptureRepository.kt lines 31-33 and 66-68), so `Daos.SmallCaptureDao.All`, `Recent` and `ById` stand for them.
- Repository.CaptureRepository.SaveSmallCapture: the file name stamp and `createdAt` are parameters, though the source reads the clock for each. JPEG encoding and `mkdirs` are left out. The file set records only which paths exist.
- TextBoxes.ChineseTextBox: the one declaration of the class, components/ChineseTextBox.kt (package `id.hocky.miteiru.utils`, the class that CaptureRepository.kt and TextDetailScreen.kt import), has no `imageUri` field. Yet CaptureRepository.kt lines 126-132 and TextDetailScreen.kt line 66 read one. The model follows the declaration and drops the field, so `InfoToBox` builds a box without it.
- org.json's text format, number coercions in `getInt`/`getString` and exception messages are left out. JSON is a value, and a `JSONException` is a `JsonError`.
- Text.IsWhitespace: a fixed set of whitespace characters stands for Kotlin's `Char.isWhitespace`, which covers all Unicode whitespace.
- ImageText.IsHan: the script ranges are compared on Dafny characters (Unicode scalar values), while Kotlin compares UTF-16 units. Every range lies in the Basic Multilingual Plane below the surrogates, so detection agrees. How the two split text into characters differs; see the line on the processors.
- Mandarin.ToneOf: only ASCII digits are tone digits.
- Processors.CantoneseSentence, Processors.JapaneseSentence, Mandarin.Segment, Mandarin.CharPart and Displays.PlaceholderDisplays: a Dafny `char` is a Unicode scalar value, while a Kotlin `Char` is a UTF-16 code unit.
  - A character outside the Basic Multilingual Plane, such as U+282E2 '𨋢' of written Cantonese, is one part and one column in the model.
  - In the app it becomes two parts, each holding a lone surrogate: `text.map` splits it in CantoneseProcessor.kt and JapaneseProcessor.kt lines 11-23, and `first()`/`substring(1)` split it in MandarinProcessor.kt lines 67-78.
  - Text inside the Basic Multilingual Plane is split the same way by both.
- Displays.JapaneseDisplay: only the word and reading of each column are modelled, not the layout. The reading is `part.reading ?: ""`.
- Processors.ProcessSentence: the `PronunciationProcessor` interface is modelled as a dispatch on the closed `MiteiruProcess` enum. The function carries no ensures; `ProcessorsReconstruct` states its properties.
- Screens.SentenceSelectorShown: the selector is hidden for at most one sentence. This is a predicate with no ensures, used as stated.
