/**
 * The capture-history records (data/entities/SmallCapture.kt and
 * data/entities/PreviousCapture.kt) and the `TextBoxConverter` that stores a
 * page's text boxes as a JSON array. JSON is modelled as a value, not as
 * org.json's text: a column holds either the empty string or the rendering
 * of one JSON value.
 */
module Entities {
  import opened Wrappers

  /** A JSON value; `JNull` is `JSONObject.NULL`. */
  datatype Json =
    | JNull
    | JBool(flag: bool)
    | JInt(number: int)
    | JString(text: string)
    | JArray(items: seq<Json>)
    | JObject(fields: map<string, Json>)

  /** A JSON column: `""` or the text of a JSON value. */
  datatype JsonText = EmptyText | JsonOf(value: Json)

  /** A cropped capture (`SmallCapture`); `createdAt` is the clock reading taken by the caller. */
  datatype SmallCapture = SmallCapture(
    id: int := 0,
    imagePath: string,
    text: string,
    language: string,
    analysis: Option<string> := None,
    sourceLanguage: Option<string> := None,
    createdAt: int)

  /** A full-page capture (`PreviousCapture`) with its boxes stored as JSON. */
  datatype PreviousCapture = PreviousCapture(
    id: int := 0,
    imagePath: string,
    textBoxesJson: JsonText,
    createdAt: int)

  /** One stored text box (`TextBoxInfo`), with its cached analysis, if any. */
  datatype TextBoxInfo = TextBoxInfo(
    text: string,
    language: string,
    left: int,
    top: int,
    right: int,
    bottom: int,
    analysis: Option<string> := None,
    sourceLanguage: Option<string> := None)

  /** The keys every encoded box carries. */
  const BoxKeys: set<string> := {"text", "language", "left", "top", "right", "bottom", "analysis", "sourceLanguage"}

  /** `value ?: JSONObject.NULL`. */
  function OrNull(value: Option<string>): Json {
    match value
    case None => JNull
    case Some(s) => JString(s)
  }

  /** The `JSONObject` built for one box. */
  function EncodeBox(box: TextBoxInfo): (obj: Json)
    ensures obj.JObject? && obj.fields.Keys == BoxKeys
    ensures obj.fields["text"] == JString(box.text) && obj.fields["language"] == JString(box.language)
    ensures obj.fields["left"] == JInt(box.left) && obj.fields["top"] == JInt(box.top)
    ensures obj.fields["right"] == JInt(box.right) && obj.fields["bottom"] == JInt(box.bottom)
    ensures obj.fields["analysis"] == JNull <==> box.analysis.None?
    ensures obj.fields["sourceLanguage"] == JNull <==> box.sourceLanguage.None?
  {
    JObject(map[
      "text" := JString(box.text),
      "language" := JString(box.language),
      "left" := JInt(box.left),
      "top" := JInt(box.top),
      "right" := JInt(box.right),
      "bottom" := JInt(box.bottom),
      "analysis" := OrNull(box.analysis),
      "sourceLanguage" := OrNull(box.sourceLanguage)])
  }

  /** `fromTextBoxList` as a value: a JSON array with one object per box, in order. */
  function Encode(boxes: seq<TextBoxInfo>): (json: JsonText)
    ensures json.JsonOf? && json.value.JArray? && |json.value.items| == |boxes|
    ensures forall i :: 0 <= i < |boxes| ==> json.value.items[i] == EncodeBox(boxes[i])
  {
    JsonOf(JArray(seq(|boxes|, i requires 0 <= i < |boxes| => EncodeBox(boxes[i]))))
  }

  /** `fromTextBoxList`: fill a `JSONArray` box by box. */
  method FromTextBoxList(textBoxes: seq<TextBoxInfo>) returns (json: JsonText)
    ensures json == Encode(textBoxes)
  {
    var jsonArray: seq<Json> := [];
    for i := 0 to |textBoxes|
      invariant jsonArray == seq(i, k requires 0 <= k < i => EncodeBox(textBoxes[k]))
    {
      var box := textBoxes[i];
      var obj := map[];
      obj := obj["text" := JString(box.text)];
      obj := obj["language" := JString(box.language)];
      obj := obj["left" := JInt(box.left)];
      obj := obj["top" := JInt(box.top)];
      obj := obj["right" := JInt(box.right)];
      obj := obj["bottom" := JInt(box.bottom)];
      obj := obj["analysis" := OrNull(box.analysis)];
      obj := obj["sourceLanguage" := OrNull(box.sourceLanguage)];
      assert JObject(obj) == EncodeBox(box);
      jsonArray := jsonArray + [JObject(obj)];
    }
    json := JsonOf(JArray(jsonArray));
  }

  /** Why reading a column failed (org.json throws a `JSONException`). */
  datatype JsonError = NotAnArray | NotAnObject(index: nat) | MissingOrMistyped(index: nat, key: string)

  /** `obj.getString(key)`: the string under `key`; anything else is an error. */
  function GetString(obj: map<string, Json>, key: string, index: nat): Result<string, JsonError> {
    if key in obj && obj[key].JString? then Success(obj[key].text) else Failure(MissingOrMistyped(index, key))
  }

  /** `obj.getInt(key)`: the number under `key`; anything else is an error. */
  function GetInt(obj: map<string, Json>, key: string, index: nat): Result<int, JsonError> {
    if key in obj && obj[key].JInt? then Success(obj[key].number) else Failure(MissingOrMistyped(index, key))
  }

  /** `if (obj.isNull(key)) null else obj.getString(key)`: a missing key counts as null. */
  function GetOptional(obj: map<string, Json>, key: string, index: nat): Result<Option<string>, JsonError> {
    if key !in obj || obj[key] == JNull then Success(None)
    else match GetString(obj, key, index)
      case Success(s) => Success(Some(s))
      case Failure(e) => Failure(e)
  }

  /** The `TextBoxInfo` read from element `index` of the array, or the first error met. */
  function DecodeBox(element: Json, index: nat): Result<TextBoxInfo, JsonError> {
    if !element.JObject? then Failure(NotAnObject(index))
    else
      var obj := element.fields;
      match (GetString(obj, "text", index), GetString(obj, "language", index))
      case (Failure(e), _) => Failure(e)
      case (_, Failure(e)) => Failure(e)
      case (Success(text), Success(language)) =>
        match (GetInt(obj, "left", index), GetInt(obj, "top", index), GetInt(obj, "right", index), GetInt(obj, "bottom", index))
        case (Failure(e), _, _, _) => Failure(e)
        case (_, Failure(e), _, _) => Failure(e)
        case (_, _, Failure(e), _) => Failure(e)
        case (_, _, _, Failure(e)) => Failure(e)
        case (Success(left), Success(top), Success(right), Success(bottom)) =>
          match (GetOptional(obj, "analysis", index), GetOptional(obj, "sourceLanguage", index))
          case (Failure(e), _) => Failure(e)
          case (_, Failure(e)) => Failure(e)
          case (Success(analysis), Success(sourceLanguage)) =>
            Success(TextBoxInfo(text, language, left, top, right, bottom, analysis, sourceLanguage))
  }

  /** The boxes read from `items`, element by element, stopping at the first error. */
  function DecodeItems(items: seq<Json>): Result<seq<TextBoxInfo>, JsonError>
    decreases |items|
  {
    if items == [] then Success([])
    else
      var n := |items| - 1;
      match DecodeItems(items[..n])
      case Failure(e) => Failure(e)
      case Success(boxes) =>
        match DecodeBox(items[n], n)
        case Failure(e) => Failure(e)
        case Success(box) => Success(boxes + [box])
  }

  /** `toTextBoxList` as a value: the empty column is the empty list, anything but an array is an error. */
  function Decode(json: JsonText): Result<seq<TextBoxInfo>, JsonError> {
    match json
    case EmptyText => Success([])
    case JsonOf(JArray(items)) => DecodeItems(items)
    case JsonOf(_) => Failure(NotAnArray)
  }

  /** `toTextBoxList`: read the array element by element into a growing list. */
  method ToTextBoxList(json: JsonText) returns (r: Result<seq<TextBoxInfo>, JsonError>)
    ensures r == Decode(json)
  {
    if json == EmptyText {
      return Success([]);
    }
    if !json.value.JArray? {
      return Failure(NotAnArray);
    }
    var jsonArray := json.value.items;
    var list: seq<TextBoxInfo> := [];
    for i := 0 to |jsonArray|
      invariant DecodeItems(jsonArray[..i]) == Success(list)
    {
      assert jsonArray[..i + 1][..i] == jsonArray[..i];
      var decoded := DecodeBox(jsonArray[i], i);
      if decoded.Failure? {
        FailureSticks(jsonArray, i + 1);
        return Failure(decoded.error);
      }
      list := list + [decoded.value];
    }
    assert jsonArray[..|jsonArray|] == jsonArray;
    r := Success(list);
  }

  /** Once a prefix fails to decode, so does every longer prefix, with the same error. */
  lemma {:induction false} FailureSticks(items: seq<Json>, i: nat)
    requires 0 < i <= |items| && DecodeItems(items[..i]).Failure?
    ensures DecodeItems(items) == DecodeItems(items[..i])
    decreases |items| - i
  {
    if i < |items| {
      assert items[..i + 1][..i] == items[..i];
      FailureSticks(items, i + 1);
    } else {
      assert items[..i] == items;
    }
  }

  /** A decoded list has one box per array element. */
  lemma {:induction false} DecodeItemsLength(items: seq<Json>)
    requires DecodeItems(items).Success?
    ensures |DecodeItems(items).value| == |items|
    decreases |items|
  {
    if items != [] {
      DecodeItemsLength(items[..|items| - 1]);
    }
  }

  /** A box read back from its own encoding is the same box, nulls and empty strings kept apart. */
  lemma DecodeEncodeBox(box: TextBoxInfo, index: nat)
    ensures DecodeBox(EncodeBox(box), index) == Success(box)
  {
  }

  /** Reading back what `fromTextBoxList` wrote gives the same boxes in the same order. */
  lemma {:induction false} DecodeEncode(boxes: seq<TextBoxInfo>)
    ensures Decode(Encode(boxes)) == Success(boxes)
    decreases |boxes|
  {
    if boxes != [] {
      var n := |boxes| - 1;
      DecodeEncode(boxes[..n]);
      var items := Encode(boxes).value.items;
      assert items[..n] == Encode(boxes[..n]).value.items;
      DecodeEncodeBox(boxes[n], n);
      assert boxes[..n] + [boxes[n]] == boxes;
    }
  }

  /**
   * A missing analysis is written as JSON null and read back as missing,
   * while an empty analysis stays an empty string; likewise for the source
   * language.
   */
  lemma NullIsNotEmpty(box: TextBoxInfo)
    ensures box.analysis == None ==> EncodeBox(box).fields["analysis"] == JNull
    ensures box.analysis == Some("") ==> EncodeBox(box).fields["analysis"] == JString("")
    ensures box.sourceLanguage == None ==> EncodeBox(box).fields["sourceLanguage"] == JNull
    ensures box.sourceLanguage == Some("") ==> EncodeBox(box).fields["sourceLanguage"] == JString("")
    ensures DecodeBox(EncodeBox(box), 0).Success? && DecodeBox(EncodeBox(box), 0).value.analysis == box.analysis
  {
    DecodeEncodeBox(box, 0);
  }
}
