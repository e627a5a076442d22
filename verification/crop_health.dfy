/** Turning the vision model's answers into diagnosis and treatment records,
    and the checks made on an uploaded crop photo before the model is asked.
    The model, the JSON decoder and the image decoder are parameters: what is
    modelled is which text is handed to the decoder, which fallback record is
    built when decoding fails, and the order of the checks. */
module CropHealth {
  import opened Common
  import opened Text

  // ---------------------------------------------------------------------------
  // the JSON span

  /** `span` is `text[i..]` up to a closing '}' with no '}' after it, opened
      by a '{' at i with no '{' before it. */
  predicate OuterBraces(text: string, i: int, span: string) {
    && 0 <= i && 2 <= |span| && i + |span| <= |text|
    && span == text[i..i + |span|]
    && span[0] == '{' && span[|span| - 1] == '}'
    && '{' !in text[..i]
    && '}' !in text[i + |span|..]
  }

  /** The candidate JSON object in a model answer: from the first '{' to the
      last '}', both included, when a '}' comes after the first '{'. */
  function JsonSpan(text: string): (r: Option<string>)
    ensures r.Some? <==> '{' in text && exists j :: Find(text, '{') < j < |text| && text[j] == '}'
    ensures r.Some? ==> OuterBraces(text, Find(text, '{'), r.value)
  {
    var start := Find(text, '{');
    var last := RFind(text, '}');
    if start != -1 && last + 1 > start then
      JsonSpanFound(text, start, last);
      Some(text[start..last + 1])
    else
      JsonSpanMissing(text, start, last);
      None
  }

  lemma JsonSpanFound(text: string, start: int, last: int)
    requires 0 <= start <= last < |text|
    requires text[start] == '{' && '{' !in text[..start]
    requires text[last] == '}' && '}' !in text[last + 1..]
    ensures OuterBraces(text, start, text[start..last + 1])
    ensures exists j :: start < j < |text| && text[j] == '}'
  {
    var span := text[start..last + 1];
    assert span[0] == text[start] && span[|span| - 1] == text[last];
  }

  lemma JsonSpanMissing(text: string, start: int, last: int)
    requires start == Find(text, '{') && last == RFind(text, '}')
    requires !(start != -1 && last + 1 > start)
    ensures start != -1 ==> forall j :: start < j < |text| ==> text[j] != '}'
  {
    if start != -1 && last != -1 {
      assert forall j :: last < j < |text| ==> text[j] in text[last + 1..];
    } else if start != -1 {
      assert forall j :: 0 <= j < |text| ==> text[j] in text;
    }
  }

  /** A decoded JSON object, left abstract. */
  type Json(==)

  /** The JSON decoder: None where `json.loads` raises. */
  type Decoder = string -> Option<Json>

  // ---------------------------------------------------------------------------
  // analysis

  /** The fixed record `_parse_text_analysis` builds around a model answer it
      could not decode. */
  datatype AnalysisFallback = AnalysisFallback(
    primaryIssue: string,
    confidencePercentage: nat,
    severityLevel: string,
    affectedParts: seq<string>,
    spreadRisk: string,
    potentialCropLoss: string,
    urgencyLevel: string,
    treatmentWindow: string,
    fullResponse: string)

  datatype Analysis = AnalysisJson(json: Json) | AnalysisText(fallback: AnalysisFallback)

  /** `_parse_text_analysis`: the same record for every answer, except that
      it carries the whole answer. */
  function TextAnalysis(text: string): (r: AnalysisFallback)
    ensures r.confidencePercentage == 75
    ensures r.severityLevel == "medium"
    ensures r.fullResponse == text
  {
    AnalysisFallback("Analysis completed", 75, "medium", ["leaves"], "medium", "10-20%", "moderate",
                     "3-5 days", text)
  }

  /** Two answers give the same fallback record exactly when they are the same
      answer: nothing of the answer but its whole text is kept. */
  lemma TextAnalysisKeepsOnlyText(a: string, b: string)
    ensures TextAnalysis(a) == TextAnalysis(b) <==> a == b
  {
  }

  /** `_parse_analysis_response`: the span, if any, is handed to the decoder;
      without a span, or when decoding fails, the fallback is built from the
      whole answer. */
  function ParseAnalysis(text: string, decode: Decoder): (r: Analysis)
    ensures r.AnalysisJson? <==> JsonSpan(text).Some? && decode(JsonSpan(text).value).Some?
    ensures r.AnalysisJson? ==> r.json == decode(JsonSpan(text).value).value
    ensures r.AnalysisText? ==> r.fallback == TextAnalysis(text)
  {
    match JsonSpan(text)
    case Some(span) =>
      (match decode(span)
       case Some(j) => AnalysisJson(j)
       case None => AnalysisText(TextAnalysis(text)))
    case None => AnalysisText(TextAnalysis(text))
  }

  /** An answer with no '{' is never handed to the decoder. */
  lemma NoBraceFallsBack(text: string, decode: Decoder)
    requires '{' !in text
    ensures ParseAnalysis(text, decode) == AnalysisText(TextAnalysis(text))
  {
  }

  // ---------------------------------------------------------------------------
  // treatment

  /** The fixed record `_parse_text_treatment` builds; the disease name is
      embedded in the Hindi name and is the English name. */
  datatype TreatmentFallback = TreatmentFallback(
    nameHindi: string,
    nameEnglish: string,
    chemicalProduct: string,
    organicTreatment: string,
    homeRemedy: string,
    fullResponse: string,
    note: string)

  datatype Treatment = TreatmentJson(json: Json) | TreatmentText(fallback: TreatmentFallback)

  const ProblemPrefix: string := "फसल की समस्या - "

  /** `_parse_text_treatment`. */
  function TextTreatment(text: string, disease: string): (r: TreatmentFallback)
    ensures r.nameEnglish == disease
    ensures r.nameHindi == ProblemPrefix + disease
    ensures r.fullResponse == text
  {
    TreatmentFallback(ProblemPrefix + disease, disease, "सामान्य कवकनाशी/कीटनाशक", "नीम तेल स्प्रे",
                      "लहसुन-मिर्च का घोल", text, "कृपया AI द्वारा दिए गए विस्तृत सुझावों को पूरा पढ़ें")
  }

  /** The disease name can be read back from the Hindi name. */
  lemma TreatmentNameRecoverable(text: string, disease: string)
    ensures var r := TextTreatment(text, disease);
            |r.nameHindi| >= |ProblemPrefix| && r.nameHindi[|ProblemPrefix|..] == disease
  {
  }

  /** `_parse_treatment_response`: as for the analysis, with the treatment
      fallback. */
  function ParseTreatment(text: string, disease: string, decode: Decoder): (r: Treatment)
    ensures r.TreatmentJson? <==> JsonSpan(text).Some? && decode(JsonSpan(text).value).Some?
    ensures r.TreatmentJson? ==> r.json == decode(JsonSpan(text).value).value
    ensures r.TreatmentText? ==> r.fallback == TextTreatment(text, disease)
  {
    match JsonSpan(text)
    case Some(span) =>
      (match decode(span)
       case Some(j) => TreatmentJson(j)
       case None => TreatmentText(TextTreatment(text, disease)))
    case None => TreatmentText(TextTreatment(text, disease))
  }

  /** The analysis and the treatment parsers take the JSON path on the same
      answers. */
  lemma ParsersAgree(text: string, disease: string, decode: Decoder)
    ensures ParseAnalysis(text, decode).AnalysisJson? <==> ParseTreatment(text, disease, decode).TreatmentJson?
  {
  }

  // ---------------------------------------------------------------------------
  // the photo

  /** `part` starts just after position i of `text` and runs, comma-free,
      up to the next comma or the end. */
  predicate FieldAfter(text: string, i: int, part: string) {
    && 0 <= i && i + 1 + |part| <= |text|
    && part == text[i + 1..i + 1 + |part|]
    && ',' !in part
    && (i + 1 + |part| == |text| || text[i + 1 + |part|] == ',')
  }

  /** The image data handed to the base64 decoder: for a data URL
      (`data:[mediatype][;base64],data`), the text between the first comma
      and the next comma or the end; text without a comma is kept whole. */
  function Payload(imageData: string): (r: string)
    ensures ',' !in imageData ==> r == imageData
    ensures ',' in imageData ==> FieldAfter(imageData, Find(imageData, ','), r)
  {
    if ',' in imageData then
      var i := Find(imageData, ',');
      var head, tail := imageData[..i], imageData[i + 1..];
      assert imageData == head + [','] + tail;
      SplitAfterHead(head, tail, ',');
      FirstSegment(tail, ',');
      FieldOfTail(imageData, i, tail, Split(tail, ',')[0]);
      Split(imageData, ',')[1]
    else imageData
  }

  lemma FieldOfTail(text: string, i: int, tail: string, part: string)
    requires 0 <= i < |text| && tail == text[i + 1..]
    requires |part| <= |tail| && tail[..|part|] == part && ',' !in part
    requires |part| == |tail| || tail[|part|] == ','
    ensures FieldAfter(text, i, part)
  {
    assert tail[..|part|] == text[i + 1..i + 1 + |part|];
    if |part| < |tail| {
      assert tail[|part|] == text[i + 1 + |part|];
    }
  }

  /** When the data part of a data URL has no comma of its own (as base64
      text never has), the payload is all of it. */
  lemma PayloadIsDataPart(imageData: string)
    requires ',' in imageData
    requires ',' !in imageData[Find(imageData, ',') + 1..]
    ensures Payload(imageData) == imageData[Find(imageData, ',') + 1..]
  {
  }

  /** A decoded photo's size in pixels. */
  datatype Image = Image(width: int, height: int)

  /** Photos narrower or shorter than this are refused. */
  const MinSide: int := 100

  datatype ImageFailure = ModelUnavailable | ImageUnreadable | ImageTooSmall | AiFailed

  datatype ImageResult =
    | ImageError(failure: ImageFailure)
    | ImageOk(analysis: Analysis, location: Option<string>, cropType: Option<string>, rawResponse: string)

  /** `analyze_crop_image`: without a model nothing else is done; the payload
      is decoded (None where decoding or opening the image raises) and a small
      photo refused before the model is asked; the model's answer (None where
      the call raises) is parsed. */
  function AnalyzeCropImage(modelAvailable: bool, imageData: string, location: Option<string>,
                            cropType: Option<string>, decodeImage: string -> Option<Image>,
                            ask: Image -> Option<string>, decode: Decoder): (r: ImageResult)
    ensures !modelAvailable ==> r == ImageError(ModelUnavailable)
    ensures modelAvailable && decodeImage(Payload(imageData)).None? ==> r == ImageError(ImageUnreadable)
    ensures r == ImageError(ImageTooSmall) <==>
              && modelAvailable
              && decodeImage(Payload(imageData)).Some?
              && (decodeImage(Payload(imageData)).value.width < MinSide
                  || decodeImage(Payload(imageData)).value.height < MinSide)
    ensures r.ImageOk? ==>
              && modelAvailable
              && decodeImage(Payload(imageData)).Some?
              && var image := decodeImage(Payload(imageData)).value;
                 && image.width >= MinSide && image.height >= MinSide
                 && ask(image) == Some(r.rawResponse)
                 && r.analysis == ParseAnalysis(r.rawResponse, decode)
                 && r.location == location && r.cropType == cropType
    ensures modelAvailable && decodeImage(Payload(imageData)).Some?
            && decodeImage(Payload(imageData)).value.width >= MinSide
            && decodeImage(Payload(imageData)).value.height >= MinSide ==>
              && (ask(decodeImage(Payload(imageData)).value).None? ==> r == ImageError(AiFailed))
              && (ask(decodeImage(Payload(imageData)).value).Some? ==>
                    r.ImageOk? && r.rawResponse == ask(decodeImage(Payload(imageData)).value).value)
  {
    if !modelAvailable then ImageError(ModelUnavailable)
    else
      match decodeImage(Payload(imageData))
      case None => ImageError(ImageUnreadable)
      case Some(image) =>
        if image.width < MinSide || image.height < MinSide then ImageError(ImageTooSmall)
        else
          match ask(image)
          case None => ImageError(AiFailed)
          case Some(text) => ImageOk(ParseAnalysis(text, decode), location, cropType, text)
  }

  /** Without a model the photo is never looked at. */
  lemma ModelCheckedFirst(imageData: string, other: string, location: Option<string>, cropType: Option<string>,
                          decodeImage: string -> Option<Image>, ask: Image -> Option<string>, decode: Decoder)
    ensures AnalyzeCropImage(false, imageData, location, cropType, decodeImage, ask, decode)
            == AnalyzeCropImage(false, other, location, cropType, decodeImage, ask, decode)
  {
  }

  datatype TreatmentResult =
    | TreatmentError(failure: ImageFailure)
    | TreatmentOk(plan: Treatment, disease: string, location: Option<string>, severity: string, rawResponse: string)

  /** `get_treatment_recommendations`: without a model nothing is asked; the
      model's answer (None where the call raises) is parsed with the disease
      name for the fallback. */
  function TreatmentRecommendations(modelAvailable: bool, disease: string, severity: string,
                                    location: Option<string>, ask: () -> Option<string>,
                                    decode: Decoder): (r: TreatmentResult)
    ensures !modelAvailable ==> r == TreatmentError(ModelUnavailable)
    ensures r.TreatmentOk? ==>
              && modelAvailable && ask() == Some(r.rawResponse)
              && r.plan == ParseTreatment(r.rawResponse, disease, decode)
              && r.disease == disease && r.severity == severity && r.location == location
    ensures modelAvailable && ask().None? ==> r == TreatmentError(AiFailed)
    ensures modelAvailable && ask().Some? ==> r.TreatmentOk? && r.rawResponse == ask().value
  {
    if !modelAvailable then TreatmentError(ModelUnavailable)
    else
      match ask()
      case None => TreatmentError(AiFailed)
      case Some(text) => TreatmentOk(ParseTreatment(text, disease, decode), disease, location, severity, text)
  }
}
