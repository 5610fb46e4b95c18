/**
 * The handwriting recognition service (backend/Handwriting_recognition/main.py):
 * the request store that `/api/recognize` fills and `/api/save` reads, and
 * the NLP-ready record `save_output` derives from the confirmed text.
 *
 * The request id (`uuid4`), the timestamp, the OCR outcome, the image
 * preview and the outcome of the file writes are parameters.
 */
module Handwriting {
  import opened Wrappers
  import opened Http
  import PyStr
  import PyPath
  import OcrService

  // ---------------------------------------------------------------------
  // The text statistics of `save_output`
  // ---------------------------------------------------------------------

  /** `[p.strip() for p in parts if p.strip()]`. */
  function StripNonEmpty(parts: seq<string>): (r: seq<string>)
    ensures |r| <= |parts|
  {
    if parts == [] then []
    else
      var s := PyStr.Strip(parts[0]);
      (if s != [] then [s] else []) + StripNonEmpty(parts[1..])
  }

  /** Every kept piece is the non-blank, stripped text of some piece. */
  lemma {:induction false} StripNonEmptySource(parts: seq<string>, i: nat) returns (k: nat)
    requires i < |StripNonEmpty(parts)|
    ensures k < |parts| && StripNonEmpty(parts)[i] == PyStr.Strip(parts[k])
    ensures StripNonEmpty(parts)[i] != [] && PyStr.IsStripped(StripNonEmpty(parts)[i])
    decreases |parts|
  {
    var s := PyStr.Strip(parts[0]);
    var h := if s != [] then [s] else [];
    var rest := StripNonEmpty(parts[1..]);
    StripNonEmptyStep(parts, h, rest);
    if i < |h| {
      k := 0;
      assert StripNonEmpty(parts)[i] == s;
    } else {
      var k' := StripNonEmptySource(parts[1..], i - |h|);
      k := k' + 1;
      assert StripNonEmpty(parts)[i] == rest[i - |h|];
      assert parts[1..][k'] == parts[k];
    }
  }

  /** No piece with non-blank text is dropped. */
  lemma {:induction false} StripNonEmptyKeeps(parts: seq<string>, k: nat)
    requires k < |parts| && PyStr.Strip(parts[k]) != []
    ensures PyStr.Strip(parts[k]) in StripNonEmpty(parts)
    decreases |parts|
  {
    var s := PyStr.Strip(parts[0]);
    var rest := StripNonEmpty(parts[1..]);
    assert StripNonEmpty(parts) == (if s != [] then [s] else []) + rest;
    if k > 0 {
      assert parts[1..][k - 1] == parts[k];
      StripNonEmptyKeeps(parts[1..], k - 1);
    }
  }

  /** The filter keeps the pieces' order: filtering a concatenation is
      filtering each part. With the one-piece case (a non-blank piece gives
      its stripped text, a blank one nothing) this fixes the result. */
  lemma {:induction false} StripNonEmptyAppend(a: seq<string>, b: seq<string>)
    ensures StripNonEmpty(a + b) == StripNonEmpty(a) + StripNonEmpty(b)
    decreases |a|
  {
    if a == [] {
      assert a + b == b;
    } else {
      var ab := a + b;
      assert ab[0] == a[0];
      assert ab[1..] == a[1..] + b;
      StripNonEmptyAppend(a[1..], b);
      var s := PyStr.Strip(a[0]);
      var h := if s != [] then [s] else [];
      StripNonEmptyStep(ab, h, StripNonEmpty(a[1..] + b));
      StripNonEmptyStep(a, h, StripNonEmpty(a[1..]));
      Regroup(h, StripNonEmpty(a[1..]), StripNonEmpty(b));
    }
  }

  lemma Regroup(x: seq<string>, y: seq<string>, z: seq<string>)
    ensures x + (y + z) == (x + y) + z
  {
  }

  lemma StripNonEmptyStep(parts: seq<string>, h: seq<string>, rest: seq<string>)
    requires parts != [] && rest == StripNonEmpty(parts[1..])
    requires h == if PyStr.Strip(parts[0]) != [] then [PyStr.Strip(parts[0])] else []
    ensures StripNonEmpty(parts) == h + rest
  {
  }

  /** One piece: kept, stripped, exactly when its stripped text is not blank. */
  lemma StripNonEmptyOne(p: string)
    ensures StripNonEmpty([p]) == if PyStr.Strip(p) != [] then [PyStr.Strip(p)] else []
  {
    assert [p][1..] == [];
  }

  /** `[s.strip() for s in text.replace('\n', ' ').split('.') if s.strip()]`:
      at most one sentence more than the text has full stops. */
  function Sentences(text: string): (r: seq<string>)
    ensures |r| <= PyStr.CountChar(text, '.') + 1
  {
    var flat := PyStr.ReplaceChar(text, '\n', ' ');
    PyStr.SplitCharCount(flat, '.');
    PyStr.ReplaceCharCount(text, '\n', ' ', '.');
    StripNonEmpty(PyStr.Split(flat, "."))
  }

  /** `[p.strip() for p in text.split('\n\n') if p.strip()]`: each
      paragraph after the first takes a blank line, two line breaks. */
  function Paragraphs(text: string): (r: seq<string>)
    ensures 2 * |r| <= PyStr.CountChar(text, '\n') + 2
  {
    var parts := PyStr.Split(text, "\n\n");
    PyStr.JoinCountChar("\n\n", parts, '\n');
    assert PyStr.CountChar("\n\n", '\n') == 2;
    StripNonEmpty(parts)
  }

  /** `' '.join(text.split())`: stripped, and empty exactly when the text is
      all whitespace. */
  function CleanedText(text: string): (r: string)
    ensures PyStr.IsStripped(r)
    ensures r == [] <==> PyStr.AllSpace(text)
  {
    var words := PyStr.SplitWs(text);
    PyStr.JoinSpaceShape(words);
    PyStr.Join(" ", words)
  }

  /** Every sentence is non-empty and stripped, and holds neither a full
      stop nor a line break. */
  lemma SentencesShape(text: string, i: nat)
    requires i < |Sentences(text)|
    ensures var s := Sentences(text)[i];
      s != [] && PyStr.IsStripped(s) && '.' !in s && '\n' !in s
  {
    var flat := PyStr.ReplaceChar(text, '\n', ' ');
    var parts := PyStr.Split(flat, ".");
    var k := StripNonEmptySource(parts, i);
    NoFullStop(flat, k);
    NoLineBreak(text, k);
  }

  /** A stripped piece of a split on '.' holds no '.'. */
  lemma NoFullStop(flat: string, k: nat)
    requires k < |PyStr.Split(flat, ".")|
    ensures '.' !in PyStr.Strip(PyStr.Split(flat, ".")[k])
  {
    PyStr.SplitCharPieces(flat, '.', k);
    PyStr.StripSubset(PyStr.Split(flat, ".")[k], '.');
  }

  /** Once line breaks are replaced by spaces, no stripped piece holds one. */
  lemma NoLineBreak(text: string, k: nat)
    requires k < |PyStr.Split(PyStr.ReplaceChar(text, '\n', ' '), ".")|
    ensures '\n' !in PyStr.Strip(PyStr.Split(PyStr.ReplaceChar(text, '\n', ' '), ".")[k])
  {
    var flat := PyStr.ReplaceChar(text, '\n', ' ');
    var parts := PyStr.Split(flat, ".");
    assert '\n' !in flat;
    PyStr.JoinMember(".", parts, k, '\n');
    PyStr.StripSubset(parts[k], '\n');
  }

  /** Every paragraph is non-empty and stripped, and holds no blank-line
      separator "\n\n". */
  lemma ParagraphsShape(text: string, i: nat)
    requires i < |Paragraphs(text)|
    ensures var p := Paragraphs(text)[i];
      && p != [] && PyStr.IsStripped(p)
      && forall j :: !PyStr.Occurs(p, "\n\n", j)
  {
    var parts := PyStr.Split(text, "\n\n");
    var p := Paragraphs(text)[i];
    var k := StripNonEmptySource(parts, i);
    forall j | PyStr.Occurs(p, "\n\n", j)
      ensures false
    {
      PyStr.StripOccurs(parts[k], "\n\n", j);
    }
  }

  /** The `content` section of the record. */
  datatype Content = Content(
    rawText: string, preprocessedText: string, wordCount: nat,
    characterCount: nat, lineCount: nat, lines: seq<string>)

  function ContentOf(text: string): (c: Content)
    ensures c.lineCount == PyStr.CountChar(text, '\n') + 1
    ensures c.characterCount == |text|
    ensures PyStr.IsStripped(c.preprocessedText)
    ensures c.wordCount == 0 <==> PyStr.AllSpace(text)
  {
    var lines := PyStr.Split(text, "\n");
    PyStr.SplitCharCount(text, '\n');
    Content(text, PyStr.Strip(text), |PyStr.SplitWs(text)|, |text|, |lines|, lines)
  }

  /** `lines` rebuild the text when joined with '\n', none holds a '\n',
      and there is one more line than the text has line breaks. */
  lemma ContentLines(text: string)
    ensures var c := ContentOf(text);
      && c.lineCount == |c.lines| == PyStr.CountChar(text, '\n') + 1
      && PyStr.Join("\n", c.lines) == text
      && (forall k :: 0 <= k < |c.lines| ==> '\n' !in c.lines[k])
      && c.characterCount == |text|
  {
    PyStr.SplitCharCount(text, '\n');
    forall k | 0 <= k < |PyStr.Split(text, "\n")|
      ensures '\n' !in PyStr.Split(text, "\n")[k]
    {
      PyStr.SplitCharPieces(text, '\n', k);
    }
  }

  /** The cleaned text is stripped, its only whitespace are single spaces
      between words, it has the same words as the text (so `word_count` is
      its number of words), and it drops nothing but whitespace. */
  lemma CleanedTextShape(text: string)
    ensures var r := CleanedText(text);
      && PyStr.IsStripped(r)
      && (forall i :: 0 <= i < |r| && PyStr.IsSpace(r[i]) ==> r[i] == ' ')
      && (forall i :: 0 <= i < |r| - 1 ==> !(PyStr.IsSpace(r[i]) && PyStr.IsSpace(r[i + 1])))
      && PyStr.SplitWs(r) == PyStr.SplitWs(text)
      && ContentOf(text).wordCount == |PyStr.SplitWs(r)|
      && PyStr.NonSpace(r) == PyStr.NonSpace(text)
  {
    var words := PyStr.SplitWs(text);
    PyStr.JoinSpaceShape(words);
    PyStr.SplitJoinSpace(words);
    PyStr.SplitWsKeepsNonSpace(text);
    PyStr.SplitWsKeepsNonSpace(CleanedText(text));
  }

  // ---------------------------------------------------------------------
  // The records `save_output` writes
  // ---------------------------------------------------------------------

  /** The OCR summary `recognize` keeps for a request. */
  datatype FormattedResult = FormattedResult(
    text: string, lines: seq<OcrService.Line>, confidence: real, methodName: string,
    methodsTried: seq<string>, previewBase64: Option<string>)

  datatype Metadata = Metadata(
    originalFilename: string, userId: Option<string>, clientIp: Option<string>,
    processingMethod: string, confidenceScore: real, methodsTried: seq<string>)

  datatype OcrDetails = OcrDetails(originalOcrText: string, userCorrections: bool, lineData: seq<OcrService.Line>)

  datatype NlpReady = NlpReady(cleanedText: string, sentences: seq<string>, paragraphs: seq<string>)

  /** The NLP-ready JSON document. */
  datatype NlpData = NlpData(
    documentId: string, timestamp: string, metadata: Metadata, content: Content,
    ocrDetails: OcrDetails, nlpReady: NlpReady, status: string, readyForProcessing: bool)

  /** The detailed JSON document. */
  datatype DetailedRecord = DetailedRecord(
    requestId: string, timestamp: string, originalFilename: string, confirmedText: string,
    ocrResult: FormattedResult, userId: Option<string>, clientIp: Option<string>)

  /** The dictionary of paths `save_output` returns. */
  datatype SavedFiles = SavedFiles(
    jsonFile: string, nlpJsonFile: string, textFile: string, imageFile: string, documentId: string)

  /** Everything one `save_output` call writes: the two JSON documents, the
      plain text, and the image copied from `imageSource`. */
  datatype Saved = Saved(files: SavedFiles, nlpData: NlpData, detailed: DetailedRecord,
                         text: string, imageSource: string)

  function NlpRecord(requestId: string, timestamp: string, confirmedText: string, filename: string,
                     ocr: FormattedResult, userId: Option<string>, clientIp: Option<string>): (d: NlpData)
    ensures d.documentId == requestId
    ensures d.ocrDetails.userCorrections <==> confirmedText != ocr.text
    ensures d.content == ContentOf(confirmedText)
    ensures d.nlpReady == NlpReady(CleanedText(confirmedText), Sentences(confirmedText), Paragraphs(confirmedText))
    ensures d.status == "approved" && d.readyForProcessing
  {
    NlpData(
      requestId, timestamp,
      Metadata(filename, userId, clientIp, ocr.methodName, ocr.confidence, ocr.methodsTried),
      ContentOf(confirmedText),
      OcrDetails(ocr.text, confirmedText != ocr.text, ocr.lines),
      NlpReady(CleanedText(confirmedText), Sentences(confirmedText), Paragraphs(confirmedText)),
      "approved", true)
  }

  function NlpJsonPath(requestId: string): string {
    PyPath.Join("nlp_ready", "nlp_" + requestId + ".json")
  }

  function JsonPath(requestId: string): string {
    PyPath.Join("output", requestId + ".json")
  }

  function TextPath(requestId: string): string {
    PyPath.Join("nlp_ready", "text_" + requestId + ".txt")
  }

  function ImageOutputPath(requestId: string, filename: string): string {
    PyPath.Join("output", requestId + "_" + filename)
  }

  /** For an id that does not start with '/', the four files sit in
      `output/` and `nlp_ready/` under names built from the id. */
  lemma OutputPaths(requestId: string, filename: string)
    requires requestId == [] || requestId[0] != '/'
    ensures NlpJsonPath(requestId) == "nlp_ready/nlp_" + requestId + ".json"
    ensures JsonPath(requestId) == "output/" + requestId + ".json"
    ensures TextPath(requestId) == "nlp_ready/text_" + requestId + ".txt"
    ensures ImageOutputPath(requestId, filename) == "output/" + requestId + "_" + filename
  {
    assert ("nlp_" + requestId + ".json")[0] == 'n';
    assert ("text_" + requestId + ".txt")[0] == 't';
    assert (requestId + ".json")[0] != '/';
    assert (requestId + "_" + filename)[0] != '/';
  }

  /** One save writes four different files. */
  lemma OutputPathsDistinct(requestId: string, filename: string)
    requires requestId == [] || requestId[0] != '/'
    ensures JsonPath(requestId) != ImageOutputPath(requestId, filename)
    ensures NlpJsonPath(requestId) != TextPath(requestId)
    ensures JsonPath(requestId) != NlpJsonPath(requestId)
  {
    OutputPaths(requestId, filename);
    var json := JsonPath(requestId);
    var image := ImageOutputPath(requestId, filename);
    assert json[7 + |requestId|] == '.';
    assert image[7 + |requestId|] == '_';
    assert NlpJsonPath(requestId)[10] == 'n';
    assert TextPath(requestId)[10] == 't';
    assert json[0] == 'o' && NlpJsonPath(requestId)[0] == 'n';
  }

  /** Saves of different requests never share a JSON or text file. */
  lemma DistinctRequestsDistinctFiles(a: string, b: string)
    requires a == [] || a[0] != '/'
    requires b == [] || b[0] != '/'
    requires a != b
    ensures NlpJsonPath(a) != NlpJsonPath(b)
    ensures JsonPath(a) != JsonPath(b)
    ensures TextPath(a) != TextPath(b)
  {
    OutputPaths(a, "");
    OutputPaths(b, "");
    Affixed("nlp_ready/nlp_", a, b, ".json");
    Affixed("output/", a, b, ".json");
    Affixed("nlp_ready/text_", a, b, ".txt");
  }

  /** Wrapping in a fixed prefix and suffix is injective. */
  lemma Affixed(pre: string, a: string, b: string, post: string)
    ensures pre + a + post == pre + b + post <==> a == b
  {
    var x := pre + a + post;
    var y := pre + b + post;
    if x == y {
      assert a == x[|pre|..|pre| + |a|];
      assert b == y[|pre|..|pre| + |b|];
    }
  }

  const SaveOutputPrefix: string := "Failed to save output: "

  /** `save_output`: the records and paths for one confirmed request;
      `ioFailure` is the message of an exception from the file writes,
      which comes back wrapped. */
  function SaveOutput(requestId: string, confirmedText: string, imagePath: string, filename: string,
                      ocr: FormattedResult, userId: Option<string>, clientIp: Option<string>,
                      timestamp: string, ioFailure: Option<string>): (r: Result<Saved, string>)
    ensures ioFailure.Some? <==> r.Failure?
    ensures r.Failure? ==> r.error == SaveOutputPrefix + ioFailure.value
    ensures r.Success? ==>
      && r.value.files == SavedFiles(JsonPath(requestId), NlpJsonPath(requestId), TextPath(requestId),
                                     ImageOutputPath(requestId, filename), requestId)
      && r.value.nlpData == NlpRecord(requestId, timestamp, confirmedText, filename, ocr, userId, clientIp)
      && r.value.detailed.ocrResult == ocr && r.value.detailed.confirmedText == confirmedText
      && r.value.text == confirmedText
      && r.value.imageSource == imagePath
  {
    match ioFailure
    case Some(m) => Failure(SaveOutputPrefix + m)
    case None =>
      Success(Saved(
        SavedFiles(JsonPath(requestId), NlpJsonPath(requestId), TextPath(requestId),
                   ImageOutputPath(requestId, filename), requestId),
        NlpRecord(requestId, timestamp, confirmedText, filename, ocr, userId, clientIp),
        DetailedRecord(requestId, timestamp, filename, confirmedText, ocr, userId, clientIp),
        confirmedText, imagePath))
  }

  // ---------------------------------------------------------------------
  // The request store
  // ---------------------------------------------------------------------

  /** One `request_store` entry. */
  datatype StoredRequest = StoredRequest(originalImagePath: string, originalFilename: string, ocrResult: FormattedResult)

  /** The body of `/api/save`. */
  datatype SaveRequest = SaveRequest(requestId: string, confirmedText: string, userId: Option<string>)

  /** What `/api/recognize` returns. */
  datatype RecognizeResponse = RecognizeResponse(
    requestId: string, text: string, lines: seq<OcrService.Line>, confidence: real,
    previewBase64: Option<string>, methodName: string, methodsTried: seq<string>)

  /** What `/api/save` returns. */
  datatype SaveResponse = SaveResponse(message: string, files: SavedFiles)

  const OcrFailedPrefix: string := "OCR processing failed: "
  const NotFoundPrefix: string := "Request ID not found. Available IDs: "
  const SaveFailedPrefix: string := "Failed to save data: "
  const SavedMessage: string := "Data saved successfully."
  const PlaceholderIp: string := "127.0.0.1"

  /** Where the uploaded image is kept. */
  function ImagePath(requestId: string, filename: string): (p: string)
    ensures (requestId == [] || requestId[0] != '/') ==> p == "temp_images/" + requestId + "_" + filename
  {
    assert (requestId + "_" + filename)[0] == if requestId == [] then '_' else requestId[0];
    PyPath.Join("temp_images", requestId + "_" + filename)
  }

  /** The summary `recognize` keeps of the `multi_ocr_predict` result, which
      always holds the keys read here. */
  function Formatted(ocr: OcrService.OcrResult, preview: Option<string>): FormattedResult {
    FormattedResult(ocr.text, ocr.lines, ocr.confidence, ocr.methodName, ocr.methodsTried, preview)
  }

  /** `repr` of a list of ids, each in single quotes. */
  function IdsRepr(ids: seq<string>): string {
    "[" + PyStr.Join(", ", Quoted(ids)) + "]"
  }

  function Quoted(ids: seq<string>): (r: seq<string>)
    ensures |r| == |ids|
    ensures forall i :: 0 <= i < |ids| ==> r[i] == "'" + ids[i] + "'"
  {
    if ids == [] then [] else ["'" + ids[0] + "'"] + Quoted(ids[1..])
  }

  /** `request_store`: the entries, and the order in which their ids were
      first inserted (the order the 404 detail lists them in). */
  class RequestStore {
    var order: seq<string>
    var entries: map<string, StoredRequest>

    ghost predicate Valid()
      reads this
    {
      && (forall i, j :: 0 <= i < j < |order| ==> order[i] != order[j])
      && (forall id :: id in entries <==> id in order)
    }

    constructor ()
      ensures Valid() && order == [] && entries == map[]
    {
      order := [];
      entries := map[];
    }

    /** `/api/recognize` with the fresh id `requestId`: when the OCR step
        raises, a 500 and the store as it was; otherwise the entry for the
        id is set, every other entry is left alone, and a new id goes to
        the end of the order. */
    method Recognize(requestId: string, filename: string, ocr: Attempt<OcrService.OcrResult>, preview: Option<string>)
      returns (r: Result<RecognizeResponse, HttpError>)
      requires Valid()
      modifies this
      ensures Valid()
      ensures ocr.Raised? ==>
        && r == Failure(Plain(500, OcrFailedPrefix + ocr.message))
        && entries == old(entries) && order == old(order)
      ensures ocr.Done? ==>
        var f := Formatted(ocr.value, preview);
        && entries == old(entries)[requestId := StoredRequest(ImagePath(requestId, filename), filename, f)]
        && order == (if requestId in old(entries) then old(order) else old(order) + [requestId])
        && r == Success(RecognizeResponse(requestId, f.text, f.lines, f.confidence, preview,
                                          f.methodName, f.methodsTried))
    {
      var imagePath := ImagePath(requestId, filename);
      if ocr.Raised? {
        return Failure(Plain(500, OcrFailedPrefix + ocr.message));
      }
      var formatted := Formatted(ocr.value, preview);
      if requestId !in entries {
        order := order + [requestId];
      }
      entries := entries[requestId := StoredRequest(imagePath, filename, formatted)];
      r := Success(RecognizeResponse(requestId, formatted.text, formatted.lines, formatted.confidence,
                                     formatted.previewBase64, formatted.methodName, formatted.methodsTried));
    }

    /** `/api/save`: an unknown id is a 404 listing the known ids and writes
        nothing; otherwise `save_output` runs on the stored entry with the
        placeholder client address, and a failure becomes a 500. The store
        is only read. */
    method Save(request: SaveRequest, timestamp: string, ioFailure: Option<string>)
      returns (r: Result<SaveResponse, HttpError>, written: Option<Saved>)
      requires Valid()
      ensures request.requestId !in entries ==>
        r == Failure(Plain(404, NotFoundPrefix + IdsRepr(order))) && written.None?
      ensures request.requestId in entries ==>
        var e := entries[request.requestId];
        var out := SaveOutput(request.requestId, request.confirmedText, e.originalImagePath,
                              e.originalFilename, e.ocrResult, request.userId, Some(PlaceholderIp),
                              timestamp, ioFailure);
        && (out.Failure? ==> r == Failure(Plain(500, SaveFailedPrefix + out.error)) && written.None?)
        && (out.Success? ==> r == Success(SaveResponse(SavedMessage, out.value.files)) && written == Some(out.value))
    {
      if request.requestId !in entries {
        return Failure(Plain(404, NotFoundPrefix + IdsRepr(order))), None;
      }
      var data := entries[request.requestId];
      var out := SaveOutput(request.requestId, request.confirmedText, data.originalImagePath,
                            data.originalFilename, data.ocrResult, request.userId, Some(PlaceholderIp),
                            timestamp, ioFailure);
      if out.Failure? {
        return Failure(Plain(500, SaveFailedPrefix + out.error)), None;
      }
      r := Success(SaveResponse(SavedMessage, out.value.files));
      written := Some(out.value);
    }
  }

  /** A request can be saved after it was recognised, as often as wanted:
      each save of the same id reads the same entry, so with the same text
      and a successful write it produces the same files and records. */
  method RecognizeThenSaveTwice(requestId: string, filename: string, ocr: OcrService.OcrResult,
                                preview: Option<string>, text: string, timestamp: string)
    returns (first: Option<Saved>, second: Option<Saved>)
    ensures first.Some? && first == second
    ensures first.value.files.documentId == requestId
    ensures first.value.imageSource == ImagePath(requestId, filename)
    ensures first.value.detailed.ocrResult == Formatted(ocr, preview)
  {
    var store := new RequestStore();
    var _ := store.Recognize(requestId, filename, Done(ocr), preview);
    var request := SaveRequest(requestId, text, None);
    var r1, w1 := store.Save(request, timestamp, None);
    var r2, w2 := store.Save(request, timestamp, None);
    first, second := w1, w2;
  }
}
