/**
 * Handwriting OCR over Google Cloud Vision document text detection
 * (backend/Handwriting_recognition/ocr_service.py).
 *
 * The Vision client call (and the image read before it) is an outcome: the
 * response, or an exception known by its message. Confidences are only
 * copied or set to constants, so plain `real` values stand for them.
 */
module OcrService {
  import opened Wrappers
  import opened Http
  import PyStr

  /** The document annotation tree: page / block / paragraph / word / symbol. */
  datatype Symbol = Symbol(text: string)
  datatype Word = Word(symbols: seq<Symbol>)
  datatype Paragraph = Paragraph(words: seq<Word>)
  /** `confidence` is `None` when the block has no such attribute. */
  datatype Block = Block(confidence: Option<real>, paragraphs: seq<Paragraph>)
  datatype Page = Page(blocks: seq<Block>)
  datatype TextAnnotation = TextAnnotation(text: string, pages: seq<Page>)

  /** `response.error.message` ("" when no error) and `full_text_annotation`. */
  datatype VisionResponse = VisionResponse(errorMessage: string, annotation: TextAnnotation)

  /** A protocol-buffer message is truthy when some field is: a non-empty
      text or at least one page. */
  predicate IsSet(a: TextAnnotation) {
    a.text != "" || a.pages != []
  }

  /** One entry of `words_info`. */
  datatype WordInfo = WordInfo(text: string, confidence: real)

  /** The dictionary `google_cloud_vision_ocr` returns. */
  datatype VisionResult = VisionResult(
    text: string, confidence: real, words: seq<WordInfo>, methodName: string, error: Option<string>)

  const VisionMethod: string := "Google Cloud Vision API"
  const ApiErrorPrefix: string := "Google Cloud Vision API error: "
  const NoTextDetected: string := "No text detected"
  const DefaultConfidence: real := 0.9

  /** `''.join(symbol.text for symbol in word.symbols)`. */
  function SymbolText(symbols: seq<Symbol>): (t: string)
    ensures |symbols| == 0 ==> t == ""
  {
    if symbols == [] then "" else SymbolText(symbols[..|symbols| - 1]) + symbols[|symbols| - 1].text
  }

  /** The confidence every word of a block gets. */
  function BlockConfidence(b: Block): real {
    match b.confidence
    case Some(c) => c
    case None => DefaultConfidence
  }

  // The flattening, level by level, each defined from its last element so
  // that it follows the loops that build it.

  function WordsOfWords(ws: seq<Word>, conf: real): (r: seq<WordInfo>)
    ensures |r| == |ws|
  {
    if ws == [] then []
    else WordsOfWords(ws[..|ws| - 1], conf) + [WordInfo(SymbolText(ws[|ws| - 1].symbols), conf)]
  }

  /** The flattened words of one paragraph: one entry per word, in order,
      each with its symbols' text and the block's confidence. */
  lemma {:induction false} WordsOfWordsEntries(ws: seq<Word>, conf: real, i: nat)
    requires i < |ws|
    ensures WordsOfWords(ws, conf)[i] == WordInfo(SymbolText(ws[i].symbols), conf)
    decreases |ws|
  {
    var n := |ws| - 1;
    if i < n {
      WordsOfWordsEntries(ws[..n], conf, i);
      assert ws[..n][i] == ws[i];
    }
  }

  function WordsOfParagraphs(ps: seq<Paragraph>, conf: real): seq<WordInfo> {
    if ps == [] then []
    else WordsOfParagraphs(ps[..|ps| - 1], conf) + WordsOfWords(ps[|ps| - 1].words, conf)
  }

  function WordsOfBlocks(bs: seq<Block>): seq<WordInfo> {
    if bs == [] then []
    else WordsOfBlocks(bs[..|bs| - 1]) + WordsOfParagraphs(bs[|bs| - 1].paragraphs, BlockConfidence(bs[|bs| - 1]))
  }

  function WordsOfPages(pages: seq<Page>): seq<WordInfo> {
    if pages == [] then []
    else WordsOfPages(pages[..|pages| - 1]) + WordsOfBlocks(pages[|pages| - 1].blocks)
  }

  function Failed(message: string): VisionResult {
    VisionResult("", 0.0, [], VisionMethod, Some(message))
  }

  /** What `google_cloud_vision_ocr` returns for each way the call can end:
      it never raises. */
  function VisionOcr(response: Attempt<VisionResponse>): (r: VisionResult)
    ensures r.methodName == VisionMethod
    ensures r.error.Some? ==> r.text == "" && r.words == [] && r.confidence == 0.0
    ensures response.Raised? ==> r.error == Some(ApiErrorPrefix + response.message)
    ensures response.Done? && response.value.errorMessage != "" ==>
      r.error == Some(ApiErrorPrefix + response.value.errorMessage)
    ensures response.Done? && response.value.errorMessage == "" && !IsSet(response.value.annotation) ==>
      r.error == Some(NoTextDetected)
    ensures r.error.None? <==>
      response.Done? && response.value.errorMessage == "" && IsSet(response.value.annotation)
    ensures r.error.None? ==>
      && r.text == PyStr.Strip(response.value.annotation.text)
      && r.confidence == DefaultConfidence
      && r.words == WordsOfPages(response.value.annotation.pages)
  {
    match response
    case Raised(m) => Failed(ApiErrorPrefix + m)
    case Done(resp) =>
      if resp.errorMessage != "" then Failed(ApiErrorPrefix + resp.errorMessage)
      else if !IsSet(resp.annotation) then Failed(NoTextDetected)
      else VisionResult(PyStr.Strip(resp.annotation.text), DefaultConfidence,
                        WordsOfPages(resp.annotation.pages), VisionMethod, None)
  }

  /** `google_cloud_vision_ocr`: the four nested loops append one entry per
      word, in page / block / paragraph / word order. Each loop level is a
      method of its own below. */
  method GoogleCloudVisionOcr(response: Attempt<VisionResponse>) returns (r: VisionResult)
    ensures r == VisionOcr(response)
  {
    if response.Raised? {
      return Failed(ApiErrorPrefix + response.message);
    }
    var resp := response.value;
    if resp.errorMessage != "" {
      return Failed(ApiErrorPrefix + resp.errorMessage);
    }
    var ann := resp.annotation;
    if !IsSet(ann) {
      return Failed(NoTextDetected);
    }
    var words: seq<WordInfo> := [];
    var pi := 0;
    while pi < |ann.pages|
      invariant 0 <= pi <= |ann.pages|
      invariant words == WordsOfPages(ann.pages[..pi])
    {
      words := AppendPageWords(words, ann.pages[pi]);
      assert ann.pages[..pi + 1][..pi] == ann.pages[..pi];
      pi := pi + 1;
    }
    assert ann.pages[..pi] == ann.pages;
    r := VisionResult(PyStr.Strip(ann.text), DefaultConfidence, words, VisionMethod, None);
  }

  /** The loop over the blocks of one page. */
  method AppendPageWords(words: seq<WordInfo>, page: Page) returns (out: seq<WordInfo>)
    ensures out == words + WordsOfBlocks(page.blocks)
  {
    out := words;
    var bi := 0;
    while bi < |page.blocks|
      invariant 0 <= bi <= |page.blocks|
      invariant out == words + WordsOfBlocks(page.blocks[..bi])
    {
      out := AppendBlockWords(out, page.blocks[bi]);
      assert page.blocks[..bi + 1][..bi] == page.blocks[..bi];
      bi := bi + 1;
    }
    assert page.blocks[..bi] == page.blocks;
  }

  /** The loop over the paragraphs of one block; every word gets the
      block's confidence. */
  method AppendBlockWords(words: seq<WordInfo>, block: Block) returns (out: seq<WordInfo>)
    ensures out == words + WordsOfParagraphs(block.paragraphs, BlockConfidence(block))
  {
    var conf := BlockConfidence(block);
    out := words;
    var qi := 0;
    while qi < |block.paragraphs|
      invariant 0 <= qi <= |block.paragraphs|
      invariant out == words + WordsOfParagraphs(block.paragraphs[..qi], conf)
    {
      out := AppendParagraphWords(out, block.paragraphs[qi], conf);
      assert block.paragraphs[..qi + 1][..qi] == block.paragraphs[..qi];
      qi := qi + 1;
    }
    assert block.paragraphs[..qi] == block.paragraphs;
  }

  /** The loop over the words of one paragraph: each word's symbols are
      joined into its text. */
  method AppendParagraphWords(words: seq<WordInfo>, paragraph: Paragraph, conf: real) returns (out: seq<WordInfo>)
    ensures out == words + WordsOfWords(paragraph.words, conf)
  {
    out := words;
    var wi := 0;
    while wi < |paragraph.words|
      invariant 0 <= wi <= |paragraph.words|
      invariant out == words + WordsOfWords(paragraph.words[..wi], conf)
    {
      var word := paragraph.words[wi];
      out := out + [WordInfo(SymbolText(word.symbols), conf)];
      assert paragraph.words[..wi + 1][..wi] == paragraph.words[..wi];
      wi := wi + 1;
    }
    assert paragraph.words[..wi] == paragraph.words;
  }

  /** Flattening keeps page order: the words of `a + b` are those of `a`
      followed by those of `b`. */
  lemma {:induction false} WordsOfPagesAppend(a: seq<Page>, b: seq<Page>)
    ensures WordsOfPages(a + b) == WordsOfPages(a) + WordsOfPages(b)
    decreases |b|
  {
    if b == [] {
      assert a + b == a;
    } else {
      var n := |b| - 1;
      var ab := a + b;
      assert ab[..|ab| - 1] == a + b[..n];
      assert ab[|ab| - 1] == b[n];
      assert WordsOfPages(ab) == WordsOfPages(a + b[..n]) + WordsOfBlocks(b[n].blocks);
      assert WordsOfPages(b) == WordsOfPages(b[..n]) + WordsOfBlocks(b[n].blocks);
      WordsOfPagesAppend(a, b[..n]);
    }
  }

  /** A page holding one block with one paragraph with one word yields exactly
      that word: its symbols concatenated, with the block's confidence (0.9
      when the block has none). */
  lemma OneWordPage(w: Word, conf: Option<real>)
    ensures WordsOfPages([Page([Block(conf, [Paragraph([w])])])])
      == [WordInfo(SymbolText(w.symbols), if conf.Some? then conf.value else DefaultConfidence)]
  {
    var block := Block(conf, [Paragraph([w])]);
    assert WordsOfWords([w], BlockConfidence(block)) == [WordInfo(SymbolText(w.symbols), BlockConfidence(block))];
    assert WordsOfParagraphs([Paragraph([w])], BlockConfidence(block))
      == WordsOfWords([w], BlockConfidence(block));
    assert WordsOfBlocks([block]) == WordsOfParagraphs([Paragraph([w])], BlockConfidence(block));
  }

  /** A word's text keeps its symbols' texts in order: the text of `a + b`
      is the text of `a` followed by the text of `b`. */
  lemma {:induction false} SymbolTextAppend(a: seq<Symbol>, b: seq<Symbol>)
    ensures SymbolText(a + b) == SymbolText(a) + SymbolText(b)
    decreases |b|
  {
    if b == [] {
      assert a + b == a;
    } else {
      var n := |b| - 1;
      var ab := a + b;
      assert ab[..|ab| - 1] == a + b[..n];
      assert ab[|ab| - 1] == b[n];
      assert SymbolText(ab) == SymbolText(a + b[..n]) + b[n].text;
      assert SymbolText(b) == SymbolText(b[..n]) + b[n].text;
      SymbolTextAppend(a, b[..n]);
    }
  }

  /** One `lines` entry of the result. */
  datatype Line = Line(line: string, confidence: real)

  /** The dictionary `multi_ocr_predict` returns. `primaryMethod` and `words`
      are `None` where the failure dictionary has no such key, and `error`
      is `None` where the success dictionary has none. */
  datatype OcrResult = OcrResult(
    text: string, rawText: string, correctedText: string, confidence: real,
    methodName: string, ocrEngine: string, methodsTried: seq<string>,
    primaryMethod: Option<string>, words: Option<seq<WordInfo>>, lines: seq<Line>,
    error: Option<string>)

  const OcrEngine: string := "Google Cloud Vision"
  const FailedMethod: string := "Failed"
  const FailedAttempt: string := "Google Cloud Vision API (failed)"
  const OcrFailedPrefix: string := "OCR failed: "

  /** How an f-string renders the Vision error: `None` prints as "None". */
  function ErrorText(e: Option<string>): string {
    match e
    case Some(m) => m
    case None => "None"
  }

  /** The success test of `multi_ocr_predict`: a non-blank text and a falsy
      error, which is `None` or the empty string. */
  predicate Recognised(g: VisionResult) {
    g.text != "" && PyStr.Strip(g.text) != "" && (g.error.None? || g.error.value == "")
  }

  /** `multi_ocr_predict` applied to the Vision result. */
  function MultiOcrPredict(g: VisionResult): (r: OcrResult)
    ensures r.error.None? <==> Recognised(g)
    ensures r.ocrEngine == OcrEngine
    ensures Recognised(g) ==>
      && r.text == g.text && r.rawText == g.text && r.correctedText == g.text
      && r.confidence == g.confidence
      && r.lines == [Line(g.text, g.confidence)]
      && r.words == Some(g.words) && r.primaryMethod == Some(OcrEngine)
      && r.methodName == VisionMethod && r.methodsTried == [VisionMethod]
    ensures !Recognised(g) ==>
      && r.text == "" && r.rawText == "" && r.correctedText == ""
      && r.confidence == 0.0 && r.lines == []
      && r.methodName == FailedMethod && r.methodsTried == [FailedAttempt]
      && r.words.None? && r.primaryMethod.None?
      && r.error == Some(OcrFailedPrefix + ErrorText(g.error))
  {
    if Recognised(g) then
      OcrResult(g.text, g.text, g.text, g.confidence, VisionMethod, OcrEngine, [VisionMethod],
                Some(OcrEngine), Some(g.words), if g.text != "" then [Line(g.text, g.confidence)] else [], None)
    else
      OcrResult("", "", "", 0.0, FailedMethod, OcrEngine, [FailedAttempt],
                None, None, [], Some(OcrFailedPrefix + ErrorText(g.error)))
  }

  /** End to end: recognition succeeds exactly when the call returned, the
      API reported no error, and the annotation's stripped text is not
      empty; the recognised text is that stripped text. A blank annotation
      text that is still set fails with "OCR failed: None", and a Vision
      error is carried into the final error. */
  lemma RecognitionSucceedsExactly(response: Attempt<VisionResponse>)
    ensures var r := MultiOcrPredict(VisionOcr(response));
      r.error.None? <==>
        response.Done? && response.value.errorMessage == ""
        && PyStr.Strip(response.value.annotation.text) != []
    ensures var r := MultiOcrPredict(VisionOcr(response));
      r.error.None? ==> r.text == PyStr.Strip(response.value.annotation.text)
    ensures var r := MultiOcrPredict(VisionOcr(response));
      response.Done? && response.value.errorMessage == "" && IsSet(response.value.annotation)
      && PyStr.Strip(response.value.annotation.text) == [] ==>
        r.error == Some(OcrFailedPrefix + "None")
    ensures var r := MultiOcrPredict(VisionOcr(response));
      response.Raised? ==> r.error == Some(OcrFailedPrefix + (ApiErrorPrefix + response.message))
  {
    var g := VisionOcr(response);
    if g.error.None? {
      PyStr.StripStripped(g.text);
    }
    if response.Done? && response.value.errorMessage == "" && PyStr.Strip(response.value.annotation.text) != [] {
      var t := response.value.annotation.text;
      assert t == [] ==> PyStr.AllSpace(t);
      assert IsSet(response.value.annotation);
    }
  }
}
