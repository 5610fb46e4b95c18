/**
 * The checks and the exception mapping shared, line for line, by the three
 * `create_transcription` handlers (audio/main.py, backend/audio/main.py and
 * backend/audio_transcription/main.py).
 */
module Upload {
  import opened Wrappers
  import opened Http
  import PyStr

  const SupportedTypes: seq<string> :=
    ["audio/mpeg", "audio/wav", "audio/x-wav", "audio/mp4", "audio/x-m4a", "audio/flac"]

  /** The form part as the handler sees it: `filename` and `content_type`
      may each be missing. */
  datatype UploadFile = UploadFile(filename: Option<string>, contentType: Option<string>)

  const NoFile: HttpError := Plain(400, "No file was uploaded.")

  /** How an f-string renders an optional value. */
  function Rendered(v: Option<string>): string {
    match v
    case Some(s) => s
    case None => "None"
  }

  /** The 400 for an unlisted type: the rendered type in single quotes,
      then the six supported types separated by ", ". */
  function UnsupportedType(contentType: Option<string>): (e: HttpError)
    ensures e.status == 400
    ensures e.detail == "Unsupported file type: '" + Rendered(contentType) + "'. Please upload one of: "
                        + ("audio/mpeg" + (", " + ("audio/wav" + (", " + ("audio/x-wav" + (", " + ("audio/mp4"
                        + (", " + ("audio/x-m4a" + (", " + "audio/flac"))))))))))
  {
    SupportedTypesListed();
    Plain(400, "Unsupported file type: '" + Rendered(contentType) + "'. Please upload one of: "
               + PyStr.Join(", ", SupportedTypes))
  }

  /** `', '.join(supported_types)`. */
  lemma SupportedTypesListed()
    ensures PyStr.Join(", ", SupportedTypes)
      == "audio/mpeg" + (", " + ("audio/wav" + (", " + ("audio/x-wav" + (", " + ("audio/mp4"
         + (", " + ("audio/x-m4a" + (", " + "audio/flac")))))))))
  {
    var t5 := ["audio/flac"];
    var t4 := ["audio/x-m4a"] + t5;
    var t3 := ["audio/mp4"] + t4;
    var t2 := ["audio/x-wav"] + t3;
    var t1 := ["audio/wav"] + t2;
    assert SupportedTypes == ["audio/mpeg"] + t1;
    PyStr.JoinCons(", ", "audio/mpeg", t1);
    PyStr.JoinCons(", ", "audio/wav", t2);
    PyStr.JoinCons(", ", "audio/x-wav", t3);
    PyStr.JoinCons(", ", "audio/mp4", t4);
    PyStr.JoinCons(", ", "audio/x-m4a", t5);
  }

  predicate HasFilename(f: UploadFile) {
    f.filename.Some? && f.filename.value != ""
  }

  predicate Supported(f: UploadFile) {
    f.contentType.Some? && f.contentType.value in SupportedTypes
  }

  /** Why the handler refuses the upload before calling the service: a
      missing or empty filename first, then a content type outside the
      list. */
  function Rejection(f: UploadFile): (r: Option<HttpError>)
    ensures r.None? <==> HasFilename(f) && Supported(f)
    ensures !HasFilename(f) ==> r == Some(NoFile)
    ensures HasFilename(f) && !Supported(f) ==> r == Some(UnsupportedType(f.contentType))
    ensures r.Some? ==> r.value.status == 400
  {
    if !HasFilename(f) then Some(NoFile)
    else if !Supported(f) then Some(UnsupportedType(f.contentType))
    else None
  }

  /** `{"filename": ..., "transcription": ...}`. */
  datatype TranscriptionResponse = TranscriptionResponse(filename: string, transcription: string)

  const Unexpected: HttpError := Plain(500, "An unexpected internal server error occurred.")

  /** The `try`/`except` around the service call: its text comes back with
      the filename, an `HTTPException` passes through unchanged, and any
      other exception becomes a generic 500. */
  function Respond(filename: string, service: Completion<string>): (r: Result<TranscriptionResponse, HttpError>)
    ensures r.Success? <==> service.Normal?
    ensures service.Normal? ==> r.value == TranscriptionResponse(filename, service.value)
    ensures service.Abrupt? && service.exc.HttpExc? ==> r == Failure(service.exc.error)
    ensures service.Abrupt? && service.exc.OtherExc? ==> r == Failure(Unexpected)
  {
    match service
    case Normal(text) => Success(TranscriptionResponse(filename, text))
    case Abrupt(HttpExc(e)) => Failure(e)
    case Abrupt(OtherExc(_)) => Failure(Unexpected)
  }
}
