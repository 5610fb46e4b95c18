/** `create_transcription` of audio/main.py, over the service of
    audio/transcription_service.py. */
module AudioMain {
  import opened Wrappers
  import opened Http
  import PyStr
  import Transcription
  import AudioService
  import Upload

  /** The response, and the calls into the upload stream, S3 and Gemini. */
  datatype Reply = Reply(response: Result<Upload.TranscriptionResponse, HttpError>, calls: seq<Transcription.Call>)

  function CreateTranscription(cfg: Transcription.ServiceConfig, file: Upload.UploadFile, o: Transcription.Outcomes)
    : (r: Reply)
    ensures Upload.Rejection(file).Some? ==> r == Reply(Failure(Upload.Rejection(file).value), [])
    ensures Upload.Rejection(file).None? ==>
      var run := AudioService.ProcessAudioTranscription(cfg, file.filename.value, file.contentType.value, o);
      r == Reply(Upload.Respond(file.filename.value, run.outcome), run.calls)
  {
    match Upload.Rejection(file)
    case Some(e) => Reply(Failure(e), [])
    case None =>
      var run := AudioService.ProcessAudioTranscription(cfg, file.filename.value, file.contentType.value, o);
      Reply(Upload.Respond(file.filename.value, run.outcome), run.calls)
  }

  /** End to end: the request succeeds exactly when the upload passes the
      checks and the service transcribes it, and then returns the stripped
      model output under the uploaded filename. Every failure is a 400 from
      the checks or a 500 from the service, an unreadable upload giving the
      generic 500. */
  lemma EndToEnd(cfg: Transcription.ServiceConfig, file: Upload.UploadFile, o: Transcription.Outcomes)
    ensures var r := CreateTranscription(cfg, file, o);
      r.response.Success? <==> Upload.HasFilename(file) && Upload.Supported(file) && Transcription.Transcribed(o)
    ensures var r := CreateTranscription(cfg, file, o);
      r.response.Success? ==>
        r.response.value == Upload.TranscriptionResponse(file.filename.value, PyStr.Strip(o.generate.value))
    ensures var r := CreateTranscription(cfg, file, o);
      r.response.Failure? ==> r.response.error.status in {400, 500}
    ensures var r := CreateTranscription(cfg, file, o);
      Upload.Rejection(file).None? && o.read.Raised? ==> r.response == Failure(Upload.Unexpected)
  {
  }
}
