/** `create_transcription` of backend/audio/main.py. Its
    `transcription_service` module (backend/audio/transcription_service.py)
    is not part of this model, so the service is a function from filename
    and content type to how the call ends. */
module BackendAudioMain {
  import opened Wrappers
  import opened Http
  import Upload

  /** The response, and the arguments the service was called with, if it
      was called. */
  datatype Reply = Reply(response: Result<Upload.TranscriptionResponse, HttpError>,
                         serviceCall: Option<(string, string)>)

  function CreateTranscription(file: Upload.UploadFile, service: (string, string) -> Completion<string>)
    : (r: Reply)
    ensures Upload.Rejection(file).Some? ==> r == Reply(Failure(Upload.Rejection(file).value), None)
    ensures Upload.Rejection(file).None? ==>
      && r.serviceCall == Some((file.filename.value, file.contentType.value))
      && r.response == Upload.Respond(file.filename.value, service(file.filename.value, file.contentType.value))
  {
    match Upload.Rejection(file)
    case Some(e) => Reply(Failure(e), None)
    case None =>
      var filename := file.filename.value;
      var contentType := file.contentType.value;
      Reply(Upload.Respond(filename, service(filename, contentType)), Some((filename, contentType)))
  }

  /** The handler succeeds exactly when the checks pass and the service
      returns, and then hands back the service's text unchanged; the
      service only ever sees a non-empty filename and a listed type. */
  lemma ServiceSeesOnlyValidUploads(file: Upload.UploadFile, service: (string, string) -> Completion<string>)
    ensures var r := CreateTranscription(file, service);
      r.serviceCall.Some? ==> r.serviceCall.value.0 != "" && r.serviceCall.value.1 in Upload.SupportedTypes
    ensures var r := CreateTranscription(file, service);
      r.response.Success? <==>
        Upload.Rejection(file).None? && service(file.filename.value, file.contentType.value).Normal?
    ensures var r := CreateTranscription(file, service);
      r.response.Success? ==>
        r.response.value.transcription == service(file.filename.value, file.contentType.value).value
  {
  }
}
