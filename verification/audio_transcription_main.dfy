/** `create_transcription` of backend/audio_transcription/main.py: the
    authenticated handler over the per-user service. */
module AudioTranscriptionMain {
  import opened Wrappers
  import opened Http
  import Jwt
  import PyInt
  import PyStr
  import PyPath
  import Auth
  import Security
  import AuthService
  import Transcription
  import UserAudioService
  import Upload

  datatype Reply = Reply(response: Result<Upload.TranscriptionResponse, HttpError>, calls: seq<Transcription.Call>)

  /** How the f-strings of the service render the user id claim. */
  function ClaimText(v: Jwt.ClaimValue): string {
    match v
    case Str(s) => s
    case Int(i) => PyInt.IntToString(i)
    case Null => "None"
  }

  /** The handler: `get_current_user` runs first, as a dependency; then the
      upload checks; then the service with the user's id. */
  function CreateTranscription(token: string, authCfg: Auth.AuthConfig, decode: Jwt.Decoder,
                               cfg: Transcription.ServiceConfig, file: Upload.UploadFile,
                               o: Transcription.Outcomes): (r: Reply)
    ensures Auth.GetCurrentUser(token, authCfg, decode).Failure? ==>
      r == Reply(Failure(Auth.GetCurrentUser(token, authCfg, decode).error), [])
    ensures Auth.GetCurrentUser(token, authCfg, decode).Success? && Upload.Rejection(file).Some? ==>
      r == Reply(Failure(Upload.Rejection(file).value), [])
    ensures Auth.GetCurrentUser(token, authCfg, decode).Success? && Upload.Rejection(file).None? ==>
      var userId := ClaimText(Auth.GetCurrentUser(token, authCfg, decode).value.userId);
      var run := UserAudioService.ProcessAudioTranscription(
        cfg, file.filename.value, file.contentType.value, userId, o);
      r == Reply(Upload.Respond(file.filename.value, run.outcome), run.calls)
  {
    match Auth.GetCurrentUser(token, authCfg, decode)
    case Failure(e) => Reply(Failure(e), [])
    case Success(user) =>
      match Upload.Rejection(file)
      case Some(e) => Reply(Failure(e), [])
      case None =>
        var run := UserAudioService.ProcessAudioTranscription(
          cfg, file.filename.value, file.contentType.value, ClaimText(user.userId), o);
        Reply(Upload.Respond(file.filename.value, run.outcome), run.calls)
  }

  /** A token refused by `get_current_user` gives its 401 with the Bearer
      challenge, whatever the upload, and touches neither S3 nor Gemini. */
  lemma AuthComesFirst(token: string, authCfg: Auth.AuthConfig, decode: Jwt.Decoder,
                       cfg: Transcription.ServiceConfig, f1: Upload.UploadFile, f2: Upload.UploadFile,
                       o: Transcription.Outcomes)
    requires Auth.GetCurrentUser(token, authCfg, decode).Failure?
    ensures CreateTranscription(token, authCfg, decode, cfg, f1, o) == CreateTranscription(token, authCfg, decode, cfg, f2, o)
    ensures var r := CreateTranscription(token, authCfg, decode, cfg, f1, o);
      && r.calls == [] && r.response.Failure?
      && r.response.error.status == 401 && r.response.error.headers == BearerChallenge
  {
  }

  /** A token issued by `/login` for user `u` (decoded with the same secret
      and algorithm, the library handing back the signed claims) stores an
      accepted upload under `private/<u.id>/audio/`, and a transcript, if
      any, under `private/<u.id>/transcripts/`. */
  lemma LoginTokenStoresUnderUsersFolder(
    u: AuthService.User, scfg: Security.SecurityConfig, now: int, encode: Jwt.Encoder, decode: Jwt.Decoder,
    cfg: Transcription.ServiceConfig, file: Upload.UploadFile, o: Transcription.Outcomes)
    requires
      var claims := Security.AccessClaims(AuthService.LoginClaims(u), now, scfg.expireMinutes);
      decode(encode(claims, scfg.secretKey, scfg.algorithm), scfg.secretKey, [scfg.algorithm]) == Jwt.Decoded(claims)
    requires Upload.Rejection(file).None? && o.read.Done?
    ensures
      var claims := Security.AccessClaims(AuthService.LoginClaims(u), now, scfg.expireMinutes);
      var token := encode(claims, scfg.secretKey, scfg.algorithm);
      var r := CreateTranscription(token, Auth.AuthConfig(scfg.secretKey, scfg.algorithm), decode, cfg, file, o);
      var prefix := UserAudioService.UserPrefix(PyInt.NatToString(u.id));
      && |r.calls| >= 3
      && r.calls[2] == Transcription.PutObject(cfg.bucket, prefix + "audio/" + file.filename.value, o.read.value)
      && (Transcription.Transcribed(o) ==>
            r.calls[4].PutObject?
            && r.calls[4].key == prefix + "transcripts/" + PyPath.Stem(file.filename.value) + ".txt")
  {
    Auth.IssuedTokenAuthenticates(u, scfg, now, encode, decode);
  }
}
