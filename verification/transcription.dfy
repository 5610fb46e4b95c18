/**
 * The steps both `process_audio_transcription` functions take
 * (audio/transcription_service.py and
 * backend/audio_transcription/transcription_service.py): read and close
 * the upload, store the audio, ask Gemini for a transcript, store the
 * transcript. The two files differ only in the object keys and in one
 * error message, which are parameters here.
 *
 * S3 and Gemini are foreign: each call's outcome is given, and the model
 * records which calls are made, in order, with which arguments.
 */
module Transcription {
  import opened Wrappers
  import opened Http
  import PyStr
  import Utf8

  datatype ServiceConfig = ServiceConfig(
    geminiApiKey: string, bucket: string, accessKeyId: string, secretAccessKey: string, region: string)

  const EnvErrorPrefix: string := "Error: Missing required environment variable: "
  const DefaultRegion: string := "us-east-1"

  /** The module-level configuration: the four required variables are read
      in this order and the first missing one stops the process (a
      `KeyError` renders as the quoted name); the region has a default. */
  function LoadConfig(env: map<string, string>): (r: Result<ServiceConfig, SystemExit>)
    ensures r.Success? <==>
      "GEMINI_API_KEY" in env && "S3_BUCKET_NAME" in env
      && "AWS_ACCESS_KEY_ID" in env && "AWS_SECRET_ACCESS_KEY" in env
    ensures r.Success? ==>
      && r.value.bucket == env["S3_BUCKET_NAME"]
      && r.value.region == (if "AWS_REGION" in env then env["AWS_REGION"] else DefaultRegion)
    ensures "GEMINI_API_KEY" !in env ==> r == Failure(SystemExit(EnvErrorPrefix + "'GEMINI_API_KEY'"))
    ensures "GEMINI_API_KEY" in env && "S3_BUCKET_NAME" !in env ==>
      r == Failure(SystemExit(EnvErrorPrefix + "'S3_BUCKET_NAME'"))
    ensures "GEMINI_API_KEY" in env && "S3_BUCKET_NAME" in env && "AWS_ACCESS_KEY_ID" !in env ==>
      r == Failure(SystemExit(EnvErrorPrefix + "'AWS_ACCESS_KEY_ID'"))
    ensures && "GEMINI_API_KEY" in env && "S3_BUCKET_NAME" in env && "AWS_ACCESS_KEY_ID" in env
            && "AWS_SECRET_ACCESS_KEY" !in env ==>
      r == Failure(SystemExit(EnvErrorPrefix + "'AWS_SECRET_ACCESS_KEY'"))
    ensures r.Success? ==>
      && r.value.geminiApiKey == env["GEMINI_API_KEY"]
      && r.value.accessKeyId == env["AWS_ACCESS_KEY_ID"]
      && r.value.secretAccessKey == env["AWS_SECRET_ACCESS_KEY"]
  {
    if "GEMINI_API_KEY" !in env then Failure(SystemExit(EnvErrorPrefix + "'GEMINI_API_KEY'"))
    else if "S3_BUCKET_NAME" !in env then Failure(SystemExit(EnvErrorPrefix + "'S3_BUCKET_NAME'"))
    else if "AWS_ACCESS_KEY_ID" !in env then Failure(SystemExit(EnvErrorPrefix + "'AWS_ACCESS_KEY_ID'"))
    else if "AWS_SECRET_ACCESS_KEY" !in env then Failure(SystemExit(EnvErrorPrefix + "'AWS_SECRET_ACCESS_KEY'"))
    else Success(ServiceConfig(
      env["GEMINI_API_KEY"], env["S3_BUCKET_NAME"], env["AWS_ACCESS_KEY_ID"], env["AWS_SECRET_ACCESS_KEY"],
      if "AWS_REGION" in env then env["AWS_REGION"] else DefaultRegion))
  }

  const GeminiModel: string := "models/gemini-2.0-flash"
  const Prompt: string := "Transcribe the following audio file accurately and clearly to english"
  const UploadFailed: string := "Failed to upload audio to S3."

  /** A call into the upload stream, S3 or Gemini. */
  datatype Call =
    | ReadUpload
    | CloseUpload
    | PutObject(bucket: string, key: string, body: seq<Utf8.byte>)
    | GenerateContent(model: string, prompt: string, mimeType: string, data: seq<Utf8.byte>)

  /** How each foreign call would end: the bytes read, the two uploads, and
      the response text (reading `response.text` may raise too). */
  datatype Outcomes = Outcomes(
    read: Attempt<seq<Utf8.byte>>, putAudio: Attempt<()>, generate: Attempt<string>, putTranscript: Attempt<()>)

  /** The result of the function and the calls it made. */
  datatype Run = Run(outcome: Completion<string>, calls: seq<Call>)

  /** A transcript is produced when the upload was read and stored and
      Gemini answered with some non-whitespace text. */
  predicate Transcribed(o: Outcomes) {
    o.read.Done? && o.putAudio.Done? && o.generate.Done? && PyStr.Strip(o.generate.value) != []
  }

  /** The steps of `process_audio_transcription`. */
  function Process(bucket: string, audioKey: string, transcriptKey: string, contentType: string,
                   aiError: string, o: Outcomes): (r: Run)
    ensures |r.calls| >= 2 && r.calls[..2] == [ReadUpload, CloseUpload]
    ensures o.read.Raised? ==> r == Run(Abrupt(OtherExc(o.read.message)), [ReadUpload, CloseUpload])
    ensures o.read.Done? ==> |r.calls| >= 3 && r.calls[2] == PutObject(bucket, audioKey, o.read.value)
    ensures o.read.Done? && o.putAudio.Raised? ==>
      r == Run(Abrupt(HttpExc(Plain(500, UploadFailed))), r.calls[..3])
    ensures o.read.Done? && o.putAudio.Done? ==>
      |r.calls| >= 4 && r.calls[3] == GenerateContent(GeminiModel, Prompt, contentType, o.read.value)
    ensures r.outcome.Normal? <==> Transcribed(o)
    ensures o.read.Done? && o.putAudio.Done? && !Transcribed(o) ==>
      r == Run(Abrupt(HttpExc(Plain(500, aiError))), r.calls[..4])
    ensures Transcribed(o) ==>
      var text := PyStr.Strip(o.generate.value);
      && r.outcome == Normal(text)
      && r.calls == [ReadUpload, CloseUpload, PutObject(bucket, audioKey, o.read.value),
                     GenerateContent(GeminiModel, Prompt, contentType, o.read.value),
                     PutObject(bucket, transcriptKey, Utf8.Encode(text))]
  {
    var closed := [ReadUpload, CloseUpload];
    match o.read
    case Raised(m) => Run(Abrupt(OtherExc(m)), closed)
    case Done(content) =>
      var stored := closed + [PutObject(bucket, audioKey, content)];
      if o.putAudio.Raised? then Run(Abrupt(HttpExc(Plain(500, UploadFailed))), stored)
      else
        var asked := stored + [GenerateContent(GeminiModel, Prompt, contentType, content)];
        if o.generate.Raised? || PyStr.Strip(o.generate.value) == [] then
          Run(Abrupt(HttpExc(Plain(500, aiError))), asked)
        else
          var text := PyStr.Strip(o.generate.value);
          Run(Normal(text), asked + [PutObject(bucket, transcriptKey, Utf8.Encode(text))])
  }

  /** Storing the transcript is best effort: whether it fails changes
      neither the result nor the calls made. `Process` never reads the
      outcome of that call, so this holds by construction. */
  lemma TranscriptSaveIsBestEffort(bucket: string, audioKey: string, transcriptKey: string,
                                   contentType: string, aiError: string, o: Outcomes, saved: Attempt<()>)
    ensures Process(bucket, audioKey, transcriptKey, contentType, aiError, o)
         == Process(bucket, audioKey, transcriptKey, contentType, aiError, o.(putTranscript := saved))
  {
  }

  /** Gemini is asked at most once, and only after the upload was read,
      closed and stored under the audio key. */
  lemma StepOrder(bucket: string, audioKey: string, transcriptKey: string, contentType: string,
                  aiError: string, o: Outcomes, i: nat)
    requires i < |Process(bucket, audioKey, transcriptKey, contentType, aiError, o).calls|
    requires Process(bucket, audioKey, transcriptKey, contentType, aiError, o).calls[i].GenerateContent?
    ensures i == 3 && o.read.Done? && o.putAudio.Done?
    ensures var r := Process(bucket, audioKey, transcriptKey, contentType, aiError, o);
      r.calls[2] == PutObject(bucket, audioKey, o.read.value)
  {
  }

  /** What a successful run returns is a stripped, non-empty text, and its
      UTF-8 encoding is what goes to the transcript object. */
  lemma TranscriptShape(bucket: string, audioKey: string, transcriptKey: string, contentType: string,
                        aiError: string, o: Outcomes)
    requires Process(bucket, audioKey, transcriptKey, contentType, aiError, o).outcome.Normal?
    ensures var r := Process(bucket, audioKey, transcriptKey, contentType, aiError, o);
      var text := r.outcome.value;
      && text != [] && PyStr.IsStripped(text)
      && r.calls[|r.calls| - 1] == PutObject(bucket, transcriptKey, Utf8.Encode(text))
      && |Utf8.Encode(text)| >= |text|
  {
    var r := Process(bucket, audioKey, transcriptKey, contentType, aiError, o);
    Utf8.EncodeLength(r.outcome.value);
  }
}
