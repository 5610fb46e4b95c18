/** `process_audio_transcription` of audio/transcription_service.py: the
    audio is stored under its own filename and the transcript under
    `transcripts/`. */
module AudioService {
  import opened Http
  import PyPath
  import PyStr
  import Transcription

  const AiError: string := "An error occurred during transcription with the AI service."

  /** `f"transcripts/{os.path.splitext(filename)[0]}.txt"`. */
  function TranscriptKey(filename: string): string {
    "transcripts/" + PyPath.Stem(filename) + ".txt"
  }

  /** The transcript key replaces only the last extension of the last path
      component by ".txt": the filename is the key's middle followed by an
      extension that is empty or one '.' with no further '.' or '/'. The
      extension is removed exactly when the last component has a '.' after
      a non-dot, and it is then everything from the last '.' on. */
  lemma TranscriptKeyShape(filename: string)
    ensures var key := TranscriptKey(filename);
      var ext := filename[|PyPath.Stem(filename)|..];
      && key == "transcripts/" + filename[..|filename| - |ext|] + ".txt"
      && (ext == [] || (ext[0] == '.' && '.' !in ext[1..] && '/' !in ext))
      && (ext != [] <==> PyPath.HasExtension(filename))
      && (ext != [] ==> ext == filename[PyPath.RFind(filename, '.')..])
  {
    var (root, ext) := PyPath.Splitext(filename);
    PyPath.ExtensionShape(filename);
    PyPath.SplitextExact(filename);
    assert filename == root + ext;
    assert filename[|root|..] == ext;
    assert filename[..|filename| - |ext|] == root;
  }

  /** Only the last extension is replaced: "a.b.mp3" keeps "a.b". */
  lemma LastExtensionOnly()
    ensures TranscriptKey("a.b.mp3") == "transcripts/a.b.txt"
  {
    var p := "a.b.mp3";
    assert p[3] == '.' && p[4] != '.' && p[5] != '.' && p[6] != '.';
    assert PyPath.RFind(p, '.') == 3;
    assert forall k :: 0 <= k < |p| ==> p[k] != '/';
    assert PyPath.RFind(p, '/') == -1;
    assert p[0] != '.';
    assert p[..3] == "a.b";
  }

  /** A leading dot does not start an extension: ".mp3" is kept whole. */
  lemma LeadingDotKept()
    ensures TranscriptKey(".mp3") == "transcripts/.mp3.txt"
  {
    var p := ".mp3";
    assert p[0] == '.' && p[1] != '.' && p[2] != '.' && p[3] != '.';
    assert PyPath.RFind(p, '.') == 0;
  }

  /** A dot in a directory name is not an extension: when the last path
      component has no '.', the whole filename is kept, as for
      "take.v2/voice". */
  lemma DirectoryDotIgnored(dir: string, name: string)
    requires '.' !in name
    ensures TranscriptKey(dir + "/" + name) == "transcripts/" + (dir + "/" + name) + ".txt"
  {
    var p := dir + "/" + name;
    assert p[|dir|] == '/';
    assert forall k :: |dir| < k < |p| ==> p[k] == name[k - |dir| - 1];
    PyPath.NoExtensionAfterSlash(p, |dir|);
  }

  /** `process_audio_transcription(file, filename, content_type)`. */
  function ProcessAudioTranscription(cfg: Transcription.ServiceConfig, filename: string, contentType: string,
                                     o: Transcription.Outcomes): (r: Transcription.Run)
    ensures o.read.Done? ==>
      |r.calls| >= 3 && r.calls[2] == Transcription.PutObject(cfg.bucket, filename, o.read.value)
    ensures Transcription.Transcribed(o) ==>
      && |r.calls| == 5 && r.calls[4].PutObject?
      && r.calls[4].key == TranscriptKey(filename) && r.calls[4].bucket == cfg.bucket
    ensures o.read.Done? && o.putAudio.Done? && !Transcription.Transcribed(o) ==>
      r.outcome == Abrupt(HttpExc(Plain(500, AiError)))
  {
    Transcription.Process(cfg.bucket, filename, TranscriptKey(filename), contentType, AiError, o)
  }

  /** A Gemini answer that is only whitespace surfaces as the generic AI
      error, not as the "empty response" detail raised inside the same
      handler. */
  lemma EmptyAnswerIsGenericError(cfg: Transcription.ServiceConfig, filename: string, contentType: string,
                                  o: Transcription.Outcomes)
    requires o.read.Done? && o.putAudio.Done? && o.generate.Done?
    requires PyStr.AllSpace(o.generate.value)
    ensures ProcessAudioTranscription(cfg, filename, contentType, o).outcome
         == Abrupt(HttpExc(Plain(500, AiError)))
  {
  }
}
