/** `process_audio_transcription` of
    backend/audio_transcription/transcription_service.py: the same steps as
    the plain service, with both objects under the user's private folder. */
module UserAudioService {
  import opened Http
  import PyPath
  import PyStr
  import Transcription

  const AiError: string := "Error during transcription with the AI service."

  /** `private/{user_id}/`. */
  function UserPrefix(userId: string): string {
    "private/" + userId + "/"
  }

  function AudioKey(userId: string, filename: string): string {
    UserPrefix(userId) + "audio/" + filename
  }

  function TranscriptKey(userId: string, filename: string): string {
    UserPrefix(userId) + "transcripts/" + PyPath.Stem(filename) + ".txt"
  }

  /** Both keys sit under the user's prefix, in different sub-folders, so
      they never coincide. */
  lemma KeysUnderUserPrefix(userId: string, filename: string)
    ensures var p := UserPrefix(userId);
      && AudioKey(userId, filename) == p + AudioKey(userId, filename)[|p|..]
      && TranscriptKey(userId, filename) == p + TranscriptKey(userId, filename)[|p|..]
      && AudioKey(userId, filename) != TranscriptKey(userId, filename)
  {
    var p := UserPrefix(userId);
    assert AudioKey(userId, filename)[|p|] == 'a';
    assert TranscriptKey(userId, filename)[|p|] == 't';
  }

  /** For user ids without '/', the prefix identifies the user: an object
      key of one user is never under another user's folder. */
  lemma PrefixIdentifiesUser(u1: string, u2: string, rest1: string, rest2: string)
    requires '/' !in u1 && '/' !in u2
    requires UserPrefix(u1) + rest1 == UserPrefix(u2) + rest2
    ensures u1 == u2
  {
    var k1 := UserPrefix(u1) + rest1;
    var k2 := UserPrefix(u2) + rest2;
    assert k1[8 + |u1|] == '/' && k2[8 + |u2|] == '/';
    assert forall i :: 0 <= i < |u1| ==> k1[8 + i] == u1[i] != '/';
    assert forall i :: 0 <= i < |u2| ==> k2[8 + i] == u2[i] != '/';
    assert |u1| == |u2|;
    assert u1 == k1[8..8 + |u1|];
  }

  /** `process_audio_transcription(file, filename, content_type, user_id)`. */
  function ProcessAudioTranscription(cfg: Transcription.ServiceConfig, filename: string, contentType: string,
                                     userId: string, o: Transcription.Outcomes): (r: Transcription.Run)
    ensures o.read.Done? ==>
      |r.calls| >= 3 && r.calls[2] == Transcription.PutObject(cfg.bucket, AudioKey(userId, filename), o.read.value)
    ensures Transcription.Transcribed(o) ==>
      && |r.calls| == 5 && r.calls[4].PutObject?
      && r.calls[4].key == TranscriptKey(userId, filename) && r.calls[4].bucket == cfg.bucket
    ensures o.read.Done? && o.putAudio.Done? && !Transcription.Transcribed(o) ==>
      r.outcome == Abrupt(HttpExc(Plain(500, AiError)))
  {
    Transcription.Process(cfg.bucket, AudioKey(userId, filename), TranscriptKey(userId, filename),
                          contentType, AiError, o)
  }

  /** Every object a run stores lies under the user's private folder. */
  lemma StoresOnlyUnderUserPrefix(cfg: Transcription.ServiceConfig, filename: string, contentType: string,
                                  userId: string, o: Transcription.Outcomes, i: nat)
    requires i < |ProcessAudioTranscription(cfg, filename, contentType, userId, o).calls|
    requires ProcessAudioTranscription(cfg, filename, contentType, userId, o).calls[i].PutObject?
    ensures var key := ProcessAudioTranscription(cfg, filename, contentType, userId, o).calls[i].key;
      |key| >= |UserPrefix(userId)| && key[..|UserPrefix(userId)|] == UserPrefix(userId)
  {
    var r := ProcessAudioTranscription(cfg, filename, contentType, userId, o);
    var p := UserPrefix(userId);
    if i == 2 {
      assert AudioKey(userId, filename)[..|p|] == p;
    } else {
      assert i == 4;
      assert TranscriptKey(userId, filename)[..|p|] == p;
    }
  }
}
