# Ethnoverse services in Dafny

Ethnoverse is a set of small FastAPI services. This project models their
request logic and proves properties of it:

- **Credential service** (`backend/auth_service`): `/register` validates a
  new account and stores it. Passwords longer than 72 UTF-8 bytes, which
  bcrypt cannot hash, are refused, as are a confirmation that differs and
  an email or username already in use. `/login` looks the identifier up as
  a username, then as an email, checks the password against the bcrypt
  hash, and signs a JWT with `sub`, `username` and an `exp` claim.
- **Bearer dependency** (`backend/audio_transcription/auth.py`):
  `get_current_user` decodes the token with the configured secret and only
  the configured algorithm. It gives a 401 with a Bearer challenge on every
  failure, with a detail of its own for an expired token.
- **Transcription services** (`audio/` and `backend/audio_transcription/`):
  each `create_transcription` handler checks the upload (a filename, one of
  six audio types). The service then reads the upload, stores it in S3,
  asks Gemini for a transcript and stores the stripped transcript in S3 on
  a best-effort basis. The authenticated variant keeps both objects under
  `private/<user id>/`.
- **Handwriting recognition** (`backend/Handwriting_recognition`):
  `/api/recognize` runs Google Cloud Vision document text detection and
  flattens the annotation into words. It keeps the result in a request
  store. `/api/save` turns a confirmed text into an NLP-ready record:
  content statistics, cleaned text, sentences and paragraphs. It writes
  four files whose names are built from the request id.

The project's modules:

- **Python semantics.** `PyStr` covers `strip`, `split()`, `split(sep)`,
  `join`, and `replace` and `count` of a single character, with Python's
  definition of whitespace.
  `PyPath` covers `os.path.splitext` and `os.path.join` on POSIX. `PyInt`
  covers `int()` and `str()` on integers. `Utf8` covers `encode('utf-8')`
  as laid out in section 3 of RFC 3629.
- **Stand-ins for foreign calls.** bcrypt, PyJWT, S3, Gemini and Cloud
  Vision are parameters. For S3 and Gemini each call's outcome is given
  (`Attempt`), and the model records the calls made, in order (`Call`).
- **Exceptions.** `Http.Completion` models how a Python call ends: it
  returns, raises an `HTTPException`, or raises some other exception.
- **Imperative parts.** The state the services update in place (the user
  table, the request store) is a `class` whose methods state their new
  state. The four nested loops that flatten the Vision annotation are a
  `method` proved equal to a recursive specification.

## Model

| member | source | states |
|---|---|---|
| Utf8.EncodeChar | backend/auth_service/schemas.py:15 | one to four bytes as the code point's range requires; the lead byte's high bits announce the length and the other bytes are continuation bytes |
| Utf8.DecodeEncodeChar | backend/auth_service/schemas.py:15 | decoding the bytes of a character gives back its code point, so the encoding loses nothing |
| Utf8.EncodeLength | backend/auth_service/schemas.py:15-16 | the encoded length is the sum of the per-character widths, between one and four bytes per character |
| Utf8.AsciiLength | backend/auth_service/schemas.py:15-16 | ASCII text takes one byte per character |
| Utf8.AstralLength | backend/auth_service/schemas.py:15-16 | characters outside the Basic Multilingual Plane take four bytes each |
| Schemas.ValidatePassword | backend/auth_service/schemas.py:12-18 | accepted exactly when the UTF-8 encoding is at most 72 bytes, and then returned unchanged; otherwise the error "password must be 72 bytes or fewer" |
| Schemas.ValidateUserCreate | backend/auth_service/schemas.py:6-18 | the body passes exactly when both `password` and `confirm_password` pass; the errors name exactly the failing fields |
| Schemas.PasswordLimitCountsBytes | backend/auth_service/schemas.py:14-17 | the limit counts bytes, not characters: at most 72 ASCII characters, but only 18 astral ones |
| PyInt.NatToString | backend/auth_service/main.py:61 | `str(n)` is a non-empty digit string without a leading zero |
| PyInt.NatToStringValue | backend/auth_service/main.py:61 | the digits of `str(n)` denote `n` |
| PyInt.ParseInt | backend/auth_service/security.py:10 | `int()` succeeds only on text that is not blank |
| PyInt.ParseIntExact | backend/auth_service/security.py:10 | `int(s)` gives `v` exactly when `s` is an optional sign and one or more ASCII digits denoting `v`, with only whitespace before and after; every other text is refused |
| PyInt.ParseIntSound | backend/auth_service/security.py:10 | every text `int()` accepts is a signed number between whitespace, read with its sign |
| PyInt.ParseIntComplete | backend/auth_service/security.py:10 | every signed number between whitespace is accepted with its value |
| PyInt.ParseIntExamples | backend/auth_service/security.py:10 | " +015 " reads as 15; "15m", "1.5", "+" and "- 5" are refused |
| PyInt.ParseIntRoundTrip | backend/auth_service/security.py:10 | `int(str(i)) == i` for every integer |
| PyInt.ParseNatural | backend/auth_service/security.py:10 | `int()` reads back the digits of a natural number |
| PyInt.ParseNegative | backend/auth_service/security.py:10 | `int()` reads a minus sign followed by digits as a negative number |
| Security.LoadConfig | backend/auth_service/security.py:7-12 | loads exactly when the secret, algorithm and lifetime are set and the lifetime parses as an integer; otherwise a `SystemExit` carrying the quoted name of the first missing variable, or the `int()` error for a bad lifetime |
| Security.LoadConfigReadsMinutes | backend/auth_service/security.py:7-12 | a lifetime written as `str(m)` loads as `m` |
| Security.LoadConfigMinutesExact | backend/auth_service/security.py:7-12 | with the three variables set, the service starts with lifetime `m` exactly when the lifetime text is `m` as a signed decimal number between whitespace |
| Security.UnitLifetimeAborts | backend/auth_service/security.py:10-12 | a lifetime with a unit, such as "15m", stops the service |
| Security.PwdContext | backend/auth_service/security.py:16-21 | the context uses bcrypt with 12 rounds |
| Security.PwdContextDelegates | backend/auth_service/security.py:16-29 | hashing runs the context's hash with 12 rounds; verification calls the same context's verifier |
| Security.AccessClaims | backend/auth_service/security.py:33-35 | the signed claims are the caller's claims with `exp` added, set to the issue time plus the lifetime in seconds; no other claim changes |
| Security.CreateAccessToken | backend/auth_service/security.py:31-37 | the token signs exactly those claims, with the configured secret and algorithm |
| AuthService.FindBy | backend/auth_service/main.py:34-40 | the lookup finds nothing exactly when no row has the key; otherwise it returns the first row that has it |
| AuthService.RegisterAcceptedExactly | backend/auth_service/main.py:31-42 | a registration goes through exactly when both passwords fit bcrypt, they match, and neither the email nor the username is in use |
| AuthService.RegisterErrorOrder | backend/auth_service/main.py:31-40 | the checks run in the source's order: a mismatch is reported whatever the table holds, and a taken email before a taken username |
| AuthService.RegisterRejection | backend/auth_service/main.py:31-40 | a body error lists one or two fields; a handler refusal is one of the three 400s, and only after the password passed validation |
| AuthService.RegisterPreservesUniqueness | backend/auth_service/main.py:34-42 | an accepted registration keeps ids, usernames and emails unique |
| AuthService.SecondRegistrationFails | backend/auth_service/main.py:34-40 | registering a username or email a second time is refused |
| AuthService.UserTable.Register | backend/auth_service/main.py:26-42 | a rejection changes nothing; an acceptance appends exactly the new user (bcrypt hash, next id), keeps the table valid and returns the user without the hash |
| AuthService.LookupFindsUser | backend/auth_service/main.py:49-51 | in a valid table a user's username finds that user; the email finds the user exactly when no other user has that email as a username |
| AuthService.LookupUser | backend/auth_service/main.py:49-51 | a user found has the identifier as username or email; nobody is found exactly when no row has it in either column; a username match always wins |
| AuthService.FindByUnique | backend/auth_service/main.py:49-51 | in a table with unique columns, a row's own key finds that row |
| AuthService.LoginClaims | backend/auth_service/main.py:60-62 | the claims are exactly `sub` (the id as a decimal string) and `username` |
| AuthService.UserTable.Login | backend/auth_service/main.py:44-63 | fails exactly when the lookup finds no user or the password does not verify, always with the same 401 and Bearer challenge; otherwise a bearer token for that user's claims |
| Auth.LoadConfig | backend/audio_transcription/auth.py:9-13 | loads exactly when secret and algorithm are set; otherwise a `SystemExit` naming the first missing variable |
| Auth.GetCurrentUser | backend/audio_transcription/auth.py:19-43 | succeeds exactly when the token decodes with the configured secret and algorithm and carries `sub` and `username`; every failure is a 401 with the Bearer challenge, "Token has expired" exactly for an expired signature and "Could not validate credentials" otherwise |
| Auth.OnlyConfiguredAlgorithm | backend/audio_transcription/auth.py:30 | the verdict depends on the decoder only through the one call with the configured secret and the single configured algorithm |
| Auth.IssuedTokenAuthenticates | backend/audio_transcription/auth.py:30-35 | a token issued by `/login` authenticates as the user's id string and username, provided the decoder returns the claims that were signed |
| OcrService.WordsOfWords | backend/Handwriting_recognition/ocr_service.py:52-59 | one entry per word of the paragraph |
| OcrService.WordsOfWordsEntries | backend/Handwriting_recognition/ocr_service.py:52-59 | the entry for the i-th word holds that word's symbols' text and the block's confidence |
| OcrService.VisionOcr | backend/Handwriting_recognition/ocr_service.py:25-89 | never raises; no error exactly when the call returned, reported no error and the annotation is set, and then the stripped text, confidence 0.9 and the flattened words; otherwise the API error with its prefix, or "No text detected", with empty text and words |
| OcrService.GoogleCloudVisionOcr | backend/Handwriting_recognition/ocr_service.py:15-89 | the four nested loops build exactly the result of `VisionOcr` |
| OcrService.AppendPageWords | backend/Handwriting_recognition/ocr_service.py:50-59 | the loop over a page's blocks appends exactly the page's words, in order |
| OcrService.AppendBlockWords | backend/Handwriting_recognition/ocr_service.py:51-59 | the loop over a block's paragraphs appends exactly the block's words, each with the block's confidence |
| OcrService.AppendParagraphWords | backend/Handwriting_recognition/ocr_service.py:52-59 | the loop over a paragraph's words appends one entry per word, in order |
| OcrService.WordsOfPagesAppend | backend/Handwriting_recognition/ocr_service.py:49-59 | flattening keeps page order: the words of `a + b` are those of `a` followed by those of `b` |
| OcrService.OneWordPage | backend/Handwriting_recognition/ocr_service.py:53-58 | a single word yields its symbols concatenated, with its block's confidence, or 0.9 when the block has none |
| OcrService.SymbolTextAppend | backend/Handwriting_recognition/ocr_service.py:53 | a word's text keeps its symbols' texts in order: the text of `a + b` is the text of `a` followed by the text of `b` |
| OcrService.MultiOcrPredict | backend/Handwriting_recognition/ocr_service.py:92-151 | no error exactly when the Vision text is non-blank and error-free, and then every text field carries it with one line entry; otherwise empty fields, method "Failed" and "OCR failed: " followed by the Vision error |
| OcrService.RecognitionSucceedsExactly | backend/Handwriting_recognition/ocr_service.py:39-151 | end to end, recognition succeeds exactly when the call returned, the API reported no error and the stripped annotation text is non-empty; a set but blank annotation fails with "OCR failed: None"; an exception's message is carried through both prefixes |
| PyStr.SkipSpace | backend/Handwriting_recognition/main.py:132 | the first non-whitespace index at or after `i` |
| PyStr.Strip | backend/Handwriting_recognition/main.py:132 | the result has whitespace at neither end |
| PyStr.StripInfix | backend/Handwriting_recognition/main.py:132 | the result is the infix between the leading and the trailing whitespace, which are all that is dropped; it is empty exactly when the text is all whitespace |
| PyStr.StripStripped | backend/Handwriting_recognition/main.py:132 | stripping is idempotent |
| PyStr.StripSubset | backend/Handwriting_recognition/main.py:145-146 | every character of the stripped text occurs in the text |
| PyStr.StripOccurs | backend/Handwriting_recognition/main.py:146 | an occurrence of a separator in the stripped text is one in the text |
| PyStr.SplitWs | backend/Handwriting_recognition/main.py:133 | `split()` yields non-empty words without whitespace, and no word at all exactly when the text is all whitespace |
| PyStr.SplitWsFrom | backend/Handwriting_recognition/main.py:133 | `split()` yields non-empty words without whitespace |
| PyStr.SplitWsKeepsNonSpace | backend/Handwriting_recognition/main.py:133 | the words glued together are the non-whitespace characters of the text, in order |
| PyStr.JoinSpaceShape | backend/Handwriting_recognition/main.py:144 | words joined by single spaces give a stripped text whose only whitespace are single spaces |
| PyStr.SplitJoinSpace | backend/Handwriting_recognition/main.py:144 | `' '.join(words).split()` gives the words back |
| PyStr.Find | backend/Handwriting_recognition/main.py:135 | the first occurrence of the separator, or none |
| PyStr.Split | backend/Handwriting_recognition/main.py:135-146 | at least one piece; joined with the separator the pieces rebuild the text; no piece holds the separator |
| PyStr.SplitLeftmost | backend/Handwriting_recognition/main.py:146 | separators are matched leftmost: each piece but the last, followed by the separator, has its first occurrence of the separator right after the piece |
| PyStr.FindPrefix | backend/Handwriting_recognition/main.py:146 | the first occurrence of the separator is also the first one in the prefix that ends with it |
| PyStr.SplitCharCount | backend/Handwriting_recognition/main.py:135 | splitting on a character gives one piece more than the character's count |
| PyStr.SplitCharPieces | backend/Handwriting_recognition/main.py:136 | no piece of a split on a character holds that character |
| PyStr.ReplaceChar | backend/Handwriting_recognition/main.py:145 | same length; exactly the replaced character changes, position by position |
| PyStr.JoinCountChar | backend/Handwriting_recognition/main.py:146 | joining `n` parts puts `n - 1` separators, and their characters, into the text |
| PyStr.ReplaceCharCount | backend/Handwriting_recognition/main.py:145 | replacing one character by another leaves the count of every third character unchanged |
| PyStr.JoinMember | backend/Handwriting_recognition/main.py:145 | every character of a piece occurs in the joined text |
| PyStr.CountCharAppend | backend/Handwriting_recognition/main.py:135 | counts add up over concatenation |
| Handwriting.StripNonEmptySource | backend/Handwriting_recognition/main.py:145-146 | each kept piece is the non-empty, stripped text of some input piece |
| Handwriting.StripNonEmptyKeeps | backend/Handwriting_recognition/main.py:145-146 | no piece whose stripped text is non-empty is dropped |
| Handwriting.StripNonEmptyAppend | backend/Handwriting_recognition/main.py:145-146 | the comprehension keeps order: the kept pieces of `a + b` are those of `a` followed by those of `b` |
| Handwriting.StripNonEmptyOne | backend/Handwriting_recognition/main.py:145-146 | one piece is kept, stripped, exactly when its stripped text is non-empty |
| Handwriting.Sentences | backend/Handwriting_recognition/main.py:145 | there is at most one sentence more than the text has full stops |
| Handwriting.Paragraphs | backend/Handwriting_recognition/main.py:146 | each paragraph after the first takes a blank line, so twice the paragraphs exceed the line breaks by at most two |
| Handwriting.CleanedText | backend/Handwriting_recognition/main.py:144 | the cleaned text is stripped, and empty exactly when the text is all whitespace |
| Handwriting.ContentOf | backend/Handwriting_recognition/main.py:130-137 | `line_count` is one more than the number of line breaks, `character_count` is the length, `preprocessed_text` is stripped, and `word_count` is zero exactly when the text is all whitespace |
| Handwriting.SentencesShape | backend/Handwriting_recognition/main.py:145 | every sentence is non-empty and stripped, with no full stop and no line break |
| Handwriting.NoFullStop | backend/Handwriting_recognition/main.py:145 | a stripped piece of a split on '.' holds no '.' |
| Handwriting.NoLineBreak | backend/Handwriting_recognition/main.py:145 | once line breaks become spaces, no sentence holds one |
| Handwriting.ParagraphsShape | backend/Handwriting_recognition/main.py:146 | every paragraph is non-empty and stripped, and holds no blank line "\n\n" |
| Handwriting.ContentLines | backend/Handwriting_recognition/main.py:130-137 | `line_count` equals the number of lines, one more than the number of line breaks; the lines joined by '\n' rebuild the text and none holds a '\n'; `character_count` is the text's length |
| Handwriting.CleanedTextShape | backend/Handwriting_recognition/main.py:133-144 | the cleaned text is stripped, single-spaced, and has the same words as the text (so `word_count` counts its words); it drops only whitespace |
| Handwriting.NlpRecord | backend/Handwriting_recognition/main.py:119-150 | the record carries the request id, the content statistics and the NLP section of the confirmed text; `user_corrections` holds exactly when the text differs from the OCR text; the status is "approved" |
| Handwriting.ImagePath | backend/Handwriting_recognition/main.py:197-199 | for an id that does not start with '/', the upload is kept as `temp_images/<id>_<filename>` |
| Handwriting.OutputPaths | backend/Handwriting_recognition/main.py:153-178 | the four files are `nlp_ready/nlp_<id>.json`, `output/<id>.json`, `nlp_ready/text_<id>.txt` and `output/<id>_<filename>` |
| Handwriting.OutputPathsDistinct | backend/Handwriting_recognition/main.py:153-178 | one save writes four different files |
| Handwriting.DistinctRequestsDistinctFiles | backend/Handwriting_recognition/main.py:153-173 | saves of different requests never share a JSON or text file |
| Handwriting.Affixed | backend/Handwriting_recognition/main.py:153-173 | a fixed prefix and suffix keep names apart exactly when the ids differ |
| Handwriting.SaveOutput | backend/Handwriting_recognition/main.py:107-190 | fails exactly when a write fails, with "Failed to save output: " and the message; otherwise the four paths, the records built from the confirmed text and the stored OCR result, and the image source |
| Handwriting.Quoted | backend/Handwriting_recognition/main.py:265 | each id is written in single quotes, in order |
| Handwriting.RequestStore.Recognize | backend/Handwriting_recognition/main.py:192-250 | an OCR exception gives "OCR processing failed: ..." with a 500 and leaves the store unchanged; otherwise the id's entry is set, no other entry changes, a new id goes to the end of the order, and the response carries the summary |
| Handwriting.RequestStore.Save | backend/Handwriting_recognition/main.py:252-301 | an unknown id gives a 404 listing the known ids and writes nothing; otherwise `save_output` runs on the stored entry with the placeholder address; its failure gives a 500 "Failed to save data: ..."; the store is only read |
| Handwriting.RecognizeThenSaveTwice | backend/Handwriting_recognition/main.py:267-289 | a recognised request can be saved again and again; with the same text each save writes the same records from the same image |
| Transcription.LoadConfig | audio/transcription_service.py:16-24 | loads exactly when the four variables are set, with `us-east-1` as the default region; otherwise a `SystemExit` naming the first missing variable |
| Transcription.Process | audio/transcription_service.py:44-103 | the upload is read and closed first. A read error propagates. A failed audio upload is a 500 "Failed to upload audio to S3." without asking Gemini. A Gemini exception or a blank answer is a 500 with the service's AI error. Otherwise the stripped answer is returned and stored, UTF-8 encoded, as the fifth call |
| Transcription.TranscriptSaveIsBestEffort | audio/transcription_service.py:92-100 | whether storing the transcript fails changes neither the result nor the calls |
| Transcription.StepOrder | audio/transcription_service.py:52-75 | Gemini is asked at most once, as the fourth call, only after the audio was stored |
| Transcription.TranscriptShape | audio/transcription_service.py:78-103 | a returned transcript is non-empty and stripped, and its UTF-8 bytes are the last object stored |
| AudioService.ProcessAudioTranscription | audio/transcription_service.py:37-103 | the audio is stored under its filename and the transcript under `transcripts/`; a failed transcription is "An error occurred during transcription with the AI service." |
| AudioService.TranscriptKeyShape | audio/transcription_service.py:91 | the transcript key replaces only the last extension of the last path component with ".txt"; an extension is removed exactly when that component has a '.' after a non-dot, and it is everything from the last '.' on |
| AudioService.LastExtensionOnly | audio/transcription_service.py:91 | "a.b.mp3" gives "transcripts/a.b.txt" |
| AudioService.LeadingDotKept | audio/transcription_service.py:91 | ".mp3" gives "transcripts/.mp3.txt" |
| AudioService.DirectoryDotIgnored | audio/transcription_service.py:91 | for any directory, a last component without '.' is kept whole ("take.v2/voice" gives "transcripts/take.v2/voice.txt") |
| AudioService.EmptyAnswerIsGenericError | audio/transcription_service.py:78-88 | a whitespace-only answer surfaces as the generic AI error, because the "empty response" exception is caught by the same handler |
| PyPath.RFind | audio/transcription_service.py:91 | the last index holding the character, or -1 |
| PyPath.Splitext | audio/transcription_service.py:91 | root and extension concatenate to the path |
| PyPath.SplitextFindsExtension | audio/transcription_service.py:91 | a '.' after a non-dot in the last component makes an extension, which is everything from the last '.' on |
| PyPath.SplitextNoExtension | audio/transcription_service.py:91 | without such a '.', the root is the whole path and the extension is empty |
| PyPath.SplitextExact | audio/transcription_service.py:91 | the extension is non-empty exactly when the last component has a '.' after a non-dot, and then it starts at the last '.' |
| PyPath.ExtensionShape | audio/transcription_service.py:91 | the extension is empty, or one '.' followed by neither '.' nor '/' |
| PyPath.StemKeepsDirectories | audio/transcription_service.py:91 | the root keeps the directory part of the path |
| PyPath.Join | backend/Handwriting_recognition/main.py:199 | an absolute second component replaces the first; otherwise one '/' separates them, and when the first is empty or ends in '/' the two are simply concatenated |
| UserAudioService.KeysUnderUserPrefix | backend/audio_transcription/transcription_service.py:41-42 | both keys start with `private/<user id>/` and never coincide |
| UserAudioService.PrefixIdentifiesUser | backend/audio_transcription/transcription_service.py:41-42 | for user ids without '/', a key under one user's folder is under no other user's |
| UserAudioService.ProcessAudioTranscription | backend/audio_transcription/transcription_service.py:36-96 | the same steps, with the audio under `private/<user id>/audio/` and the transcript under `private/<user id>/transcripts/`; a failed transcription is "Error during transcription with the AI service." |
| UserAudioService.StoresOnlyUnderUserPrefix | backend/audio_transcription/transcription_service.py:41-91 | every object the run stores lies under the user's private folder |
| Upload.UnsupportedType | audio/main.py:35-40 | a 400 naming the rendered type in quotes, then the six supported types separated by ", " |
| Upload.SupportedTypesListed | audio/main.py:35-40 | `', '.join` of the supported types spells the six types in order, separated by ", " |
| Upload.Rejection | audio/main.py:30-40 | the upload is accepted exactly when it has a non-empty filename and a listed type; a missing filename is reported first; every rejection is a 400 |
| Upload.Respond | audio/main.py:42-62 | the service's text comes back under the filename; an `HTTPException` passes through unchanged; any other exception becomes the generic 500 |
| AudioMain.CreateTranscription | audio/main.py:23-62 | a rejected upload makes no call; an accepted one runs the service and maps its outcome |
| AudioMain.EndToEnd | audio/main.py:23-62 | succeeds exactly when the upload passes and the service transcribes it, returning the stripped answer; failures are 400 or 500; an unreadable upload is the generic 500 |
| BackendAudioMain.CreateTranscription | backend/audio/main.py:20-57 | the service is called, with the filename and type, exactly when the checks pass, and its outcome is mapped |
| BackendAudioMain.ServiceSeesOnlyValidUploads | backend/audio/main.py:27-51 | the service only sees a non-empty filename and a listed type; the handler succeeds exactly when the service returns, with its text unchanged |
| AudioTranscriptionMain.CreateTranscription | backend/audio_transcription/main.py:40-82 | authentication first, then the upload checks, then the per-user service under the token's user id |
| AudioTranscriptionMain.AuthComesFirst | backend/audio_transcription/main.py:41-43 | a refused token gives its 401 with the Bearer challenge whatever the upload, and makes no call |
| AudioTranscriptionMain.LoginTokenStoresUnderUsersFolder | backend/audio_transcription/main.py:49-70 | with a token from `/login`, an accepted upload is stored under `private/<id>/audio/` and its transcript under `private/<id>/transcripts/` |

## Left out

- `oauth2_scheme` (`OAuth2PasswordBearer`) answers a request without an `Authorization: Bearer` header with its own 401 "Not authenticated" before `get_current_user` runs (backend/audio_transcription/auth.py:17-19). This is not modelled: `Auth.GetCurrentUser` starts from the token string.
- bcrypt and PyJWT are parameters: the hash, the verifier, the encoder and the decoder. Their internals, the random salt and the signature are not modelled. A decoder that returns the signed claims is a hypothesis of the lemmas that need it.
- crud.py, models.py and database.py are not part of this model. The lookups are "first row whose column equals the key", and `create_user` stores the bcrypt hash under the next free id. Database unique constraints, sessions and transactions are not modelled.
- `EmailStr` validation and the layout of pydantic's 422 response are not modelled. A body error is the list of failing fields with their message.
- Security.CreateAccessToken: `exp` is computed on unbounded integers. In Python, `datetime.utcnow() + timedelta(minutes=...)` raises OverflowError once the date leaves years 1 to 9999 (a lifetime of roughly 4.2e9 minutes or more, or a very negative one), so every `/login` would end in a 500. This is not modelled: `AuthService.UserTable.Login` always returns a token.
- Security.LoadConfig: CPython refuses to convert a decimal text of more than 4300 digits with `int()`, and its ValueError message differs from "invalid literal". This limit is not modelled: such a lifetime loads as its value.
- Datetimes are whole seconds: `exp` is the issue time plus 60 times the lifetime. PyJWT's conversion of a `datetime` to a NumericDate and the clock are not modelled; the issue time is a parameter.
- `int()` is modelled on optional surrounding whitespace, an optional sign and ASCII digits. Underscores between digits and non-ASCII digits, which Python also accepts, are not.
- Python's `repr` escaping of quotes and backslashes is not modelled. In the `KeyError` text, the `int()` error and the 404 id list, each string is simply wrapped in single quotes.
- Strings are sequences of Unicode scalar values. Lone surrogates, which make `encode('utf-8')` raise in Python, cannot occur in the model.
- S3, Gemini, Cloud Vision and the upload stream are foreign. Each call's outcome is a parameter, and the model records the calls made. Client configuration, credentials and logging are not modelled.
- Confidences are `real`; floating-point rounding is not modelled.
- `hasattr(block, 'confidence')` is modelled as an optional block confidence. Real protobuf blocks always have the field.
- The OCR step of `/api/recognize` is an `Attempt`, kept for completeness. In the source nothing inside that `try` is expected to raise: `multi_ocr_predict` and `google_cloud_vision_ocr` catch their own exceptions (backend/Handwriting_recognition/ocr_service.py:80-89) and `create_image_preview` catches every exception and returns `None` (backend/Handwriting_recognition/main.py:85-105). The "OCR processing failed" 500 is therefore practically unreachable. The temporary image is written before the `try` (backend/Handwriting_recognition/main.py:201-203), so a failed write gives the framework's generic 500, which is not modelled.
- `create_image_preview` (Pillow resizing and base64) is not modelled; the preview is a parameter.
- Writing the uploaded image to `temp_images/`, `load_request_store`, `save_request_store` and the `/api/debug` endpoint are file and diagnostic I/O and are not modelled.
- Handwriting.SaveOutput: a failing write is one message, and the model treats the save as writing nothing. Files written before the failing one stay on disk in the source.
- `uuid4`, `datetime.now().isoformat()` and the user id of `/api/save` are parameters.
- backend/audio/transcription_service.py is not part of this model. `BackendAudioMain` takes that service as a function parameter.
- `async` execution, concurrent requests on the shared request store and user table, CORS settings, the health-check endpoints, `load_dotenv` and the frontend scripts are not modelled.
