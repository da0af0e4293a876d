# Speech and transcription pipeline: request contracts

This project models the request handling of three small HTTP services:

- the **API gateway** receives uploads and text;
- the **media processor** turns audio or video into text;
- the **speech synthesizer** turns text into an audio file.

The model follows the Python code, handler by handler. It proves what each handler promises about its inputs, its calls to external tools and its temporary files.

Everything outside the handlers becomes a parameter of the model:

- the job id, the random name and the clock;
- the replies of the downstream services;
- the outcomes of the speech engines, `ffprobe`, `ffmpeg` and the recognition model.

The temporary-files directory is a class, `TempFiles.TempDir`, whose one field maps each path to its bytes. The handlers that write and remove files are imperative methods on it. Each such method is proved equal to a specification function (`SpeechSynthesizer.Speech`, `Gateway.MediaToText`, `MediaProcessor.Try` with `MediaProcessor.AfterTry`). That function describes the response, the external calls in order, and the directory afterwards. The properties are lemmas about these functions.

Files:

- `wrappers.dfy`: `Option` and `Result`.
- `pystr.dfy`: the Python string operations the handlers rely on:
  - `startswith`, `endswith` and `in`;
  - `lower()` on the characters that matter;
  - `strip()` emptiness;
  - `replace`;
  - `str(int)`.
- `http.dfy`: HTTP errors, and the outer `except Exception` that re-raises everything as a 500.
- `tempfiles.dfy`: `os.path.join` and the temporary directory.
- `speech_synthesizer.dfy`, `gateway.dfy`, `media_processor.dfy`: one module per service.

Two points where the code behaves otherwise than one would expect from the services' interface. One would expect client errors to be answered with their 4xx status, and every temporary upload to be removed whatever happens:

- **Client errors become 500s.** Every client error is raised inside the handler's own `try` block. These are the 413, the 400s, the 404, and a downstream non-200 status in the gateway. The surrounding `except Exception` catches each of them. So the client receives a 500 whose detail is "{prefix}: {code}: {detail}". The model follows the code and proves this (`Http.ClientErrorBecomesInternal` and the per-handler lemmas).
- **The gateway's cleanup is not unconditional.** It removes its temporary upload only after the media processor has answered, not in a `finally`. When the forward itself raises, the file stays (`Gateway.TempFileLeftOnlyWhenForwardRaises`). The media processor does use a `finally`, and the model proves that both of its temporary paths are gone on every outcome.

## Model

| member | source | states |
|---|---|---|
| PyStr.StartsWith | text-to-speech/main.py:319 | `s.startswith(p)` holds exactly when `p` is no longer than `s` and equals its first `len(p)` characters |
| PyStr.EndsWith | text-to-speech/main.py:187 | `s.endswith(suffix)` needs a suffix no longer than `s`, and the empty suffix always matches |
| PyStr.EndsWithAppend | text-to-speech/main.py:187-188 | a string with a suffix appended ends with that suffix |
| PyStr.Contains | text-to-speech/main.py:111-117 | `sub in s` needs `sub` no longer than `s`, and the empty string is in every string |
| PyStr.ContainsAt | text-to-speech/main.py:111-117 | a window of `s` equal to `sub`, at any position, makes `sub in s` true |
| PyStr.SubstringIndex | text-to-speech/main.py:111-117 | when `sub in s` holds there is a position whose window of `s` equals `sub` |
| PyStr.ContainsIffWindow | text-to-speech/main.py:111-117 | both directions together: `sub in s` exactly when some window of `s` equals `sub` |
| PyStr.Lower | media-processor/main.py:138 | a dot occurs in the lower-cased name exactly when it occurs in the name |
| PyStr.IsSpace | text-to-speech/main.py:180 | the whitespace `strip()` removes: space, tab, newline and carriage return are whitespace; no printable ASCII character is |
| PyStr.IsBlank | text-to-speech/main.py:180 | `not text.strip()`: the empty text is blank, and a text holding any printable ASCII character is not |
| Http.Message | text-to-speech/main.py:245-250 | `str(e)`: an exception's own message, or "{status}: {detail}" for an HTTP error, starting with the status code and ending with ": {detail}" |
| PyStr.Replace | text-to-speech/main.py:205 | left-to-right, non-overlapping replacement; a replacement of the same length keeps the length |
| Http.Reraise | text-to-speech/main.py:245-250 | whatever the handler raised is answered with status 500 |
| Http.ClientErrorBecomesInternal | api-gateway/main.py:124-129 | a 4xx raised inside the handler never reaches the client as itself; the detail is "{prefix}: {code}: {detail}" |
| Http.ReraiseKeepsMessage | media-processor/main.py:171-176 | the 500's detail starts with the handler's prefix and ends with the text of what was raised |
| TempFiles.Join | media-processor/main.py:128 | joining a relative name to the temp directory gives "{dir}/{name}" |
| TempFiles.JobTempPath | media-processor/main.py:128 | a job's temp file, the gateway's upload (api-gateway/main.py:86) or the processor's saved upload, is "{dir}/{job_id}_{name}" in the temp directory unless the job id is itself an absolute path |
| TempFiles.TempPathIsInTempDir | media-processor/main.py:128 | "{job_id}_{rest}" joined to the temp directory is "{dir}/{job_id}_{rest}" unless the job id is itself an absolute path |
| TempFiles.TempDir.Write | media-processor/main.py:130-131 | writing creates or overwrites exactly one path and leaves every other file as it was |
| TempFiles.TempDir.RemoveIfExists | media-processor/main.py:180-183 | the guarded removal deletes exactly that path, which no longer exists afterwards |
| SpeechSynthesizer.ValidationError | text-to-speech/main.py:168-184 | a request passes exactly when the voice type is "male" or "female", the text has at most 5000 characters, and the text is not all whitespace; every rejection is a 400 |
| SpeechSynthesizer.ValidationOrder | text-to-speech/main.py:168-184 | when several checks fail, the voice type is reported first, then the length, then the emptiness |
| SpeechSynthesizer.RequestedFilename | text-to-speech/main.py:186-188 | the output name always ends in ".mp3"; a name already ending in ".mp3" is kept unchanged |
| SpeechSynthesizer.RequestedFilenameCases | text-to-speech/main.py:186-188 | a missing or empty name gives "{job_id}.mp3"; any other name gets ".mp3" appended; the coercion is idempotent |
| SpeechSynthesizer.FallbackFilename | text-to-speech/main.py:205 | after the fallback the name has the same length, contains no ".mp3" at all, and ends in ".wav" when it ended in ".mp3" |
| SpeechSynthesizer.FallbackKeepsStem | text-to-speech/main.py:186-205 | a name "{stem}.mp3" whose stem holds no ".mp3" becomes "{stem}.wav": the stem is kept character for character |
| SpeechSynthesizer.ReplaceMp3EndsWithWav | text-to-speech/main.py:205 | replacing ".mp3" by ".wav" turns a trailing ".mp3" into ".wav" |
| SpeechSynthesizer.ReplaceMp3LeavesNone | text-to-speech/main.py:205 | after replacing ".mp3" by ".wav" no ".mp3" is left anywhere in the name |
| SpeechSynthesizer.VoiceMatches | text-to-speech/main.py:111-117 | only "male" and "female" requests match any voice; a voice whose lower-cased name contains the requested type's own word matches it |
| SpeechSynthesizer.FirstMatch | text-to-speech/main.py:110-117 | the scan finds the first voice, in list order, whose lower-cased name contains a keyword of the requested type; no earlier voice matches; none means no voice matches |
| SpeechSynthesizer.ChosenVoice | text-to-speech/main.py:119-123 | the first voice in list order whose name matches the request is chosen, by its id, or voices[0].id when that id is empty; with no matching voice the first voice's id is chosen; a voice is chosen exactly when the engine lists any, and it is always a listed id |
| SpeechSynthesizer.SelectVoice | text-to-speech/main.py:107-123 | the scanning loop sets exactly the voice `ChosenVoice` describes |
| SpeechSynthesizer.MaleKeywordsMatchFemaleNames | text-to-speech/main.py:111-117 | any voice whose name contains "female" or "woman" also matches a male request, because those words contain "male" and "man" |
| SpeechSynthesizer.MaleRequestTakesEarlierFemaleVoice | text-to-speech/main.py:107-123 | a male request therefore takes a female voice that is listed before every male one |
| SpeechSynthesizer.DownloadFolder | text-to-speech/main.py:220-224 | a given non-empty download path is used as the destination; otherwise the "Downloads" folder under the home directory is used |
| SpeechSynthesizer.Speech | text-to-speech/main.py:161-250 | the handler as a function of the request and the engines' outcomes: an engine is called exactly when the request is valid, a success has written its file, the bytes written are the online engine's audio when it produced some and otherwise the offline engine's, and every failure is a 500 |
| SpeechSynthesizer.GenerateSpeech | text-to-speech/main.py:161-250 | the handler's response and engine calls are those of `Speech`, and the temp directory gains exactly the file `Speech` says it wrote |
| SpeechSynthesizer.InvalidRequestReachesNoEngine | text-to-speech/main.py:167-184 | a request that fails validation calls no engine, writes nothing, and is answered with a 500 carrying the 400 |
| SpeechSynthesizer.SpeechFailuresAre500 | text-to-speech/main.py:245-250 | every failure's detail starts with "Speech generation failed: "; when a valid request fails because both engines raised, the detail ends with the offline engine's error message |
| SpeechSynthesizer.FallbackOnlyAfterOnlineRaises | text-to-speech/main.py:192-213 | the online engine is called first; the offline engine is called only after it raised, and at most once; when both raise, the request fails |
| SpeechSynthesizer.FinalNameFollowsEngine | text-to-speech/main.py:186-239 | on success the name is the requested ".mp3" name when the online engine produced the audio, and that name after the ".mp3"-to-".wav" fallback (ending in ".wav", with no ".mp3" left) when the offline engine did; the download URL and the saved path use that name |
| SpeechSynthesizer.MediaType | text-to-speech/main.py:265 | "audio/mpeg" exactly for names ending in ".mp3", "audio/wav" for every other name |
| SpeechSynthesizer.DownloadFile | text-to-speech/main.py:252-282 | a file is served exactly when it is present in the temp directory; the path served is `os.path.join` of the temp directory and the name, under its own name and the media type of that name; otherwise the answer is a 500 |
| SpeechSynthesizer.MissingDownloadIs500 | text-to-speech/main.py:256-262 | a missing file is answered with a 500 whose detail carries the 404 "File not found" |
| SpeechSynthesizer.DownloadServesSynthesizedFile | text-to-speech/main.py:216-265 | while a synthesized file is still present, its download URL serves the very path the synthesis wrote, with the media type of the engine that produced it |
| SpeechSynthesizer.WavIsNotMp3 | text-to-speech/main.py:265 | a name ending in ".wav" is never served as "audio/mpeg" |
| SpeechSynthesizer.GetFileInfo | text-to-speech/main.py:313-329 | the listing loop collects the entries whose names start with the job id, in directory order |
| SpeechSynthesizer.JobFilesMembers | text-to-speech/main.py:318-327 | an entry is listed exactly when it is in the directory and its name starts with the job id |
| Gateway.Take | api-gateway/main.py:83 | `s[:n]` is the prefix of `s` of length min(n, len(s)) |
| Gateway.UploadName | api-gateway/main.py:83 | the forwarded upload always has a non-empty name |
| Gateway.MediaToText | api-gateway/main.py:64-129 | the handler as a function of the upload and the processor's reply: it forwards and writes a temp file exactly when the upload is within the limit, and every failure is a 500 |
| Gateway.MediaToTextHandler | api-gateway/main.py:64-129 | the handler's response and forward are those of `MediaToText`; the temp directory ends up without the upload, or with it when the forward raised |
| Gateway.OversizeUploadTouchesNothing | api-gateway/main.py:76-80 | an upload over 150 MiB writes no file and is not forwarded; the client gets a 500 carrying the 413 |
| Gateway.LimitSizedUploadForwarded | api-gateway/main.py:76-102 | an upload of exactly 150 MiB is accepted and forwarded with its content unchanged |
| Gateway.UploadNaming | api-gateway/main.py:82-95 | the client's name is kept, or "audio_{job_id[:8]}.mp3" is used when there is none; the upload's bytes are forwarded unchanged whatever their size within the limit; the temp file is "{job_id}_{filename}" in the temp directory |
| Gateway.TempFileLeftOnlyWhenForwardRaises | api-gateway/main.py:88-106 | the temp upload is removed whenever the processor answered, and stays with the uploaded bytes when the forward raised |
| Gateway.MediaIntakeOutcome | api-gateway/main.py:104-129 | the intake succeeds exactly when the upload fits and the processor answered 200 with JSON; the acknowledgement carries the job id, the forwarded name, the temp upload path "{job_id}_{filename}", "completed" and the time; every failure is a 500 |
| Gateway.OutputFilename | api-gateway/main.py:146-153 | the forwarded name always ends in ".mp3"; a given name already ending in ".mp3" is kept, and any other non-empty name gets ".mp3" appended |
| Gateway.OutputFilenameIdempotent | api-gateway/main.py:146-153 | coercing an output name a second time leaves it unchanged, whatever random name is drawn |
| Gateway.GeneratedNameShape | api-gateway/main.py:146-151 | without a name, the forwarded name is ten lower-case ASCII letters followed by ".mp3" |
| Gateway.TextToAudio | api-gateway/main.py:132-191 | the handler as a function of the request, the random name and the synthesizer's reply: what it sends carries the job id, the text, the voice type and the name `OutputFilename` gives, which ends in ".mp3"; a success reports that name; every failure is a 500 |
| Gateway.VoiceCheckedBeforeForwarding | api-gateway/main.py:138-143 | nothing is sent downstream exactly when the voice type is neither "male" nor "female"; the client then gets a 500 carrying the 400 |
| Gateway.TextIntakeOutcome | api-gateway/main.py:170-184 | the request succeeds exactly for a valid voice type and a 200 JSON reply; the response echoes the forwarded name and the voice type and points at "/api/v1/download/{job_id}" |
| Gateway.SynthesizerKeepsForwardedName | api-gateway/main.py:146-162 | the forwarded payload passes the synthesizer's voice check and its name coercion unchanged, so the online engine saves the file under the name the gateway reports |
| Gateway.FallbackNameDiffersFromReported | text-to-speech/main.py:205 | after the synthesizer's fallback, the saved file name differs from the name the gateway reported to its client |
| MediaProcessor.LastSegment | media-processor/main.py:138 | `split('.')[-1]` contains no dot, is the whole string when there is no dot, and otherwise follows the last dot |
| MediaProcessor.Extension | media-processor/main.py:138 | the extension contains no dot and is empty for a name without a dot |
| MediaProcessor.ExtensionFollowsLastDot | media-processor/main.py:138 | for a name with a dot, the lower-cased name ends in "." followed by the extension |
| MediaProcessor.LowerLastSegment | media-processor/main.py:138 | lower-casing and taking the text after the last dot give the same result in either order |
| MediaProcessor.ExtensionIsLoweredLastSegment | media-processor/main.py:138 | for a name with a dot, the extension is the text after its last dot, lower-cased |
| MediaProcessor.ExtensionAfterLastDot | media-processor/main.py:138 | the extension of "{stem}.{ext}" is `ext` lower-cased, whatever the stem contains |
| MediaProcessor.ExtensionOfTrailingDot | media-processor/main.py:138 | a name ending in a dot has the empty extension |
| MediaProcessor.IsVideo | media-processor/main.py:141 | a video extension has three or four characters and is never one of the advertised audio formats |
| MediaProcessor.AudioPath | media-processor/main.py:142 | the transcoder's output is "{dir}/{job_id}_audio.mp3", the job temp path of the name "audio.mp3" |
| MediaProcessor.VideoSetIsAdvertised | media-processor/main.py:185-196 | the transcoded extensions are exactly the advertised video formats, and no advertised audio format is transcoded |
| MediaProcessor.ExtractAudioInfo | media-processor/main.py:32-53 | after a clean exit with parsed output the probe information is that output; otherwise it is the empty map |
| MediaProcessor.ConvertToAudio | media-processor/main.py:55-78 | the conversion reports success exactly when the transcoder exited with status 0; a crash reports failure |
| MediaProcessor.Try | media-processor/main.py:112-169 | the `try` body as a function of the upload and the tools' outcomes: temp paths are assigned exactly when the upload is within the limit, the probe of the saved upload is the first call, and a success ends with a transcription |
| MediaProcessor.TryTouchesOnlyTempPaths | media-processor/main.py:112-169 | the `try` body changes no file outside the temp paths it assigns; a saved upload leaves a file at the input path, holding the upload's bytes when nothing is transcoded |
| MediaProcessor.Process | media-processor/main.py:102-176 | every failure is a 500; a success reports the upload's size, which is within the limit, and "completed" |
| MediaProcessor.ProcessOutcome | media-processor/main.py:121-169 | processing succeeds exactly when the upload fits, a video was transcoded with exit 0, and the model returned a transcription; the result carries the probe information and the transcription |
| MediaProcessor.OversizeUploadRunsNothing | media-processor/main.py:121-125 | an upload over 150 MiB runs no tool and assigns no temp path; the client gets a 500 carrying the 413 |
| MediaProcessor.ConvertOnlyVideos | media-processor/main.py:128-150 | the probe runs first, on the saved upload; the transcoder runs exactly for video extensions, from the upload to "{job_id}_audio.mp3"; the temp paths are those two for a video and the upload alone otherwise |
| MediaProcessor.FailedConversionSkipsTranscription | media-processor/main.py:144-148 | a failed transcoding stops the request before transcription, with a 500 carrying the inner 500 |
| MediaProcessor.TranscribedPath | media-processor/main.py:137-153 | the model is given the transcoded file for a video and the saved upload otherwise |
| MediaProcessor.ProbeFailureIsHarmless | media-processor/main.py:134 | the probe's outcome never changes whether the request succeeds or which tools run; it only changes the reported file information |
| MediaProcessor.TryProcess | media-processor/main.py:112-169 | the `try` body's outcome and tool calls are those of `Try`; afterwards the temp directory is `AfterTry` of the old one: the upload's bytes at the input path, and the transcoder's output at the audio path when it left one |
| MediaProcessor.ProcessMedia | media-processor/main.py:102-183 | the response is `Process`'s; afterwards the temp directory is what it was before, minus every temp path the request assigned, whether it succeeded or failed |

## Left out

- Network calls and their time-outs are replaced by reply parameters (`Gateway.Reply`). The same holds for the thread pool that runs the engines, `uuid4`, `random.choices`, `datetime.now` and `Path.home`.
- Logging, the health endpoints and CORS are not modelled.
- The gateway's status and download endpoints are placeholders returning fixed JSON; they are not modelled.
- The synthesizer's table of supported languages is not modelled.
- The engines and tools are given by their outcome. This covers gTTS and pyttsx3 (including the temporary files they use internally), ffprobe, ffmpeg and the recognition model. The pyttsx3 rate and volume settings are not modelled.
- The recognition model's reading of the audio file is not modelled: the transcription is a parameter, not derived from the bytes at the transcribed path.
- Failures of writing, copying or statting files are not modelled, except the copy to the download folder. The temp directory is a map from paths to bytes with no directories or permissions.
- `get_file_info`'s 500 on a failing `os.stat` is not modelled for the same reason.
- Names containing "/" or ".." are joined as `os.path.join` joins them; no normalisation is modelled.
- PyStr.Lower: lower-cases ASCII letters, KELVIN SIGN and LATIN CAPITAL LETTER I WITH DOT ABOVE, and leaves other characters unchanged. Python's full Unicode case mapping is wider, but these are the only characters whose lower case contains ASCII. So the ASCII keyword and extension tests agree with Python.
- The detail of a re-raised `HTTPException` is taken to be "{status}: {detail}", which is how the web framework renders it as a string.
- FastAPI's schema validation of request bodies (a missing field answered with 422) happens before the handlers and is not modelled.
