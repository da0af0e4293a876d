/** The API gateway: media intake (size gate, upload name, temp file around the forward to
    the media processor) and text intake (voice check and output name before the forward
    to the speech synthesizer). The job id, the random name, the downstream replies and
    the clock are parameters. */
module Gateway {
  import opened Wrappers
  import opened PyStr
  import opened Http
  import opened TempFiles
  import SpeechSynthesizer

  /** 150 MiB: the largest upload accepted. */
  const MaxUploadBytes: nat := 150 * 1024 * 1024

  const InternalPrefix := "Internal server error"
  const TooLargeMessage := "File size exceeds 150MB limit"
  const MediaFailedMessage := "Media processing failed"
  const SpeechFailedMessage := "Text-to-speech generation failed"

  /** A downstream service's answer: its status code and, when the body is not JSON, the
      message `response.json()` raises; or the message of the exception the HTTP client
      raised (time-out, refused connection). */
  datatype Reply = Replied(status: nat, jsonError: Option<string>) | Unreachable(message: string)

  // ---------------------------------------------------------------- media to text

  /** An uploaded file: its bytes and the name the client gave, if any. */
  datatype Upload = Upload(content: Bytes, filename: Option<string>)

  /** The multipart request sent to the media processor. */
  datatype MediaForward = MediaForward(jobId: string, filename: string, content: Bytes)

  datatype MediaToTextResponse = MediaToTextResponse(
    id: string,
    filename: string,
    fileUpload: Path,
    status: string,
    createdAt: string)

  /** What one media upload does: the response, what was forwarded, the temp file written
      (if any) and whether it was removed afterwards. */
  datatype Intake = Intake(
    response: Result<MediaToTextResponse, HttpError>,
    forwarded: Option<MediaForward>,
    written: Option<Path>,
    removed: bool)

  /** `s[:n]` */
  function Take(s: string, n: nat): (r: string)
    ensures |r| == if |s| <= n then |s| else n
    ensures StartsWith(s, r)
  {
    if |s| <= n then s else s[..n]
  }

  /** `file.filename or f"audio_{job_id[:8]}.mp3"` */
  function UploadName(filename: Option<string>, jobId: string): (name: string)
    ensures name != []
  {
    if filename.Some? && filename.value != [] then filename.value else "audio_" + Take(jobId, 8) + ".mp3"
  }

  /** The media-intake handler as a function of the upload and its environment. */
  function MediaToText(upload: Upload, jobId: string, reply: Reply, now: string): (i: Intake)
    ensures i.forwarded.Some? <==> |upload.content| <= MaxUploadBytes
    ensures i.written.Some? <==> i.forwarded.Some?
    ensures i.response.Failure? ==> i.response.error.status == StatusInternalServerError
  {
    if |upload.content| > MaxUploadBytes then
      Intake(Failure(Reraise(InternalPrefix, Http(HttpError(StatusPayloadTooLarge, TooLargeMessage)))), None, None, false)
    else
      var filename := UploadName(upload.filename, jobId);
      var path := JobTempPath(jobId, filename);
      var forwarded := Some(MediaForward(jobId, filename, upload.content));
      match reply
      case Unreachable(message) =>
        Intake(Failure(Reraise(InternalPrefix, Crash(message))), forwarded, Some(path), false)
      case Replied(status, jsonError) =>
        var response :=
          if status != StatusOk then Failure(Reraise(InternalPrefix, Http(HttpError(status, MediaFailedMessage))))
          else if jsonError.Some? then Failure(Reraise(InternalPrefix, Crash(jsonError.value)))
          else Success(MediaToTextResponse(jobId, filename, path, "completed", now));
        Intake(response, forwarded, Some(path), true)
  }

  /** The temp directory after an intake that wrote `content`. */
  function AfterIntake(files: map<Path, Bytes>, intake: Intake, content: Bytes): map<Path, Bytes> {
    match intake.written
    case None => files
    case Some(path) => if intake.removed then files - {path} else files[path := content]
  }

  /** `media_to_text`, step by step, on the temp directory. */
  method MediaToTextHandler(upload: Upload, jobId: string, reply: Reply, now: string, temp: TempDir)
    returns (response: Result<MediaToTextResponse, HttpError>, forwarded: Option<MediaForward>)
    modifies temp
    ensures response == MediaToText(upload, jobId, reply, now).response
    ensures forwarded == MediaToText(upload, jobId, reply, now).forwarded
    ensures temp.files == AfterIntake(old(temp.files), MediaToText(upload, jobId, reply, now), upload.content)
  {
    forwarded := None;
    if |upload.content| > MaxUploadBytes {
      response := Failure(Reraise(InternalPrefix, Http(HttpError(StatusPayloadTooLarge, TooLargeMessage))));
      assert MediaToText(upload, jobId, reply, now) == Intake(response, None, None, false);
      return;
    }
    var filename := UploadName(upload.filename, jobId);
    var path := JobTempPath(jobId, filename);
    temp.Write(path, upload.content);
    forwarded := Some(MediaForward(jobId, filename, temp.files[path]));
    match reply {
      case Unreachable(message) =>
        response := Failure(Reraise(InternalPrefix, Crash(message)));
        assert MediaToText(upload, jobId, reply, now) == Intake(response, forwarded, Some(path), false);
      case Replied(status, jsonError) =>
        temp.RemoveIfExists(path);
        if status != StatusOk {
          response := Failure(Reraise(InternalPrefix, Http(HttpError(status, MediaFailedMessage))));
        } else if jsonError.Some? {
          response := Failure(Reraise(InternalPrefix, Crash(jsonError.value)));
        } else {
          response := Success(MediaToTextResponse(jobId, filename, path, "completed", now));
        }
        assert MediaToText(upload, jobId, reply, now) == Intake(response, forwarded, Some(path), true);
    }
  }

  /** An upload over 150 MiB writes no temp file and is not forwarded; its 413 reaches the
      client as a 500. */
  lemma OversizeUploadTouchesNothing(upload: Upload, jobId: string, reply: Reply, now: string)
    requires |upload.content| > 157286400
    ensures var intake := MediaToText(upload, jobId, reply, now);
      && intake.forwarded.None? && intake.written.None?
      && intake.response == Failure(HttpError(500, InternalPrefix + ": 413: " + TooLargeMessage))
  {
    InternalDetail(InternalPrefix, 413, TooLargeMessage);
  }

  /** An upload of exactly 150 MiB is accepted and forwarded as it came. */
  lemma LimitSizedUploadForwarded(upload: Upload, jobId: string, reply: Reply, now: string)
    requires |upload.content| == 157286400
    ensures MediaToText(upload, jobId, reply, now).forwarded.Some?
    ensures MediaToText(upload, jobId, reply, now).forwarded.value.content == upload.content
  {
  }

  /** An accepted upload keeps the client's name, or gets "audio_" + the first eight
      characters of the job id + ".mp3" when it has none; its temp file is
      "{job_id}_{filename}" in the temp directory. */
  lemma UploadNaming(upload: Upload, jobId: string, reply: Reply, now: string)
    requires |upload.content| <= MaxUploadBytes
    ensures var intake := MediaToText(upload, jobId, reply, now);
      && intake.forwarded.Some?
      && intake.forwarded.value.jobId == jobId
      && intake.forwarded.value.content == upload.content
      && intake.written == Some(Join(TempFilesDir, jobId + "_" + intake.forwarded.value.filename))
      && (upload.filename.Some? && upload.filename.value != [] ==> intake.forwarded.value.filename == upload.filename.value)
      && (upload.filename.None? || upload.filename == Some([]) ==>
            intake.forwarded.value.filename == "audio_" + Take(jobId, 8) + ".mp3")
  {
  }

  /** The temp file is removed once the processor has answered, whatever it answered, and
      stays behind when the forward itself raised: the removal is not in a `finally`. */
  lemma TempFileLeftOnlyWhenForwardRaises(upload: Upload, jobId: string, reply: Reply, now: string, files: map<Path, Bytes>)
    requires |upload.content| <= MaxUploadBytes
    ensures var intake := MediaToText(upload, jobId, reply, now);
      var path := intake.written.value;
      && (reply.Replied? ==> path !in AfterIntake(files, intake, upload.content))
      && (reply.Unreachable? ==> path in AfterIntake(files, intake, upload.content)
                                 && AfterIntake(files, intake, upload.content)[path] == upload.content)
  {
  }

  /** The intake succeeds exactly when the upload fits and the processor answered 200 with
      JSON; every failure, including a downstream 4xx, is answered with a 500. */
  lemma MediaIntakeOutcome(upload: Upload, jobId: string, reply: Reply, now: string)
    ensures var r := MediaToText(upload, jobId, reply, now).response;
      && (r.Success? <==> |upload.content| <= MaxUploadBytes && reply == Replied(200, None))
      && (r.Failure? ==> r.error.status == 500)
      && (r.Success? ==> r.value.status == "completed" && r.value.id == jobId)
      && (r.Success? ==> var name := UploadName(upload.filename, jobId);
            r.value == MediaToTextResponse(jobId, name, JobTempPath(jobId, name), "completed", now))
  {
  }

  // ---------------------------------------------------------------- text to audio

  /** The body of `POST /api/v1/text-to-audio`. */
  datatype TextRequest = TextRequest(text: string, voiceType: string, filename: Option<string>)

  /** The JSON body sent to the speech synthesizer. */
  datatype SpeechPayload = SpeechPayload(jobId: string, text: string, voiceType: string, filename: string)

  datatype TextToAudioResponse = TextToAudioResponse(
    id: string,
    filename: string,
    audioUrl: string,
    voiceType: string,
    status: string)

  /** What one text request does: the response and what was sent downstream. */
  datatype Dispatch = Dispatch(response: Result<TextToAudioResponse, HttpError>, sent: Option<SpeechPayload>)

  /** What `random.choices(string.ascii_lowercase, k=10)` joins into. */
  predicate IsRandomName(name: string) {
    |name| == 10 && forall i :: 0 <= i < |name| ==> 'a' <= name[i] <= 'z'
  }

  /** The output name: "{random}.mp3" when none is given, else the given name, with
      ".mp3" appended unless already there. */
  function OutputFilename(filename: Option<string>, randomName: string): (name: string)
    ensures EndsWith(name, ".mp3")
    ensures filename.Some? && EndsWith(filename.value, ".mp3") ==> name == filename.value
    ensures filename.Some? && filename.value != [] && !EndsWith(filename.value, ".mp3") ==> name == filename.value + ".mp3"
  {
    EndsWithAppend(randomName, ".mp3");
    if filename.None? || filename.value == [] then randomName + ".mp3"
    else
      EndsWithAppend(filename.value, ".mp3");
      if EndsWith(filename.value, ".mp3") then filename.value else filename.value + ".mp3"
  }

  /** Coercing an output name again changes nothing, whatever random name is drawn. */
  lemma OutputFilenameIdempotent(filename: Option<string>, randomName: string, otherRandom: string)
    ensures OutputFilename(Some(OutputFilename(filename, randomName)), otherRandom) == OutputFilename(filename, randomName)
  {
    var name := OutputFilename(filename, randomName);
    assert name != [] && EndsWith(name, ".mp3");
  }

  /** With no name given, the output name is ten lower-case ASCII letters and ".mp3". */
  lemma GeneratedNameShape(filename: Option<string>, randomName: string)
    requires filename.None? || filename == Some([])
    requires IsRandomName(randomName)
    ensures var name := OutputFilename(filename, randomName);
      |name| == 14 && name[10..] == ".mp3" && forall i :: 0 <= i < 10 ==> 'a' <= name[i] <= 'z'
  {
    var name := OutputFilename(filename, randomName);
    assert name == randomName + ".mp3";
    assert forall i :: 0 <= i < 10 ==> name[i] == randomName[i];
  }

  /** The text-intake handler as a function of the request and its environment. */
  function TextToAudio(req: TextRequest, jobId: string, randomName: string, reply: Reply): (d: Dispatch)
    ensures d.response.Failure? ==> d.response.error.status == StatusInternalServerError
    ensures d.sent.Some? ==> && d.sent.value.jobId == jobId && d.sent.value.text == req.text
                             && d.sent.value.voiceType == req.voiceType && EndsWith(d.sent.value.filename, ".mp3")
    ensures d.sent.Some? ==> d.sent.value.filename == OutputFilename(req.filename, randomName)
    ensures d.response.Success? ==> d.sent.Some? && d.response.value.filename == d.sent.value.filename
  {
    if !SpeechSynthesizer.IsVoiceType(req.voiceType) then
      Dispatch(Failure(Reraise(InternalPrefix, Http(HttpError(StatusBadRequest, SpeechSynthesizer.VoiceTypeMessage)))), None)
    else
      var filename := OutputFilename(req.filename, randomName);
      var sent := Some(SpeechPayload(jobId, req.text, req.voiceType, filename));
      match reply
      case Unreachable(message) => Dispatch(Failure(Reraise(InternalPrefix, Crash(message))), sent)
      case Replied(status, jsonError) =>
        if status != StatusOk then Dispatch(Failure(Reraise(InternalPrefix, Http(HttpError(status, SpeechFailedMessage)))), sent)
        else if jsonError.Some? then Dispatch(Failure(Reraise(InternalPrefix, Crash(jsonError.value))), sent)
        else Dispatch(Success(TextToAudioResponse(jobId, filename, "/api/v1/download/" + jobId, req.voiceType, "completed")), sent)
  }

  /** A voice type other than "male" or "female" is rejected before anything is sent, and
      the 400 reaches the client as a 500. */
  lemma VoiceCheckedBeforeForwarding(req: TextRequest, jobId: string, randomName: string, reply: Reply)
    ensures TextToAudio(req, jobId, randomName, reply).sent.None? <==> !SpeechSynthesizer.IsVoiceType(req.voiceType)
    ensures !SpeechSynthesizer.IsVoiceType(req.voiceType) ==>
      TextToAudio(req, jobId, randomName, reply).response
        == Failure(HttpError(500, InternalPrefix + ": 400: " + SpeechSynthesizer.VoiceTypeMessage))
  {
    InternalDetail(InternalPrefix, 400, SpeechSynthesizer.VoiceTypeMessage);
  }

  /** A successful answer echoes the voice type and the forwarded name, points at the
      gateway's download URL for the job, and says "completed". */
  lemma TextIntakeOutcome(req: TextRequest, jobId: string, randomName: string, reply: Reply)
    ensures var d := TextToAudio(req, jobId, randomName, reply);
      && (d.response.Success? <==> SpeechSynthesizer.IsVoiceType(req.voiceType) && reply == Replied(200, None))
      && (d.response.Failure? ==> d.response.error.status == 500)
      && (d.response.Success? ==>
            d.response.value == TextToAudioResponse(jobId, d.sent.value.filename, "/api/v1/download/" + jobId,
                                                    req.voiceType, "completed"))
  {
  }

  /** The request the synthesizer receives for a forwarded payload (its language and
      destination take their defaults). */
  function Forwarded(p: SpeechPayload): SpeechSynthesizer.SpeechRequest {
    SpeechSynthesizer.SpeechRequest(p.jobId, p.text, p.voiceType, Some(p.filename), "en", None)
  }

  /** What the gateway forwards always ends in ".mp3" and passes the synthesizer's voice
      check, so the synthesizer's own coercion keeps the name: when its online engine
      produces the audio, the file it saves is the name the gateway reported. */
  lemma SynthesizerKeepsForwardedName(req: TextRequest, jobId: string, randomName: string, reply: Reply,
                                      env: SpeechSynthesizer.Environment)
    requires TextToAudio(req, jobId, randomName, reply).sent.Some?
    ensures var p := TextToAudio(req, jobId, randomName, reply).sent.value;
      && EndsWith(p.filename, ".mp3")
      && SpeechSynthesizer.IsVoiceType(p.voiceType)
      && SpeechSynthesizer.RequestedFilename(Some(p.filename), p.jobId) == p.filename
    ensures var p := TextToAudio(req, jobId, randomName, reply).sent.value;
      var s := SpeechSynthesizer.Speech(Forwarded(p), env);
      s.response.Success? && env.online.Produced? ==> s.response.value.filename == p.filename
  {
    var p := TextToAudio(req, jobId, randomName, reply).sent.value;
    SpeechSynthesizer.RequestedFilenameCases(Some(p.filename), p.jobId, p.jobId);
  }

  /** When the synthesizer falls back to its offline engine, the file it saves is no longer
      the name the gateway reported. */
  lemma FallbackNameDiffersFromReported(req: TextRequest, jobId: string, randomName: string, reply: Reply,
                                        p: SpeechPayload, env: SpeechSynthesizer.Environment)
    requires TextToAudio(req, jobId, randomName, reply).sent == Some(p)
    requires SpeechSynthesizer.Speech(Forwarded(p), env).response.Success?
    requires env.online.EngineRaised?
    ensures SpeechSynthesizer.Speech(Forwarded(p), env).response.value.filename != p.filename
  {
    assert EndsWith(p.filename, ".mp3");
    SpeechSynthesizer.FinalNameFollowsEngine(Forwarded(p), env);
    var saved := SpeechSynthesizer.Speech(Forwarded(p), env).response.value.filename;
    SpeechSynthesizer.WavIsNotMp3(saved);
  }
}
