/** The media processor: size gate, extension-based choice between transcoding and
    transcribing directly, and the `finally` that removes both temp files. The probe
    (ffprobe), the transcoder (ffmpeg), the recognition model and the clock are
    parameters. */
module MediaProcessor {
  import opened Wrappers
  import opened PyStr
  import opened Http
  import opened TempFiles

  const MaxUploadBytes: nat := 150 * 1024 * 1024

  const ProcessingFailedPrefix := "Media processing failed"
  const TooLargeMessage := "File size exceeds 150MB limit"
  const ConversionFailedMessage := "Failed to convert video to audio"

  /** The extensions the handler transcodes before transcription. */
  const VideoExtensions: seq<string> := ["mp4", "avi", "mov", "mkv", "flv", "wmv", "webm"]

  /** The lists `GET /supported-formats` advertises. */
  const AdvertisedAudioFormats: seq<string> := ["mp3", "wav", "flac", "aac", "ogg", "wma", "m4a"]
  const AdvertisedVideoFormats: seq<string> := ["mp4", "avi", "mov", "mkv", "flv", "wmv", "webm"]

  /** The JSON the probe prints, kept abstract. */
  type FileInfo = map<string, string>

  /** How the probe ran: its exit code and its output parsed as JSON (none when the output
      is not JSON), or the message of the exception raised when launching it. */
  datatype ProbeRun = ProbeExited(code: int, parsed: Option<FileInfo>) | ProbeCrashed(message: string)

  /** How the transcoder ran: its exit code and the file it left at the output path, if
      any, or the message of the exception raised when launching it. */
  datatype ConvertRun = ConvertExited(code: int, output: Option<Bytes>) | ConvertCrashed(message: string)

  datatype Segment = Segment(start: real, end: real, text: string)
  datatype Transcription = Transcription(text: string, language: string, segments: seq<Segment>)

  /** What the recognition model gave back, or the message of what it raised. */
  datatype TranscribeRun = Transcribed(result: Transcription) | TranscribeRaised(message: string)

  /** The outcomes of the three external tools, and the time of the response. */
  datatype Tools = Tools(probe: ProbeRun, convert: ConvertRun, transcribe: TranscribeRun, now: string)

  /** A call to an external tool, with the paths it was given. */
  datatype ToolCall = Probe(path: Path) | Convert(input: Path, output: Path) | Transcribe(path: Path)

  datatype ProcessResult = ProcessResult(
    jobId: string,
    filename: string,
    fileSize: nat,
    fileInfo: FileInfo,
    transcription: Transcription,
    status: string,
    processedAt: string)

  // ---------------------------------------------------------------- extensions

  /** `s.split('.')[-1]`: the text after the last '.', or all of `s` when it has none. */
  function LastSegment(s: string): (seg: string)
    ensures '.' !in seg
    ensures '.' !in s ==> seg == s
    ensures '.' in s ==> EndsWith(s, "." + seg)
    decreases |s|
  {
    if s == [] then []
    else if s[|s| - 1] == '.' then []
    else
      var init := s[..|s| - 1];
      assert s == init + [s[|s| - 1]];
      LastSegment(init) + [s[|s| - 1]]
  }

  /** `filename.lower().split('.')[-1] if '.' in filename else ''` */
  function Extension(filename: string): (ext: string)
    ensures '.' !in ext
    ensures '.' !in filename ==> ext == []
  {
    if '.' in filename then LastSegment(Lower(filename)) else []
  }

  predicate IsVideo(ext: string)
    ensures IsVideo(ext) ==> 3 <= |ext| <= 4 && ext !in AdvertisedAudioFormats
  {
    ext in VideoExtensions
  }

  /** With a dot in the name, the extension is what follows the last dot of the
      lower-cased name. */
  lemma ExtensionFollowsLastDot(filename: string)
    requires '.' in filename
    ensures EndsWith(Lower(filename), "." + Extension(filename))
  {
  }

  /** The last segment of "{a}.{b}" is `b` when `b` has no dot. */
  lemma {:induction false} LastSegmentAfterDot(a: string, b: string)
    requires '.' !in b
    ensures LastSegment(a + "." + b) == b
    decreases |b|
  {
    var s := a + "." + b;
    if b != [] {
      var init := b[..|b| - 1];
      assert s[..|s| - 1] == a + "." + init;
      assert s[|s| - 1] == b[|b| - 1];
      LastSegmentAfterDot(a, init);
      assert b == init + [b[|b| - 1]];
    }
  }

  /** Appending dot-free text to a string extends its last segment by that text. */
  lemma {:induction false} LastSegmentAppend(a: string, b: string)
    requires '.' !in b
    ensures LastSegment(a + b) == LastSegment(a) + b
    decreases |b|
  {
    if b == [] {
      assert a + b == a;
    } else {
      var s := a + b;
      var init := b[..|b| - 1];
      assert s[..|s| - 1] == a + init;
      assert s[|s| - 1] == b[|b| - 1];
      assert b == init + [b[|b| - 1]];
      assert '.' !in init;
      LastSegmentAppend(a, init);
    }
  }

  /** Lower-casing and taking the last dot-separated segment commute: `lower()` creates
      and removes no dot. */
  lemma {:induction false} LowerLastSegment(s: string)
    ensures LastSegment(Lower(s)) == Lower(LastSegment(s))
    decreases |s|
  {
    if s != [] {
      var init := s[..|s| - 1];
      var c := s[|s| - 1];
      assert s == init + [c];
      LowerAppend(init, [c]);
      assert Lower([c]) == LowerChar(c) by {
        assert [c][1..] == [];
      }
      if c == '.' {
        var l := Lower(init) + LowerChar(c);
        assert LowerChar(c) == ['.'];
        assert l[|l| - 1] == '.';
      } else {
        assert '.' !in LowerChar(c);
        LastSegmentAppend(Lower(init), LowerChar(c));
        LowerLastSegment(init);
        assert LastSegment(s) == LastSegment(init) + [c];
        LowerAppend(LastSegment(init), [c]);
      }
    }
  }

  /** The extension is the name's last dot-separated segment, lower-cased. */
  lemma ExtensionIsLoweredLastSegment(filename: string)
    requires '.' in filename
    ensures Extension(filename) == Lower(LastSegment(filename))
  {
    LowerLastSegment(filename);
  }

  /** The extension of "{stem}.{ext}" is `ext` lower-cased, whatever the stem holds. */
  lemma ExtensionAfterLastDot(stem: string, ext: string)
    requires '.' !in ext
    ensures Extension(stem + "." + ext) == Lower(ext)
  {
    var name := stem + "." + ext;
    assert name[|stem|] == '.';
    assert Lower(".") == "." by {
      assert "."[1..] == [];
    }
    LowerAppend(stem, ".");
    LowerAppend(stem + ".", ext);
    assert Lower(name) == Lower(stem) + "." + Lower(ext);
    LastSegmentAfterDot(Lower(stem), Lower(ext));
  }

  /** A name ending in a dot has the empty extension. */
  lemma ExtensionOfTrailingDot(stem: string)
    ensures Extension(stem + ".") == ""
  {
    assert stem + "." == stem + "." + "";
    ExtensionAfterLastDot(stem, "");
    assert Lower("") == "";
  }

  /** The extensions transcoded are exactly the advertised video formats, and no
      advertised audio format is transcoded. */
  lemma VideoSetIsAdvertised(ext: string)
    ensures IsVideo(ext) <==> ext in AdvertisedVideoFormats
    ensures ext in AdvertisedAudioFormats ==> !IsVideo(ext)
  {
  }

  // ---------------------------------------------------------------- tools

  /** `extract_audio_info`: the probe's JSON on a clean exit, an empty map otherwise. */
  function ExtractAudioInfo(run: ProbeRun): (info: FileInfo)
    ensures info != map[] ==> run.ProbeExited? && run.code == 0 && run.parsed == Some(info)
    ensures run.ProbeExited? && run.code == 0 && run.parsed.Some? ==> info == run.parsed.value
  {
    match run
    case ProbeExited(code, parsed) => if code == 0 && parsed.Some? then parsed.value else map[]
    case ProbeCrashed(_) => map[]
  }

  /** `convert_to_audio`: runs the transcoder, which may leave a file at `output`; true
      exactly when it exited with status 0. */
  method ConvertToAudio(input: Path, output: Path, run: ConvertRun, temp: TempDir) returns (ok: bool)
    modifies temp
    ensures ok <==> run.ConvertExited? && run.code == 0
    ensures temp.files == if run.ConvertExited? && run.output.Some? then old(temp.files)[output := run.output.value]
                          else old(temp.files)
  {
    match run {
      case ConvertCrashed(_) =>
        ok := false;
      case ConvertExited(code, out) =>
        if out.Some? {
          temp.Write(output, out.value);
        }
        ok := code == 0;
    }
  }

  // ---------------------------------------------------------------- process-media

  /** "{job_id}_audio.mp3" in the temp directory: the transcoder's output. */
  function AudioPath(jobId: string): (p: Path)
    ensures !StartsWith(jobId, "/") ==> p == TempFilesDir + "/" + (jobId + "_audio.mp3")
    ensures p == JobTempPath(jobId, "audio.mp3")
  {
    TempPathIsInTempDir(jobId, "_audio.mp3");
    Join(TempFilesDir, jobId + "_audio.mp3")
  }

  /** What the body of the handler's `try` does: its result or what it raised, the tool
      calls in order, and the temp paths it assigned. */
  datatype Attempt = Attempt(
    outcome: Result<ProcessResult, Raised>,
    calls: seq<ToolCall>,
    tempPaths: set<Path>)

  /** The `try` body as a function of the upload and the tools' outcomes. */
  function Try(content: Bytes, jobId: string, filename: string, tools: Tools): (a: Attempt)
    ensures a.tempPaths == {} <==> |content| > MaxUploadBytes
    ensures a.calls != [] ==> a.calls[0] == Probe(JobTempPath(jobId, filename))
    ensures a.outcome.Success? ==> a.calls != [] && a.calls[|a.calls| - 1].Transcribe?
  {
    if |content| > MaxUploadBytes then
      Attempt(Failure(Http(HttpError(StatusPayloadTooLarge, TooLargeMessage))), [], {})
    else
      var input := JobTempPath(jobId, filename);
      var info := ExtractAudioInfo(tools.probe);
      if IsVideo(Extension(filename)) then
        var audio := AudioPath(jobId);
        var calls := [Probe(input), Convert(input, audio)];
        if !(tools.convert.ConvertExited? && tools.convert.code == 0) then
          Attempt(Failure(Http(HttpError(StatusInternalServerError, ConversionFailedMessage))), calls, {input, audio})
        else
          Finish(content, jobId, filename, info, tools, audio, calls, {input, audio})
      else
        Finish(content, jobId, filename, info, tools, input, [Probe(input)], {input})
  }

  /** Transcribing `audioPath` and building the result. */
  function Finish(content: Bytes, jobId: string, filename: string, info: FileInfo, tools: Tools,
                  audioPath: Path, calls: seq<ToolCall>, tempPaths: set<Path>): Attempt {
    var calls' := calls + [Transcribe(audioPath)];
    match tools.transcribe
    case TranscribeRaised(message) => Attempt(Failure(Crash(message)), calls', tempPaths)
    case Transcribed(t) =>
      Attempt(Success(ProcessResult(jobId, filename, |content|, info, t, "completed", tools.now)), calls', tempPaths)
  }

  /** The whole handler: the `try` body, then the `except` that turns whatever it raised
      into a 500. */
  function Process(content: Bytes, jobId: string, filename: string, tools: Tools): (r: Result<ProcessResult, HttpError>)
    ensures r.Failure? ==> r.error.status == StatusInternalServerError
    ensures r.Success? ==> r.value.fileSize == |content| <= MaxUploadBytes && r.value.status == "completed"
  {
    match Try(content, jobId, filename, tools).outcome
    case Success(result) => Success(result)
    case Failure(e) => Failure(Reraise(ProcessingFailedPrefix, e))
  }

  /** The whole handler, outcome by outcome: it succeeds exactly when the upload is within
      the limit, a video was transcoded with exit code 0, and the model returned a
      transcription, which is then reported together with the probe's information. */
  lemma ProcessOutcome(content: Bytes, jobId: string, filename: string, tools: Tools)
    ensures Process(content, jobId, filename, tools).Success?
        <==> && |content| <= MaxUploadBytes
             && (IsVideo(Extension(filename)) ==> tools.convert.ConvertExited? && tools.convert.code == 0)
             && tools.transcribe.Transcribed?
    ensures Process(content, jobId, filename, tools).Success? ==>
        Process(content, jobId, filename, tools).value
        == ProcessResult(jobId, filename, |content|, ExtractAudioInfo(tools.probe),
                         tools.transcribe.result, "completed", tools.now)
  {
  }

  /** An upload over 150 MB is refused before anything is written or run, with the 413
      folded into a 500 by the outer handler. */
  lemma OversizeUploadRunsNothing(content: Bytes, jobId: string, filename: string, tools: Tools)
    requires |content| > MaxUploadBytes
    ensures Process(content, jobId, filename, tools)
         == Failure(HttpError(500, ProcessingFailedPrefix + ": 413: " + TooLargeMessage))
    ensures Try(content, jobId, filename, tools).calls == []
    ensures Try(content, jobId, filename, tools).tempPaths == {}
  {
    InternalDetail(ProcessingFailedPrefix, StatusPayloadTooLarge, TooLargeMessage);
  }

  /** The transcoder runs exactly for the video extensions, on the saved upload, writing
      "{job_id}_audio.mp3"; the probe always runs first, on the saved upload. */
  lemma ConvertOnlyVideos(content: Bytes, jobId: string, filename: string, tools: Tools)
    requires |content| <= MaxUploadBytes
    ensures Try(content, jobId, filename, tools).calls[0] == Probe(JobTempPath(jobId, filename))
    ensures Convert(JobTempPath(jobId, filename), AudioPath(jobId)) in Try(content, jobId, filename, tools).calls
        <==> IsVideo(Extension(filename))
    ensures Try(content, jobId, filename, tools).tempPaths
         == if IsVideo(Extension(filename)) then {JobTempPath(jobId, filename), AudioPath(jobId)}
            else {JobTempPath(jobId, filename)}
  {
  }

  /** A failed transcoding stops the handler before transcription, as a 500 whose detail
      carries the inner 500. */
  lemma FailedConversionSkipsTranscription(content: Bytes, jobId: string, filename: string, tools: Tools)
    requires |content| <= MaxUploadBytes && IsVideo(Extension(filename))
    requires !(tools.convert.ConvertExited? && tools.convert.code == 0)
    ensures Process(content, jobId, filename, tools)
         == Failure(HttpError(500, ProcessingFailedPrefix + ": 500: " + ConversionFailedMessage))
    ensures forall c :: c in Try(content, jobId, filename, tools).calls ==> !c.Transcribe?
  {
    InternalDetail(ProcessingFailedPrefix, StatusInternalServerError, ConversionFailedMessage);
  }

  /** The model is given the transcoded file for a video and the saved upload otherwise. */
  lemma TranscribedPath(content: Bytes, jobId: string, filename: string, tools: Tools)
    requires |content| <= MaxUploadBytes
    requires IsVideo(Extension(filename)) ==> tools.convert.ConvertExited? && tools.convert.code == 0
    ensures var calls := Try(content, jobId, filename, tools).calls;
      calls[|calls| - 1]
      == Transcribe(if IsVideo(Extension(filename)) then AudioPath(jobId) else JobTempPath(jobId, filename))
  {
  }

  /** A failing probe never fails the request: two runs that differ only in the probe's
      outcome end the same way, apart from the file information. */
  lemma ProbeFailureIsHarmless(content: Bytes, jobId: string, filename: string, tools: Tools, probe: ProbeRun)
    ensures var other := tools.(probe := probe);
      && Process(content, jobId, filename, tools).Success? == Process(content, jobId, filename, other).Success?
      && Try(content, jobId, filename, tools).calls == Try(content, jobId, filename, other).calls
      && (Process(content, jobId, filename, tools).Failure? ==>
            Process(content, jobId, filename, tools) == Process(content, jobId, filename, other))
      && (Process(content, jobId, filename, tools).Success? ==>
            Process(content, jobId, filename, other).value
            == Process(content, jobId, filename, tools).value.(fileInfo := ExtractAudioInfo(probe)))
  {
    var other := tools.(probe := probe);
    var a, b := Try(content, jobId, filename, tools), Try(content, jobId, filename, other);
    if |content| <= MaxUploadBytes {
      assert other.convert == tools.convert && other.transcribe == tools.transcribe && other.now == tools.now;
      assert b.calls == a.calls;
      assert a.outcome.Failure? ==> b.outcome == a.outcome;
      assert a.outcome.Success? ==> b.outcome == Success(a.outcome.value.(fileInfo := ExtractAudioInfo(probe)));
    }
  }

  /** The temp directory after the `try` body: the upload saved at the input path, and
      whatever file the transcoder left at the audio path. */
  function AfterTry(files: map<Path, Bytes>, content: Bytes, jobId: string, filename: string, tools: Tools): map<Path, Bytes> {
    if |content| > MaxUploadBytes then files
    else
      var saved := files[JobTempPath(jobId, filename) := content];
      if IsVideo(Extension(filename)) && tools.convert.ConvertExited? && tools.convert.output.Some? then
        saved[AudioPath(jobId) := tools.convert.output.value]
      else saved
  }

  /** The `try` body changes no file outside the temp paths it assigns; a saved upload
      leaves a file at the input path, holding the upload's bytes when nothing is
      transcoded. */
  lemma TryTouchesOnlyTempPaths(files: map<Path, Bytes>, content: Bytes, jobId: string, filename: string, tools: Tools)
    ensures var after := AfterTry(files, content, jobId, filename, tools);
      var paths := Try(content, jobId, filename, tools).tempPaths;
      && after - paths == files - paths
      && (|content| <= MaxUploadBytes ==> JobTempPath(jobId, filename) in after)
      && (|content| <= MaxUploadBytes && !IsVideo(Extension(filename)) ==> after[JobTempPath(jobId, filename)] == content)
  {
    var after := AfterTry(files, content, jobId, filename, tools);
    var paths := Try(content, jobId, filename, tools).tempPaths;
    if |content| <= MaxUploadBytes {
      var input := JobTempPath(jobId, filename);
      assert input in paths;
      assert forall p :: p !in paths ==> p != input;
      if IsVideo(Extension(filename)) {
        assert paths == {input, AudioPath(jobId)};
      } else {
        assert paths == {input};
        assert after == files[input := content];
      }
      assert (after - paths).Keys == (files - paths).Keys;
      assert forall p :: p in (after - paths) ==> (after - paths)[p] == (files - paths)[p];
    }
  }

  /** The `try` body, step by step: writes the upload, probes it, transcodes a video and
      transcribes. It changes no file outside the paths it assigns. */
  method TryProcess(content: Bytes, jobId: string, filename: string, tools: Tools, temp: TempDir)
    returns (outcome: Result<ProcessResult, Raised>, calls: seq<ToolCall>, tempInput: Option<Path>, tempAudio: Option<Path>)
    modifies temp
    ensures var a := Try(content, jobId, filename, tools);
      && outcome == a.outcome && calls == a.calls
      && a.tempPaths == (if tempInput.Some? then {tempInput.value} else {}) + (if tempAudio.Some? then {tempAudio.value} else {})
    ensures temp.files == AfterTry(old(temp.files), content, jobId, filename, tools)
  {
    tempInput, tempAudio := None, None;
    calls := [];
    if |content| > MaxUploadBytes {
      outcome := Failure(Http(HttpError(StatusPayloadTooLarge, TooLargeMessage)));
      return;
    }
    var input := JobTempPath(jobId, filename);
    tempInput := Some(input);
    temp.Write(input, content);
    calls := calls + [Probe(input)];
    var info := ExtractAudioInfo(tools.probe);
    var audioPath := input;
    var extension := Extension(filename);
    if IsVideo(extension) {
      var audio := AudioPath(jobId);
      tempAudio := Some(audio);
      calls := calls + [Convert(input, audio)];
      var ok := ConvertToAudio(input, audio, tools.convert, temp);
      if !ok {
        outcome := Failure(Http(HttpError(StatusInternalServerError, ConversionFailedMessage)));
        return;
      }
      audioPath := audio;
    }
    calls := calls + [Transcribe(audioPath)];
    match tools.transcribe {
      case TranscribeRaised(message) =>
        outcome := Failure(Crash(message));
      case Transcribed(t) =>
        outcome := Success(ProcessResult(jobId, filename, |content|, info, t, "completed", tools.now));
    }
  }

  /** `process_media`: the `try` body, the `except`, and the `finally` that removes every
      temp path the body assigned, whether it succeeded or raised. */
  method ProcessMedia(content: Bytes, jobId: string, filename: string, tools: Tools, temp: TempDir)
    returns (response: Result<ProcessResult, HttpError>, calls: seq<ToolCall>)
    modifies temp
    ensures response == Process(content, jobId, filename, tools)
    ensures calls == Try(content, jobId, filename, tools).calls
    ensures temp.files == old(temp.files) - Try(content, jobId, filename, tools).tempPaths
    ensures forall p :: p in Try(content, jobId, filename, tools).tempPaths ==> !temp.Exists(p)
  {
    var outcome, tempInput, tempAudio;
    outcome, calls, tempInput, tempAudio := TryProcess(content, jobId, filename, tools, temp);
    ghost var tempPaths := Try(content, jobId, filename, tools).tempPaths;
    // the `except`
    match outcome {
      case Success(result) => response := Success(result);
      case Failure(e) => response := Failure(Reraise(ProcessingFailedPrefix, e));
    }
    // the `finally`
    ghost var beforeCleanup := temp.files;
    TryTouchesOnlyTempPaths(old(temp.files), content, jobId, filename, tools);
    if tempInput.Some? {
      temp.RemoveIfExists(tempInput.value);
    }
    if tempAudio.Some? {
      temp.RemoveIfExists(tempAudio.value);
    }
    assert temp.files == beforeCleanup - tempPaths;
  }
}
