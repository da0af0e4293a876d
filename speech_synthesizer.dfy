/** The speech synthesizer service: request validation, output-name coercion, the
    online-engine / offline-engine fallback, the offline engine's voice choice, the
    download endpoint's media type and the per-job file listing. The engines, the
    voice list and the clock are parameters. */
module SpeechSynthesizer {
  import opened Wrappers
  import opened PyStr
  import opened Http
  import opened TempFiles

  const MaxTextLength: nat := 5000

  const VoiceTypeMessage := "Voice type must be 'male' or 'female'"
  const TextTooLongMessage := "Text is too long (max 5000 characters)"
  const TextEmptyMessage := "Text cannot be empty"
  const SpeechFailedPrefix := "Speech generation failed"
  const DownloadFailedPrefix := "Download failed"
  const FileNotFoundMessage := "File not found"

  /** Keywords searched for in a lower-cased voice name, per requested voice type. */
  const FemaleKeywords: seq<string> := ["female", "woman", "zira", "susan", "anna"]
  const MaleKeywords: seq<string> := ["male", "man", "david", "mark", "james"]

  /** The body of `POST /generate-speech`. */
  datatype SpeechRequest = SpeechRequest(
    jobId: string,
    text: string,
    voiceType: string,
    filename: Option<string>,
    language: string,
    downloadPath: Option<string>)

  datatype SpeechResponse = SpeechResponse(
    jobId: string,
    filename: string,
    filePath: Path,
    status: string,
    processedAt: string,
    downloadUrl: string)

  /** What a synthesis engine gives back: audio bytes, or the message of what it raised. */
  datatype EngineOutcome = Produced(audio: Bytes) | EngineRaised(message: string)

  /** A voice installed for the offline engine. */
  datatype Voice = Voice(id: string, name: string)

  /** A synthesis call: the online engine with text and language, or the offline engine
      with text and the voice it was configured with (none when it has no voices). */
  datatype EngineCall = Online(text: string, language: string) | Offline(text: string, voice: Option<string>)

  /** Everything outside the handler that decides its result: the two engines, the offline
      engine's voices, the user's home directory, whether creating the destination folder
      or copying into it raised (and with what message), and the time of the response. */
  datatype Environment = Environment(
    online: EngineOutcome,
    offline: EngineOutcome,
    voices: seq<Voice>,
    home: Path,
    copyError: Option<string>,
    now: string)

  // ---------------------------------------------------------------- validation

  predicate IsVoiceType(voiceType: string) {
    voiceType == "male" || voiceType == "female"
  }

  /** The three request checks, in the order the handler makes them: voice type, length,
      blankness. The first that fails gives the 400 raised. */
  function ValidationError(req: SpeechRequest): (e: Option<HttpError>)
    ensures e.None? <==> IsVoiceType(req.voiceType) && |req.text| <= MaxTextLength && !IsBlank(req.text)
    ensures e.Some? ==> e.value.status == StatusBadRequest
  {
    if !IsVoiceType(req.voiceType) then Some(HttpError(StatusBadRequest, VoiceTypeMessage))
    else if |req.text| > MaxTextLength then Some(HttpError(StatusBadRequest, TextTooLongMessage))
    else if IsBlank(req.text) then Some(HttpError(StatusBadRequest, TextEmptyMessage))
    else None
  }

  /** Which check reports when several fail: the voice type beats the length, the length
      beats blankness. */
  lemma ValidationOrder(req: SpeechRequest)
    ensures !IsVoiceType(req.voiceType) ==> ValidationError(req).value.detail == VoiceTypeMessage
    ensures IsVoiceType(req.voiceType) && |req.text| > MaxTextLength
         ==> ValidationError(req).value.detail == TextTooLongMessage
    ensures IsVoiceType(req.voiceType) && |req.text| <= MaxTextLength && IsBlank(req.text)
         ==> ValidationError(req).value.detail == TextEmptyMessage
  {
  }

  // ---------------------------------------------------------------- file names

  /** `request.filename or f"{job_id}.mp3"`, with ".mp3" appended unless already there. */
  function RequestedFilename(filename: Option<string>, jobId: string): (name: string)
    ensures EndsWith(name, ".mp3")
    ensures filename.Some? && EndsWith(filename.value, ".mp3") ==> name == filename.value
  {
    var given := if filename.Some? && filename.value != [] then filename.value else jobId + ".mp3";
    EndsWithAppend(jobId, ".mp3");
    EndsWithAppend(given, ".mp3");
    if EndsWith(given, ".mp3") then given else given + ".mp3"
  }

  /** The name a caller supplied is kept, with ".mp3" added when missing; no name gives
      "{job_id}.mp3"; coercing twice is coercing once. */
  lemma RequestedFilenameCases(filename: Option<string>, jobId: string, otherJob: string)
    ensures filename.None? || filename == Some([]) ==> RequestedFilename(filename, jobId) == jobId + ".mp3"
    ensures filename.Some? && filename.value != [] && !EndsWith(filename.value, ".mp3")
         ==> RequestedFilename(filename, jobId) == filename.value + ".mp3"
    ensures RequestedFilename(Some(RequestedFilename(filename, jobId)), otherJob) == RequestedFilename(filename, jobId)
  {
    EndsWithAppend(jobId, ".mp3");
  }

  /** The name used after falling back to the offline engine:
      `filename.replace(".mp3", ".wav")`. */
  function FallbackFilename(name: string): (r: string)
    ensures |r| == |name|
    ensures EndsWith(name, ".mp3") ==> EndsWith(r, ".wav")
    ensures !Contains(r, ".mp3")
  {
    ReplaceMp3EndsWithWav(name);
    ReplaceMp3LeavesNone(name);
    Replace(name, ".mp3", ".wav")
  }

  /** The fallback keeps the name up to its ".mp3" extension and puts ".wav" in its place,
      when that extension is the name's only ".mp3". */
  lemma FallbackKeepsStem(stem: string)
    requires !Contains(stem, ".mp3")
    ensures FallbackFilename(stem + ".mp3") == stem + ".wav"
  {
    ReplaceKeepsStem(stem);
  }

  lemma {:induction false} ReplaceKeepsStem(stem: string)
    requires !Contains(stem, ".mp3")
    ensures Replace(stem + ".mp3", ".mp3", ".wav") == stem + ".wav"
    decreases |stem|
  {
    var s := stem + ".mp3";
    if stem == [] {
      assert s == ".mp3" && s[4..] == [];
    } else {
      StemNotMp3Start(stem);
      ReplaceMp3Head(s);
      assert s[1..] == stem[1..] + ".mp3";
      ReplaceKeepsStem(stem[1..]);
      assert stem == [stem[0]] + stem[1..];
    }
  }

  /** A non-empty name free of ".mp3", followed by ".mp3", does not start with ".mp3". */
  lemma StemNotMp3Start(stem: string)
    requires stem != [] && !Contains(stem, ".mp3")
    ensures !StartsWith(stem + ".mp3", ".mp3")
  {
    var s := stem + ".mp3";
    if |stem| >= 4 {
      assert s[..4] == stem[..4];
    } else {
      assert s[|stem|] == '.' && ".mp3"[|stem|] != '.';
    }
  }

  /** ".mp3" cannot overlap itself, so an occurrence at the start and one at the end of a
      string are either the same or disjoint. */
  lemma Mp3NoSelfOverlap(s: string)
    requires StartsWith(s, ".mp3") && EndsWith(s, ".mp3")
    ensures |s| == 4 || |s| >= 8
  {
    assert s[|s| - 4] == '.' by { assert s[|s| - 4..][0] == s[|s| - 4]; }
    assert s[1] == 'm' && s[2] == 'p' && s[3] == '3' by { assert s[..4] == ".mp3"; }
  }

  lemma {:induction false} ReplaceMp3EndsWithWav(s: string)
    ensures EndsWith(s, ".mp3") ==> EndsWith(Replace(s, ".mp3", ".wav"), ".wav")
    decreases |s|
  {
    if EndsWith(s, ".mp3") {
      var r := Replace(s, ".mp3", ".wav");
      if StartsWith(s, ".mp3") {
        Mp3NoSelfOverlap(s);
        if |s| == 4 {
          assert r == ".wav" + Replace([], ".mp3", ".wav");
        } else {
          var rest := s[4..];
          assert rest[|rest| - 4..] == s[|s| - 4..];
          ReplaceMp3EndsWithWav(rest);
          var rr := Replace(rest, ".mp3", ".wav");
          assert r == ".wav" + rr;
          assert r[|r| - 4..] == rr[|rr| - 4..];
        }
      } else {
        var rest := s[1..];
        assert |s| > 4;
        assert rest[|rest| - 4..] == s[|s| - 4..];
        ReplaceMp3EndsWithWav(rest);
        var rr := Replace(rest, ".mp3", ".wav");
        assert r == [s[0]] + rr;
        assert r[|r| - 4..] == rr[|rr| - 4..];
      }
    }
  }

  /** The first character of the replaced string: "." where an occurrence was replaced,
      the original character otherwise. */
  lemma ReplaceMp3Head(s: string)
    requires s != [] && !StartsWith(s, ".mp3")
    ensures Replace(s, ".mp3", ".wav") == [s[0]] + Replace(s[1..], ".mp3", ".wav")
  {
    if |s| < 4 {
      assert s == [s[0]] + s[1..];
    }
  }

  /** A replaced string that does not start with "." comes from one that does not start
      with ".mp3", and is not empty only if that one is not. */
  lemma NotMp3Start(s: string, r: string)
    requires r == Replace(s, ".mp3", ".wav") && r != [] && r[0] != '.'
    ensures s != [] && !StartsWith(s, ".mp3")
  {
  }

  lemma {:induction false} ReplaceMp3LeavesNone(s: string)
    ensures !Contains(Replace(s, ".mp3", ".wav"), ".mp3")
    decreases |s|
  {
    var r := Replace(s, ".mp3", ".wav");
    if |s| < 4 {
      if Contains(r, ".mp3") {
        ContainsShorter(r, ".mp3");
      }
    } else if StartsWith(s, ".mp3") {
      var rr := Replace(s[4..], ".mp3", ".wav");
      ReplaceMp3LeavesNone(s[4..]);
      assert r == ".wav" + rr;
      assert !StartsWith(r, ".mp3") by { assert r[1] == 'w'; }
      assert r[1..] == "wav" + rr;
      assert !StartsWith(r[1..], ".mp3") by { assert r[1] == 'w'; }
      assert r[2..] == "av" + rr;
      assert !StartsWith(r[2..], ".mp3") by { assert r[2] == 'a'; }
      assert r[3..] == "v" + rr;
      assert !StartsWith(r[3..], ".mp3") by { assert r[3] == 'v'; }
      assert r[4..] == rr;
      assert !Contains(r[3..], ".mp3") by { assert r[3..][1..] == rr; }
      assert !Contains(r[2..], ".mp3") by { assert r[2..][1..] == r[3..]; }
      assert !Contains(r[1..], ".mp3") by { assert r[1..][1..] == r[2..]; }
    } else {
      var rr := Replace(s[1..], ".mp3", ".wav");
      ReplaceMp3LeavesNone(s[1..]);
      ReplaceMp3Head(s);
      assert r == [s[0]] + rr;
      assert r[1..] == rr;
      if StartsWith(r, ".mp3") {
        // then s would start with ".mp3" as well
        assert s[0] == r[0] == '.';
        assert rr[0] == 'm' && rr[1] == 'p' && rr[2] == '3' by {
          assert rr[0] == r[1] && rr[1] == r[2] && rr[2] == r[3];
        }
        NotMp3Start(s[1..], rr);
        ReplaceMp3Head(s[1..]);
        var r2 := Replace(s[2..], ".mp3", ".wav");
        assert s[1..][1..] == s[2..];
        assert s[1] == 'm' && rr == ['m'] + r2;
        assert r2[0] == 'p' && r2[1] == '3';
        NotMp3Start(s[2..], r2);
        ReplaceMp3Head(s[2..]);
        var r3 := Replace(s[3..], ".mp3", ".wav");
        assert s[2..][1..] == s[3..];
        assert s[2] == 'p' && r2 == ['p'] + r3;
        assert r3[0] == '3';
        NotMp3Start(s[3..], r3);
        assert false;
      }
    }
  }

  // ---------------------------------------------------------------- offline voice choice

  /** Whether a voice named `name` suits `voiceType`: its lower-cased name contains one of
      the keywords of that type. Any other voice type matches nothing. */
  predicate VoiceMatches(name: string, voiceType: string)
    ensures VoiceMatches(name, voiceType) ==> IsVoiceType(voiceType)
    ensures Contains(Lower(name), voiceType) && IsVoiceType(voiceType) ==> VoiceMatches(name, voiceType)
  {
    assert FemaleKeywords[0] == "female" && MaleKeywords[0] == "male";
    || (voiceType == "female" && ContainsAny(Lower(name), FemaleKeywords))
    || (voiceType == "male" && ContainsAny(Lower(name), MaleKeywords))
  }

  /** The index of the first voice, in list order, that matches. */
  function FirstMatch(voices: seq<Voice>, voiceType: string): (r: Option<nat>)
    ensures r.Some? ==> r.value < |voices| && VoiceMatches(voices[r.value].name, voiceType)
    ensures r.Some? ==> forall j :: 0 <= j < r.value ==> !VoiceMatches(voices[j].name, voiceType)
    ensures r.None? ==> forall j :: 0 <= j < |voices| ==> !VoiceMatches(voices[j].name, voiceType)
    decreases |voices|
  {
    if voices == [] then None
    else if VoiceMatches(voices[0].name, voiceType) then Some(0)
    else match FirstMatch(voices[1..], voiceType)
      case None => None
      case Some(i) => Some(i + 1)
  }

  /** The voice the offline engine is set to: the first matching voice's id when there is
      one and that id is not empty (an empty id is falsy), otherwise the first voice's id;
      no voice at all when the engine lists none. */
  function ChosenVoice(voices: seq<Voice>, voiceType: string): (r: Option<string>)
    ensures r.None? <==> voices == []
    ensures r.Some? ==> exists k :: 0 <= k < |voices| && voices[k].id == r.value
    ensures r.Some? && r.value != voices[0].id ==>
      exists k :: 0 < k < |voices| && VoiceMatches(voices[k].name, voiceType) && voices[k].id == r.value
    ensures voices != [] && (forall j :: 0 <= j < |voices| ==> !VoiceMatches(voices[j].name, voiceType)) ==>
      r == Some(voices[0].id)
    ensures forall k :: 0 <= k < |voices| && VoiceMatches(voices[k].name, voiceType)
                        && (forall j :: 0 <= j < k ==> !VoiceMatches(voices[j].name, voiceType)) ==>
      r == Some(if voices[k].id != [] then voices[k].id else voices[0].id)
  {
    if voices == [] then None
    else match FirstMatch(voices, voiceType)
      case Some(i) => if voices[i].id != [] then Some(voices[i].id) else Some(voices[0].id)
      case None => Some(voices[0].id)
  }

  /** The voice-selection loop of the offline engine: scan the voices in order, stop at
      the first whose name matches, fall back to the first voice. */
  method SelectVoice(voices: seq<Voice>, voiceType: string) returns (selected: Option<string>)
    ensures selected == ChosenVoice(voices, voiceType)
  {
    selected := None;
    if voices != [] {
      var i := 0;
      while i < |voices| && !VoiceMatches(voices[i].name, voiceType)
        invariant 0 <= i <= |voices|
        invariant forall j :: 0 <= j < i ==> !VoiceMatches(voices[j].name, voiceType)
      {
        i := i + 1;
      }
      if i < |voices| && voices[i].id != [] {
        selected := Some(voices[i].id);
      } else {
        selected := Some(voices[0].id);
      }
    }
  }

  /** Any voice whose lower-cased name contains "female" or "woman" answers a request for
      a male voice, because "male" and "man" occur inside those words. */
  lemma MaleKeywordsMatchFemaleNames(name: string)
    requires Contains(Lower(name), "female") || Contains(Lower(name), "woman")
    ensures VoiceMatches(name, "male")
  {
    var lowered := Lower(name);
    if Contains(lowered, "female") {
      assert "female"[2..2 + 4] == "male";
      ContainsAt("female", "male", 2);
      ContainsTransitive(lowered, "female", "male");
      assert MaleKeywords[0] == "male";
    } else {
      assert "woman"[2..2 + 3] == "man";
      ContainsAt("woman", "man", 2);
      ContainsTransitive(lowered, "woman", "man");
      assert MaleKeywords[1] == "man";
    }
  }

  /** Hence a male request takes a female voice listed before every male one. */
  lemma MaleRequestTakesEarlierFemaleVoice(voices: seq<Voice>, k: nat)
    requires k < |voices| && voices[k].id != []
    requires Contains(Lower(voices[k].name), "female") || Contains(Lower(voices[k].name), "woman")
    requires forall j :: 0 <= j < k ==> !VoiceMatches(voices[j].name, "male")
    ensures ChosenVoice(voices, "male") == Some(voices[k].id)
  {
    MaleKeywordsMatchFemaleNames(voices[k].name);
  }

  // ---------------------------------------------------------------- generate-speech

  /** What one request to `POST /generate-speech` does: its response, the engine calls
      made in order, and the file written to the temp directory (path and bytes). */
  datatype Synthesis = Synthesis(
    response: Result<SpeechResponse, HttpError>,
    calls: seq<EngineCall>,
    written: Option<(Path, Bytes)>)

  /** `request.download_path` when given and not empty, else "~/Downloads". */
  function DownloadFolder(downloadPath: Option<string>, home: Path): (folder: Path)
    ensures downloadPath.Some? && downloadPath.value != [] ==> folder == downloadPath.value
    ensures downloadPath.None? || downloadPath.value == [] ==> folder == Join(home, "Downloads")
  {
    if downloadPath.Some? && downloadPath.value != [] then downloadPath.value else Join(home, "Downloads")
  }

  /** The request handler as a function of the request and its environment. */
  function Speech(req: SpeechRequest, env: Environment): (s: Synthesis)
    ensures s.calls == [] <==> ValidationError(req).Some?
    ensures s.response.Success? ==> s.written.Some?
    ensures s.written.Some? ==>
      if env.online.Produced? then s.written.value.1 == env.online.audio
      else env.offline.Produced? && s.written.value.1 == env.offline.audio
    ensures s.response.Failure? ==> s.response.error.status == StatusInternalServerError
  {
    match ValidationError(req)
    case Some(e) => Synthesis(Failure(Reraise(SpeechFailedPrefix, Http(e))), [], None)
    case None =>
      var requested := RequestedFilename(req.filename, req.jobId);
      var online := Online(req.text, req.language);
      match env.online
      case Produced(audio) => Persist(req, env, requested, audio, [online])
      case EngineRaised(_) =>
        var calls := [online, Offline(req.text, ChosenVoice(env.voices, req.voiceType))];
        match env.offline
        case Produced(audio) => Persist(req, env, FallbackFilename(requested), audio, calls)
        case EngineRaised(message) => Synthesis(Failure(Reraise(SpeechFailedPrefix, Crash(message))), calls, None)
  }

  /** Writing the audio to the temp directory, copying it to the destination folder and
      answering with the final name. */
  function Persist(req: SpeechRequest, env: Environment, filename: string, audio: Bytes, calls: seq<EngineCall>): Synthesis {
    var written := Some((Join(TempFilesDir, filename), audio));
    match env.copyError
    case Some(message) => Synthesis(Failure(Reraise(SpeechFailedPrefix, Crash(message))), calls, written)
    case None =>
      var finalPath := Join(DownloadFolder(req.downloadPath, env.home), filename);
      var response := SpeechResponse(req.jobId, filename, finalPath, "completed", env.now,
                                     "/download/" + req.jobId + "/" + filename);
      Synthesis(Success(response), calls, written)
  }

  /** The temp directory after `written` has been stored in it. */
  function WithWritten(files: map<Path, Bytes>, written: Option<(Path, Bytes)>): map<Path, Bytes> {
    match written
    case Some((path, audio)) => files[path := audio]
    case None => files
  }

  /** `generate_speech`, step by step, on the temp directory. */
  method GenerateSpeech(req: SpeechRequest, env: Environment, temp: TempDir)
    returns (response: Result<SpeechResponse, HttpError>, calls: seq<EngineCall>)
    modifies temp
    ensures response == Speech(req, env).response && calls == Speech(req, env).calls
    ensures temp.files == WithWritten(old(temp.files), Speech(req, env).written)
  {
    calls := [];
    var invalid := ValidationError(req);
    if invalid.Some? {
      response := Failure(Reraise(SpeechFailedPrefix, Http(invalid.value)));
      assert Speech(req, env) == Synthesis(response, calls, None);
      return;
    }
    var requested := RequestedFilename(req.filename, req.jobId);
    var filename := requested;
    var audio: Bytes;
    calls := calls + [Online(req.text, req.language)];
    match env.online {
      case Produced(a) =>
        audio := a;
      case EngineRaised(_) =>
        filename := FallbackFilename(filename);
        var voice := SelectVoice(env.voices, req.voiceType);
        calls := calls + [Offline(req.text, voice)];
        match env.offline {
          case Produced(a) =>
            audio := a;
          case EngineRaised(message) =>
            response := Failure(Reraise(SpeechFailedPrefix, Crash(message)));
            assert Speech(req, env) == Synthesis(response, calls, None);
            return;
        }
    }
    assert Speech(req, env) == Persist(req, env, filename, audio, calls);
    var tempPath := Join(TempFilesDir, filename);
    temp.Write(tempPath, audio);
    var folder := DownloadFolder(req.downloadPath, env.home);
    if env.copyError.Some? {
      response := Failure(Reraise(SpeechFailedPrefix, Crash(env.copyError.value)));
      return;
    }
    var finalPath := Join(folder, filename);
    response := Success(SpeechResponse(req.jobId, filename, finalPath, "completed", env.now,
                                       "/download/" + req.jobId + "/" + filename));
  }

  /** A request that fails validation calls no engine, writes nothing and is answered
      with a 500 that carries the 400 and its message. */
  lemma InvalidRequestReachesNoEngine(req: SpeechRequest, env: Environment)
    requires ValidationError(req).Some?
    ensures Speech(req, env).calls == [] && Speech(req, env).written.None?
    ensures Speech(req, env).response
         == Failure(HttpError(500, SpeechFailedPrefix + ": 400: " + ValidationError(req).value.detail))
  {
    InternalDetail(SpeechFailedPrefix, 400, ValidationError(req).value.detail);
  }

  /** Whatever goes wrong, the handler answers a 500 whose detail names the handler and
      ends with the text of what was raised. */
  lemma SpeechFailuresAre500(req: SpeechRequest, env: Environment)
    ensures var r := Speech(req, env).response;
      r.Failure? ==> StartsWith(r.error.detail, SpeechFailedPrefix + ": ")
    ensures var r := Speech(req, env).response;
      r.Failure? && env.offline.EngineRaised? && env.online.EngineRaised? && ValidationError(req).None?
      ==> EndsWith(r.error.detail, env.offline.message)
  {
    var r := Speech(req, env).response;
    if r.Failure? {
      match ValidationError(req)
      case Some(e) =>
        ReraiseKeepsMessage(SpeechFailedPrefix, Http(e));
      case None =>
        if env.online.EngineRaised? && env.offline.EngineRaised? {
          ReraiseKeepsMessage(SpeechFailedPrefix, Crash(env.offline.message));
        } else {
          ReraiseKeepsMessage(SpeechFailedPrefix, Crash(env.copyError.value));
        }
    }
  }

  /** The offline engine is called at most once, right after the online one, and only when
      the online one raised; a failure of both fails the request. */
  lemma FallbackOnlyAfterOnlineRaises(req: SpeechRequest, env: Environment)
    ensures var calls := Speech(req, env).calls;
      || calls == []
      || calls == [Online(req.text, req.language)]
      || calls == [Online(req.text, req.language), Offline(req.text, ChosenVoice(env.voices, req.voiceType))]
    ensures |Speech(req, env).calls| == 2 <==> ValidationError(req).None? && env.online.EngineRaised?
    ensures |Speech(req, env).calls| != 0 <==> ValidationError(req).None?
    ensures env.online.EngineRaised? && env.offline.EngineRaised? ==> Speech(req, env).response.Failure?
  {
  }

  /** On success the file name ends with ".mp3" when the online engine produced the audio
      and with ".wav" (no ".mp3" left anywhere) when the offline one did; that one name is
      used for the temp file, the destination file, the response and its download URL. */
  lemma FinalNameFollowsEngine(req: SpeechRequest, env: Environment)
    requires Speech(req, env).response.Success?
    ensures var name := Speech(req, env).response.value.filename;
      && (env.online.Produced? ==> name == RequestedFilename(req.filename, req.jobId) && EndsWith(name, ".mp3"))
      && (env.online.EngineRaised? ==> EndsWith(name, ".wav") && !Contains(name, ".mp3")
                                       && name == FallbackFilename(RequestedFilename(req.filename, req.jobId)))
    ensures var r := Speech(req, env).response.value;
      && r.downloadUrl == "/download/" + req.jobId + "/" + r.filename
      && r.filePath == Join(DownloadFolder(req.downloadPath, env.home), r.filename)
      && r.status == "completed"
      && Speech(req, env).written.Some?
      && Speech(req, env).written.value.0 == Join(TempFilesDir, r.filename)
  {
  }

  // ---------------------------------------------------------------- download

  /** What `GET /download/{job_id}/{filename}` serves. */
  datatype FileReply = FileReply(path: Path, filename: string, mediaType: string, disposition: string)

  /** "audio/mpeg" for a name ending in ".mp3", "audio/wav" for any other. */
  function MediaType(filename: string): (t: string)
    ensures t == "audio/mpeg" <==> EndsWith(filename, ".mp3")
    ensures t == "audio/mpeg" || t == "audio/wav"
  {
    if EndsWith(filename, ".mp3") then "audio/mpeg" else "audio/wav"
  }

  /** The download handler over the set of paths present in the temp directory; the job
      id plays no part in the lookup. */
  function DownloadFile(present: set<Path>, jobId: string, filename: string): (r: Result<FileReply, HttpError>)
    ensures r.Success? <==> Join(TempFilesDir, filename) in present
    ensures r.Success? ==> r.value.mediaType == MediaType(filename) && r.value.filename == filename
    ensures r.Success? ==> r.value.path == Join(TempFilesDir, filename)
    ensures r.Failure? ==> r.error.status == StatusInternalServerError
  {
    var path := Join(TempFilesDir, filename);
    if path !in present then Failure(Reraise(DownloadFailedPrefix, Http(HttpError(StatusNotFound, FileNotFoundMessage))))
    else Success(FileReply(path, filename, MediaType(filename), "attachment; filename=" + filename))
  }

  /** A missing file is reported as a 500 carrying the 404. */
  lemma MissingDownloadIs500(present: set<Path>, jobId: string, filename: string)
    requires Join(TempFilesDir, filename) !in present
    ensures DownloadFile(present, jobId, filename) == Failure(HttpError(500, DownloadFailedPrefix + ": 404: " + FileNotFoundMessage))
  {
    InternalDetail(DownloadFailedPrefix, 404, FileNotFoundMessage);
  }

  /** While the temp file of a successful synthesis is still present, its download URL
      serves it as MPEG audio exactly when the online engine produced it. */
  lemma DownloadServesSynthesizedFile(req: SpeechRequest, env: Environment, present: set<Path>)
    requires Speech(req, env).response.Success?
    requires Speech(req, env).written.Some? && Speech(req, env).written.value.0 in present
    ensures var name := Speech(req, env).response.value.filename;
      && DownloadFile(present, req.jobId, name).Success?
      && DownloadFile(present, req.jobId, name).value.path == Speech(req, env).written.value.0
      && (DownloadFile(present, req.jobId, name).value.mediaType == "audio/mpeg" <==> env.online.Produced?)
  {
    FinalNameFollowsEngine(req, env);
    var name := Speech(req, env).response.value.filename;
    if env.online.EngineRaised? {
      WavIsNotMp3(name);
    }
  }

  lemma WavIsNotMp3(name: string)
    requires EndsWith(name, ".wav")
    ensures !EndsWith(name, ".mp3")
  {
    assert name[|name| - 4..][1] == 'w';
  }

  // ---------------------------------------------------------------- files of a job

  /** An entry of the temp directory's listing, with the size and creation time `os.stat`
      reports for it. */
  datatype DirEntry = DirEntry(name: string, size: nat, created: string)

  /** One element of the `files` list of `GET /files/{job_id}`. */
  datatype FileListing = FileListing(filename: string, size: nat, created: string, downloadUrl: string)

  function ListingOf(jobId: string, e: DirEntry): FileListing {
    FileListing(e.name, e.size, e.created, "/download/" + jobId + "/" + e.name)
  }

  /** The entries of `listing` whose names start with `jobId`, in listing order. */
  function JobFiles(listing: seq<DirEntry>, jobId: string): seq<FileListing>
    decreases |listing|
  {
    if listing == [] then []
    else
      var last := listing[|listing| - 1];
      JobFiles(listing[..|listing| - 1], jobId) + (if StartsWith(last.name, jobId) then [ListingOf(jobId, last)] else [])
  }

  /** The listing loop of `get_file_info`. */
  method GetFileInfo(listing: seq<DirEntry>, jobId: string) returns (files: seq<FileListing>)
    ensures files == JobFiles(listing, jobId)
  {
    files := [];
    for i := 0 to |listing|
      invariant files == JobFiles(listing[..i], jobId)
    {
      if StartsWith(listing[i].name, jobId) {
        files := files + [ListingOf(jobId, listing[i])];
      }
      assert listing[..i + 1][..i] == listing[..i];
    }
    assert listing[..|listing|] == listing;
  }

  /** An entry is listed exactly when it is in the directory and its name starts with the
      job id (so a job id that is a prefix of another job's id lists that job's files too). */
  lemma {:induction false} JobFilesMembers(listing: seq<DirEntry>, jobId: string, e: DirEntry)
    ensures ListingOf(jobId, e) in JobFiles(listing, jobId) <==> e in listing && StartsWith(e.name, jobId)
    decreases |listing|
  {
    if listing != [] {
      var init := listing[..|listing| - 1];
      JobFilesMembers(init, jobId, e);
      assert listing == init + [listing[|listing| - 1]];
    }
  }
}
