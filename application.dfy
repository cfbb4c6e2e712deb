/** The HTTP API: it serves the company list, the stored analysis of a
    company, and a spoken summary of that analysis. Every error a handler
    meets, including the "not found" it raises itself, reaches the client
    as status 500, because each handler's `except Exception` also catches
    the HTTPException raised inside its `try`. */
module Application {
  import opened PyValue
  import opened PyText
  import opened FileStore
  import opened CompanyTable
  import TTS = TextToSpeech

  /** The data directory, taken relative to the working directory. */
  const DATA_DIR: string := "data"
  const COMPANY_LIST_FILE: string := Join(DATA_DIR, "company_list.csv")
  const SUMMARY_KEY: string := "Final Sentiment Analysis"
  const NO_ANALYSIS: string := "No sentiment analysis available"
  const INTERNAL_ERROR: int := 500

  /** A handler's answer: a body, or an error status. */
  datatype Reply<+T> = Ok(body: T) | Failed(status: int)

  /** `FileResponse(path, media_type=..., filename=...)` */
  datatype AudioFile = AudioFile(path: string, mediaType: string, filename: string)

  /** The spoken summary's effect: the path returned, the disk left behind
      and what the synthesiser was asked to speak, if anything. */
  datatype SpeechEffect = SpeechEffect(path: Option<string>, files: map<string, File>, spoken: Option<TTS.SpeechRequest>)

  /** The result of the audio handler and the disk it leaves. */
  datatype AudioEffect = AudioEffect(reply: Reply<AudioFile>, files: map<string, File>, spoken: Option<TTS.SpeechRequest>)

  /** GET /companies: every failure is a 500, a list is served only when the
      company column was read, and a served list names no company twice. */
  function GetCompanies(files: map<string, File>): (r: Reply<seq<string>>)
    ensures r.Failed? ==> r.status == INTERNAL_ERROR
    ensures r.Ok? ==> CompanyCells(files, COMPANY_LIST_FILE).Some?
    ensures r.Ok? ==> forall i, j :: 0 <= i < j < |r.body| ==> r.body[i] != r.body[j]
  {
    if COMPANY_LIST_FILE !in files then Failed(INTERNAL_ERROR)
    else
      match CompanyCells(files, COMPANY_LIST_FILE)
      case None => Failed(INTERNAL_ERROR)
      case Some(cells) => Ok(Unique(DropNa(cells)))
  }

  /** The list is served exactly when the file is a table in which exactly
      one header strips to `Company`; it is then that column with missing
      cells dropped and repeats removed, so it holds each present cell once. */
  lemma CompaniesServed(files: map<string, File>)
    ensures GetCompanies(files).Ok? <==>
      (ReadCsv(files, COMPANY_LIST_FILE).Some?
       && exists i :: SoleCompanyHeader(ReadCsv(files, COMPANY_LIST_FILE).value, i))
    ensures forall i :: ReadCsv(files, COMPANY_LIST_FILE).Some? && SoleCompanyHeader(ReadCsv(files, COMPANY_LIST_FILE).value, i) ==>
      GetCompanies(files) == Ok(Unique(DropNa(ReadCsv(files, COMPANY_LIST_FILE).value[i].cells)))
    ensures GetCompanies(files).Ok? ==>
      forall x :: x in GetCompanies(files).body <==> Some(x) in CompanyCells(files, COMPANY_LIST_FILE).value
  {
  }

  /** The served list keeps the order in which the companies first occur
      in the file. */
  lemma CompaniesInFileOrder(files: map<string, File>)
    requires GetCompanies(files).Ok?
    ensures var present := DropNa(CompanyCells(files, COMPANY_LIST_FILE).value);
      var list := GetCompanies(files).body;
      forall i, j :: 0 <= i < j < |list| ==> IndexOf(present, list[i]) < IndexOf(present, list[j])
  {
    var present := DropNa(CompanyCells(files, COMPANY_LIST_FILE).value);
    assert GetCompanies(files).body == Unique(present);
    UniqueFirstOccurrenceOrder(present);
  }

  /** `os.path.join(DATA_DIR, f"{company_name.lower()}.pkl")`: the
      lower-cased name under the data directory, or the name alone when it
      is an absolute path. */
  function SentimentPath(company: string): (p: string)
    ensures company != [] && company[0] == '/' ==> p == Lower(company) + ".pkl"
    ensures !(company != [] && company[0] == '/') ==> p == "data/" + Lower(company) + ".pkl"
  {
    assert company != [] ==> (Lower(company) + ".pkl")[0] == Lower(company)[0];
    Join(DATA_DIR, Lower(company) + ".pkl")
  }

  /** GET /sentiment/{company_name}: every failure is a 500, and a reply is
      the pickle stored at the company's path. */
  function GetSentiment(files: map<string, File>, company: string): (r: Reply<Value>)
    ensures r.Failed? ==> r.status == INTERNAL_ERROR
    ensures r.Ok? <==> SentimentPath(company) in files && files[SentimentPath(company)].Pickle?
    ensures r.Ok? ==> files[SentimentPath(company)] == Pickle(r.body)
  {
    var path := SentimentPath(company);
    if path !in files then Failed(INTERNAL_ERROR)
    else
      match LoadPickle(files, path)
      case None => Failed(INTERNAL_ERROR)
      case Some(data) => Ok(data)
  }

  /** The stored analysis is served unchanged, and only a stored analysis
      is served. */
  lemma SentimentServedIff(files: map<string, File>, company: string, v: Value)
    ensures GetSentiment(files, company) == Ok(v) <==>
      SentimentPath(company) in files && files[SentimentPath(company)] == Pickle(v)
  {
  }

  /** Storing an analysis and then asking for it gives it back; storing a
      file anywhere else does not change what is served. */
  lemma SentimentStoreThenServe(files: map<string, File>, company: string, v: Value, p: string, f: File)
    ensures GetSentiment(files[SentimentPath(company) := Pickle(v)], company) == Ok(v)
    ensures p != SentimentPath(company) ==> GetSentiment(files[p := f], company) == GetSentiment(files, company)
  {
  }

  /** `text.strip()` on a value that is not a string raises, and blank text
      is refused: only a string with a non-whitespace character is spoken,
      unstripped. (`not text.strip()` holds exactly when the text is all
      whitespace, by StripEmptyIffAllSpace.) */
  function SpeechText(text: Value): Option<string> {
    if text.Str? && !AllSpace(text.s) then Some(text.s) else None
  }

  /** Text is spoken exactly when it is a string whose `strip()` is not
      empty, and it is spoken as it is. */
  lemma SpeakableIff(text: Value)
    ensures SpeechText(text).Some? <==> text.Str? && Strip(text.s) != ""
    ensures SpeechText(text).Some? ==> SpeechText(text).value == text.s
  {
    if text.Str? {
      StripEmptyIffAllSpace(text.s);
    }
  }

  /** The fixed sentence is speakable. */
  lemma NoAnalysisSpeakable()
    ensures SpeechText(Str(NO_ANALYSIS)) == Some(NO_ANALYSIS)
  {
    assert NO_ANALYSIS[0] == 'N';
  }

  /** `os.path.join(DATA_DIR, f"{company_name}_summary.mp3")`: the name is
      neither lower-cased nor stripped of spaces. */
  function SummaryAudioPath(company: string): (p: string)
    ensures company != [] && company[0] == '/' ==> p == company + "_summary.mp3"
    ensures !(company != [] && company[0] == '/') ==> p == "data/" + company + "_summary.mp3"
  {
    assert company != [] ==> (company + "_summary.mp3")[0] == company[0];
    Join(DATA_DIR, company + "_summary.mp3")
  }

  /** The effect of the API's own generate_hindi_tts: no translation, no
      deletion of an old file and no size check. Text that is not speakable
      is refused with no path and the disk untouched; speakable text is
      spoken as it is and in Hindi, and the path is returned exactly when
      the synthesis completed. A path returned holds the audio, and no file
      but the summary path changes. */
  function SpeechEffectOf(files: map<string, File>, text: Value, company: string,
                          speech: TTS.SpeechRequest -> TTS.Synthesis): (e: SpeechEffect)
    ensures e.spoken.Some? <==> SpeechText(text).Some?
    ensures SpeechText(text).None? ==> e.path.None? && e.files == files
    ensures e.path.Some? <==> SpeechText(text).Some? && speech(TTS.SpeechRequest(SpeechText(text).value, "hi", false)).Completed?
    ensures e.spoken.Some? ==> e.spoken.value == TTS.SpeechRequest(text.s, "hi", false)
    ensures e.path.Some? ==> e.path.value == SummaryAudioPath(company) && e.path.value in e.files && e.files[e.path.value].Audio?
    ensures forall q :: q != SummaryAudioPath(company) ==> (q in e.files <==> q in files) && (q in files ==> e.files[q] == files[q])
  {
    match SpeechText(text)
    case None => SpeechEffect(None, files, None)
    case Some(s) =>
      var req := TTS.SpeechRequest(s, "hi", false);
      var p := SummaryAudioPath(company);
      match speech(req)
      case Rejected => SpeechEffect(None, files, Some(req))
      case Interrupted(k) => SpeechEffect(None, files[p := Audio(k)], Some(req))
      case Completed(k) => SpeechEffect(Some(p), files[p := Audio(k)], Some(req))
  }

  /** The API's generate_hindi_tts(text, company_name). */
  method GenerateHindiTts(disk: FileSystem, text: Value, company: string,
                          speech: TTS.SpeechRequest -> TTS.Synthesis) returns (path: Option<string>)
    modifies disk
    ensures path == SpeechEffectOf(old(disk.files), text, company, speech).path
    ensures disk.files == SpeechEffectOf(old(disk.files), text, company, speech).files
  {
    SpeakableIff(text);
    if !text.Str? {
      return None;
    }
    if Strip(text.s) == "" {
      return None;
    }
    var audioPath := SummaryAudioPath(company);
    var req := TTS.SpeechRequest(text.s, "hi", false);
    match speech(req)
    case Rejected =>
      path := None;
    case Interrupted(k) =>
      assert SpeechEffectOf(disk.files, text, company, speech) == SpeechEffect(None, disk.files[audioPath := Audio(k)], Some(req));
      disk.Write(audioPath, Audio(k));
      path := None;
    case Completed(k) =>
      assert SpeechEffectOf(disk.files, text, company, speech) == SpeechEffect(Some(audioPath), disk.files[audioPath := Audio(k)], Some(req));
      disk.Write(audioPath, Audio(k));
      path := Some(audioPath);
  }

  /** The text the audio handler speaks: the stored summary, or a fixed
      sentence when the analysis has none. None when the analysis is
      missing or is not a dict. */
  function SummaryOf(files: map<string, File>, company: string): Option<Value> {
    var path := SentimentPath(company);
    if path !in files then None
    else
      match LoadPickle(files, path)
      case None => None
      case Some(data) =>
        if !data.Obj? then None
        else Some(Get(data.members, SUMMARY_KEY, Str(NO_ANALYSIS)))
  }

  /** The audio handler reads the analysis the sentiment handler serves:
      there is a summary exactly when that analysis is a dict, and it is the
      value under the summary key, or the fixed sentence when there is none. */
  lemma SummaryOfAnalysis(files: map<string, File>, company: string)
    ensures SummaryOf(files, company).Some? <==>
      GetSentiment(files, company).Ok? && GetSentiment(files, company).body.Obj?
    ensures var r := SummaryOf(files, company);
      r.Some? ==> var body := GetSentiment(files, company).body;
        HasKey(body.members, SUMMARY_KEY) ==> GetKey(body.members, SUMMARY_KEY) == Some(r.value)
    ensures var r := SummaryOf(files, company);
      r.Some? ==> var body := GetSentiment(files, company).body;
        !HasKey(body.members, SUMMARY_KEY) ==> r.value == Str(NO_ANALYSIS)
  {
  }

  /** GET /audio/{company_name}: every failure is a 500, a served file is on
      disk, and no file but the summary path changes. */
  function GetAudioEffect(files: map<string, File>, company: string,
                          speech: TTS.SpeechRequest -> TTS.Synthesis): (r: AudioEffect)
    ensures r.reply.Failed? ==> r.reply.status == INTERNAL_ERROR
    ensures r.reply.Ok? ==> r.reply.body.path in r.files && r.reply.body.mediaType == "audio/mp3"
    ensures forall q :: q != SummaryAudioPath(company) ==> (q in r.files <==> q in files) && (q in files ==> r.files[q] == files[q])
  {
    match SummaryOf(files, company)
    case None => AudioEffect(Failed(INTERNAL_ERROR), files, None)
    case Some(summary) =>
      var e := SpeechEffectOf(files, summary, company, speech);
      if e.path.None? || e.path.value !in e.files then AudioEffect(Failed(INTERNAL_ERROR), e.files, e.spoken)
      else AudioEffect(Ok(AudioFile(e.path.value, "audio/mp3", company + "_summary.mp3")), e.files, e.spoken)
  }

  method GetAudio(disk: FileSystem, company: string, speech: TTS.SpeechRequest -> TTS.Synthesis)
    returns (reply: Reply<AudioFile>)
    modifies disk
    ensures reply == GetAudioEffect(old(disk.files), company, speech).reply
    ensures disk.files == GetAudioEffect(old(disk.files), company, speech).files
  {
    var filePath := SentimentPath(company);
    if filePath !in disk.files {
      return Failed(INTERNAL_ERROR);
    }
    var loaded := LoadPickle(disk.files, filePath);
    if loaded.None? || !loaded.value.Obj? {
      return Failed(INTERNAL_ERROR);
    }
    var finalSentiment := Get(loaded.value.members, SUMMARY_KEY, Str(NO_ANALYSIS));
    var audioPath := GenerateHindiTts(disk, finalSentiment, company, speech);
    if audioPath.None? || audioPath.value !in disk.files {
      return Failed(INTERNAL_ERROR);
    }
    reply := Ok(AudioFile(audioPath.value, "audio/mp3", company + "_summary.mp3"));
  }

  /** The company list is never answered with 404: a missing file is
      reported as 500, like every other failure. */
  lemma CompaniesNeverNotFound(files: map<string, File>)
    ensures GetCompanies(files).Failed? ==> GetCompanies(files).status == INTERNAL_ERROR
    ensures COMPANY_LIST_FILE !in files ==> GetCompanies(files) == Failed(INTERNAL_ERROR)
  {
  }

  /** A company without a stored analysis gets 500, not 404. */
  lemma SentimentNeverNotFound(files: map<string, File>, company: string)
    ensures GetSentiment(files, company).Failed? ==> GetSentiment(files, company).status == INTERNAL_ERROR
    ensures SentimentPath(company) !in files ==> GetSentiment(files, company) == Failed(INTERNAL_ERROR)
  {
  }

  /** Every failure of the audio handler is reported as 500. */
  lemma AudioNeverNotFound(files: map<string, File>, company: string, speech: TTS.SpeechRequest -> TTS.Synthesis)
    ensures GetAudioEffect(files, company, speech).reply.Failed? ==>
      GetAudioEffect(files, company, speech).reply.status == INTERNAL_ERROR
    ensures SentimentPath(company) !in files ==>
      GetAudioEffect(files, company, speech) == AudioEffect(Failed(INTERNAL_ERROR), files, None)
  {
  }

  /** Audio is served exactly when the stored analysis is a dict whose
      summary (or the fixed default) is a non-blank string and synthesis
      completes. */
  lemma AudioServedIff(files: map<string, File>, company: string, speech: TTS.SpeechRequest -> TTS.Synthesis)
    ensures var r := GetAudioEffect(files, company, speech);
      r.reply.Ok? <==>
        (SummaryOf(files, company).Some? && SpeechText(SummaryOf(files, company).value).Some?
         && speech(TTS.SpeechRequest(SpeechText(SummaryOf(files, company).value).value, "hi", false)).Completed?)
  {
    if SummaryOf(files, company).Some? {
      var e := SpeechEffectOf(files, SummaryOf(files, company).value, company, speech);
      assert GetAudioEffect(files, company, speech).reply.Ok? <==> e.path.Some?;
    }
  }

  /** The file served is the one just written, under the company's
      unaltered name, and what was spoken is the stored summary. */
  lemma AudioServedFile(files: map<string, File>, company: string, speech: TTS.SpeechRequest -> TTS.Synthesis)
    ensures var r := GetAudioEffect(files, company, speech);
      r.reply.Ok? ==> (SummaryOf(files, company).Some? && r.reply.body.path == SummaryAudioPath(company)
        && r.reply.body.filename == company + "_summary.mp3"
        && r.files == files[SummaryAudioPath(company) := r.files[SummaryAudioPath(company)]]
        && r.files[SummaryAudioPath(company)].Audio?
        && r.spoken == Some(TTS.SpeechRequest(SummaryOf(files, company).value.s, "hi", false)))
  {
    var summary := SummaryOf(files, company);
    if summary.Some? && SpeechText(summary.value).Some? {
      var req := TTS.SpeechRequest(summary.value.s, "hi", false);
      var p := SummaryAudioPath(company);
      if speech(req).Completed? {
        var k := speech(req).size;
        assert SpeechEffectOf(files, summary.value, company, speech) == SpeechEffect(Some(p), files[p := Audio(k)], Some(req));
      }
    }
  }

  /** An analysis without a summary is read out as the fixed sentence. */
  lemma MissingSummarySpeaksDefault(files: map<string, File>, company: string, ms: Members,
                                    speech: TTS.SpeechRequest -> TTS.Synthesis)
    requires SentimentPath(company) in files && files[SentimentPath(company)] == Pickle(Obj(ms))
    requires !HasKey(ms, SUMMARY_KEY)
    ensures GetAudioEffect(files, company, speech).spoken == Some(TTS.SpeechRequest(NO_ANALYSIS, "hi", false))
  {
    NoAnalysisSpeakable();
  }

  /** A blank or non-string summary is refused before synthesis: 500, and
      the disk is left as it was. */
  lemma UnspeakableSummaryRefused(files: map<string, File>, company: string,
                                  speech: TTS.SpeechRequest -> TTS.Synthesis)
    requires SummaryOf(files, company).Some?
    requires var t := SummaryOf(files, company).value; !t.Str? || AllSpace(t.s)
    ensures GetAudioEffect(files, company, speech) == AudioEffect(Failed(INTERNAL_ERROR), files, None)
  {
  }

  /** A synthesis that fails after writing leaves its partial file behind
      although the client is told 500. */
  lemma PartialAudioLeftBehind(files: map<string, File>, company: string,
                               speech: TTS.SpeechRequest -> TTS.Synthesis, k: nat)
    requires SummaryOf(files, company).Some? && SpeechText(SummaryOf(files, company).value).Some?
    requires speech(TTS.SpeechRequest(SpeechText(SummaryOf(files, company).value).value, "hi", false)) == TTS.Interrupted(k)
    ensures GetAudioEffect(files, company, speech).reply == Failed(INTERNAL_ERROR)
    ensures GetAudioEffect(files, company, speech).files == files[SummaryAudioPath(company) := Audio(k)]
  {
  }
}
