/** The speech synthesiser: text is translated to Hindi (falling back to the
    original text), an old audio file for the company is deleted, a new one
    is synthesised, and its path is returned only if the file is large
    enough. */
module TextToSpeech {
  import opened PyValue
  import opened PyText
  import opened FileStore

  const AUDIO_DIR: string := "data/output/audio"
  const TRANSLATE_URL: string := "https://translate.googleapis.com/translate_a/single"
  /** Audio files smaller than this many bytes count as failed synthesis. */
  const MIN_AUDIO_BYTES: nat := 1000

  /** The query `requests.get(url, params=...)` sends to the translation service. */
  datatype TranslateRequest = TranslateRequest(
    url: string, client: string, sl: string, tl: string, dt: string, q: string)

  /** `gTTS(text=..., lang=..., slow=...)` */
  datatype SpeechRequest = SpeechRequest(text: string, lang: string, slow: bool)

  /** How `gTTS(...)` and `tts.save(path)` end: raising before the file is
      opened, raising after `save` has created the file and written some of
      it, or returning with a file of some size. */
  datatype Synthesis = Rejected | Interrupted(partialSize: nat) | Completed(size: nat)

  /** What generate_hindi_tts returns, the disk it leaves, and what it asked
      the synthesiser to speak. */
  datatype TtsResult = TtsResult(path: Option<string>, files: map<string, File>, spoken: SpeechRequest)

  function HindiRequest(text: string): (r: TranslateRequest)
    ensures r.q == text && r.sl == "en" && r.tl == "hi"
  {
    TranslateRequest(TRANSLATE_URL, "gtx", "en", "hi", "t", text)
  }

  function Concat(parts: seq<string>): string {
    if parts == [] then "" else parts[0] + Concat(parts[1..])
  }

  /** `[item[0] for item in items if item[0]]`, then the type check of
      `''.join`: None when some `item[0]` raises or a kept segment is not a
      string. */
  function Segments(items: seq<Value>): (r: Option<seq<string>>)
    ensures r.Some? ==> |r.value| <= |items|
    ensures r.Some? ==> forall k :: 0 <= k < |r.value| ==> r.value[k] != ""
  {
    if items == [] then Some([])
    else
      match Index0(items[0])
      case None => None
      case Some(x) =>
        match Segments(items[1..])
        case None => None
        case Some(rest) =>
          if !Truthy(x) then Some(rest)
          else if x.Str? then Some([x.s] + rest)
          else None
  }

  /** `''.join([item[0] for item in result[0] if item[0]])`, None when it
      raises. A reply that is not a list or a string raises at `result[0]`;
      a reply whose first element is an empty list translates to "". */
  function Translated(result: Value): (r: Option<string>)
    ensures !(result.Arr? || result.Str?) ==> r.None?
    ensures result.Arr? && result.items == [] ==> r.None?
    ensures result.Arr? && result.items != [] && result.items[0] == Arr([]) ==> r == Some("")
    ensures result.Arr? && result.items != [] && (result.items[0].Null? || result.items[0].Bool? || result.items[0].Num?) ==> r.None?
  {
    match Index0(result)
    case None => None
    case Some(first) =>
      match Iterate(first)
      case None => None
      case Some(items) =>
        match Segments(items)
        case None => None
        case Some(parts) => Some(Concat(parts))
  }

  /** translate_to_hindi(text): the reply is None when the request, the HTTP
      status or the JSON decoding raised. */
  function TranslateToHindi(text: string, api: TranslateRequest -> Option<Value>): (r: string)
    ensures r == text
      || (api(HindiRequest(text)).Some? && Translated(api(HindiRequest(text)).value) == Some(r)
          && r != "" && r != text)
  {
    match api(HindiRequest(text))
    case None => text
    case Some(result) =>
      match Translated(result)
      case None => text
      case Some(t) => if t == "" || t == text then text else t
  }

  /** The translation is never empty unless the input was. */
  lemma TranslationNonEmpty(text: string, api: TranslateRequest -> Option<Value>)
    ensures TranslateToHindi(text, api) == "" ==> text == ""
  {
  }

  /** A well-formed reply `[[[seg0, ...], [seg1, ...], ...], ...]` translates
      to the concatenation of its segments in order; a segment given as null
      (None here) is skipped. */
  lemma {:induction false} SegmentsJoined(items: seq<Value>, segs: seq<Option<string>>)
    requires |items| == |segs|
    requires forall i :: 0 <= i < |items| ==>
      Index0(items[i]) == Some(if segs[i].Some? then Str(segs[i].value) else Null)
    ensures Segments(items).Some?
    ensures Concat(Segments(items).value) == Concat(seq(|segs|, i requires 0 <= i < |segs| => if segs[i].Some? then segs[i].value else ""))
  {
    var flat := seq(|segs|, i requires 0 <= i < |segs| => if segs[i].Some? then segs[i].value else "");
    if items != [] {
      var tailFlat := seq(|segs| - 1, i requires 0 <= i < |segs| - 1 => if segs[1..][i].Some? then segs[1..][i].value else "");
      assert forall i :: 0 <= i < |items| - 1 ==> items[1..][i] == items[i + 1];
      SegmentsJoined(items[1..], segs[1..]);
      assert flat == [flat[0]] + tailFlat;
      assert flat[1..] == tailFlat;
    }
  }

  /** The translated text of a well-formed reply is the concatenation of its
      segments, unless that is empty or equals the input, when the input comes
      back unchanged. */
  lemma TranslationOfWellFormedReply(text: string, api: TranslateRequest -> Option<Value>,
                                     items: seq<Value>, segs: seq<Option<string>>, rest: seq<Value>)
    requires api(HindiRequest(text)) == Some(Arr([Arr(items)] + rest))
    requires |items| == |segs|
    requires forall i :: 0 <= i < |items| ==>
      Index0(items[i]) == Some(if segs[i].Some? then Str(segs[i].value) else Null)
    ensures var joined := Concat(seq(|segs|, i requires 0 <= i < |segs| => if segs[i].Some? then segs[i].value else ""));
      TranslateToHindi(text, api) == if joined == "" || joined == text then text else joined
  {
    SegmentsJoined(items, segs);
  }

  /** `f"{company_name.lower().replace(' ', '_')}_summary.mp3"`: the
      lower-cased company name with each space, and nothing else, turned
      into `_`, followed by `_summary.mp3`. */
  function AudioFileName(company: string): (name: string)
    ensures |name| == |company| + 12
    ensures name[|company|..] == "_summary.mp3"
    ensures forall i :: 0 <= i < |company| ==> name[i] == if company[i] == ' ' then '_' else LowerChar(company[i])
    ensures ' ' !in name
  {
    var name := ReplaceChar(Lower(company), ' ', '_') + "_summary.mp3";
    assert name[|company|..] == "_summary.mp3";
    assert forall i :: |company| <= i < |name| ==> name[i] == "_summary.mp3"[i - |company|];
    name
  }

  /** The audio file under AUDIO_DIR, or the file name alone when the company
      name is an absolute path. */
  function AudioPath(company: string): (p: string)
    ensures company != [] && company[0] == '/' ==> p == AudioFileName(company)
    ensures !(company != [] && company[0] == '/') ==> p == AUDIO_DIR + "/" + AudioFileName(company)
  {
    assert company != [] ==> AudioFileName(company)[0] == if company[0] == ' ' then '_' else LowerChar(company[0]);
    Join(AUDIO_DIR, AudioFileName(company))
  }

  /** The effect of generate_hindi_tts on the disk: a path returned is the
      company's audio path, and no other file changes. */
  function TtsEffect(files: map<string, File>, text: string, company: string,
                     api: TranslateRequest -> Option<Value>, speech: SpeechRequest -> Synthesis): (r: TtsResult)
    ensures r.path.Some? ==> r.path.value == AudioPath(company)
    ensures forall q :: q != AudioPath(company) ==> (q in r.files <==> q in files) && (q in files ==> r.files[q] == files[q])
  {
    var hindi := TranslateToHindi(text, api);
    var p := AudioPath(company);
    var cleared := files - {p};
    var req := SpeechRequest(hindi, "hi", false);
    match speech(req)
    case Rejected => TtsResult(None, cleared, req)
    case Interrupted(k) => TtsResult(None, cleared[p := Audio(k)], req)
    case Completed(k) => TtsResult(if k < MIN_AUDIO_BYTES then None else Some(p), cleared[p := Audio(k)], req)
  }

  /** What is synthesised is the translation of the text, in Hindi. */
  lemma SpeaksTranslation(files: map<string, File>, text: string, company: string,
                          api: TranslateRequest -> Option<Value>, speech: SpeechRequest -> Synthesis)
    ensures TtsEffect(files, text, company, api, speech).spoken
      == SpeechRequest(TranslateToHindi(text, api), "hi", false)
  {
  }

  /** A file that was at the target path never survives the call: afterwards
      the path holds nothing or the file this synthesis wrote, whether or not
      it succeeded. */
  lemma OldAudioRemoved(files: map<string, File>, text: string, company: string,
                        api: TranslateRequest -> Option<Value>, speech: SpeechRequest -> Synthesis)
    ensures var r := TtsEffect(files, text, company, api, speech); var p := AudioPath(company);
      && (p in r.files <==> !speech(r.spoken).Rejected?)
      && (speech(r.spoken).Interrupted? ==> r.files[p] == Audio(speech(r.spoken).partialSize))
      && (speech(r.spoken).Completed? ==> r.files[p] == Audio(speech(r.spoken).size))
  {
  }

  /** The path is returned exactly when synthesis completed with at least
      MIN_AUDIO_BYTES bytes; a smaller or missing file gives None. */
  lemma PathOnlyForLargeEnoughFile(files: map<string, File>, text: string, company: string,
                                   api: TranslateRequest -> Option<Value>, speech: SpeechRequest -> Synthesis)
    ensures var r := TtsEffect(files, text, company, api, speech);
      r.path.Some? <==> speech(r.spoken).Completed? && speech(r.spoken).size >= MIN_AUDIO_BYTES
    ensures var r := TtsEffect(files, text, company, api, speech);
      r.path.Some? ==> (r.path.value == AudioPath(company) && r.path.value in r.files
                        && r.files[r.path.value].Audio? && r.files[r.path.value].size >= MIN_AUDIO_BYTES)
  {
  }

  /** The size check raises without deleting the file, so an undersized file
      stays at the target path while None is returned. */
  lemma UndersizedFileLeftBehind(files: map<string, File>, text: string, company: string,
                                 api: TranslateRequest -> Option<Value>, speech: SpeechRequest -> Synthesis, k: nat)
    requires speech(SpeechRequest(TranslateToHindi(text, api), "hi", false)) == Completed(k)
    requires k < MIN_AUDIO_BYTES
    ensures var r := TtsEffect(files, text, company, api, speech);
      r.path == None && r.files[AudioPath(company)] == Audio(k)
  {
  }

  /** generate_hindi_tts(text, company_name). makedirs of AUDIO_DIR is not
      modelled. */
  method GenerateHindiTts(disk: FileSystem, text: string, company: string,
                          api: TranslateRequest -> Option<Value>, speech: SpeechRequest -> Synthesis)
    returns (path: Option<string>)
    modifies disk
    ensures path == TtsEffect(old(disk.files), text, company, api, speech).path
    ensures disk.files == TtsEffect(old(disk.files), text, company, api, speech).files
  {
    var hindi := TranslateToHindi(text, api);
    var filePath := AudioPath(company);
    if filePath in disk.files {
      disk.Remove(filePath);
    }
    match speech(SpeechRequest(hindi, "hi", false))
    case Rejected =>
      path := None;
    case Interrupted(k) =>
      disk.Write(filePath, Audio(k));
      path := None;
    case Completed(k) =>
      disk.Write(filePath, Audio(k));
      if !(filePath in disk.files) || disk.files[filePath].size < MIN_AUDIO_BYTES {
        path := None;
      } else {
        path := Some(filePath);
      }
  }
}
