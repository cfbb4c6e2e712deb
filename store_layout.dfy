/** How the files of the batch job, the speech synthesiser and the API
    relate on the shared disk: both read the same company list, but the API
    looks for analyses one directory above where the job writes them, and
    the audio the API serves is never the file the translating synthesiser
    writes. */
module StoreLayout {
  import opened PyValue
  import opened PyText
  import opened FileStore
  import opened CompanyTable
  import Cron
  import Application
  import TTS = TextToSpeech

  /** The job's output file for a company is never the file the API reads
      for a company whose name holds no `/`, as a URL path segment cannot. */
  lemma CronOutputNotServed(c: string, asked: string)
    requires '/' !in asked
    ensures Cron.OutputPath(c) != Application.SentimentPath(asked)
  {
    var served := Application.SentimentPath(asked);
    var out := Cron.OutputPath(c);
    if !(c != [] && c[0] == '/') && |served| == |out| {
      assert out[11] == '/';
      assert served[11] == Lower(asked)[6];
      LowerKeepsSlash(asked, 6);
      assert asked[6] in asked;
    }
  }

  /** Running the job over any company list changes nothing the API serves
      under a company name without `/`. */
  lemma CronLeavesServedSentimentUnchanged(files: map<string, File>, env: Cron.Services,
                                           list: seq<string>, asked: string)
    requires '/' !in asked
    ensures var after := Cron.Persist(files, list, Cron.Steps(env, list));
      Application.GetSentiment(after, asked) == Application.GetSentiment(files, asked)
  {
    var steps := Cron.Steps(env, list);
    var q := Application.SentimentPath(asked);
    forall i | 0 <= i < |list| && steps[i].saved.Some? ensures Cron.OutputPath(list[i]) != q {
      CronOutputNotServed(list[i], asked);
    }
    Cron.PersistFrame(files, list, steps, q);
  }

  /** The API and the job read the same company list file; the API serves
      it without duplicates and fails exactly when the job would abort. */
  lemma SameCompanyList(files: map<string, File>)
    ensures Cron.CompanyList(files).None? ==> Application.GetCompanies(files) == Application.Failed(Application.INTERNAL_ERROR)
    ensures Cron.CompanyList(files).Some? ==> Application.GetCompanies(files) == Application.Ok(Unique(Cron.CompanyList(files).value))
  {
    assert Application.COMPANY_LIST_FILE == Cron.COMPANY_LIST_PATH;
  }

  /** The audio the API serves for a company is never the file the
      translating synthesiser writes for a company name without `/`. */
  lemma ServedAudioNotTranslated(c: string, asked: string)
    requires '/' !in asked
    ensures TTS.AudioPath(c) != Application.SummaryAudioPath(asked)
  {
    var name := TTS.AudioFileName(c);
    assert Application.SummaryAudioPath(asked) == "data/" + (asked + "_summary.mp3");
    if c != [] && c[0] == '/' {
      assert TTS.AudioPath(c) == name && name[0] == '/';
    } else {
      assert TTS.AudioPath(c) == "data/output/audio/" + name;
      AudioDirNotServed(name, asked + "_summary.mp3");
    }
  }

  /** Below `data/output/audio/` lies no file `data/<f>` whose name f has no
      `/` among its first seven characters. */
  lemma AudioDirNotServed(name: string, f: string)
    requires forall k :: 0 <= k < |f| && k <= 6 ==> f[k] != '/'
    ensures "data/output/audio/" + name != "data/" + f
  {
    var out := "data/output/audio/" + name;
    if |out| == |"data/" + f| {
      assert out[11] == '/';
      assert ("data/" + f)[11] == f[6];
    }
  }
}
