/** The batch job: for every company in the company list, fetch articles,
    analyse them, and pickle a truthy analysis into the output directory. */
module Cron {
  import opened PyValue
  import opened PyText
  import opened FileStore
  import opened CompanyTable
  import opened NewsScraper
  import opened GeminiService

  const COMPANY_LIST_PATH: string := "data/company_list.csv"
  const OUTPUT_DIR: string := "data/output"
  /** The `limit` the job passes to the article fetcher. */
  const FETCH_LIMIT: int := 10

  /** The environment and the external services the job depends on: the two
      API keys, the news service, the language model and `json.loads`. */
  datatype Services = Services(
    newsApiKey: Option<string>,
    googleApiKey: Option<string>,
    news: NewsRequest -> NewsReply,
    model: ModelRequest -> Option<string>,
    parse: string -> Option<Value>)

  /** A request sent to an external service. */
  datatype Call = NewsCall(news: NewsRequest) | ModelCall(model: ModelRequest)

  /** What process_company does for one company: the analysis it saves, if
      any, and the requests it sends, in order. */
  datatype Attempt = Attempt(saved: Option<Value>, calls: seq<Call>)

  /** How run_cron_job ends: the company list could not be loaded, or every
      company was processed. */
  datatype Report = Aborted | Finished(successful: nat, total: nat)

  /** `os.path.join(OUTPUT_DIR, f"{company_name.lower()}.pkl")`: the
      lower-cased name under the output directory, or the name alone when
      it is an absolute path. */
  function OutputPath(company: string): (p: string)
    ensures company != [] && company[0] == '/' ==> p == Lower(company) + ".pkl"
    ensures !(company != [] && company[0] == '/') ==> p == "data/output/" + Lower(company) + ".pkl"
  {
    assert company != [] ==> (Lower(company) + ".pkl")[0] == Lower(company)[0];
    Join(OUTPUT_DIR, Lower(company) + ".pkl")
  }

  function Dicts(articles: seq<Article>): (r: seq<Members>)
    ensures |r| == |articles|
    ensures forall i :: 0 <= i < |articles| ==> r[i] == AsDict(articles[i])
  {
    seq(|articles|, i requires 0 <= i < |articles| => AsDict(articles[i]))
  }

  function RequestCalls(f: Fetch): seq<Call> {
    if f.request.Some? then [NewsCall(f.request.value)] else []
  }

  function ModelCalls(a: Analysis): seq<Call> {
    if a.request.Some? then [ModelCall(a.request.value)] else []
  }

  /** process_company(company_name): any exception of the fetcher, an empty
      article list, a missing analysis and a falsy analysis all give False.
      Only a truthy value is saved, and only after both the news service and
      the model were asked. */
  function ProcessStep(env: Services, company: string): (r: Attempt)
    ensures r.saved.Some? ==> Truthy(r.saved.value)
    ensures r.saved.Some? ==> |r.calls| == 2 && r.calls[0].NewsCall? && r.calls[1].ModelCall?
  {
    var f := GetNewsArticles(env.newsApiKey, company, FETCH_LIMIT, env.news);
    if f.outcome.Raised? || f.outcome.value == [] then Attempt(None, RequestCalls(f))
    else
      var a := Analyze(env.googleApiKey, company, Dicts(f.outcome.value), env.model, env.parse);
      var calls := RequestCalls(f) + ModelCalls(a);
      if a.result.None? || !Truthy(a.result.value) then Attempt(None, calls)
      else Attempt(a.result, calls)
  }

  /** A company's analysis is saved exactly when articles were fetched and
      their analysis (by Analyze's contract, what json.loads made of the
      model's reply) is present and truthy. */
  lemma SavedIff(env: Services, company: string)
    ensures var f := GetNewsArticles(env.newsApiKey, company, FETCH_LIMIT, env.news);
      ProcessStep(env, company).saved.Some? <==>
        (f.outcome.Returned? && f.outcome.value != []
         && var a := Analyze(env.googleApiKey, company, Dicts(f.outcome.value), env.model, env.parse);
            a.result.Some? && Truthy(a.result.value))
  {
  }

  /** What is saved is the truthy analysis of the fetched articles. */
  lemma SavedIsAnalysis(env: Services, company: string)
    ensures var s := ProcessStep(env, company).saved;
      s.Some? ==> (Truthy(s.value)
        && var f := GetNewsArticles(env.newsApiKey, company, FETCH_LIMIT, env.news);
           f.outcome.Returned?
           && s == Analyze(env.googleApiKey, company, Dicts(f.outcome.value), env.model, env.parse).result)
  {
  }

  /** When the fetch fails or finds nothing, the model is never asked and
      nothing is saved. */
  lemma NoArticlesNoModelCall(env: Services, company: string)
    requires var f := GetNewsArticles(env.newsApiKey, company, FETCH_LIMIT, env.news);
      f.outcome.Raised? || f.outcome.value == []
    ensures ProcessStep(env, company).saved == None
    ensures forall k :: 0 <= k < |ProcessStep(env, company).calls| ==> ProcessStep(env, company).calls[k].NewsCall?
  {
  }

  /** Every step asks the news service at most once, for the company itself
      with FETCH_LIMIT articles, and does so before any model request; the
      model is asked at most once. */
  lemma StepCalls(env: Services, company: string)
    ensures var calls := ProcessStep(env, company).calls;
      |calls| <= 2
      && (KeySet(env.newsApiKey) <==> (|calls| > 0 && calls[0].NewsCall?))
      && (|calls| > 0 ==> calls[0].NewsCall? && calls[0].news == SearchRequest(company, FETCH_LIMIT, env.newsApiKey.value))
      && (|calls| == 2 ==> calls[1].ModelCall?)
  {
  }

  /** The model request of a step goes to the default model and carries the
      prompt built from the company and the articles fetched for it. */
  lemma StepModelRequest(env: Services, company: string)
    requires |ProcessStep(env, company).calls| == 2
    ensures var c := ProcessStep(env, company).calls[1];
      var f := GetNewsArticles(env.newsApiKey, company, FETCH_LIMIT, env.news);
      c.ModelCall? && f.outcome.Returned?
      && c.model == ModelRequest(DEFAULT_MODEL, Prompt(company, Dicts(f.outcome.value)))
  {
  }

  /** The step taken for each company of list. */
  function Steps(env: Services, list: seq<string>): (r: seq<Attempt>)
    ensures |r| == |list|
    ensures forall i :: 0 <= i < |list| ==> r[i] == ProcessStep(env, list[i])
  {
    seq(|list|, i requires 0 <= i < |list| => ProcessStep(env, list[i]))
  }

  /** How many of the steps saved an analysis. */
  function Successes(steps: seq<Attempt>): (n: nat)
    ensures n <= |steps|
  {
    if steps == [] then 0
    else Successes(steps[..|steps| - 1]) + (if steps[|steps| - 1].saved.Some? then 1 else 0)
  }

  /** The output paths of the companies whose step saved. */
  function SavedPaths(list: seq<string>, steps: seq<Attempt>): set<string>
    requires |list| == |steps|
  {
    if list == [] then {}
    else
      SavedPaths(list[..|list| - 1], steps[..|steps| - 1])
      + if steps[|steps| - 1].saved.Some? then {OutputPath(list[|list| - 1])} else {}
  }

  /** The disk after the steps for the companies of list, in order; the
      job never deletes a file. */
  function Persist(files: map<string, File>, list: seq<string>, steps: seq<Attempt>): (r: map<string, File>)
    requires |list| == |steps|
    ensures files.Keys <= r.Keys
  {
    if list == [] then files
    else
      var n := |list| - 1;
      var before := Persist(files, list[..n], steps[..n]);
      match steps[|steps| - 1].saved
      case None => before
      case Some(v) => before[OutputPath(list[|list| - 1]) := Pickle(v)]
  }

  /** The requests sent by the steps, in order. */
  function AllCalls(steps: seq<Attempt>): seq<Call> {
    if steps == [] then []
    else AllCalls(steps[..|steps| - 1]) + steps[|steps| - 1].calls
  }

  /** The company list of the job: `read_csv`, stripped headers, the one
      `Company` column, missing cells dropped. It is loaded exactly when
      the file is a table in which one header, and only one, strips to
      `Company`. */
  function CompanyList(files: map<string, File>): (r: Option<seq<string>>)
    ensures r.Some? <==> (ReadCsv(files, COMPANY_LIST_PATH).Some?
      && exists i :: SoleCompanyHeader(ReadCsv(files, COMPANY_LIST_PATH).value, i))
    ensures forall i :: ReadCsv(files, COMPANY_LIST_PATH).Some? && SoleCompanyHeader(ReadCsv(files, COMPANY_LIST_PATH).value, i) ==>
      r == Some(DropNa(ReadCsv(files, COMPANY_LIST_PATH).value[i].cells))
  {
    match CompanyCells(files, COMPANY_LIST_PATH)
    case None => None
    case Some(cells) => Some(DropNa(cells))
  }

  /** process_company, writing the pickle when the analysis is truthy. */
  method ProcessCompany(disk: FileSystem, env: Services, company: string) returns (ok: bool, calls: seq<Call>)
    modifies disk
    ensures ok == ProcessStep(env, company).saved.Some?
    ensures calls == ProcessStep(env, company).calls
    ensures disk.files == if ok then old(disk.files)[OutputPath(company) := Pickle(ProcessStep(env, company).saved.value)]
                          else old(disk.files)
  {
    var fetched := GetNewsArticles(env.newsApiKey, company, FETCH_LIMIT, env.news);
    calls := RequestCalls(fetched);
    if fetched.outcome.Raised? {
      return false, calls;
    }
    var articles := fetched.outcome.value;
    if articles == [] {
      return false, calls;
    }
    var analysis := ProcessArticles(env.googleApiKey, company, Dicts(articles), env.model, env.parse);
    calls := calls + ModelCalls(analysis);
    if analysis.result.None? || !Truthy(analysis.result.value) {
      return false, calls;
    }
    var outputPath := OutputPath(company);
    disk.Write(outputPath, Pickle(analysis.result.value));
    ok := true;
  }

  /** One more step of the job, stated on the prefixes the loop has done. */
  lemma StepsExtend(files: map<string, File>, list: seq<string>, steps: seq<Attempt>, i: nat)
    requires |list| == |steps| && i < |list|
    ensures Successes(steps[..i + 1]) == Successes(steps[..i]) + (if steps[i].saved.Some? then 1 else 0)
    ensures AllCalls(steps[..i + 1]) == AllCalls(steps[..i]) + steps[i].calls
    ensures Persist(files, list[..i + 1], steps[..i + 1])
      == if steps[i].saved.Some? then Persist(files, list[..i], steps[..i])[OutputPath(list[i]) := Pickle(steps[i].saved.value)]
         else Persist(files, list[..i], steps[..i])
  {
    assert list[..i + 1][..i] == list[..i];
    assert steps[..i + 1][..i] == steps[..i];
  }

  /** The loop of run_cron_job: every company of list is processed in
      order and the successes are counted. */
  method ProcessCompanies(disk: FileSystem, env: Services, list: seq<string>) returns (successful: nat, calls: seq<Call>)
    modifies disk
    ensures successful == Successes(Steps(env, list))
    ensures calls == AllCalls(Steps(env, list))
    ensures disk.files == Persist(old(disk.files), list, Steps(env, list))
  {
    ghost var start := disk.files;
    ghost var steps := Steps(env, list);
    successful := 0;
    calls := [];
    for i := 0 to |list|
      invariant successful == Successes(steps[..i])
      invariant calls == AllCalls(steps[..i])
      invariant disk.files == Persist(start, list[..i], steps[..i])
    {
      var ok, stepCalls := ProcessCompany(disk, env, list[i]);
      assert steps[i] == ProcessStep(env, list[i]);
      StepsExtend(start, list, steps, i);
      calls := calls + stepCalls;
      if ok {
        successful := successful + 1;
      }
    }
    assert list[..|list|] == list;
    assert steps[..|steps|] == steps;
  }

  /** run_cron_job(): a company list that cannot be loaded aborts the job
      before any company is processed; otherwise every company is processed
      in order and the successes are counted. */
  method RunCronJob(disk: FileSystem, env: Services) returns (report: Report, calls: seq<Call>)
    modifies disk
    ensures CompanyList(old(disk.files)).None? ==>
      report == Aborted && calls == [] && disk.files == old(disk.files)
    ensures CompanyList(old(disk.files)).Some? ==>
      var list := CompanyList(old(disk.files)).value;
      report == Finished(Successes(Steps(env, list)), |list|)
      && calls == AllCalls(Steps(env, list))
      && disk.files == Persist(old(disk.files), list, Steps(env, list))
  {
    var loaded := CompanyList(disk.files);
    if loaded.None? {
      return Aborted, [];
    }
    var companyList := loaded.value;
    var successful;
    successful, calls := ProcessCompanies(disk, env, companyList);
    report := Finished(successful, |companyList|);
  }

  /** All companies are counted exactly when every step saved. */
  lemma {:induction false} AllSucceedIff(steps: seq<Attempt>)
    ensures Successes(steps) == |steps| <==> forall i :: 0 <= i < |steps| ==> steps[i].saved.Some?
  {
    if steps != [] {
      var p := steps[..|steps| - 1];
      AllSucceedIff(p);
      assert forall i :: 0 <= i < |p| ==> p[i] == steps[i];
    }
  }

  /** No company is counted exactly when no step saved. */
  lemma {:induction false} NoneSucceedIff(steps: seq<Attempt>)
    ensures Successes(steps) == 0 <==> forall i :: 0 <= i < |steps| ==> steps[i].saved.None?
  {
    if steps != [] {
      var p := steps[..|steps| - 1];
      NoneSucceedIff(p);
      assert forall i :: 0 <= i < |p| ==> p[i] == steps[i];
    }
  }

  /** The requests to the news service, in order. */
  function NewsRequests(calls: seq<Call>): seq<NewsRequest> {
    if calls == [] then []
    else NewsRequests(calls[..|calls| - 1]) + (if calls[|calls| - 1].NewsCall? then [calls[|calls| - 1].news] else [])
  }

  lemma {:induction false} NewsRequestsAppend(a: seq<Call>, b: seq<Call>)
    ensures NewsRequests(a + b) == NewsRequests(a) + NewsRequests(b)
  {
    if b != [] {
      var b' := b[..|b| - 1];
      assert (a + b)[..|a + b| - 1] == a + b';
      NewsRequestsAppend(a, b');
    } else {
      assert a + b == a;
    }
  }

  /** With the news key set, each step sends exactly one news request. */
  lemma StepNewsRequest(env: Services, company: string)
    requires KeySet(env.newsApiKey)
    ensures NewsRequests(ProcessStep(env, company).calls) == [SearchRequest(company, FETCH_LIMIT, env.newsApiKey.value)]
  {
    StepCalls(env, company);
    OneNewsRequest(ProcessStep(env, company).calls);
  }

  /** A news request followed by at most one model request holds exactly
      that news request. */
  lemma OneNewsRequest(calls: seq<Call>)
    requires 0 < |calls| <= 2 && calls[0].NewsCall? && (|calls| == 2 ==> calls[1].ModelCall?)
    ensures NewsRequests(calls) == [calls[0].news]
  {
    assert calls[..1] == [calls[0]];
    assert NewsRequests(calls[..1]) == NewsRequests([]) + [calls[0].news];
  }

  /** Steps that each send one news request send them in step order. */
  lemma {:induction false} NewsRequestsInOrder(steps: seq<Attempt>, reqs: seq<NewsRequest>)
    requires |steps| == |reqs|
    requires forall i :: 0 <= i < |steps| ==> NewsRequests(steps[i].calls) == [reqs[i]]
    ensures NewsRequests(AllCalls(steps)) == reqs
  {
    if steps != [] {
      var n := |steps| - 1;
      assert forall i :: 0 <= i < n ==> steps[..n][i] == steps[i] && reqs[..n][i] == reqs[i];
      NewsRequestsInOrder(steps[..n], reqs[..n]);
      NewsRequestsAppend(AllCalls(steps[..n]), steps[n].calls);
      assert reqs == reqs[..n] + [reqs[n]];
    }
  }

  /** With the news key set, the job queries the news service once per
      company, in list order, always for FETCH_LIMIT articles. */
  lemma NewsQueriesFollowList(env: Services, list: seq<string>)
    requires KeySet(env.newsApiKey)
    ensures var rs := NewsRequests(AllCalls(Steps(env, list)));
      |rs| == |list|
      && forall i :: 0 <= i < |list| ==> rs[i] == SearchRequest(list[i], FETCH_LIMIT, env.newsApiKey.value)
  {
    var steps := Steps(env, list);
    var reqs := seq(|list|, i requires 0 <= i < |list| => SearchRequest(list[i], FETCH_LIMIT, env.newsApiKey.value));
    forall i | 0 <= i < |list| ensures NewsRequests(steps[i].calls) == [reqs[i]] {
      StepNewsRequest(env, list[i]);
    }
    NewsRequestsInOrder(steps, reqs);
  }

  /** Steps that save nothing leave the disk as it was and count nothing. */
  lemma {:induction false} NothingSavedNothingWritten(files: map<string, File>, list: seq<string>, steps: seq<Attempt>)
    requires |list| == |steps|
    requires forall i :: 0 <= i < |steps| ==> steps[i].saved.None?
    ensures Persist(files, list, steps) == files
    ensures Successes(steps) == 0
  {
    if steps != [] {
      var n := |steps| - 1;
      assert forall i :: 0 <= i < n ==> steps[..n][i] == steps[i];
      NothingSavedNothingWritten(files, list[..n], steps[..n]);
    }
  }

  /** The requests of the job are those of its steps: every request of the
      job is a request of some step. */
  lemma {:induction false} CallsOfSteps(steps: seq<Attempt>, c: Call)
    requires c in AllCalls(steps)
    ensures exists i :: 0 <= i < |steps| && c in steps[i].calls
  {
    var n := |steps| - 1;
    if c in steps[n].calls {
    } else {
      assert forall i :: 0 <= i < n ==> steps[..n][i] == steps[i];
      CallsOfSteps(steps[..n], c);
    }
  }

  /** Without a news key nothing is requested and nothing is saved; the job
      still runs to the end with no successes. */
  lemma NoNewsKeyNothingHappens(files: map<string, File>, env: Services, list: seq<string>)
    requires !KeySet(env.newsApiKey)
    ensures AllCalls(Steps(env, list)) == []
    ensures Successes(Steps(env, list)) == 0
    ensures Persist(files, list, Steps(env, list)) == files
  {
    var steps := Steps(env, list);
    NothingSavedNothingWritten(files, list, steps);
    if AllCalls(steps) != [] {
      CallsOfSteps(steps, AllCalls(steps)[0]);
    }
  }

  /** Without a model key the news service is still queried, but the model
      never is and nothing is saved. */
  lemma NoModelKeyNothingSaved(files: map<string, File>, env: Services, list: seq<string>)
    requires !(env.googleApiKey.Some? && env.googleApiKey.value != "")
    ensures forall c :: c in AllCalls(Steps(env, list)) ==> c.NewsCall?
    ensures Persist(files, list, Steps(env, list)) == files
  {
    var steps := Steps(env, list);
    NothingSavedNothingWritten(files, list, steps);
    forall c | c in AllCalls(steps) ensures c.NewsCall? {
      CallsOfSteps(steps, c);
    }
  }

  /** The job only writes the output files of companies it saved: every
      other path is untouched. */
  lemma {:induction false} PersistFrame(files: map<string, File>, list: seq<string>, steps: seq<Attempt>, q: string)
    requires |list| == |steps|
    requires forall i :: 0 <= i < |list| && steps[i].saved.Some? ==> OutputPath(list[i]) != q
    ensures q in Persist(files, list, steps) <==> q in files
    ensures q in files ==> Persist(files, list, steps)[q] == files[q]
  {
    if list != [] {
      var n := |list| - 1;
      assert forall i :: 0 <= i < n ==> list[..n][i] == list[i] && steps[..n][i] == steps[i];
      PersistFrame(files, list[..n], steps[..n], q);
    }
  }

  /** The paths on the disk after the job are the old ones and the output
      paths of the companies whose step saved. */
  lemma {:induction false} PersistKeys(files: map<string, File>, list: seq<string>, steps: seq<Attempt>)
    requires |list| == |steps|
    ensures Persist(files, list, steps).Keys == files.Keys + SavedPaths(list, steps)
  {
    if list != [] {
      PersistKeys(files, list[..|list| - 1], steps[..|steps| - 1]);
    }
  }

  /** When two companies share an output path, the later saved one wins. */
  lemma {:induction false} LastSavedWins(files: map<string, File>, list: seq<string>, steps: seq<Attempt>, i: nat)
    requires |list| == |steps|
    requires i < |list| && steps[i].saved.Some?
    requires forall j :: i < j < |list| && steps[j].saved.Some? ==> OutputPath(list[j]) != OutputPath(list[i])
    ensures OutputPath(list[i]) in Persist(files, list, steps)
    ensures Persist(files, list, steps)[OutputPath(list[i])] == Pickle(steps[i].saved.value)
  {
    var n := |list| - 1;
    if i < n {
      assert forall j :: i <= j < n ==> list[..n][j] == list[j] && steps[..n][j] == steps[j];
      LastSavedWins(files, list[..n], steps[..n], i);
      assert steps[n].saved.Some? ==> OutputPath(list[n]) != OutputPath(list[i]);
    }
  }
}
