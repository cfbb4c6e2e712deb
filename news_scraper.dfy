/** The article fetcher: one search request to the news service, whose reply
    is normalised into fixed-shape article records. */
module NewsScraper {
  import opened PyValue

  const NEWS_API_URL: string := "https://newsapi.org/v2/everything"
  const NO_CONTENT: string := "No content available"

  /** The query `requests.get(NEWS_API_URL, params=...)` sends. */
  datatype NewsRequest = NewsRequest(
    url: string, q: string, pageSize: int, apiKey: string, language: string, sortBy: string)

  /** What the request yields: the decoded JSON body, or a RequestException
      (transport failure, non-2xx status from raise_for_status, or a body that
      is not JSON). */
  datatype NewsReply = Body(data: Value) | RequestException

  /** The record built for each raw article. */
  datatype Article = Article(title: Value, content: Value, url: Value, publishedDate: Value)

  /** The result of get_news_articles, and the request it sent, if any. */
  datatype Fetch = Fetch(outcome: Outcome<seq<Article>>, request: Option<NewsRequest>)

  /** `if not NEWS_API_KEY`: the environment variable is unset or empty. */
  predicate KeySet(key: Option<string>) {
    key.Some? && key.value != ""
  }

  function SearchRequest(company: string, limit: int, key: string): (r: NewsRequest)
    ensures r.q == company && r.pageSize == limit && r.apiKey == key
    ensures r.language == "en" && r.sortBy == "publishedAt" && r.url == NEWS_API_URL
  {
    NewsRequest(NEWS_API_URL, company, limit, key, "en", "publishedAt")
  }

  /** The dict a record is to the rest of the pipeline. */
  function AsDict(a: Article): Members {
    [("title", a.title), ("content", a.content), ("url", a.url), ("published_date", a.publishedDate)]
  }

  /** One record: `article["title"]`, `article.get("description", ...)`,
      `article["url"]`, `article["publishedAt"]`, evaluated in that order. */
  function ToArticle(raw: Value): (r: Outcome<Article>)
    ensures r.Returned? <==> (raw.Obj? && HasKey(raw.members, "title")
      && HasKey(raw.members, "url") && HasKey(raw.members, "publishedAt"))
    ensures r.Returned? ==> (GetKey(raw.members, "title") == Some(r.value.title)
      && GetKey(raw.members, "url") == Some(r.value.url)
      && GetKey(raw.members, "publishedAt") == Some(r.value.publishedDate)
      && r.value.content == Get(raw.members, "description", Str(NO_CONTENT)))
    ensures !raw.Obj? ==> r == Raised(TypeError)
    ensures raw.Obj? && !HasKey(raw.members, "title") ==> r == Raised(KeyError("title"))
  {
    match Subscript(raw, "title")
    case Raised(e) => Raised(e)
    case Returned(title) =>
      var content := Get(raw.members, "description", Str(NO_CONTENT));
      match Subscript(raw, "url")
      case Raised(e) => Raised(e)
      case Returned(url) =>
        match Subscript(raw, "publishedAt")
        case Raised(e) => Raised(e)
        case Returned(published) => Returned(Article(title, content, url, published))
  }

  /** The list comprehension: the first failing element raises. */
  function ToArticles(raws: seq<Value>): (r: Outcome<seq<Article>>)
    ensures r.Returned? ==> |r.value| == |raws|
    ensures r.Returned? ==> forall i :: 0 <= i < |raws| ==> ToArticle(raws[i]) == Returned(r.value[i])
    ensures r.Raised? ==> exists i :: 0 <= i < |raws| && ToArticle(raws[i]).Raised?
  {
    if raws == [] then Returned([])
    else
      match ToArticle(raws[0])
      case Raised(e) => Raised(e)
      case Returned(a) =>
        var rest := ToArticles(raws[1..]);
        assert forall i :: 1 <= i < |raws| ==> raws[1..][i - 1] == raws[i];
        match rest
        case Raised(e) => Raised(e)
        case Returned(arts) => Returned([a] + arts)
  }

  /** Reading a decoded body: no `articles` key gives []; otherwise each
      element of `data["articles"]` becomes a record. */
  function ReadArticles(data: Value): (r: Outcome<seq<Article>>)
    ensures data.Obj? && !HasKey(data.members, "articles") ==> r == Returned([])
    ensures data.Obj? && HasKey(data.members, "articles") && GetKey(data.members, "articles").value.Arr? ==>
      r == ToArticles(GetKey(data.members, "articles").value.items)
    ensures data.Null? || data.Bool? || data.Num? ==> r == Raised(TypeError)
  {
    match Contains(data, "articles")
    case Raised(e) => Raised(e)
    case Returned(present) =>
      if !present then Returned([])
      else
        match Subscript(data, "articles")
        case Raised(e) => Raised(e)
        case Returned(list) =>
          match Iterate(list)
          case None => Raised(TypeError)
          case Some(raws) => ToArticles(raws)
  }

  /** get_news_articles(company_name, limit). A missing key raises before any
      request; a RequestException becomes []; a reply body is read into its
      article records, and every error of that reading propagates. */
  function GetNewsArticles(key: Option<string>, company: string, limit: int,
                           api: NewsRequest -> NewsReply): (r: Fetch)
    ensures !KeySet(key) ==> r == Fetch(Raised(ValueError), None)
    ensures KeySet(key) ==> r.request == Some(SearchRequest(company, limit, key.value))
    ensures KeySet(key) && api(SearchRequest(company, limit, key.value)) == RequestException ==>
      r.outcome == Returned([])
    ensures KeySet(key) && api(SearchRequest(company, limit, key.value)).Body? ==>
      r.outcome == ReadArticles(api(SearchRequest(company, limit, key.value)).data)
  {
    if !KeySet(key) then Fetch(Raised(ValueError), None)
    else
      var req := SearchRequest(company, limit, key.value);
      match api(req)
      case RequestException => Fetch(Returned([]), Some(req))
      case Body(data) => Fetch(ReadArticles(data), Some(req))
  }

  /** A transport failure and a body without `articles` both degrade to []. */
  lemma DegradesToEmpty(key: Option<string>, company: string, limit: int,
                        api: NewsRequest -> NewsReply)
    requires KeySet(key)
    requires api(SearchRequest(company, limit, key.value)) == RequestException
      || (exists ms :: api(SearchRequest(company, limit, key.value)) == Body(Obj(ms)) && !HasKey(ms, "articles"))
    ensures GetNewsArticles(key, company, limit, api).outcome == Returned([])
  {
  }

  /** The records are the raw articles in order, one each, with
      title <- title, content <- description (defaulted only when absent),
      url <- url and published_date <- publishedAt. */
  lemma {:induction false} RecordsMatchRawArticles(raws: seq<Value>)
    requires ToArticles(raws).Returned?
    ensures |ToArticles(raws).value| == |raws|
    ensures forall i :: 0 <= i < |raws| ==>
      var a := ToArticles(raws).value[i];
      raws[i].Obj?
      && GetKey(raws[i].members, "title") == Some(a.title)
      && GetKey(raws[i].members, "url") == Some(a.url)
      && GetKey(raws[i].members, "publishedAt") == Some(a.publishedDate)
      && a.content == (if HasKey(raws[i].members, "description")
                       then GetKey(raws[i].members, "description").value else Str(NO_CONTENT))
  {
    forall i | 0 <= i < |raws|
      ensures var a := ToArticles(raws).value[i];
        raws[i].Obj?
        && GetKey(raws[i].members, "title") == Some(a.title)
        && GetKey(raws[i].members, "url") == Some(a.url)
        && GetKey(raws[i].members, "publishedAt") == Some(a.publishedDate)
        && a.content == (if HasKey(raws[i].members, "description")
                         then GetKey(raws[i].members, "description").value else Str(NO_CONTENT))
    {
      assert ToArticle(raws[i]).Returned?;
    }
  }

  /** The list comprehension raises what its first failing element raises. */
  lemma {:induction false} FirstFailureRaised(raws: seq<Value>, i: nat)
    requires i < |raws| && ToArticle(raws[i]).Raised?
    requires forall j :: 0 <= j < i ==> ToArticle(raws[j]).Returned?
    ensures ToArticles(raws) == Raised(ToArticle(raws[i]).error)
  {
    if i > 0 {
      assert forall j :: 0 <= j < i - 1 ==> raws[1..][j] == raws[j + 1];
      FirstFailureRaised(raws[1..], i - 1);
    }
  }

  /** A raw article without `title` is not degraded to []: the call raises,
      and the error is the KeyError when every earlier article was
      well-formed. */
  lemma MissingTitlePropagates(key: Option<string>, company: string, limit: int,
                               api: NewsRequest -> NewsReply, ms: Members, raws: seq<Value>, i: nat)
    requires KeySet(key)
    requires api(SearchRequest(company, limit, key.value)) == Body(Obj(ms))
    requires GetKey(ms, "articles") == Some(Arr(raws))
    requires i < |raws| && raws[i].Obj? && !HasKey(raws[i].members, "title")
    ensures GetNewsArticles(key, company, limit, api).outcome.Raised?
    ensures (forall j :: 0 <= j < i ==> ToArticle(raws[j]).Returned?) ==>
      GetNewsArticles(key, company, limit, api).outcome == Raised(KeyError("title"))
  {
    if forall j :: 0 <= j < i ==> ToArticle(raws[j]).Returned? {
      FirstFailureRaised(raws, i);
    }
  }
}
