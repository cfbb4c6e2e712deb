/** The analysis engine: one prompt holding every article goes to the
    generative model, and the JSON object is cut out of its free-form reply
    between the first `{` and the last `}`. */
module GeminiService {
  import opened PyValue
  import opened PyText

  const DEFAULT_MODEL: string := "gemini-1.5-flash"

  /** `genai.GenerativeModel(DEFAULT_MODEL).generate_content(prompt)` */
  datatype ModelRequest = ModelRequest(model: string, prompt: string)

  /** The result process_articles returns, and the request it sent, if any. */
  datatype Analysis = Analysis(result: Option<Value>, request: Option<ModelRequest>)

  /** The fixed instructions and output schema, cut where the company name
      is interpolated. */
  const INTRO: string := "You are a financial news analyst tasked with analyzing news articles about "
  const TASKS_LEAD: string :=
    ".\n" +
    "I will provide you with several news articles, and you need to:\n"
  const TASKS_PER_ARTICLE: string :=
    "1. Summarize each article concisely\n" +
    "2. Determine the sentiment (Positive, Negative, or Neutral) for each article\n"
  const TASKS_OVERALL: string :=
    "3. Extract key topics from each article\n" +
    "4. Conduct a comparative analysis across all articles\n" +
    "5. Provide an overall sentiment analysis for "
  const TASKS: string := TASKS_LEAD + TASKS_PER_ARTICLE + TASKS_OVERALL
  const SCHEMA_HEAD: string :=
    " based on all articles\n" +
    "\n" +
    "Provide your response in structured JSON format as follows:\n" +
    "```\n" +
    "{\n" +
    "  \"Company\": \""
  const SCHEMA_ARTICLE_TEXT: string :=
    "\",\n" +
    "  \"Articles\": [\n" +
    "    {\n" +
    "      \"Title\": \"Article title\",\n" +
    "      \"Summary\": \"Brief summary\",\n"
  const SCHEMA_ARTICLE_LABELS: string :=
    "      \"Sentiment\": \"Positive/Negative/Neutral\",\n" +
    "      \"Topics\": [\"Topic1\", \"Topic2\", \"Topic3\"]\n" +
    "    }\n" +
    "  ],\n"
  const SCHEMA_DISTRIBUTION: string :=
    "  \"Comparative Analysis\": {\n" +
    "    \"Sentiment Distribution\": {\n" +
    "      \"Positive\": count,\n" +
    "      \"Negative\": count,\n" +
    "      \"Neutral\": count\n" +
    "    },\n"
  const SCHEMA_OVERLAP: string :=
    "    \"Topic Overlap\": {\n" +
    "      \"Common Topics\": [\"Topic1\", \"Topic2\"],\n" +
    "      \"Unique Topics\": [\"TopicX\", \"TopicY\"]\n" +
    "    }\n" +
    "  },\n"
  const SCHEMA_FINAL: string :=
    "  \"Final Sentiment Analysis\": \"Overall sentiment summary\"\n" +
    "}\n" +
    "```\n" +
    "\n" +
    "Here are the articles about "
  const SCHEMA_BODY: string := SCHEMA_ARTICLE_TEXT + SCHEMA_ARTICLE_LABELS + SCHEMA_DISTRIBUTION + SCHEMA_OVERLAP + SCHEMA_FINAL
  const LEAD_OUT: string := ":\n"

  /** The opening of the prompt, naming the company four times. */
  function Header(company: string): string {
    INTRO + company + HeaderRest(company)
  }

  /** The header after its opening sentence's company name. */
  function HeaderRest(company: string): string {
    TASKS + company + SCHEMA_HEAD + company + SCHEMA_BODY + company + LEAD_OUT
  }

  const CLOSING: string :=
    "\n" +
    "Please analyze these articles and provide the response in JSON format."

  /** The separator line that opens the block of article number n (1-based). */
  function Marker(n: nat): string {
    "\n--- ARTICLE " + Decimal(n) + " ---\n"
  }

  /** `str(article.get(key, default))` */
  function Field(article: Members, key: string, default: string): string {
    ToStr(Get(article, key, Str(default)))
  }

  function TitleLine(article: Members): string {
    "TITLE: " + Field(article, "title", "No title") + "\n"
  }

  function ContentLine(article: Members): string {
    "CONTENT: " + Field(article, "content", "No content") + "\n"
  }

  /** The three lines the loop appends for the article at 0-based index i. */
  function Block(i: nat, article: Members): string {
    Marker(i + 1) + TitleLine(article) + ContentLine(article)
  }

  /** The blocks of all articles, in input order; every article adds text. */
  function Blocks(articles: seq<Members>): (r: string)
    ensures r == "" <==> articles == []
  {
    if articles == [] then ""
    else Blocks(articles[..|articles| - 1]) + Block(|articles| - 1, articles[|articles| - 1])
  }

  /** A prompt with the given header: the header, the block of every
      article, then the closing sentence. */
  function Assemble(header: string, articles: seq<Members>): string {
    header + Blocks(articles) + CLOSING
  }

  /** The prompt generate_request_prompt returns. */
  function Prompt(company: string, articles: seq<Members>): string {
    Assemble(Header(company), articles)
  }

  /** The `for` loop of generate_request_prompt: `+=` of each article's
      three lines onto the prompt built so far. */
  method AppendArticles(start: string, articles: seq<Members>) returns (prompt: string)
    ensures prompt == start + Blocks(articles)
  {
    prompt := start;
    var i := 0;
    while i < |articles|
      invariant 0 <= i <= |articles|
      invariant prompt == start + Blocks(articles[..i])
    {
      ghost var before := prompt;
      prompt := prompt + Marker(i + 1);
      prompt := prompt + TitleLine(articles[i]);
      prompt := prompt + ContentLine(articles[i]);
      Append3(before, Marker(i + 1), TitleLine(articles[i]), ContentLine(articles[i]));
      BlocksPrefix(articles, i);
      Append2(start, Blocks(articles[..i]), Block(i, articles[i]));
      i := i + 1;
    }
    assert articles[..i] == articles;
  }

  /** generate_request_prompt: the header, then the articles' blocks, then
      the closing sentence. */
  method GenerateRequestPrompt(company: string, articles: seq<Members>) returns (prompt: string)
    ensures prompt == Prompt(company, articles)
  {
    prompt := Header(company);
    prompt := AppendArticles(prompt, articles);
    prompt := prompt + CLOSING;
  }

  /** Where the block of article i starts in a prompt with the given header. */
  function BlockStart(header: string, articles: seq<Members>, i: nat): nat
    requires i <= |articles|
  {
    |header| + |Blocks(articles[..i])|
  }

  lemma {:induction false} BlocksPrefix(articles: seq<Members>, i: nat)
    requires i < |articles|
    ensures Blocks(articles[..i + 1]) == Blocks(articles[..i]) + Block(i, articles[i])
  {
    assert articles[..i + 1][..i] == articles[..i];
  }

  lemma {:induction false} BlocksExtend(articles: seq<Members>, i: nat)
    requires i <= |articles|
    ensures Blocks(articles[..i]) <= Blocks(articles)
  {
    if i < |articles| {
      var n := |articles|;
      var init := articles[..n - 1];
      BlocksExtend(init, i);
      assert init[..i] == articles[..i];
      assert Blocks(articles) == Blocks(init) + Block(n - 1, articles[n - 1]);
      assert Blocks(init) <= Blocks(articles);
    } else {
      assert articles[..i] == articles;
    }
  }

  /** Whatever the header, the prompt holds the block of article i (see
      BlockLayout: the separator `\n--- ARTICLE {i+1} ---\n`, the TITLE line,
      the CONTENT line) from BlockStart(i) to BlockStart(i + 1), so the
      blocks follow one another in input order after the header. */
  lemma {:induction false} ArticleBlockInPrompt(header: string, articles: seq<Members>, i: nat)
    requires i < |articles|
    ensures BlockStart(header, articles, i) + |Block(i, articles[i])| == BlockStart(header, articles, i + 1)
    ensures BlockStart(header, articles, i + 1) <= |Assemble(header, articles)|
    ensures Assemble(header, articles)[BlockStart(header, articles, i)..BlockStart(header, articles, i + 1)]
      == Block(i, articles[i])
  {
    var b := Block(i, articles[i]);
    var bi := Blocks(articles[..i]);
    var all := Blocks(articles);
    BlocksPrefix(articles, i);
    BlocksExtend(articles, i + 1);
    var rest := all[|bi + b|..];
    Split(all, bi + b);
    Regroup(header, bi, b, rest, CLOSING);
    Window(header + bi, b, rest + CLOSING);
  }

  /** Each block opens with its separator line, then the title line, then
      the content line. */
  lemma BlockLayout(i: nat, article: Members)
    ensures var b := Block(i, article); var m := Marker(i + 1); var t := TitleLine(article);
      |m| + |t| <= |b| && b[..|m|] == m && b[|m|..|m| + |t|] == t && b[|m| + |t|..] == ContentLine(article)
  {
    Window(Marker(i + 1), TitleLine(article), ContentLine(article));
  }

  /** A missing title or content is rendered as "No title" / "No content";
      a present one as str() of its value. */
  lemma FieldDefaults(article: Members)
    ensures !HasKey(article, "title") ==> Field(article, "title", "No title") == "No title"
    ensures !HasKey(article, "content") ==> Field(article, "content", "No content") == "No content"
    ensures forall v :: GetKey(article, "title") == Some(v) ==> Field(article, "title", "No title") == ToStr(v)
  {
  }

  /** With no articles the prompt is the header followed by the closing sentence. */
  lemma EmptyPrompt(header: string)
    ensures Assemble(header, []) == header + CLOSING
  {
    AppendEmpty(header, CLOSING);
  }

  /** The prompt opens with its header and ends with the closing sentence. */
  lemma PromptFrame(header: string, articles: seq<Members>)
    ensures Assemble(header, articles)[..|header|] == header
    ensures Assemble(header, articles)[|Assemble(header, articles)| - |CLOSING|..] == CLOSING
  {
    Window(header, Blocks(articles), CLOSING);
  }

  /** The header names the company right after the opening sentence. */
  lemma HeaderNamesCompany(company: string)
    ensures |INTRO| + |company| <= |Header(company)|
      && Header(company)[|INTRO|..|INTRO| + |company|] == company
  {
    var header := Header(company);
    Window(INTRO, company, HeaderRest(company));
    assert header == INTRO + company + HeaderRest(company);
  }

  /** `response_text[response_text.find("{"):response_text.rfind("}") + 1]`:
      a span that is not empty is the stretch of the text that ends with its
      last `}`. */
  function ExtractJsonSpan(text: string): (span: string)
    ensures span != "" ==> 0 <= RFind(text, '}') && |span| <= RFind(text, '}') + 1
    ensures span != "" ==> text[RFind(text, '}') + 1 - |span|..RFind(text, '}') + 1] == span
    ensures span != "" ==> span[|span| - 1] == '}'
  {
    var stop := RFind(text, '}') + 1;
    SliceToStop(text, Find(text, '{'), stop);
    Slice(text, Find(text, '{'), stop)
  }

  /** When a `}` follows the first `{`, the span runs from that `{` through
      the last `}`. */
  lemma SpanWhenBracketed(text: string)
    requires 0 <= Find(text, '{') < RFind(text, '}')
    ensures ExtractJsonSpan(text) == text[Find(text, '{')..RFind(text, '}') + 1]
  {
  }

  /** With no `}`, or none after the first `{`, the span is empty. */
  lemma SpanEmptyWithoutClosing(text: string)
    requires RFind(text, '}') == -1 || 0 <= RFind(text, '}') < Find(text, '{')
    ensures ExtractJsonSpan(text) == ""
  {
  }

  /** With no `{`, find gives -1, which as a slice start addresses the last
      character: the span is "}" when the text ends with `}` and empty
      otherwise. */
  lemma SpanWithoutOpening(text: string)
    requires '{' !in text
    ensures ExtractJsonSpan(text) == (if text != [] && text[|text| - 1] == '}' then "}" else "")
  {
    var n := |text|;
    var j := RFind(text, '}');
    if j >= 0 {
      assert SliceBound(-1, n) == n - 1;
      if j == n - 1 {
        assert text[n - 1..n] == [text[n - 1]];
      }
    }
  }

  /** When a `}` follows the first `{`, the span starts with `{` and ends
      with `}`. */
  lemma SpanDelimited(text: string)
    requires 0 <= Find(text, '{') < RFind(text, '}')
    ensures |ExtractJsonSpan(text)| == RFind(text, '}') + 1 - Find(text, '{') >= 2
    ensures ExtractJsonSpan(text)[0] == '{'
    ensures ExtractJsonSpan(text)[|ExtractJsonSpan(text)| - 1] == '}'
  {
    SpanWhenBracketed(text);
    SliceEnds(text, Find(text, '{'), RFind(text, '}'));
  }

  /** The text holds no `{` before the span and no `}` after it. */
  lemma SpanOutermost(text: string)
    requires 0 <= Find(text, '{') < RFind(text, '}')
    ensures var i := Find(text, '{');
      '{' !in text[..i] && '}' !in text[i + |ExtractJsonSpan(text)|..]
  {
    SpanWhenBracketed(text);
    assert Find(text, '{') + |ExtractJsonSpan(text)| == RFind(text, '}') + 1;
  }

  /** The `try` block of process_articles: one request with the prompt,
      then the reply's span parsed. A reply whose span parses is returned as
      parsed; a model exception or a parse failure gives None. */
  function Consult(prompt: string, model: ModelRequest -> Option<string>,
                   parse: string -> Option<Value>): (r: Analysis)
    ensures r.request == Some(ModelRequest(DEFAULT_MODEL, prompt))
    ensures model(ModelRequest(DEFAULT_MODEL, prompt)).None? ==> r.result.None?
    ensures model(ModelRequest(DEFAULT_MODEL, prompt)).Some? ==>
      r.result == parse(ExtractJsonSpan(model(ModelRequest(DEFAULT_MODEL, prompt)).value))
  {
    var req := ModelRequest(DEFAULT_MODEL, prompt);
    match model(req)
    case None => Analysis(None, Some(req))
    case Some(text) => Analysis(parse(ExtractJsonSpan(text)), Some(req))
  }

  /** process_articles(company_name, articles): without an API key, None and
      no request; otherwise the prompt is sent, and the result is what
      json.loads makes of the span of the reply, or None when the model
      raised. */
  function Analyze(key: Option<string>, company: string, articles: seq<Members>,
                   model: ModelRequest -> Option<string>, parse: string -> Option<Value>): (r: Analysis)
    ensures !(key.Some? && key.value != "") ==> r == Analysis(None, None)
    ensures key.Some? && key.value != "" ==>
      r.request == Some(ModelRequest(DEFAULT_MODEL, Prompt(company, articles)))
    ensures key.Some? && key.value != "" ==>
      var reply := model(ModelRequest(DEFAULT_MODEL, Prompt(company, articles)));
      r.result == if reply.Some? then parse(ExtractJsonSpan(reply.value)) else None
  {
    if !(key.Some? && key.value != "") then Analysis(None, None)
    else Consult(Prompt(company, articles), model, parse)
  }

  /** There is never a partial result: a result is exactly what json.loads
      made of the span of a reply the model gave to the prompt. */
  lemma AnalysisIsParsedSpan(key: Option<string>, company: string, articles: seq<Members>,
                             model: ModelRequest -> Option<string>, parse: string -> Option<Value>)
    requires Analyze(key, company, articles, model, parse).result.Some?
    ensures key.Some? && key.value != ""
    ensures var req := ModelRequest(DEFAULT_MODEL, Prompt(company, articles));
      model(req).Some? && parse(ExtractJsonSpan(model(req).value)) == Analyze(key, company, articles, model, parse).result
  {
  }

  /** A reply without `}` leaves an empty span, which json.loads rejects, so
      the result is None. */
  lemma NoClosingBraceFails(key: Option<string>, company: string, articles: seq<Members>,
                            model: ModelRequest -> Option<string>, parse: string -> Option<Value>)
    requires parse("") == None
    requires var req := ModelRequest(DEFAULT_MODEL, Prompt(company, articles));
      model(req).Some? && '}' !in model(req).value
    ensures Analyze(key, company, articles, model, parse).result == None
  {
    var req := ModelRequest(DEFAULT_MODEL, Prompt(company, articles));
    SpanEmptyWithoutClosing(model(req).value);
  }

  /** process_articles, building the prompt with generate_request_prompt. */
  method ProcessArticles(key: Option<string>, company: string, articles: seq<Members>,
                         model: ModelRequest -> Option<string>, parse: string -> Option<Value>)
    returns (r: Analysis)
    ensures r == Analyze(key, company, articles, model, parse)
  {
    if !(key.Some? && key.value != "") {
      return Analysis(None, None);
    }
    var prompt := GenerateRequestPrompt(company, articles);
    r := Consult(prompt, model, parse);
  }
}
