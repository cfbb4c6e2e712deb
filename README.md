# News sentiment application: a Dafny model of its decision layer

The application gathers news about a list of companies, asks a generative
language model for a sentiment analysis of each company's articles, stores
the analyses on disk and serves them over HTTP, with a spoken Hindi summary.
Its logic sits between external services and the disk:

- the article fetcher `get_news_articles` queries the news service and
  normalises its reply into article records;
- the analysis engine builds one prompt for all articles, sends it to the
  model and cuts the JSON object out of the reply;
- the speech synthesiser translates text to Hindi (falling back to the
  original), deletes an old audio file, synthesises a new one and checks its
  size;
- the batch job reads the company list and runs fetch, analyse and save for
  every company, counting successes;
- the HTTP API serves the company list, a stored analysis and an audio
  summary, mapping every failure to a status code.

Every external service is a function-typed parameter. This covers the news
service, the translation service, the language model, the speech synthesiser
and `json.loads`. The functions return the requests they would send, so "the
model is never asked" is a property about data. The disk is a `FileSystem`
object whose `files` map the methods update in place. Each method that
changes the disk is proved equal to a pure effect function, and the
properties are lemmas about those functions.

Modules, one per source file plus shared helpers:

- `PyText`: the Python string built-ins used, such as `strip`, `lower`,
  `find`/`rfind`, slicing with index normalisation and `posixpath.join`.
- `PyValue`: JSON and pickled values, truthiness, `dict.get` and subscripts
  that raise.
- `FileStore`: the shared disk.
- `CompanyTable`: the `Company` column of the CSV file.
- `NewsScraper`, `GeminiService`, `TextToSpeech`, `Cron` and `Application`:
  one for each of `news_scraper.py`, `gemini_service.py`,
  `text_to_speech.py`, `cron.py` and `application.py`.
- `StoreLayout`: lemmas relating the paths the job writes to the paths the
  API reads.

Behaviours of the code a reader might not expect, which the model keeps:

- A missing company list or analysis file is answered with status 500. The
  handlers mean to answer 404: they raise `HTTPException(404)`, but inside
  a `try` whose `except Exception` catches it and raises 500 instead
  (`Application.CompaniesNeverNotFound`, `SentimentNeverNotFound`,
  `AudioNeverNotFound`).
- The speech synthesiser leaves an undersized audio file on disk when it
  returns None. The code's comment says it validates that the file exists
  and has content, but the size check raises after `save` and nothing
  deletes the file (`TextToSpeech.UndersizedFileLeftBehind`).
- The API reads analyses from `data/<name>.pkl`, while the batch job writes
  them to `data/output/<name>.pkl`. The API therefore never serves what the
  job writes (`StoreLayout.CronOutputNotServed`,
  `CronLeavesServedSentimentUnchanged`).
- The API's audio handler uses its own `generate_hindi_tts`. That function
  neither translates, nor deletes an old file, nor checks the size, and it
  writes `data/<name>_summary.mp3` with the name unaltered. This is never the
  translating synthesiser's file (`StoreLayout.ServedAudioNotTranslated`).

## Model

| member | source | states |
|---|---|---|
| PyText.StripLeft | application.py:76 | the result is a suffix of the input, everything removed is whitespace, and the result does not start with whitespace |
| PyText.StripRight | application.py:76 | the result is a prefix of the input, everything removed is whitespace, and the result does not end with whitespace |
| PyText.StripEmptyIffAllSpace | application.py:76-77 | `text.strip()` is empty exactly when every character of the text is whitespace |
| PyText.Find | gemini_service.py:93 | -1 exactly when the character is absent; otherwise an index holding it with no earlier occurrence |
| PyText.RFind | gemini_service.py:94 | -1 exactly when the character is absent; otherwise an index holding it with no later occurrence |
| PyText.SliceBound | gemini_service.py:95 | a bound from 0 to n is kept; a negative bound down to -n counts from the end; a bound above n becomes n and one below -n becomes 0 |
| PyText.Slice | gemini_service.py:95 | the slice is the part of the string that starts at the normalised start and runs to the normalised stop, empty when the stop is not after the start; in-range bounds give exactly s[start..stop] |
| PyText.SliceToStop | gemini_service.py:95 | a slice whose stop is in range ends exactly at that stop |
| PyText.Decimal | gemini_service.py:69 | `str(i+1)` is a non-empty string of decimal digits |
| PyText.ReplaceChar | text_to_speech.py:85 | `str.replace` of one character: every occurrence becomes the new character, every other character is kept, and none of the old remains |
| PyText.JoinShape | cron.py:70 | `os.path.join` ends with its second part; an absolute part is the whole result, and a relative one follows the first part directly after a `/`, which is inserted only when the first part does not already end with one |
| PyText.LowerKeepsSlash | cron.py:70 | lower-casing changes no `/` and makes none |
| PyValue.GetKey | news_scraper.py:52-55 | a key is found exactly when the dict has it, and the value found is one stored under it |
| PyValue.Subscript | news_scraper.py:52 | `d[k]` returns exactly when d is a dict holding k, and then returns the value stored under k; a dict without k raises KeyError(k), any other value TypeError |
| PyValue.Index0 | text_to_speech.py:50 | `v[0]` gives a value exactly for a non-empty list or string: its first element or its first character; a dict, None, a boolean or a number raises (None here) |
| PyValue.FalsyValues | cron.py:57 | a value is falsy exactly when it is None, False, 0, "", [] or {} |
| PyValue.Get | application.py:102 | `d.get(k, default)` is `d[k]` when the key is present and the default otherwise |
| PyValue.Contains | news_scraper.py:46 | `k in v` on a dict holds exactly when `v[k]` would return; on a list it looks for the element, on a string for a substring; None, booleans and numbers raise TypeError |
| PyValue.Iterate | text_to_speech.py:50 | `for x in v` yields a list's elements, a string's characters or a dict's keys, and raises exactly for None, booleans and numbers |
| PyValue.ToStr | gemini_service.py:70-71 | an f-string renders a string as itself and anything else as its repr, so the text is empty only for "" |
| PyValue.Repr | gemini_service.py:70-71 | `repr` is never empty; a string is quoted, a list bracketed and a dict braced |
| FileStore.FileSystem.Write | cron.py:71-72 | writing a file replaces the file at that path and nothing else |
| FileStore.FileSystem.Remove | text_to_speech.py:87-88 | removing a file deletes that path and nothing else |
| FileStore.LoadPickle | application.py:65-66 | a value is loaded exactly when the path holds a pickle, and it is that pickle's value |
| FileStore.ReadCsv | cron.py:90 | a table is read exactly when the path holds a CSV file, and it is that file's columns |
| CompanyTable.StripHeaders | cron.py:96 | every header is stripped of whitespace and the columns' cells and order are kept |
| CompanyTable.Matching | cron.py:99 | the selected columns are exactly the columns of the table labelled `Company` |
| CompanyTable.MatchingTwo | application.py:47 | a table with two `Company` columns has at least two matches |
| CompanyTable.MatchingSole | cron.py:99-102 | a table whose only `Company` column is column i selects that column and nothing else |
| CompanyTable.SingleMatchIsSole | application.py:43-47 | a single selected column is the table's only `Company` column |
| CompanyTable.CompanyColumn | cron.py:99-102 | when column i is the only `Company` column its cells are returned; any result is the cells of the only `Company` column, so a table with none or two gives None |
| CompanyTable.SoleHeaderStripped | cron.py:96-99 | the only header that strips to `Company` becomes, after stripping, the only `Company` column |
| CompanyTable.CompanyCells | cron.py:90-102 | a file that is not a table gives no column; when exactly one header strips to `Company` its column's cells are returned; any result is such a column's cells |
| CompanyTable.DropNa | cron.py:102 | `.dropna()` keeps exactly the present cells and never lengthens the list |
| CompanyTable.DropNaCell | cron.py:102 | a present cell is kept as its value and a missing cell is dropped |
| CompanyTable.DropNaAppend | cron.py:102 | dropping missing cells from a concatenation concatenates the results, so the file's order and repeated names are kept |
| CompanyTable.Unique | application.py:47 | `.unique()` keeps every value and no value twice |
| CompanyTable.IndexOf | application.py:47 | the index of the first occurrence of a value |
| CompanyTable.IndexOfExtend | application.py:47 | appending to a list does not move the first occurrence of a value already in it |
| CompanyTable.UniqueFirstOccurrenceOrder | application.py:47 | `.unique()` lists values in the order of their first occurrence |
| NewsScraper.SearchRequest | news_scraper.py:33-39 | the query asks for the company with pageSize = limit, the key, language `en` and sorting by `publishedAt` |
| NewsScraper.ToArticle | news_scraper.py:51-56 | a record is built exactly when the raw article is a dict with `title`, `url` and `publishedAt`; its fields are those values and the description or "No content available"; a non-dict raises TypeError and a dict without `title` KeyError |
| NewsScraper.ToArticles | news_scraper.py:50-58 | a returned list has one record per raw article, each the mapping of that article; a raise comes from some failing article |
| NewsScraper.FirstFailureRaised | news_scraper.py:50-58 | the list comprehension raises the error of its first failing article |
| NewsScraper.ReadArticles | news_scraper.py:46-58 | a dict without `articles` gives []; a dict whose `articles` is a list gives that list's records; None, a boolean or a number raises TypeError |
| NewsScraper.GetNewsArticles | news_scraper.py:19-68 | a missing key raises ValueError before any request; otherwise exactly the search request is sent, a RequestException gives [] and a reply body gives the article records read from it |
| NewsScraper.DegradesToEmpty | news_scraper.py:41-68 | a RequestException or a reply without `articles` gives [] |
| NewsScraper.RecordsMatchRawArticles | news_scraper.py:50-57 | record i has the title, url and publishedAt of raw article i, and its description or "No content available" only when that key is absent |
| NewsScraper.MissingTitlePropagates | news_scraper.py:50-58 | any article without `title` makes the call raise instead of returning []; the error is KeyError("title") when every earlier article was well-formed |
| GeminiService.AppendArticles | gemini_service.py:68-71 | the loop appends the blocks of all articles, in order, to the prompt |
| GeminiService.GenerateRequestPrompt | gemini_service.py:26-75 | the prompt built is the header, the article blocks and the closing sentence |
| GeminiService.Blocks | gemini_service.py:68-71 | the article blocks are empty exactly when there are no articles |
| GeminiService.BlocksPrefix | gemini_service.py:68-71 | the blocks of the first i+1 articles are those of the first i followed by block i |
| GeminiService.BlocksExtend | gemini_service.py:68-71 | the blocks of the first i articles are a prefix of the blocks of all articles |
| GeminiService.ArticleBlockInPrompt | gemini_service.py:68-71 | whatever the header, block i sits between BlockStart(i) and BlockStart(i+1), so blocks follow in input order |
| GeminiService.BlockLayout | gemini_service.py:69-71 | a block is the `--- ARTICLE n ---` separator, then the TITLE line, then the CONTENT line |
| GeminiService.FieldDefaults | gemini_service.py:70-71 | a missing title or content is written as "No title" or "No content"; a present title as str() of its value |
| GeminiService.EmptyPrompt | gemini_service.py:68-74 | with no articles the prompt is the header followed by the closing sentence |
| GeminiService.PromptFrame | gemini_service.py:30-74 | the prompt starts with its header and ends with the closing sentence |
| GeminiService.HeaderNamesCompany | gemini_service.py:30 | the header names the company right after its opening words |
| GeminiService.ExtractJsonSpan | gemini_service.py:93-95 | a non-empty span is the stretch of the reply that ends with its last `}` |
| GeminiService.SpanWhenBracketed | gemini_service.py:93-95 | with a `}` after the first `{`, the span is the text from that `{` through the last `}` |
| GeminiService.SpanEmptyWithoutClosing | gemini_service.py:93-95 | with no `}`, or none after the first `{`, the span is empty |
| GeminiService.SpanWithoutOpening | gemini_service.py:93-95 | with no `{` the slice starts at the last character, so the span is "}" when the text ends with `}` and empty otherwise |
| GeminiService.SpanDelimited | gemini_service.py:93-95 | with a `}` after the first `{`, the span starts with `{`, ends with `}` and covers the whole stretch |
| GeminiService.SpanOutermost | gemini_service.py:93-95 | no `{` precedes the span and no `}` follows it |
| GeminiService.Consult | gemini_service.py:87-105 | exactly one request carrying the prompt is sent; a reply gives json.loads of its span, whatever that parses to, and a model exception gives None |
| GeminiService.Analyze | gemini_service.py:76-105 | without an API key there is no result and no request; with one, the request carries the prompt for the company and articles, and the result is json.loads of the reply's span, or None when the model raised |
| GeminiService.AnalysisIsParsedSpan | gemini_service.py:97-105 | a result exists only with a key, and it is what json.loads made of the span of the model's reply to the prompt |
| GeminiService.NoClosingBraceFails | gemini_service.py:94-102 | a reply without `}` leaves an empty span, which does not parse, so the result is None |
| GeminiService.ProcessArticles | gemini_service.py:76-105 | the key check, the prompt loop and the `try` block compute the result of Analyze |
| TextToSpeech.HindiRequest | text_to_speech.py:36-45 | the translation query asks to translate exactly the text from `en` to `hi` |
| TextToSpeech.TranslateToHindi | text_to_speech.py:25-62 | the result is the input, or a non-empty translation parsed from the reply that differs from the input |
| TextToSpeech.Segments | text_to_speech.py:50 | the kept segments are non-empty, at most one per item |
| TextToSpeech.Translated | text_to_speech.py:49-50 | a reply that is not a list or a string, an empty list, or one whose first element is None, a boolean or a number raises (None here); a first element that is an empty list translates to "" |
| TextToSpeech.TranslationNonEmpty | text_to_speech.py:55-57 | the result is empty only when the input was |
| TextToSpeech.SegmentsJoined | text_to_speech.py:50 | a well-formed segment list joins to the concatenation of its segments, in order, with null segments skipped |
| TextToSpeech.TranslationOfWellFormedReply | text_to_speech.py:49-59 | a well-formed reply gives its joined segments, unless they are empty or equal the input, when the input comes back |
| TextToSpeech.AudioFileName | text_to_speech.py:85 | the file name is the lower-cased company name with each space, and nothing else, turned into `_`, then `_summary.mp3` |
| TextToSpeech.AudioPath | text_to_speech.py:85-86 | the audio file is `data/output/audio/<file name>`, or the file name alone when the company name is absolute |
| TextToSpeech.SpeaksTranslation | text_to_speech.py:79-92 | the synthesiser is asked to speak the translation of the text, in Hindi, not slowed |
| TextToSpeech.TtsEffect | text_to_speech.py:84-106 | a path returned is the company's audio path, and no file but that path changes |
| TextToSpeech.OldAudioRemoved | text_to_speech.py:84-95 | a file already at the path never survives; afterwards the path holds nothing or this synthesis's output |
| TextToSpeech.PathOnlyForLargeEnoughFile | text_to_speech.py:97-106 | the path is returned exactly when synthesis completed with at least 1000 bytes, and then the file is there |
| TextToSpeech.UndersizedFileLeftBehind | text_to_speech.py:97-100 | a file under 1000 bytes gives None but stays on disk |
| TextToSpeech.GenerateHindiTts | text_to_speech.py:64-106 | the path returned and the disk left are those of TtsEffect |
| Cron.OutputPath | cron.py:70 | the output path is `data/output/<lower name>.pkl`, or the lower-cased name alone when it is absolute |
| Cron.Dicts | cron.py:64 | each article record is handed to the analysis as its dict, in order |
| Cron.ProcessStep | cron.py:52-79 | only a truthy analysis is saved, and only after one news request and then one model request |
| Cron.SavedIff | cron.py:56-75 | a company's analysis is saved exactly when articles were fetched and the analysis is present and truthy |
| Cron.SavedIsAnalysis | cron.py:64-72 | what is saved is the truthy analysis of the fetched articles |
| Cron.NoArticlesNoModelCall | cron.py:56-59 | a failed or empty fetch saves nothing and never asks the model |
| Cron.StepCalls | cron.py:56-64 | a step asks the news service at most once, with limit 10 and only when the key is set, and the model at most once, afterwards |
| Cron.StepModelRequest | cron.py:64 | the model request of a step goes to `gemini-1.5-flash` and carries the prompt built from the company and its fetched articles |
| Cron.Steps | cron.py:108-109 | there is one step per company, the one process_company takes for it |
| Cron.Successes | cron.py:107-110 | the count of successes never exceeds the number of companies |
| Cron.Persist | cron.py:69-72 | the job never deletes a file |
| Cron.PersistKeys | cron.py:69-72 | the files afterwards are the old ones plus the output files of the companies that saved |
| Cron.CompanyList | cron.py:90-102 | the list is loaded exactly when the file is a table in which exactly one header strips to `Company`, and is then that column with missing cells dropped |
| Cron.ProcessCompany | cron.py:42-79 | True exactly when an analysis is saved; then it is written to the company's output path, and otherwise the disk is unchanged |
| Cron.StepsExtend | cron.py:108-110 | one more company adds its success, its requests and its write to those of the companies before it |
| Cron.ProcessCompanies | cron.py:107-112 | the loop counts the successes, sends every step's requests in order, and leaves the disk Persist describes |
| Cron.RunCronJob | cron.py:81-117 | an unreadable list or one without a single `Company` column aborts with no request and no write; otherwise every company is processed in order |
| Cron.AllSucceedIff | cron.py:107-114 | successful equals the number of companies exactly when every company succeeded |
| Cron.NoneSucceedIff | cron.py:107-114 | successful is 0 exactly when no company succeeded |
| Cron.NewsRequestsAppend | cron.py:108-112 | the news requests of two request sequences are those of each, in order |
| Cron.StepNewsRequest | cron.py:56 | with the news key set, a step sends exactly one news request, for its company with limit 10 |
| Cron.NewsRequestsInOrder | cron.py:108-112 | steps that each send one news request send them in step order |
| Cron.NewsQueriesFollowList | cron.py:102-112 | with the news key set, the news service is queried once per company, in list order, so a failure never stops later companies |
| Cron.NothingSavedNothingWritten | cron.py:107-112 | steps that save nothing leave the disk unchanged and count nothing |
| Cron.CallsOfSteps | cron.py:108-112 | every request of the job is a request of some step |
| Cron.NoNewsKeyNothingHappens | cron.py:52-59 | without a news key, nothing is requested or written and nothing counts |
| Cron.NoModelKeyNothingSaved | cron.py:63-67 | without a model key, only the news service is asked and the disk is unchanged |
| Cron.PersistFrame | cron.py:69-72 | a path that is not the output path of a saved company is untouched |
| Cron.LastSavedWins | cron.py:70-72 | of several companies with the same output path, the file holds the last one saved |
| Application.GetCompanies | application.py:33-52 | every failure is status 500, and a served list names no company twice |
| Application.CompaniesServed | application.py:33-52 | the list is served exactly when the file is a table in which exactly one header strips to `Company`; it is then that column with missing cells dropped and repeats removed, holding each present cell |
| Application.CompaniesInFileOrder | application.py:47 | the served list keeps the order of first occurrence in the file |
| Application.SentimentPath | application.py:57-58 | the analysis path is `data/<lower name>.pkl`, or the lower-cased name alone when it is absolute |
| Application.GetSentiment | application.py:54-72 | every failure is status 500; an analysis is served exactly when a pickle is at the path, and the reply is its value |
| Application.SentimentServedIff | application.py:54-72 | the stored pickle at the lower-cased name's path is served unchanged, and only such a pickle is served |
| Application.SentimentStoreThenServe | application.py:57-69 | storing an analysis and then asking gives it back; a write elsewhere changes nothing served |
| Application.NoAnalysisSpeakable | application.py:102 | the fixed default sentence passes the blank-text check |
| Application.SpeakableIff | application.py:76-77 | text is spoken exactly when it is a string whose `strip()` is not empty, and it is spoken unstripped |
| Application.SummaryAudioPath | application.py:81 | the audio path is `data/<name>_summary.mp3` with the name unaltered, or that file name alone when the name is absolute |
| Application.SpeechEffectOf | application.py:74-87 | non-string or blank text is refused with no path and the disk untouched; speakable text is spoken unaltered and in Hindi, and the path is returned exactly when synthesis completes; a returned path is the summary path and holds audio; no other file changes |
| Application.GenerateHindiTts | application.py:74-87 | the path and disk are those of SpeechEffectOf: refused for non-string or blank text, otherwise written at `data/<name>_summary.mp3` |
| Application.GetAudio | application.py:89-112 | the reply and disk are those of GetAudioEffect |
| Application.GetAudioEffect | application.py:89-112 | every failure is status 500; a served file is on disk with type `audio/mp3`; no file but the summary path changes |
| Application.CompaniesNeverNotFound | application.py:35-52 | every failure, including a missing file, is status 500 |
| Application.SentimentNeverNotFound | application.py:56-72 | every failure, including a missing analysis, is status 500 |
| Application.AudioNeverNotFound | application.py:91-112 | every failure is status 500, and a missing analysis changes nothing on disk |
| Application.SummaryOfAnalysis | application.py:95-102 | the text to speak exists exactly when the analysis the sentiment handler serves is a dict; it is the value under `Final Sentiment Analysis`, or the fixed sentence when that key is absent |
| Application.AudioServedIff | application.py:89-112 | audio is served exactly when the analysis is a dict whose summary is speakable and synthesis completes |
| Application.AudioServedFile | application.py:89-112 | a served file is the one just written at the summary path under the unaltered name, holds audio, is the only file changed, and is the stored summary spoken |
| Application.MissingSummarySpeaksDefault | application.py:102 | an analysis without a summary is spoken as "No sentiment analysis available" |
| Application.UnspeakableSummaryRefused | application.py:76-77 | a blank or non-string summary gives 500 without synthesis and leaves the disk as it was |
| Application.PartialAudioLeftBehind | application.py:82 | a synthesis that fails after writing leaves its partial file while the client gets 500 |
| StoreLayout.CronOutputNotServed | application.py:57-58 | no output file of the job is the analysis file the API reads for a name without `/` |
| StoreLayout.CronLeavesServedSentimentUnchanged | application.py:54-69 | running the job over any list changes nothing the API serves for a name without `/` |
| StoreLayout.SameCompanyList | application.py:40-47 | the API serves the job's company list without duplicates, and fails exactly when the job aborts |
| StoreLayout.ServedAudioNotTranslated | application.py:81 | the audio the API writes is never the file the translating synthesiser writes, for a name without `/` |

## Left out

- The network and foreign calls (`requests.get`, the generative model and
  `gTTS`) are function-typed parameters. Their internals are not modelled,
  and neither are the `genai.configure` set-up or the model constructor
  raising. `uvicorn.run` and the server start-up are not modelled at all.
- `json.loads` is a parameter. `pickle` is modelled as files that hold a
  value. `pd.read_csv` is modelled as files that hold columns. A CSV file
  that is not a table, and parse errors inside pandas, appear only as a file
  that is not a table.
- `os.makedirs`/`ensure_directories`: directories are not modelled, and
  neither are OS errors of `open`, `os.remove` or `save`.
- Logging, `time.sleep(2)` and the `tqdm` progress bar have no functional
  effect and are not modelled.
- `streamlit_app.py` (the UI), `__init__.py` (re-exports), `read_root`
  (a constant greeting) and the server start-up are not part of this model.
- `DATA_DIR` is the application directory joined with `data`. It is modelled
  as the relative path `data`, with the working directory taken to be the
  application directory.
- `PyText.Lower` maps ASCII letters only; Unicode case mapping is not
  modelled.
- Each service is a function of its request: the same request always gets
  the same reply. A company listed twice is fetched and analysed twice, as
  in the code, but both attempts have the same outcome, so replies that vary
  between calls (a rate limit hit on one of them, a different model answer)
  are not modelled.
- A reply body that is not JSON is taken to raise a `RequestException`, as
  `response.json()` does from requests 2.27 on, so the news fetcher returns
  []. With older versions of requests it raises a `ValueError`, which
  escapes the fetcher; that is not modelled.
- `PyValue.Repr`: `repr()` of strings nested in containers is written without
  Python's escaping of quotes and backslashes. Floats are not modelled; JSON
  numbers are integers.
- `PyValue.GetKey`: a dict holds its keys as a list of pairs. Lookup takes
  the last pair with the key, as `json.loads` keeps the last duplicate.
- `PyText.Decimal`: the contract states only that `str(i+1)` is a non-empty
  string of digits, not its numeric value.
- `Cron.ProcessCompany`: the only exceptions modelled are those of the
  fetcher. An exception of `open` or `pickle.dump` is not, so the path where
  such an exception gives False is left out.
