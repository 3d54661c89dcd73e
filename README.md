# Fintech news scraper: scraping core in Dafny

This project models the scraping core of a fintech news scraper (`main.py`).
That core does five things:

- picks a CSS selector set per site;
- extracts keyword-matched article records from a parsed page;
- fetches each site with up to three attempts, rotating proxies and falling back to a second HTTP client;
- merges the per-site results;
- reads an importance rating and a sentiment from a language model's reply.

It also models the configuration checks run before scraping starts. The model proves these properties:

- the retry loop returns the first non-empty list;
- the fallback only runs after the last attempt raised;
- every emitted article hits a configured keyword and has an excerpt of at most 303 characters;
- proxy rotation is round-robin;
- a `RATING:` line sets the importance and a `SENTIMENT:` line the sentiment;
- the test suite's scenarios give the results the tests expect.

Modules, one file each:

- `Wrappers` (`wrappers.dfy`): the `Option` type.
- `PyStr` (`pystr.dfy`): the Python `str` operations the code uses. These are `strip`, `lower`/`upper`, `startswith`, `in`, `replace`, `split` and `join`.
- `Urls` (`urls.dfy`): the `netloc` that `urlparse` computes.
- `Proxies` (`proxy.dfy`): the `ProxyManager` class and its rotation.
- `SiteRules` (`site_rules.dfy`): `SITE_SPECIFIC_RULES` and `_get_site_specific_rules`.
- `Extraction` (`extraction.dfy`): what `_extract_articles` computes, on an abstract parsed page.
- `Retry` (`retry.dfy`): what one site's retry loop and the whole run return, as functions of what the network answers.
- `Scraper` (`scraper.dfy`): the `WebScraper` class. Its loops are imperative methods proved equal to the `Extraction` and `Retry` functions.
- `SamplePage` and `SampleRuns` (`sample_page.dfy`, `sample_runs.dfy`): the page, configuration and scenarios of `test_scraper.py`.
- `LlmReply` (`llm_reply.dfy`): `NewsAnalyzer._parse_llm_response`.
- `ConfigCheck` (`config.dfy`): `Config._validate_config`.

## How the model is set up

- **Parsed page.** The HTML parser and its selector engine are not part of this model. A page is a root element plus a function `select(node, selector)`. That function returns the matching elements in document order, or an error when the engine raises. An element is seen only through its stripped text and its `href`.
- **Network.** The network is a parameter. `primary(url, attempt, proxy)` is the response one aiohttp request gets: a status and a page, or a client exception. `fallback(url)` is what the `requests` call gets.
- **Delay and user agent.** The random delay is left out, and so is the random choice of user agent. The only user-agent fact that matters is an empty pool, because `random.choice` then raises.
- **Concurrency.** `asyncio.gather` is modelled as running the sites one after another, in configured order. Each site's retry loop takes its proxies from the shared rotator.

## Behaviour of the code worth knowing

- **`www.` removal.** The domain key removes every `www.` in the netloc, not only a leading one. So `finextra.www.com` gets finextra's rules (`SiteRules.InnerWwwAlsoRemoved`). A port stays in the key, so a known domain written with a port, such as `finextra.com:443`, gets the generic rules (`SiteRules.PortMissesTable`).
- **Title and summary.** The title is the first element any title selector finds, even when its text is empty; a bs4 element is always truthy.
- **Status other than 200.** A primary attempt that gets a status other than 200 returns `[]`; it does not raise.
- **Fallback.** The fallback runs only when the third attempt raised, not when every attempt returned `[]`. Three HTTP 500 answers give `[]` after three attempts, with no fallback (`SampleRuns.ServerErrorEveryTime`).
- **Long ratings.** CPython's `int()` refuses a string of more than 4300 digits. Such a rating stops the parse with the values set before it (`LlmReply.OverlongRatingStops`).
- **Keyword matches.** `keyword_matches` is a list in configured keyword order, not a set.
- **Article URL.** In the sample page the title element is the `<h2>`, which has no `href`. So the article's url is the page URL.
- **`scrape_site`.** The single-site test calls `scraper.scrape_site`, which `WebScraper` does not define. The model states that scenario for `scrape_site_with_retry`.
- **Proxy section.** The test configuration has no `proxy` section, so the `proxy_config` property raises `KeyError` there. The model's constructor takes `rotate_proxy` and the proxy list as parameters.

## Model

| member | source | states |
|---|---|---|
| Proxies.ProxyManager.constructor | main.py:165-167 | the rotator starts at cursor 0 over the given pool |
| Proxies.ProxyManager.GetProxy | main.py:169-176 | an empty pool gives `None` and leaves the cursor; otherwise it gives the proxy under the cursor and advances the cursor by one modulo the pool size, keeping it inside the pool |
| Proxies.RotationAt | main.py:174-175 | call `k` of a rotation started at `start` hands out the proxy at index `start + k` modulo the pool size |
| Proxies.RotationCovers | main.py:174-175 | a rotation of `n` calls has `n` entries, and entry `k` is the proxy at index `start + k` modulo the pool size |
| Proxies.RotationSnoc | main.py:174-175 | one more call appends the proxy at the advanced cursor to the sequence handed out |
| Proxies.TwoProxiesThreeCalls | main.py:169-176 | over `[p1, p2]`, three calls from cursor 0 give `p1, p2, p1` |
| Proxies.RotateTwoProxies | main.py:169-176 | three `get_proxy` calls on a fresh rotator over two proxies return `p1`, `p2`, `p1` |
| Proxies.RotateEmptyPool | main.py:171-172 | a rotator over an empty pool returns `None` every time |
| Urls.NetlocOfAbsolute | main.py:253 | for `scheme://host` followed by a path, query, fragment or nothing, `urlparse(...).netloc` is exactly the host, port included |
| SiteRules.DomainKey | main.py:253 | the key removes `www.` and is never longer than the netloc |
| SiteRules.RulesForKnownSite | main.py:182-258 | each of finextra, cnbc and pymnts gets its own rule set under any scheme, with or without `www.` in front |
| SiteRules.KnownKeyUnchanged | main.py:253 | removing `www.` leaves every table key unchanged, so the keys are reachable |
| SiteRules.InnerWwwAlsoRemoved | main.py:253 | `www.` is removed anywhere in the host, so `finextra.www.com` also resolves to finextra's rules |
| SiteRules.PortMissesTable | main.py:253-258 | each table domain followed by `:` and any digit string, with or without `www.` in front, under any scheme, misses the table and gets the generic rules |
| Extraction.FirstFoundFinds | main.py:349-353 | the title/summary search yields element `e` exactly when some selector is the first to match anything and `e` is its first match |
| Extraction.FirstFoundNone | main.py:349-356 | the search yields no element exactly when every selector matches nothing |
| Extraction.FirstFoundSkipsEmpty | main.py:350-353 | selectors that match nothing are passed over |
| Extraction.Truncate | main.py:375-376 | a text of at most 300 characters is kept; a longer one becomes its first 300 characters followed by `...` |
| Extraction.ExcerptBound | main.py:369-376 | an excerpt has at most 303 characters, and one over 300 is the joined paragraphs' 300-character prefix plus `...` |
| Extraction.ExcerptIgnoresLaterParagraphs | main.py:370-371 | paragraphs after the third never change the excerpt |
| Extraction.KeywordMatches | main.py:379 | a keyword is in the result exactly when it is configured and its lower-cased form occurs in the lower-cased title or summary |
| Extraction.KeywordMatchesAppend | main.py:379 | matching distributes over the keyword list, so matches keep configured order |
| Extraction.EmittedArticle | main.py:358-389 | an emitted article has the first title element's text and `href` (the page URL when absent), the first summary element's text or `""`, its keyword matches, and is well formed |
| Extraction.NoTitleIffNoMatch | main.py:349-356 | a container is skipped for want of a title exactly when no title selector matches inside it |
| Extraction.FailedContainerSkipped | main.py:347-392 | a container whose processing raises contributes nothing and leaves the other containers' articles as they were |
| Extraction.ArticlesOfAppend | main.py:346-392 | containers are processed independently: the articles of a concatenation are the concatenation of the articles |
| Extraction.ArticlesOfWellFormed | main.py:346-392 | every article kept from a container list is well formed |
| Extraction.ArticlesForAppend | main.py:345-346 | article selectors contribute in selector order, and an error in either part is an error of the whole |
| Extraction.RepeatedSelectorDuplicates | main.py:345-346 | two selectors matching the same containers give every article twice: there is no deduplication |
| Extraction.ArticlesForError | main.py:345-346 | extraction raises exactly when the page-level `select` raises for some article selector |
| Extraction.ArticlesForWellFormed | main.py:339-394 | every extracted article has a non-empty list of configured keywords that hit it, an excerpt of at most 303 characters and the page URL as source |
| Scraper.WebScraper.constructor | main.py:242-249 | three retries, and a fresh rotator at cursor 0 over the configured proxies exactly when rotation is on |
| Scraper.WebScraper.FindFirst | main.py:349-353 | the selector loop equals the first-found search |
| Scraper.WebScraper.ProcessContainer | main.py:347-392 | the body of the `try` block equals the per-container result: skipped without a title, dropped without a keyword hit, failed on a selector error, else the article |
| Scraper.WebScraper.ProcessContainers | main.py:346-392 | the inner loop keeps exactly the articles its containers emit, in document order |
| Scraper.WebScraper.ExtractArticles | main.py:339-394 | the method equals extraction with the site's rules and the configured keywords |
| Scraper.WebScraper.ExtractWith | main.py:345-394 | the outer loop equals extraction over the article selectors, including the error case |
| Scraper.WebScraper.ScrapeWithProxy | main.py:310-324 | one primary attempt equals its specified outcome |
| Scraper.WebScraper.FallbackRequestsScrape | main.py:326-337 | the fallback call equals its specified outcome |
| Scraper.WebScraper.NextProxy | main.py:283 | attempt `k` gets the round-robin proxy `k` places after the rotator's cursor at loop start, and the cursor moves one place |
| Scraper.WebScraper.ScrapeSiteWithRetry | main.py:275-308 | the loop returns what the retry specification returns for the rotator's pool and cursor before the call, makes that many attempts and leaves the cursor that many places on |
| Scraper.WebScraper.ScrapeAllSites | main.py:260-273 | the result is the aggregate of the specified per-site runs in configured order, and the rotator ends where those runs leave it |
| Scraper.WebScraper.Gather | main.py:266-273 | the merge loop equals the aggregate: failed tasks skipped, lists concatenated in site order |
| Retry.PrimaryOutcome | main.py:310-324 | a client error raises; a status other than 200 returns `[]`; a non-empty result comes from a 200 response and is what extraction of that page gives |
| Retry.FallbackOutcome | main.py:326-337 | an empty user-agent pool, a client error or a 4xx/5xx status raises; any result returned is what extraction of the page gives |
| Retry.FirstSuccess | main.py:277-294 | the index of the first attempt that returned a non-empty list; nothing exactly when no attempt did |
| Retry.AttemptsMade | main.py:277-294 | at least one and at most all attempts are made |
| Retry.RetryReturnsFirstSuccess | main.py:293-294 | the first non-empty list is returned, no later attempt is made and the fallback does not run |
| Retry.FallbackOnlyAfterLastRaise | main.py:301-306 | unless no attempt succeeded and the last one raised, the fallback's answer cannot change the result |
| Retry.FallbackResultReturned | main.py:301-306 | once the fallback runs, its list is returned as it is, even `[]`; if it raises, the result is `[]`; every attempt was made |
| Retry.AllEmptyGivesNothing | main.py:293-308 | attempts that all return `[]` use every attempt, skip the fallback and give `[]` |
| Retry.RetryResultOrigin | main.py:275-308 | the result is `[]`, the list of one attempt, or the fallback's list |
| Retry.ProxyForIsRotation | main.py:283 | the proxies the attempts get are the rotator's round-robin sequence |
| Retry.RetriesRotateProxies | main.py:277-283 | with rotation over `[p1, p2]`, a fresh scraper's three attempts go through `p1`, `p2`, `p1` and leave the cursor at 1 |
| Retry.CursorStep | main.py:175 | one more call moves the cursor one place, with wrap-around |
| Retry.SiteOutcomesProxies | main.py:277-291 | with a non-empty pool, attempt `k` goes through proxy `k` of the rotation from the cursor; without a rotator or with an empty pool, through no proxy; with no user agent, every attempt raises |
| Retry.RunSite | main.py:275-308 | a site run makes between one and three attempts |
| Retry.AggregateAppend | main.py:266-271 | the merge of concatenated task results is the concatenation of the merges |
| Retry.FailedTaskSkipped | main.py:267-269 | a task that raised is skipped and the others keep their order |
| Retry.AggregateMembers | main.py:266-273 | an article is in the merged list exactly when some task returned it |
| Retry.RunSites | main.py:263-264 | one result per configured site, each a returned list (a retry loop never raises) |
| Retry.RunSitesStep | main.py:263-264 | one more site extends the results by that site's run, begun at the cursor the earlier sites left |
| SamplePage.SampleSiteIsGeneric | test_scraper.py:104 | the test site is not in the table and gets the generic rules |
| SamplePage.FintechMatches | test_scraper.py:50-51 | the fintech block matches `fintech` and not `crypto` |
| SamplePage.SportsMatches | test_scraper.py:54-55 | the sports block matches no keyword |
| SamplePage.FintechContainer | test_scraper.py:49-52 | the fintech block yields the expected article |
| SamplePage.SportsContainer | test_scraper.py:53-56 | the sports block is dropped for want of a keyword |
| SamplePage.SampleContainers | test_scraper.py:44-59 | the two blocks yield the fintech article alone |
| SamplePage.SampleExtraction | test_scraper.py:107-111 | extracting the sample page from the test host gives exactly one article, titled `Fintech Revolution in Banking`, with matches `["fintech"]` |
| SamplePage.FirstArticleSelector | test_scraper.py:44-59 | the `article` selector alone yields the fintech article |
| SamplePage.SampleExtractionAtSiteUrl | test_scraper.py:104-111 | the same for the test's URL |
| SampleRuns.SampleOutcome | test_scraper.py:104 | every attempt on the mocked 200 response returns the fintech article |
| SampleRuns.SampleSiteRun | test_scraper.py:97-111 | the retry loop on the test site returns that one article after one attempt, whatever the proxies |
| SampleRuns.SampleAllSites | test_scraper.py:113-125 | the whole run over the test configuration returns that one article |
| SampleRuns.ScrapeSampleSites | test_scraper.py:113-125 | a scraper built like the test's, without rotation, returns exactly the fintech article |
| SampleRuns.ServerErrorEveryTime | main.py:293-308 | HTTP 500 on every attempt: three attempts, no fallback, no articles |
| SampleRuns.FallbackRescues | main.py:301-304 | client errors on all three attempts: the fallback's article is returned |
| SampleRuns.NoUserAgents | main.py:285 | an empty user-agent pool makes every attempt and the fallback raise: no articles after three attempts |
| LlmReply.ParseInt | main.py:501 | `int()` accepts an optional sign followed by ASCII decimal digits, single underscores allowed between digits, and at most 4300 digits (sign and underscores not counted); anything else raises |
| LlmReply.ParseIntOfNatToString | main.py:501 | `int(str(n)) == n` and `int("-" + str(n)) == -n` for `n` of at most 4300 digits |
| LlmReply.OverlongRatingStops | main.py:499-501 | a `RATING:` value of more than 4300 digits makes `int()` raise, so the parse stops at that line |
| LlmReply.ParseIntRejects | main.py:501 | a text holding a character other than a digit, an underscore or a sign is refused |
| PyStr.JoinSplit | main.py:498 | `split` loses nothing: joining the pieces with the separator gives the text back |
| LlmReply.ParseLlmResponse | main.py:490-510 | the loop equals the line-by-line specification, stopping at the first rating that is no integer; no reply gives the defaults |
| LlmReply.ParseLinesAppend | main.py:497-507 | lines are processed in order and a parse cut short ignores the rest |
| LlmReply.UntaggedLinesKeep | main.py:498-506 | lines with neither tag change nothing |
| LlmReply.UntaggedReplyGivesDefaults | main.py:492-495 | a reply with no tagged line, or no reply, gives importance 5 and `NEUTRAL` |
| LlmReply.TagRemoved | main.py:500 | on a line that starts with the tag, where the rest holds no copy of the tag's last character, `replace` leaves exactly the rest |
| LlmReply.RatingLineSets | main.py:499-501 | `RATING: n` sets the importance to `n` and keeps the sentiment, for `n` of at most 4300 digits |
| LlmReply.SentimentLine | main.py:503-506 | for a non-empty word `w` without `:` and without whitespace at either end, `SENTIMENT: w` sets `BULLISH` or `BEARISH` when `w` upper-cases to one of them and otherwise changes nothing |
| LlmReply.LaterRatingOverrides | main.py:499-501 | a later rating line of at most 4300 digits overrides whatever earlier lines set, unless the parse had stopped |
| LlmReply.BadRatingStops | main.py:497-508 | a rating that is no integer ends the parse, keeping what earlier lines set and ignoring later ones |
| LlmReply.LowercaseBullish | main.py:504-506 | `SENTIMENT: bullish`, in lower case, sets `BULLISH` |
| LlmReply.MixedCaseBearish | main.py:504-506 | `Bearish` sets `BEARISH` |
| LlmReply.NeutralIgnored | main.py:505-506 | `NEUTRAL` leaves the sentiment as it was |
| LlmReply.SampleReply | test_scraper.py:142-146 | the reply `RATING: 8` / `SENTIMENT: BULLISH` gives importance 8 and `BULLISH` |
| ConfigCheck.FirstMissing | main.py:88-91 | no section is reported exactly when all are present; otherwise the first absent one in order |
| ConfigCheck.AcceptedIff | main.py:84-118 | validation passes exactly when all sections are present, email and llm are objects, the provider is supported and websites and keywords are non-empty |
| ConfigCheck.MissingSectionReported | main.py:88-91 | the first missing section in the order websites, keywords, email, llm is the error, with no warning logged |
| ConfigCheck.WebsitesMissing | test_scraper.py:83-95 | the test configuration without `websites` is refused for that section |
| ConfigCheck.WarningsDoNotRefuse | main.py:97-111 | incomplete email fields and a missing LLM key only warn, and each warning is logged exactly when its condition holds |
| ConfigCheck.DefaultProviderSupported | main.py:104-107 | an LLM section without a provider defaults to `anthropic`, which is accepted |

## Left out

- The HTML parser and the CSS selector engine are foreign code. A page is an abstract `select` function, so markup parsing and `get_text(strip=True)` are its business.
- Only the netloc part of `urlparse` is modelled. Its removal of control characters and its IPv6 bracket checks are left out.
- `lower` and `upper` are modelled on ASCII letters only. Unicode case mapping is left out, including characters whose upper case is an ASCII letter, such as 'ſ' and 'ı'.
- `LlmReply.ParseInt` accepts ASCII digits only. Python's `int()` also accepts other Unicode decimal digits and surrounding whitespace; the caller strips the whitespace first. Its digit cap is CPython's default of 4300 digits (Python 3.11 and later); a cap changed through `PYTHONINTMAXSTRDIGITS` or `sys.set_int_max_str_digits`, and older interpreters without a cap, are not modelled.
- The random delay (`asyncio.sleep`) and the random choice of user agent are left out. They do not change what an attempt returns; only an empty user-agent pool does, and that is modelled.
- Scraper.WebScraper.ScrapeAllSites: runs the sites one after another in configured order. The real tasks run concurrently and interleave their `get_proxy` calls on the shared rotator. So the proxy each attempt gets is proved only for that sequential order.
- The HTTP clients, sessions and timeouts are parameters: what each request receives is given by the `Network` value.
- `Retry.Network`: a primary response depends only on the URL, the attempt number and the proxy. A network whose answers change in other ways is not modelled.
- `Config._load_config` (file reading, placeholder substitution, JSON decoding) is not part of this model. Neither are the other `Config` properties and the `request_delay` range.
- The `proxy_config` property raises `KeyError` when the configuration has no `proxy` section. The model's constructor takes the proxy settings as arguments instead.
- JSON numbers are reals, and NaN is not modelled.
- The defaults that `rules.get(...)` would supply are never used, because every rule set has all three lists. They are not modelled.
- The two warnings `_validate_config` logs are modelled as the list of warnings `ConfigCheck.ValidateConfig` returns. All other logging is left out.
- Not part of this model:
  - `NewsAnalyzer._query_llm` and the language-model clients;
  - `analyze_article` around the reply parser;
  - `ReportGenerator`, `EmailSender` and `FintechNewsScraper`.
  None of them belong to the scraping core.
