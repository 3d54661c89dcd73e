/**
 * The `WebScraper` class: the loops of `_extract_articles`, the per-attempt
 * fetches, the retry loop and the aggregation over the configured sites,
 * each proved against the functions of `Extraction` and `Retry`.
 */
module Scraper {
  import opened Wrappers
  import opened PyStr
  import opened SiteRules
  import opened Extraction
  import opened Proxies
  import opened Retry

  class WebScraper {
    // The parts of `Config` the scraper reads.
    const websites: seq<string>
    const keywords: seq<string>
    const userAgents: seq<string>
    const maxRetries: nat
    /** Present exactly when proxy rotation is enabled. */
    const proxyManager: ProxyManager?

    ghost predicate Valid()
      reads this, proxyManager
    {
      maxRetries == MaxRetries && (proxyManager != null ==> proxyManager.Valid())
    }

    /** The rotator's pool, or `None` when rotation is off. */
    ghost function Pool(): Option<seq<string>>
      reads this
    {
      if proxyManager == null then None else Some(proxyManager.proxies)
    }

    /** The rotator's cursor (0 when rotation is off). */
    ghost function Cursor(): nat
      reads this, proxyManager
    {
      if proxyManager == null then 0 else proxyManager.currentProxyIndex
    }

    /**
     * `WebScraper(config)`: three retries, and a rotator over the configured
     * proxies only when `rotate_proxy` is set.
     */
    constructor (websites: seq<string>, keywords: seq<string>, userAgents: seq<string>,
                 rotateProxy: bool, proxies: seq<string>)
      ensures Valid()
      ensures this.websites == websites && this.keywords == keywords && this.userAgents == userAgents
      ensures rotateProxy <==> proxyManager != null
      ensures rotateProxy ==> fresh(proxyManager) && Pool() == Some(proxies) && Cursor() == 0
    {
      this.websites := websites;
      this.keywords := keywords;
      this.userAgents := userAgents;
      maxRetries := 3;
      if rotateProxy {
        proxyManager := new ProxyManager(proxies);
      } else {
        proxyManager := null;
      }
    }

    /** The title and summary loops: `select_one` with each selector until one finds an element. */
    method FindFirst(page: Page, node: Node, selectors: seq<string>) returns (r: Lookup)
      ensures r == FirstFound(page, node, selectors)
    {
      var i := 0;
      r := Found(None);
      while i < |selectors|
        invariant 0 <= i <= |selectors|
        invariant r == Found(None)
        invariant forall k :: 0 <= k < i ==> page.select(node, selectors[k]) == Selected([])
      {
        r := SelectOne(page, node, selectors[i]);
        if r != Found(None) {
          FirstFoundSkipsEmpty(page, node, selectors, i);
          assert selectors[i..][0] == selectors[i];
          return;
        }
        i := i + 1;
      }
      FirstFoundSkipsEmpty(page, node, selectors, i);
    }

    /** The body of the `try` block for one container. */
    method ProcessContainer(page: Page, container: Node, rules: RuleSet, baseUrl: string)
      returns (c: Candidate)
      ensures c == ContainerResult(page, container, rules, keywords, baseUrl)
    {
      var title := FindFirst(page, container, rules.titleSelectors);
      if title.LookupError? {
        return Failed;
      }
      if title.element.None? {
        return NoTitle;
      }
      var titleElem := title.element.value;
      var summaryElem := FindFirst(page, container, rules.summarySelectors);
      if summaryElem.LookupError? {
        return Failed;
      }
      var summary := if summaryElem.element.Some? then summaryElem.element.value.text else "";
      var excerptElems := page.select(container, "p");
      if excerptElems.SelectError? {
        return Failed;
      }
      var paragraphs := excerptElems.nodes;
      var firstThree := if |paragraphs| <= 3 then paragraphs else paragraphs[..3];
      var excerpt := Join(Texts(firstThree), " ");
      if |excerpt| > 300 {
        excerpt := excerpt[..300] + "...";
      }
      var matches := KeywordMatches(keywords, titleElem.text, summary);
      if matches == [] {
        return NoKeywordMatch;
      }
      return Emitted(Article(titleElem.text, summary, excerpt, titleElem.href.GetOr(baseUrl), baseUrl, matches));
    }

    /** The inner loop of `_extract_articles`: the containers one selector found, in document order. */
    method ProcessContainers(page: Page, containers: seq<Node>, rules: RuleSet, baseUrl: string)
      returns (found: seq<Article>)
      ensures found == ArticlesOf(page, containers, rules, keywords, baseUrl)
    {
      found := [];
      var j := 0;
      while j < |containers|
        invariant 0 <= j <= |containers|
        invariant found == ArticlesOf(page, containers[..j], rules, keywords, baseUrl)
      {
        var candidate := ProcessContainer(page, containers[j], rules, baseUrl);
        if candidate.Emitted? {
          found := found + [candidate.article];
        }
        assert containers[..j + 1][..j] == containers[..j];
        j := j + 1;
      }
      assert containers[..j] == containers;
    }

    /**
     * `_extract_articles(soup, base_url)`: for each article selector, for each
     * container it selects, process the container and keep what it emits. An
     * error of the outer `select` is not caught.
     */
    method ExtractArticles(page: Page, baseUrl: string) returns (r: Extracted)
      ensures r == Extract(page, baseUrl, keywords)
    {
      var rules := RulesFor(baseUrl);
      r := ExtractWith(page, rules.articleSelectors, rules, baseUrl);
    }

    /** The outer loop of `_extract_articles`, over the article selectors. */
    method ExtractWith(page: Page, selectors: seq<string>, rules: RuleSet, baseUrl: string)
      returns (r: Extracted)
      ensures r == ArticlesFor(page, selectors, rules, keywords, baseUrl)
    {
      var articles: seq<Article> := [];
      var i := 0;
      while i < |selectors|
        invariant 0 <= i <= |selectors|
        invariant ArticlesFor(page, selectors[..i], rules, keywords, baseUrl) == Articles(articles)
      {
        var selection := page.select(page.root, selectors[i]);
        if selection.SelectError? {
          ArticlesForError(page, selectors, rules, keywords, baseUrl);
          return ExtractError;
        }
        var found := ProcessContainers(page, selection.nodes, rules, baseUrl);
        articles := articles + found;
        assert selectors[..i + 1][..i] == selectors[..i];
        i := i + 1;
      }
      assert selectors[..i] == selectors;
      return Articles(articles);
    }

    /** `_scrape_with_proxy`: one aiohttp request through `proxy`. */
    method ScrapeWithProxy(net: Network, url: string, attempt: nat, proxy: Option<string>)
      returns (o: Outcome)
      ensures o == PrimaryOutcome(net.primary(url, attempt, proxy), url, keywords)
    {
      var response := net.primary(url, attempt, proxy);
      if response.ClientFailure? {
        return Raised;
      }
      if response.status != 200 {
        return Returned([]);
      }
      var extracted := ExtractArticles(response.page, url);
      o := OutcomeOf(extracted);
    }

    /** `_fallback_requests_scrape`: one `requests` call, no proxy. */
    method FallbackRequestsScrape(net: Network, url: string) returns (o: Outcome)
      ensures o == FallbackOutcome(net.fallback(url), url, keywords, userAgents)
    {
      if userAgents == [] {
        return Raised;
      }
      var response := net.fallback(url);
      if response.ClientFailure? || IsErrorStatus(response.status) {
        return Raised;
      }
      var extracted := ExtractArticles(response.page, url);
      o := OutcomeOf(extracted);
    }

    /** `self.proxy_manager.get_proxy() if self.proxy_manager else None`, for attempt `attempt` of a loop that began at `start`. */
    method NextProxy(ghost start: nat, ghost attempt: nat) returns (proxy: Option<string>)
      requires Valid() && Cursor() == CursorAfter(Pool(), start, attempt)
      modifies proxyManager
      ensures Valid()
      ensures proxy == ProxyFor(Pool(), start, attempt)
      ensures Cursor() == CursorAfter(Pool(), start, attempt + 1)
    {
      proxy := None;
      if proxyManager != null {
        if proxyManager.proxies != [] {
          CursorStep(Pool(), start, attempt);
        }
        proxy := proxyManager.GetProxy();
      }
    }

    /**
     * `scrape_site_with_retry`: up to three attempts, each taking the next
     * proxy first; the first non-empty list is returned; when the last
     * attempt raises, the fallback's result (or `[]` if it raises too);
     * otherwise `[]`. It returns the number of attempts made as well.
     */
    method ScrapeSiteWithRetry(net: Network, url: string) returns (articles: seq<Article>, attempts: nat)
      requires Valid()
      modifies proxyManager
      ensures Valid()
      ensures var run := RunSite(net, url, keywords, userAgents, old(Pool()), old(Cursor()));
              articles == run.articles && attempts == run.attempts && Cursor() == run.cursor
    {
      ghost var pool := Pool();
      ghost var start := Cursor();
      ghost var outcomes := SiteOutcomes(net, url, keywords, userAgents, pool, start);
      ghost var fallback := FallbackOutcome(net.fallback(url), url, keywords, userAgents);
      var attempt: nat := 0;
      while attempt < maxRetries
        invariant attempt <= MaxRetries
        invariant Valid() && Pool() == pool
        invariant Cursor() == CursorAfter(pool, start, attempt)
        invariant forall k :: 0 <= k < attempt ==> !Succeeded(outcomes[k])
        invariant attempt == MaxRetries ==> fallback.Raised? || outcomes[MaxRetries - 1].Returned?
      {
        var proxy := NextProxy(start, attempt);
        var outcome: Outcome;
        if userAgents == [] {
          outcome := Raised;
        } else {
          outcome := ScrapeWithProxy(net, url, attempt, proxy);
        }
        assert outcome == outcomes[attempt];
        if Succeeded(outcome) {
          RetryReturnsFirstSuccess(outcomes, fallback, attempt);
          return outcome.articles, attempt + 1;
        }
        if outcome.Raised? && attempt == maxRetries - 1 {
          var fallbackOutcome := FallbackRequestsScrape(net, url);
          if fallbackOutcome.Returned? {
            FallbackResultReturned(outcomes, fallback);
            return fallbackOutcome.articles, attempt + 1;
          }
        }
        attempt := attempt + 1;
      }
      assert FirstSuccess(outcomes).None?;
      return [], attempt;
    }

    /**
     * `scrape_all_sites`: one retry loop per configured site, in order, then
     * the returned lists concatenated, skipping the tasks that raised.
     */
    method ScrapeAllSites(net: Network) returns (allArticles: seq<Article>)
      requires Valid()
      modifies proxyManager
      ensures Valid()
      ensures var runs := RunSites(net, websites, keywords, userAgents, old(Pool()), old(Cursor()));
              allArticles == Aggregate(runs.results) && Cursor() == runs.cursor
    {
      ghost var pool := Pool();
      ghost var start := Cursor();
      var results: seq<TaskResult> := [];
      var i := 0;
      while i < |websites|
        invariant 0 <= i <= |websites|
        invariant Valid() && Pool() == pool
        invariant RunSites(net, websites[..i], keywords, userAgents, pool, start) == Runs(results, Cursor())
      {
        RunSitesStep(net, websites, i, keywords, userAgents, pool, start);
        var siteArticles, _ := ScrapeSiteWithRetry(net, websites[i]);
        results := results + [Done(siteArticles)];
        i := i + 1;
      }
      assert websites[..i] == websites;
      allArticles := Gather(results);
    }

    /** The loop over `zip(websites, results)`: failed tasks are logged and skipped, lists are appended. */
    method Gather(results: seq<TaskResult>) returns (allArticles: seq<Article>)
      ensures allArticles == Aggregate(results)
    {
      allArticles := [];
      var j := 0;
      while j < |results|
        invariant 0 <= j <= |results|
        invariant allArticles == Aggregate(results[..j])
      {
        assert results[..j + 1][..j] == results[..j];
        match results[j] {
          case TaskFailed =>
          case Done(a) =>
            if a != [] {
              allArticles := allArticles + a;
            }
        }
        j := j + 1;
      }
      assert results[..j] == results;
    }
  }
}
