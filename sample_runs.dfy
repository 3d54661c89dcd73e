/**
 * The scraper's test scenarios (test_scraper.py) on the sample page: a site
 * that answers 200 with the sample markup yields the one fintech article,
 * and a few failure patterns of the retry loop.
 */
module SampleRuns {
  import opened Wrappers
  import opened Urls
  import opened Extraction
  import opened Retry
  import opened Scraper
  import opened SamplePage

  const TestUserAgents := ["Test User Agent"]

  /** Every request, first or fallback, gets 200 and the sample page. */
  const SampleNetwork := Network((u: string, a: nat, p: Option<string>) => Http(200, Sample), (u: string) => Http(200, Sample))

  /** Every primary request gets 500; the fallback would get 200 and the sample page. */
  const ServerErrorNetwork := Network((u: string, a: nat, p: Option<string>) => Http(500, Sample), (u: string) => Http(200, Sample))

  /** Every primary request fails in the client; the fallback gets 200 and the sample page. */
  const UnreachableNetwork := Network((u: string, a: nat, p: Option<string>) => ClientFailure, (u: string) => Http(200, Sample))

  lemma SampleOutcome(attempt: nat, proxy: Option<string>)
    ensures AttemptOutcome(SampleNetwork, SiteUrl, Keywords, TestUserAgents, attempt, proxy) ==
            Returned([FintechArticle(SiteUrl)])
  {
    SampleExtractionAtSiteUrl();
  }

  /** The first attempt on the sample site returns the fintech article alone. */
  lemma SampleSiteRun(pool: Option<seq<string>>, start: nat)
    ensures RunSite(SampleNetwork, SiteUrl, Keywords, TestUserAgents, pool, start).articles ==
            [FintechArticle(SiteUrl)]
    ensures RunSite(SampleNetwork, SiteUrl, Keywords, TestUserAgents, pool, start).attempts == 1
  {
    var outcomes := SiteOutcomes(SampleNetwork, SiteUrl, Keywords, TestUserAgents, pool, start);
    SampleOutcome(0, ProxyFor(pool, start, 0));
    RetryReturnsFirstSuccess(outcomes, FallbackOutcome(Http(200, Sample), SiteUrl, Keywords, TestUserAgents), 0);
  }

  /** With the sample site as the only configured website, the aggregate is that one article. */
  lemma SampleAllSites(pool: Option<seq<string>>, start: nat)
    ensures Aggregate(RunSites(SampleNetwork, [SiteUrl], Keywords, TestUserAgents, pool, start).results) ==
            [FintechArticle(SiteUrl)]
  {
    SampleSiteRun(pool, start);
    OneSite(SampleNetwork, SiteUrl, pool, start);
    AggregateOne(RunSite(SampleNetwork, SiteUrl, Keywords, TestUserAgents, pool, start).articles);
  }

  /** A configuration of one site runs that site alone, from the cursor given. */
  lemma OneSite(net: Network, url: string, pool: Option<seq<string>>, start: nat)
    ensures RunSites(net, [url], Keywords, TestUserAgents, pool, start).results ==
            [Done(RunSite(net, url, Keywords, TestUserAgents, pool, start).articles)]
  {
    assert [url][..0] == [];
  }

  lemma AggregateOne(a: seq<Article>)
    ensures Aggregate([Done(a)]) == a
  {
    assert [Done(a)][..0] == [];
  }

  /** `scrape_all_sites` of a scraper configured like the tests, without proxy rotation. */
  method ScrapeSampleSites() returns (articles: seq<Article>)
    ensures articles == [FintechArticle(SiteUrl)]
  {
    var scraper := new WebScraper([SiteUrl], Keywords, TestUserAgents, false, []);
    articles := scraper.ScrapeAllSites(SampleNetwork);
    SampleAllSites(None, 0);
  }

  /** HTTP 500 on every attempt: three attempts, no fallback (nothing raised), no articles. */
  lemma ServerErrorEveryTime(pool: Option<seq<string>>, start: nat)
    ensures RunSite(ServerErrorNetwork, SiteUrl, Keywords, TestUserAgents, pool, start).articles == []
    ensures RunSite(ServerErrorNetwork, SiteUrl, Keywords, TestUserAgents, pool, start).attempts == 3
  {
    var outcomes := SiteOutcomes(ServerErrorNetwork, SiteUrl, Keywords, TestUserAgents, pool, start);
    AllEmptyGivesNothing(outcomes, FallbackOutcome(Http(200, Sample), SiteUrl, Keywords, TestUserAgents));
  }

  /** Client errors on every attempt: after the third, the fallback's articles are returned. */
  lemma FallbackRescues(pool: Option<seq<string>>, start: nat)
    ensures RunSite(UnreachableNetwork, SiteUrl, Keywords, TestUserAgents, pool, start).articles ==
            [FintechArticle(SiteUrl)]
    ensures RunSite(UnreachableNetwork, SiteUrl, Keywords, TestUserAgents, pool, start).attempts == 3
  {
    var outcomes := SiteOutcomes(UnreachableNetwork, SiteUrl, Keywords, TestUserAgents, pool, start);
    assert forall k :: 0 <= k < |outcomes| ==> outcomes[k] == Raised;
    assert FirstSuccess(outcomes).None?;
    SampleExtractionAtSiteUrl();
    FallbackResultReturned(outcomes, FallbackOutcome(Http(200, Sample), SiteUrl, Keywords, TestUserAgents));
  }

  /** An empty user-agent pool makes every attempt and the fallback raise: no articles. */
  lemma NoUserAgents(pool: Option<seq<string>>, start: nat)
    ensures RunSite(SampleNetwork, SiteUrl, Keywords, [], pool, start).articles == []
    ensures RunSite(SampleNetwork, SiteUrl, Keywords, [], pool, start).attempts == 3
  {
    var outcomes := SiteOutcomes(SampleNetwork, SiteUrl, Keywords, [], pool, start);
    assert forall k :: 0 <= k < |outcomes| ==> outcomes[k] == Raised;
    assert FirstSuccess(outcomes).None?;
    FallbackResultReturned(outcomes, FallbackOutcome(Http(200, Sample), SiteUrl, Keywords, []));
  }
}
