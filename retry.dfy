/**
 * What `WebScraper.scrape_site_with_retry` and `scrape_all_sites` return, as
 * functions of what the network yields.
 *
 * The network is a parameter: `primary(url, attempt, proxy)` is the response
 * the aiohttp request of attempt `attempt` through `proxy` receives, and
 * `fallback(url)` the one the `requests` call receives. The random delay and
 * the random user agent do not change the outcome; only an empty user-agent
 * pool does, because `random.choice` raises on it.
 */
module Retry {
  import opened Wrappers
  import opened Extraction
  import Proxies

  /** One HTTP exchange: a status with the parsed body, or an exception from the client (connection error, timeout). */
  datatype Response = Http(status: int, page: Page) | ClientFailure

  datatype Network = Network(primary: (string, nat, Option<string>) -> Response, fallback: string -> Response)

  /** A call that returned a list of articles, or one that raised. */
  datatype Outcome = Returned(articles: seq<Article>) | Raised

  /** `self.max_retries`. */
  const MaxRetries: nat := 3

  function OutcomeOf(e: Extracted): Outcome
  {
    match e
    case Articles(a) => Returned(a)
    case ExtractError => Raised
  }

  /**
   * `_scrape_with_proxy`: a status other than 200 gives `[]`; 200 gives what
   * extraction gives; a client error, or an error extraction lets escape,
   * propagates.
   */
  function PrimaryOutcome(response: Response, url: string, keywords: seq<string>): (r: Outcome)
    ensures response.ClientFailure? ==> r == Raised
    ensures response.Http? && response.status != 200 ==> r == Returned([])
    ensures r.Returned? && r.articles != [] ==>
              response.Http? && response.status == 200
              && Extract(response.page, url, keywords) == Articles(r.articles)
  {
    match response
    case ClientFailure => Raised
    case Http(status, page) =>
      if status != 200 then Returned([]) else OutcomeOf(Extract(page, url, keywords))
  }

  /** `raise_for_status()`: raises for the client and server error classes only. */
  predicate IsErrorStatus(status: int)
  {
    400 <= status < 600
  }

  /**
   * `_fallback_requests_scrape`: picking a user agent from an empty pool
   * raises, so does a client error or a 4xx/5xx status; any other status
   * gives what extraction gives.
   */
  function FallbackOutcome(response: Response, url: string, keywords: seq<string>,
                           userAgents: seq<string>): (r: Outcome)
    ensures userAgents == [] || response.ClientFailure? ==> r == Raised
    ensures response.Http? && IsErrorStatus(response.status) ==> r == Raised
    ensures r.Returned? ==>
              userAgents != [] && response.Http? && !IsErrorStatus(response.status)
              && Extract(response.page, url, keywords) == Articles(r.articles)
  {
    if userAgents == [] then Raised
    else match response
      case ClientFailure => Raised
      case Http(status, page) =>
        if IsErrorStatus(status) then Raised else OutcomeOf(Extract(page, url, keywords))
  }

  /**
   * One pass of the retry loop's `try` block: the user agent is picked
   * (raising on an empty pool), then the primary request goes out through
   * `proxy`.
   */
  function AttemptOutcome(net: Network, url: string, keywords: seq<string>, userAgents: seq<string>,
                          attempt: nat, proxy: Option<string>): (r: Outcome)
    ensures userAgents == [] ==> r == Raised
    ensures userAgents != [] ==> r == PrimaryOutcome(net.primary(url, attempt, proxy), url, keywords)
  {
    if userAgents == [] then Raised else PrimaryOutcome(net.primary(url, attempt, proxy), url, keywords)
  }

  /** `if articles: return articles`: only a non-empty list ends the loop. */
  predicate Succeeded(o: Outcome)
  {
    o.Returned? && o.articles != []
  }

  /** The first attempt that returned a non-empty list, if any. */
  function FirstSuccess(outcomes: seq<Outcome>): (r: Option<nat>)
    ensures r.Some? ==> r.value < |outcomes| && Succeeded(outcomes[r.value])
                        && forall k :: 0 <= k < r.value ==> !Succeeded(outcomes[k])
    ensures r.None? <==> forall k :: 0 <= k < |outcomes| ==> !Succeeded(outcomes[k])
    decreases |outcomes|
  {
    if outcomes == [] then None
    else if Succeeded(outcomes[0]) then Some(0)
    else
      var rest := FirstSuccess(outcomes[1..]);
      assert forall k :: 1 <= k < |outcomes| ==> outcomes[k] == outcomes[1..][k - 1];
      match rest
      case None => None
      case Some(i) => Some(i + 1)
  }

  /** The fallback runs when no attempt succeeded and the last attempt raised. */
  predicate FallbackUsed(outcomes: seq<Outcome>)
  {
    FirstSuccess(outcomes).None? && |outcomes| > 0 && outcomes[|outcomes| - 1].Raised?
  }

  /**
   * What the retry loop returns: the first non-empty list; failing that,
   * the fallback's list as it is when the fallback ran and returned;
   * otherwise `[]`. It never raises.
   */
  function RetryResult(outcomes: seq<Outcome>, fallback: Outcome): seq<Article>
  {
    match FirstSuccess(outcomes)
    case Some(k) => outcomes[k].articles
    case None => if FallbackUsed(outcomes) && fallback.Returned? then fallback.articles else []
  }

  /** How many attempts the loop makes. */
  function AttemptsMade(outcomes: seq<Outcome>): (n: nat)
    ensures n <= |outcomes|
    ensures outcomes != [] ==> n >= 1
  {
    match FirstSuccess(outcomes)
    case Some(k) => k + 1
    case None => |outcomes|
  }

  /** The first attempt that succeeds decides the result, and no attempt after it is made. */
  lemma RetryReturnsFirstSuccess(outcomes: seq<Outcome>, fallback: Outcome, k: nat)
    requires k < |outcomes| && Succeeded(outcomes[k])
    requires forall j :: 0 <= j < k ==> !Succeeded(outcomes[j])
    ensures RetryResult(outcomes, fallback) == outcomes[k].articles
    ensures AttemptsMade(outcomes) == k + 1
    ensures !FallbackUsed(outcomes)
  {
  }

  /** The fallback's result matters only when no attempt succeeded and the last one raised. */
  lemma FallbackOnlyAfterLastRaise(outcomes: seq<Outcome>, fallback: Outcome, other: Outcome)
    requires !FallbackUsed(outcomes)
    ensures RetryResult(outcomes, fallback) == RetryResult(outcomes, other)
  {
  }

  /** When the fallback runs, what it returns is returned unchanged, even `[]`; when it raises, `[]`. */
  lemma FallbackResultReturned(outcomes: seq<Outcome>, fallback: Outcome)
    requires FallbackUsed(outcomes)
    ensures fallback.Returned? ==> RetryResult(outcomes, fallback) == fallback.articles
    ensures fallback.Raised? ==> RetryResult(outcomes, fallback) == []
    ensures AttemptsMade(outcomes) == |outcomes|
  {
  }

  /**
   * Attempts that all return `[]` (an HTTP 500 on every try, say) use every
   * attempt, never reach the fallback, and give `[]`.
   */
  lemma AllEmptyGivesNothing(outcomes: seq<Outcome>, fallback: Outcome)
    requires forall k :: 0 <= k < |outcomes| ==> outcomes[k] == Returned([])
    ensures RetryResult(outcomes, fallback) == []
    ensures AttemptsMade(outcomes) == |outcomes|
    ensures !FallbackUsed(outcomes)
  {
    assert FirstSuccess(outcomes).None?;
  }

  /** The loop invents nothing: its result is `[]`, one attempt's list, or the fallback's. */
  lemma RetryResultOrigin(outcomes: seq<Outcome>, fallback: Outcome)
    ensures var r := RetryResult(outcomes, fallback);
            || r == []
            || (exists k :: 0 <= k < |outcomes| && outcomes[k] == Returned(r))
            || fallback == Returned(r)
  {
    var r := RetryResult(outcomes, fallback);
    match FirstSuccess(outcomes)
    case Some(k) =>
      assert outcomes[k] == Returned(r);
    case None =>
  }

  /** The proxy attempt `k` is given: none without a rotator or with an empty pool, else round-robin from `start`. */
  function ProxyFor(pool: Option<seq<string>>, start: nat, k: nat): Option<string>
  {
    if pool.None? || pool.value == [] then None else Some(pool.value[(start + k) % |pool.value|])
  }

  /** The rotator's cursor after `n` calls that began at `start`. */
  function CursorAfter(pool: Option<seq<string>>, start: nat, n: nat): nat
  {
    if pool.None? || pool.value == [] then start else (start + n) % |pool.value|
  }

  /** The proxies the attempts are given are the rotator's round-robin sequence. */
  lemma ProxyForIsRotation(pool: seq<string>, start: nat, n: nat, k: nat)
    requires start < |pool| && k < n
    ensures |Proxies.Rotation(pool, start, n)| == n
    ensures ProxyFor(Some(pool), start, k) == Some(Proxies.Rotation(pool, start, n)[k])
  {
    Proxies.RotationAt(pool, start, n, k);
  }

  /** Over the pool `[p1, p2]`, the three attempts of a fresh scraper go through `p1`, `p2`, `p1`. */
  lemma RetriesRotateProxies(p1: string, p2: string)
    ensures ProxyFor(Some([p1, p2]), 0, 0) == Some(p1)
    ensures ProxyFor(Some([p1, p2]), 0, 1) == Some(p2)
    ensures ProxyFor(Some([p1, p2]), 0, 2) == Some(p1)
    ensures CursorAfter(Some([p1, p2]), 0, 3) == 1
  {
  }

  /** One more call moves the cursor one place on, with wrap-around. */
  lemma CursorStep(pool: Option<seq<string>>, start: nat, n: nat)
    requires pool.Some? && pool.value != []
    ensures (CursorAfter(pool, start, n) + 1) % |pool.value| == CursorAfter(pool, start, n + 1)
  {
    var len := |pool.value|;
    var x := start + n;
    var q, r := x / len, x % len;
    if r + 1 < len {
      Proxies.ModUnique(x + 1, len, q, r + 1);
    } else {
      Proxies.ModUnique(x + 1, len, q + 1, 0);
      Proxies.ModUnique(r + 1, len, 1, 0);
    }
  }

  /** The outcome attempt `k` would have, were it made. */
  function SiteOutcomes(net: Network, url: string, keywords: seq<string>, userAgents: seq<string>,
                        pool: Option<seq<string>>, start: nat): (r: seq<Outcome>)
    ensures |r| == MaxRetries
    ensures forall k :: 0 <= k < MaxRetries ==>
              r[k] == AttemptOutcome(net, url, keywords, userAgents, k, ProxyFor(pool, start, k))
  {
    seq(MaxRetries, k requires 0 <= k => AttemptOutcome(net, url, keywords, userAgents, k, ProxyFor(pool, start, k)))
  }

  /**
   * Attempt `k` goes through the `k`-th proxy the rotator hands out from its
   * cursor, or through no proxy when there is no rotator or its pool is
   * empty; every attempt raises when there is no user agent to pick.
   */
  lemma SiteOutcomesProxies(net: Network, url: string, keywords: seq<string>, userAgents: seq<string>,
                            pool: Option<seq<string>>, start: nat)
    ensures var r := SiteOutcomes(net, url, keywords, userAgents, pool, start);
            pool.Some? && pool.value != [] && start < |pool.value| ==>
              |Proxies.Rotation(pool.value, start, MaxRetries)| == MaxRetries
              && forall k :: 0 <= k < MaxRetries ==>
                   r[k] == AttemptOutcome(net, url, keywords, userAgents, k,
                                          Some(Proxies.Rotation(pool.value, start, MaxRetries)[k]))
    ensures var r := SiteOutcomes(net, url, keywords, userAgents, pool, start);
            pool.None? || pool.value == [] ==>
              forall k :: 0 <= k < MaxRetries ==> r[k] == AttemptOutcome(net, url, keywords, userAgents, k, None)
    ensures var r := SiteOutcomes(net, url, keywords, userAgents, pool, start);
            userAgents == [] ==> forall k :: 0 <= k < MaxRetries ==> r[k] == Raised
  {
    if pool.Some? && pool.value != [] && start < |pool.value| {
      Proxies.RotationCovers(pool.value, start, MaxRetries);
    }
  }

  /** What one site's retry loop returns, how many attempts it makes, and where it leaves the rotator. */
  datatype SiteRun = SiteRun(articles: seq<Article>, attempts: nat, cursor: nat)

  function RunSite(net: Network, url: string, keywords: seq<string>, userAgents: seq<string>,
                   pool: Option<seq<string>>, start: nat): (r: SiteRun)
    ensures 1 <= r.attempts <= MaxRetries
  {
    var outcomes := SiteOutcomes(net, url, keywords, userAgents, pool, start);
    var fallback := FallbackOutcome(net.fallback(url), url, keywords, userAgents);
    var n := AttemptsMade(outcomes);
    SiteRun(RetryResult(outcomes, fallback), n, CursorAfter(pool, start, n))
  }

  /** A result of `asyncio.gather(..., return_exceptions=True)`: a list, or the exception a task raised. */
  datatype TaskResult = Done(articles: seq<Article>) | TaskFailed

  /** `scrape_all_sites`' loop: the lists of the tasks that returned, concatenated in site order. */
  function Aggregate(results: seq<TaskResult>): seq<Article>
  {
    if results == [] then []
    else
      Aggregate(results[..|results| - 1])
      + match results[|results| - 1]
        case Done(a) => a
        case TaskFailed => []
  }

  lemma {:induction false} AggregateAppend(a: seq<TaskResult>, b: seq<TaskResult>)
    ensures Aggregate(a + b) == Aggregate(a) + Aggregate(b)
    decreases |b|
  {
    if b == [] {
      assert a + b == a;
    } else {
      var ab := a + b;
      assert ab[|ab| - 1] == b[|b| - 1];
      assert ab[..|ab| - 1] == a + b[..|b| - 1];
      AggregateAppend(a, b[..|b| - 1]);
    }
  }

  /** A task that raised is logged and skipped; the others are kept in order. */
  lemma FailedTaskSkipped(results: seq<TaskResult>, k: nat)
    requires k < |results| && results[k] == TaskFailed
    ensures Aggregate(results) == Aggregate(results[..k]) + Aggregate(results[k + 1..])
  {
    var before, after := results[..k], results[k + 1..];
    calc {
      Aggregate(results);
    == { assert results == (before + [TaskFailed]) + after; }
      Aggregate((before + [TaskFailed]) + after);
    == { AggregateAppend(before + [TaskFailed], after); }
      Aggregate(before + [TaskFailed]) + Aggregate(after);
    == { AggregateAppend(before, [TaskFailed]); FailedAlone(); }
      Aggregate(before) + Aggregate(after);
    }
  }

  lemma FailedAlone()
    ensures Aggregate([TaskFailed]) == []
  {
    assert [TaskFailed][..0] == [];
  }

  /** An article is in the aggregate exactly when some task returned it. */
  lemma {:induction false} AggregateMembers(results: seq<TaskResult>, x: Article)
    ensures x in Aggregate(results) <==>
            exists k :: 0 <= k < |results| && results[k].Done? && x in results[k].articles
    decreases |results|
  {
    if results != [] {
      var init := results[..|results| - 1];
      AggregateMembers(init, x);
      if exists k :: 0 <= k < |init| && init[k].Done? && x in init[k].articles {
        var k :| 0 <= k < |init| && init[k].Done? && x in init[k].articles;
        assert results[k] == init[k];
      }
      if exists k :: 0 <= k < |results| && results[k].Done? && x in results[k].articles {
        var k :| 0 <= k < |results| && results[k].Done? && x in results[k].articles;
        if k < |init| { assert init[k] == results[k]; }
      }
    }
  }

  /** The sites' results in order, each retry loop starting where the previous one left the rotator. */
  datatype Runs = Runs(results: seq<TaskResult>, cursor: nat)

  function RunSites(net: Network, sites: seq<string>, keywords: seq<string>, userAgents: seq<string>,
                    pool: Option<seq<string>>, start: nat): (r: Runs)
    ensures |r.results| == |sites|
    ensures forall k :: 0 <= k < |sites| ==> r.results[k].Done?
    decreases |sites|
  {
    if sites == [] then Runs([], start)
    else
      var before := RunSites(net, sites[..|sites| - 1], keywords, userAgents, pool, start);
      var run := RunSite(net, sites[|sites| - 1], keywords, userAgents, pool, before.cursor);
      Runs(before.results + [Done(run.articles)], run.cursor)
  }

  /** Running one more site extends the results by that site's run, begun at the cursor the earlier sites left. */
  lemma RunSitesStep(net: Network, sites: seq<string>, i: nat, keywords: seq<string>, userAgents: seq<string>,
                     pool: Option<seq<string>>, start: nat)
    requires i < |sites|
    ensures var before := RunSites(net, sites[..i], keywords, userAgents, pool, start);
            var run := RunSite(net, sites[i], keywords, userAgents, pool, before.cursor);
            RunSites(net, sites[..i + 1], keywords, userAgents, pool, start) ==
            Runs(before.results + [Done(run.articles)], run.cursor)
  {
    assert sites[..i + 1][..i] == sites[..i];
    assert sites[..i + 1][i] == sites[i];
  }
}
