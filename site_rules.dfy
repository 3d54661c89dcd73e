/**
 * The per-domain selector table of the scraper and its lookup
 * (`WebScraper.SITE_SPECIFIC_RULES` and `_get_site_specific_rules`).
 */
module SiteRules {
  import opened PyStr
  import opened Urls

  /** The three ordered selector lists that drive extraction on one site. */
  datatype RuleSet = RuleSet(
    articleSelectors: seq<string>,
    titleSelectors: seq<string>,
    summarySelectors: seq<string>)

  const Finextra := RuleSet(
    ["div.news-item", "article.news-article", "div.article-preview", "div.news-list-item"],
    ["h3 a.news-title", "h2 a.article-title", "h1.news-headline", "div.article-title a"],
    ["div.news-summary", "p.article-excerpt", "div.article-preview-text"])

  const Cnbc := RuleSet(
    ["div.Card-titleContainer", "div.Card-textContainer", "div.RiverHeadline", "div.RiverPlusCard-headline"],
    ["a.Card-title", "a.RiverHeadline-headline", "h3.RiverHeadline-headline", "h2.Card-title"],
    ["div.Card-textContainer", "div.RiverHeadline-description", "p.RiverHeadline-description"])

  const Pymnts := RuleSet(
    ["article.post", "div.post-item", "div.article-preview", "div.news-block"],
    ["h2.entry-title a", "h1.post-title a", "div.post-title a", "a.article-title"],
    ["div.entry-summary", "p.post-excerpt", "div.article-excerpt"])

  /** The exact-match table, keyed by the host with `www.` removed. */
  const KnownSites: map<string, RuleSet> :=
    map["finextra.com" := Finextra, "cnbc.com" := Cnbc, "pymnts.com" := Pymnts]

  /** The rule set used for every host that is not a key of `KnownSites`. */
  const GenericRules := RuleSet(
    ["article", "div.article"],
    ["h1", "h2", ".title", "a.title"],
    ["p", ".summary", "div.excerpt"])

  /** The lookup key: the netloc with every occurrence of `www.` removed. */
  function DomainKey(url: string): (key: string)
    ensures |key| <= |Netloc(url)|
  {
    RemoveAllShortens(Netloc(url), "www.");
    ReplaceAll(Netloc(url), "www.", "")
  }

  /** `_get_site_specific_rules(url)`: the table entry for the key, else the generic set. */
  function RulesFor(url: string): (r: RuleSet)
    ensures DomainKey(url) in KnownSites ==> r == KnownSites[DomainKey(url)]
    ensures DomainKey(url) !in KnownSites ==> r == GenericRules
    ensures r == GenericRules || r in KnownSites.Values
  {
    if DomainKey(url) in KnownSites then KnownSites[DomainKey(url)] else GenericRules
  }

  /**
   * A known domain gets its own rule set whatever the scheme and whether or
   * not the host is written with a leading `www.`.
   */
  lemma RulesForKnownSite(scheme: string, domain: string, tail: string)
    requires domain in KnownSites
    requires scheme != [] && IsAsciiAlpha(scheme[0])
    requires forall k :: 0 <= k < |scheme| ==> IsSchemeChar(scheme[k])
    requires tail == [] || IsNetlocDelimiter(tail[0])
    ensures RulesFor(scheme + "://" + domain + tail) == KnownSites[domain]
    ensures RulesFor(scheme + "://www." + domain + tail) == KnownSites[domain]
  {
    KnownPlain(scheme, domain, tail);
    KnownBehindWww(scheme, domain, tail);
  }

  lemma KnownPlain(scheme: string, domain: string, tail: string)
    requires domain in KnownSites
    requires scheme != [] && IsAsciiAlpha(scheme[0])
    requires forall k :: 0 <= k < |scheme| ==> IsSchemeChar(scheme[k])
    requires tail == [] || IsNetlocDelimiter(tail[0])
    ensures RulesFor(scheme + "://" + domain + tail) == KnownSites[domain]
  {
    KnownKeyUnchanged(domain);
    KnownKeyHasNoDelimiter(domain);
    NetlocOfAbsolute(scheme, domain, tail);
    RulesForNetloc(scheme + "://" + domain + tail, domain, domain);
  }

  lemma KnownBehindWww(scheme: string, domain: string, tail: string)
    requires domain in KnownSites
    requires scheme != [] && IsAsciiAlpha(scheme[0])
    requires forall k :: 0 <= k < |scheme| ==> IsSchemeChar(scheme[k])
    requires tail == [] || IsNetlocDelimiter(tail[0])
    ensures RulesFor(scheme + "://www." + domain + tail) == KnownSites[domain]
  {
    KnownWwwFacts(domain);
    WwwUrl(scheme, domain, tail);
    NetlocOfAbsolute(scheme, "www." + domain, tail);
    RulesForNetloc(scheme + "://" + ("www." + domain) + tail, "www." + domain, domain);
  }

  /** A known domain behind `www.`: still no delimiter, and `www.` removal gives the domain back. */
  lemma KnownWwwFacts(domain: string)
    requires domain in KnownSites
    ensures forall k :: 0 <= k < |"www." + domain| ==> !IsNetlocDelimiter(("www." + domain)[k])
    ensures ReplaceAll("www." + domain, "www.", "") == domain
  {
    KnownKeyUnchanged(domain);
    KnownKeyHasNoDelimiter(domain);
    WwwHostHasNoDelimiter(domain);
    ReplaceAllLeading("www.", domain, "");
    assert "" + domain == domain;
  }

  lemma WwwUrl(scheme: string, domain: string, tail: string)
    ensures scheme + "://www." + domain + tail == scheme + "://" + ("www." + domain) + tail
  {
  }

  /** The lookup only depends on the netloc and the key it reduces to. */
  lemma RulesForNetloc(url: string, host: string, key: string)
    requires Netloc(url) == host && ReplaceAll(host, "www.", "") == key
    requires key in KnownSites
    ensures RulesFor(url) == KnownSites[key]
  {
  }

  lemma WwwHostHasNoDelimiter(domain: string)
    requires forall k :: 0 <= k < |domain| ==> !IsNetlocDelimiter(domain[k])
    ensures forall k :: 0 <= k < |"www." + domain| ==> !IsNetlocDelimiter(("www." + domain)[k])
  {
    var www := "www." + domain;
    forall k | 0 <= k < |www| ensures !IsNetlocDelimiter(www[k]) {
      if k >= 4 { assert www[k] == domain[k - 4]; }
    }
  }

  /** Removing `www.` leaves every key of the table as it is. */
  lemma KnownKeyUnchanged(domain: string)
    requires domain in KnownSites
    ensures ReplaceAll(domain, "www.", "") == domain
  {
    KnownKeyHasNoW(domain);
    NotContainsFirstChar(domain, "www.");
    ReplaceAllAbsent(domain, "www.", "");
  }

  lemma KnownKeyHasNoW(domain: string)
    requires domain in KnownSites
    ensures forall k :: 0 <= k < |domain| ==> domain[k] != 'w'
  {
  }

  lemma KnownKeyHasNoDelimiter(domain: string)
    requires domain in KnownSites
    ensures forall k :: 0 <= k < |domain| ==> !IsNetlocDelimiter(domain[k])
  {
  }

  /**
   * `str.replace` removes `www.` anywhere in the host, not only in front, so a
   * different host such as `finextra.www.com` also resolves to finextra's rules.
   */
  lemma InnerWwwAlsoRemoved(scheme: string, tail: string)
    requires scheme != [] && IsAsciiAlpha(scheme[0])
    requires forall k :: 0 <= k < |scheme| ==> IsSchemeChar(scheme[k])
    requires tail == [] || IsNetlocDelimiter(tail[0])
    ensures RulesFor(scheme + "://" + "finextra.www.com" + tail) == Finextra
  {
    HostHasNoDelimiter("finextra.www.com");
    NetlocOfAbsolute(scheme, "finextra.www.com", tail);
    InnerWwwKey();
    RulesForNetloc(scheme + "://" + "finextra.www.com" + tail, "finextra.www.com", "finextra.com");
  }

  lemma InnerWwwKey()
    ensures ReplaceAll("finextra.www.com", "www.", "") == "finextra.com"
  {
    var a, c := "finextra.", "com";
    assert 'w' !in a && 'w' !in c;
    NotContainsFirstChar(c, "www.");
    calc {
      ReplaceAll("finextra.www.com", "www.", "");
    == { assert "finextra.www.com" == a + ("www." + c); }
      ReplaceAll(a + ("www." + c), "www.", "");
    == { ReplaceAllFreePrefix(a, "www." + c, "www.", ""); }
      a + ReplaceAll("www." + c, "www.", "");
    == { ReplaceAllLeading("www.", c, ""); ReplaceAllAbsent(c, "www.", ""); }
      a + c;
    }
  }

  /**
   * The netloc keeps its port, and no key of the table holds a `:`, so a
   * known domain written with an explicit port, `www.` or not, misses the
   * table and gets the generic rules.
   */
  lemma PortMissesTable(scheme: string, domain: string, port: string, tail: string)
    requires domain in KnownSites
    requires forall k :: 0 <= k < |port| ==> '0' <= port[k] <= '9'
    requires scheme != [] && IsAsciiAlpha(scheme[0])
    requires forall k :: 0 <= k < |scheme| ==> IsSchemeChar(scheme[k])
    requires tail == [] || IsNetlocDelimiter(tail[0])
    ensures RulesFor(scheme + "://" + domain + ":" + port + tail) == GenericRules
    ensures RulesFor(scheme + "://www." + domain + ":" + port + tail) == GenericRules
  {
    PortPlain(scheme, domain, port, tail);
    PortBehindWww(scheme, domain, port, tail);
  }

  lemma PortPlain(scheme: string, domain: string, port: string, tail: string)
    requires domain in KnownSites
    requires forall k :: 0 <= k < |port| ==> '0' <= port[k] <= '9'
    requires scheme != [] && IsAsciiAlpha(scheme[0])
    requires forall k :: 0 <= k < |scheme| ==> IsSchemeChar(scheme[k])
    requires tail == [] || IsNetlocDelimiter(tail[0])
    ensures RulesFor(scheme + "://" + domain + ":" + port + tail) == GenericRules
  {
    var host := domain + ":" + port;
    var url := scheme + "://" + domain + ":" + port + tail;
    PortHostFacts(domain, port);
    assert url == scheme + "://" + host + tail;
    NetlocOfAbsolute(scheme, host, tail);
    RulesForUnknown(url, host);
  }

  lemma PortBehindWww(scheme: string, domain: string, port: string, tail: string)
    requires domain in KnownSites
    requires forall k :: 0 <= k < |port| ==> '0' <= port[k] <= '9'
    requires scheme != [] && IsAsciiAlpha(scheme[0])
    requires forall k :: 0 <= k < |scheme| ==> IsSchemeChar(scheme[k])
    requires tail == [] || IsNetlocDelimiter(tail[0])
    ensures RulesFor(scheme + "://www." + domain + ":" + port + tail) == GenericRules
  {
    WwwPortHostFacts(domain, port);
    WwwPortUrl(scheme, domain, port, tail);
    var url := scheme + "://" + ("www." + (domain + ":" + port)) + tail;
    NetlocOfAbsolute(scheme, "www." + (domain + ":" + port), tail);
    RulesForUnknown(url, domain + ":" + port);
  }

  lemma WwwPortUrl(scheme: string, domain: string, port: string, tail: string)
    ensures scheme + "://www." + domain + ":" + port + tail == scheme + "://" + ("www." + (domain + ":" + port)) + tail
  {
  }

  /** The same host behind a leading `www.`: still no delimiter, and `www.` removal leaves the host, which is not a key. */
  lemma WwwPortHostFacts(domain: string, port: string)
    requires domain in KnownSites
    requires forall k :: 0 <= k < |port| ==> '0' <= port[k] <= '9'
    ensures forall k :: 0 <= k < |"www." + (domain + ":" + port)| ==> !IsNetlocDelimiter(("www." + (domain + ":" + port))[k])
    ensures ReplaceAll("www." + (domain + ":" + port), "www.", "") == domain + ":" + port
    ensures domain + ":" + port !in KnownSites
  {
    var host := domain + ":" + port;
    PortHostFacts(domain, port);
    WwwHostHasNoDelimiter(host);
    ReplaceAllLeading("www.", host, "");
    assert "" + host == host;
  }

  /** A netloc that reduces to a key outside the table gets the generic rules. */
  lemma RulesForUnknown(url: string, key: string)
    requires ReplaceAll(Netloc(url), "www.", "") == key
    requires key !in KnownSites
    ensures RulesFor(url) == GenericRules
  {
  }

  /** A known domain followed by `:` and digits: no delimiter, nothing for `www.` removal to touch, and not a key. */
  lemma PortHostFacts(domain: string, port: string)
    requires domain in KnownSites
    requires forall k :: 0 <= k < |port| ==> '0' <= port[k] <= '9'
    ensures forall k :: 0 <= k < |domain + ":" + port| ==> !IsNetlocDelimiter((domain + ":" + port)[k])
    ensures ReplaceAll(domain + ":" + port, "www.", "") == domain + ":" + port
    ensures domain + ":" + port !in KnownSites
  {
    var host := domain + ":" + port;
    KnownKeyHasNoDelimiter(domain);
    KnownKeyHasNoW(domain);
    forall k | 0 <= k < |host| ensures !IsNetlocDelimiter(host[k]) && host[k] != 'w' {
      if k < |domain| {
        assert host[k] == domain[k];
      } else if k > |domain| {
        assert host[k] == port[k - |domain| - 1];
      }
    }
    NotContainsFirstChar(host, "www.");
    ReplaceAllAbsent(host, "www.", "");
    assert host[|domain|] == ':';
    if host in KnownSites {
      KnownKeyHasNoColon(host);
    }
  }

  lemma KnownKeyHasNoColon(domain: string)
    requires domain in KnownSites
    ensures forall k :: 0 <= k < |domain| ==> domain[k] != ':'
  {
  }

  lemma HostHasNoDelimiter(host: string)
    requires host == "finextra.www.com"
    ensures forall k :: 0 <= k < |host| ==> !IsNetlocDelimiter(host[k])
  {
  }
}
