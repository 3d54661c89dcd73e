/**
 * The sample page of the scraper's tests: two `<article>` blocks, one about
 * fintech and one about sports, each with an `<h2>` title (whose `<a>` child
 * holds the link) and one paragraph; the keywords are `fintech` and `crypto`.
 */
module SamplePage {
  import opened Wrappers
  import opened PyStr
  import opened Urls
  import opened SiteRules
  import opened Extraction

  const SiteUrl := "https://www.test-site.com"

  const Root := Node(0, "", None)
  const FintechBlock := Node(1, "", None)
  const FintechTitle := Node(2, FintechHeadline, None)
  const FintechText := Node(3, FintechBody, None)
  const SportsBlock := Node(4, "", None)
  const SportsTitle := Node(5, SportsHeadline, None)
  const SportsText := Node(6, SportsBody, None)

  // The headlines and paragraph texts of the test page's two articles.
  const FintechHeadline := "Fintech Rev" + "olution in" + " Banking"
  const FintechBody := "This is a test" + " article about" + " fintech innovations."
  const SportsHeadline := "Sports News"
  const SportsBody := "This is an art" + "icle about spo" + "rts."

  /** What the selector engine returns on the sample markup for the selectors the generic rules use. */
  function SampleSelect(n: Node, selector: string): Selection
  {
    if n == Root && selector == "article" then Selected([FintechBlock, SportsBlock])
    else if n == FintechBlock && selector == "h2" then Selected([FintechTitle])
    else if n == FintechBlock && selector == "p" then Selected([FintechText])
    else if n == SportsBlock && selector == "h2" then Selected([SportsTitle])
    else if n == SportsBlock && selector == "p" then Selected([SportsText])
    else Selected([])
  }

  const Sample := Page(Root, SampleSelect)

  const Keywords := ["fintech", "crypto"]

  /** The article the tests expect, for a page fetched from `url`. */
  function FintechArticle(url: string): Article
  {
    Article(FintechHeadline, FintechBody, FintechBody, url, url, ["fintech"])
  }

  lemma SiteUrlNetloc()
    ensures Netloc(SiteUrl) == "www.test-site.com"
  {
    SiteHostPlain();
    NetlocOfAbsolute("https", "www.test-site.com", "");
    SiteUrlSplits();
  }

  lemma SiteHostPlain()
    ensures forall k :: 0 <= k < |"www.test-site.com"| ==> !IsNetlocDelimiter("www.test-site.com"[k])
  {
  }

  lemma SiteUrlSplits()
    ensures "https" + "://" + "www.test-site.com" + "" == SiteUrl
  {
  }

  lemma SiteKeyUnchanged()
    ensures ReplaceAll("test-site.com", "www.", "") == "test-site.com"
  {
    NotContainsFirstChar("test-site.com", "www.");
    ReplaceAllAbsent("test-site.com", "www.", "");
  }

  lemma SiteHostSplits()
    ensures "www.test-site.com" == "www." + "test-site.com"
  {
  }

  lemma SiteKey()
    ensures ReplaceAll("www.test-site.com", "www.", "") == "test-site.com"
  {
    SiteKeyUnchanged();
    SiteHostSplits();
    ReplaceAllLeading("www.", "test-site.com", "");
  }

  /** The test site is not in the table, so the generic rules apply. */
  lemma SampleSiteIsGeneric(url: string)
    requires Netloc(url) == "www.test-site.com"
    ensures RulesFor(url) == GenericRules
  {
    SiteKey();
  }

  lemma FintechTitleHit()
    ensures Contains(Lower(FintechTitle.text), Lower("fintech"))
  {
    LowerOfLowercase("fintech");
    assert Lower(FintechTitle.text)[..7] == "fintech";
  }

  /** A keyword holding a letter that the text lacks in both cases is not in the lower-cased text. */
  lemma MissesByLetter(text: string, keyword: string, i: nat)
    requires forall k :: 0 <= k < |keyword| ==> !('A' <= keyword[k] <= 'Z')
    requires i < |keyword| && 'a' <= keyword[i] <= 'z'
    requires keyword[i] !in text && UpperChar(keyword[i]) !in text
    ensures !Contains(Lower(text), Lower(keyword))
  {
    LowerOfLowercase(keyword);
    LowerAvoids(text, keyword[i]);
    NotContainsChar(Lower(text), keyword, i);
  }

  lemma CryptoMissesFintech()
    ensures !Contains(Lower(FintechTitle.text), Lower("crypto"))
    ensures !Contains(Lower(FintechText.text), Lower("crypto"))
  {
    NoLetterY();
    MissesByLetter(FintechTitle.text, "crypto", 2);
    MissesByLetter(FintechText.text, "crypto", 2);
  }

  lemma NoLetterY()
    ensures 'y' !in FintechHeadline && 'Y' !in FintechHeadline
    ensures 'y' !in FintechBody && 'Y' !in FintechBody
  {
    FintechBodyNoY();
  }

  lemma FintechBodyNoY()
    ensures 'y' !in FintechBody && 'Y' !in FintechBody
  {
  }

  lemma SportsNoY()
    ensures 'y' !in SportsHeadline && 'Y' !in SportsHeadline
    ensures 'y' !in SportsBody && 'Y' !in SportsBody
  {
  }

  lemma NoLetterF()
    ensures 'f' !in SportsHeadline && 'F' !in SportsHeadline
    ensures 'f' !in SportsBody && 'F' !in SportsBody
  {
  }

  lemma SportsMissesBoth()
    ensures !Contains(Lower(SportsTitle.text), Lower("fintech"))
    ensures !Contains(Lower(SportsText.text), Lower("fintech"))
    ensures !Contains(Lower(SportsTitle.text), Lower("crypto"))
    ensures !Contains(Lower(SportsText.text), Lower("crypto"))
  {
    NoLetterF();
    SportsNoY();
    MissesByLetter(SportsTitle.text, "fintech", 0);
    MissesByLetter(SportsText.text, "fintech", 0);
    MissesByLetter(SportsTitle.text, "crypto", 2);
    MissesByLetter(SportsText.text, "crypto", 2);
  }

  lemma FintechMatches()
    ensures KeywordMatches(Keywords, FintechTitle.text, FintechText.text) == ["fintech"]
  {
    FintechTitleHit();
    CryptoMissesFintech();
    assert Keywords[1..] == ["crypto"];
    assert Keywords[1..][1..] == [];
  }

  lemma SportsMatches()
    ensures KeywordMatches(Keywords, SportsTitle.text, SportsText.text) == []
  {
    SportsMissesBoth();
    assert Keywords[1..] == ["crypto"];
    assert Keywords[1..][1..] == [];
  }

  lemma FintechContainer(url: string)
    ensures ContainerResult(Sample, FintechBlock, GenericRules, Keywords, url) == Emitted(FintechArticle(url))
  {
    var titles := GenericRules.titleSelectors;
    assert SampleSelect(FintechBlock, titles[0]) == Selected([]);
    assert titles[1..][0] == "h2";
    assert FirstFound(Sample, FintechBlock, titles) == Found(Some(FintechTitle));
    assert FirstFound(Sample, FintechBlock, GenericRules.summarySelectors) == Found(Some(FintechText));
    FintechMatches();
    assert Join(Texts([FintechText]), " ") == FintechText.text;
  }

  lemma SportsContainer(url: string)
    ensures ContainerResult(Sample, SportsBlock, GenericRules, Keywords, url) == NoKeywordMatch
  {
    var titles := GenericRules.titleSelectors;
    assert SampleSelect(SportsBlock, titles[0]) == Selected([]);
    assert titles[1..][0] == "h2";
    assert FirstFound(Sample, SportsBlock, titles) == Found(Some(SportsTitle));
    assert FirstFound(Sample, SportsBlock, GenericRules.summarySelectors) == Found(Some(SportsText));
    SportsMatches();
  }

  lemma SampleContainers(url: string)
    ensures ArticlesOf(Sample, [FintechBlock, SportsBlock], GenericRules, Keywords, url) == [FintechArticle(url)]
  {
    FintechContainer(url);
    SportsContainer(url);
    assert [FintechBlock, SportsBlock][..1] == [FintechBlock];
    assert [FintechBlock][..0] == [];
    assert ArticlesOf(Sample, [FintechBlock], GenericRules, Keywords, url) == [FintechArticle(url)];
  }

  /**
   * Extraction keeps exactly one article, the fintech one, whose matches are
   * `["fintech"]`; the `<h2>` element has no `href`, so its url is the page URL.
   */
  lemma SampleExtraction(url: string)
    requires Netloc(url) == "www.test-site.com"
    ensures Extract(Sample, url, Keywords) == Articles([FintechArticle(url)])
  {
    SampleSiteIsGeneric(url);
    FirstArticleSelector(url);
    var sels := GenericRules.articleSelectors;
    assert sels[..1] == ["article"];
    assert SampleSelect(Root, sels[1]) == Selected([]);
  }

  /** The `article` selector alone yields the fintech article. */
  lemma FirstArticleSelector(url: string)
    ensures ArticlesFor(Sample, ["article"], GenericRules, Keywords, url) == Articles([FintechArticle(url)])
  {
    SampleContainers(url);
    assert ["article"][..0] == [];
  }

  /** The same for the test's own URL. */
  lemma SampleExtractionAtSiteUrl()
    ensures Extract(Sample, SiteUrl, Keywords) == Articles([FintechArticle(SiteUrl)])
  {
    SiteUrlNetloc();
    SampleExtraction(SiteUrl);
  }
}
