/**
 * What `WebScraper._extract_articles` computes, over an abstract parsed page.
 *
 * The HTML parser and its CSS selector engine are foreign code, so a page is
 * its root element together with a `select` function: `select(n, s)` is the
 * list of elements under `n` matching selector `s`, in document order, or an
 * error when the engine raises. `select_one` is the first element of `select`.
 * An element is seen only through `get_text(strip=True)` and `get('href')`.
 */
module Extraction {
  import opened Wrappers
  import opened PyStr
  import opened SiteRules

  datatype Node = Node(id: nat, text: string, href: Option<string>)

  datatype Selection = Selected(nodes: seq<Node>) | SelectError

  datatype Page = Page(root: Node, select: (Node, string) -> Selection)

  /** One emitted article dictionary. */
  datatype Article = Article(
    title: string,
    summary: string,
    excerpt: string,
    url: string,
    source: string,
    keywordMatches: seq<string>)

  /** The outcome of `select_one`, or of a first-found-wins search over selectors. */
  datatype Lookup = Found(element: Option<Node>) | LookupError

  /** `node.select_one(selector)`. */
  function SelectOne(page: Page, node: Node, selector: string): Lookup
  {
    match page.select(node, selector)
    case SelectError => LookupError
    case Selected(ns) => if ns == [] then Found(None) else Found(Some(ns[0]))
  }

  /**
   * The title and summary searches: `select_one` with each selector in turn,
   * stopping at the first that finds an element. An element counts however
   * empty its text is.
   */
  function FirstFound(page: Page, node: Node, selectors: seq<string>): Lookup
  {
    if selectors == [] then Found(None)
    else match SelectOne(page, node, selectors[0])
      case LookupError => LookupError
      case Found(Some(e)) => Found(Some(e))
      case Found(None) => FirstFound(page, node, selectors[1..])
  }

  /** Selector `j` is the first whose selection is not empty, and `e` is its first match. */
  predicate FirstHitAt(page: Page, node: Node, selectors: seq<string>, j: int, e: Node)
  {
    && 0 <= j < |selectors|
    && (forall k :: 0 <= k < j ==> page.select(node, selectors[k]) == Selected([]))
    && page.select(node, selectors[j]).Selected?
    && page.select(node, selectors[j]).nodes != []
    && page.select(node, selectors[j]).nodes[0] == e
  }

  /** Selectors that match nothing are passed over. */
  lemma {:induction false} FirstFoundSkipsEmpty(page: Page, node: Node, selectors: seq<string>, j: nat)
    requires j <= |selectors|
    requires forall k :: 0 <= k < j ==> page.select(node, selectors[k]) == Selected([])
    ensures FirstFound(page, node, selectors) == FirstFound(page, node, selectors[j..])
    decreases j
  {
    if j > 0 {
      assert page.select(node, selectors[0]) == Selected([]);
      var rest := selectors[1..];
      forall k | 0 <= k < j - 1 ensures page.select(node, rest[k]) == Selected([]) {
        assert rest[k] == selectors[k + 1];
      }
      FirstFoundSkipsEmpty(page, node, rest, j - 1);
      assert rest[j - 1..] == selectors[j..];
    }
  }

  /** The search finds `e` exactly when some selector is the first to match and matches `e` first. */
  lemma {:induction false} FirstFoundFinds(page: Page, node: Node, selectors: seq<string>, e: Node)
    ensures FirstFound(page, node, selectors) == Found(Some(e)) <==>
            exists j :: FirstHitAt(page, node, selectors, j, e)
    decreases |selectors|
  {
    if exists j :: FirstHitAt(page, node, selectors, j, e) {
      var j :| FirstHitAt(page, node, selectors, j, e);
      FirstFoundSkipsEmpty(page, node, selectors, j);
      assert selectors[j..][0] == selectors[j];
    }
    if FirstFound(page, node, selectors) == Found(Some(e)) {
      var rest := selectors[1..];
      if SelectOne(page, node, selectors[0]) == Found(None) {
        FirstFoundFinds(page, node, rest, e);
        var j :| FirstHitAt(page, node, rest, j, e);
        forall k | 0 <= k < j + 1 ensures page.select(node, selectors[k]) == Selected([]) {
          if k > 0 { assert selectors[k] == rest[k - 1]; }
        }
        assert selectors[j + 1] == rest[j];
        assert FirstHitAt(page, node, selectors, j + 1, e);
      } else {
        assert FirstHitAt(page, node, selectors, 0, e);
      }
    }
  }

  /** The search finds nothing exactly when every selector matches nothing. */
  lemma {:induction false} FirstFoundNone(page: Page, node: Node, selectors: seq<string>)
    ensures FirstFound(page, node, selectors) == Found(None) <==>
            forall k :: 0 <= k < |selectors| ==> page.select(node, selectors[k]) == Selected([])
    decreases |selectors|
  {
    if selectors != [] {
      var rest := selectors[1..];
      FirstFoundNone(page, node, rest);
      if forall k :: 0 <= k < |selectors| ==> page.select(node, selectors[k]) == Selected([]) {
        forall k | 0 <= k < |rest| ensures page.select(node, rest[k]) == Selected([]) {
          assert rest[k] == selectors[k + 1];
        }
      }
      if FirstFound(page, node, selectors) == Found(None) {
        forall k | 0 <= k < |selectors| ensures page.select(node, selectors[k]) == Selected([]) {
          if k > 0 { assert selectors[k] == rest[k - 1]; }
        }
      }
    }
  }

  const ExcerptLimit := 300

  /** `text[:300] + '...'` when the text is longer than 300 characters. */
  function Truncate(text: string): (r: string)
    ensures |r| <= ExcerptLimit + 3
    ensures |r| > ExcerptLimit <==> |text| > ExcerptLimit
    ensures |text| <= ExcerptLimit ==> r == text
    ensures |text| > ExcerptLimit ==> r[..ExcerptLimit] == text[..ExcerptLimit] && r[ExcerptLimit..] == "..."
  {
    if |text| > ExcerptLimit then text[..ExcerptLimit] + "..." else text
  }

  function Texts(nodes: seq<Node>): (r: seq<string>)
    ensures |r| == |nodes|
    ensures forall i :: 0 <= i < |nodes| ==> r[i] == nodes[i].text
  {
    if nodes == [] then [] else [nodes[0].text] + Texts(nodes[1..])
  }

  /** The excerpt: the texts of at most the first three paragraphs, space-joined, then truncated. */
  function Excerpt(paragraphs: seq<Node>): string
  {
    var firstThree := if |paragraphs| <= 3 then paragraphs else paragraphs[..3];
    Truncate(Join(Texts(firstThree), " "))
  }

  /** An excerpt is at most 303 characters, and one over 300 is a 300-character prefix of the joined text plus "...". */
  lemma ExcerptBound(paragraphs: seq<Node>)
    ensures |Excerpt(paragraphs)| <= ExcerptLimit + 3
    ensures var joined := Join(Texts(if |paragraphs| <= 3 then paragraphs else paragraphs[..3]), " ");
            |Excerpt(paragraphs)| > ExcerptLimit ==>
              Excerpt(paragraphs) == joined[..ExcerptLimit] + "..."
  {
    var joined := Join(Texts(if |paragraphs| <= 3 then paragraphs else paragraphs[..3]), " ");
    var r := Truncate(joined);
    if |r| > ExcerptLimit {
      assert r == r[..ExcerptLimit] + r[ExcerptLimit..];
    }
  }

  /** Paragraphs after the third never reach the excerpt. */
  lemma ExcerptIgnoresLaterParagraphs(paragraphs: seq<Node>, more: seq<Node>)
    requires |paragraphs| >= 3
    ensures Excerpt(paragraphs + more) == Excerpt(paragraphs)
  {
    if more == [] {
      assert paragraphs + more == paragraphs;
    } else {
      assert (paragraphs + more)[..3] == paragraphs[..3];
      if |paragraphs| == 3 {
        assert paragraphs[..3] == paragraphs;
      }
    }
  }

  /** `kw.lower() in title.lower() or kw.lower() in summary.lower()`. */
  predicate Hits(keyword: string, title: string, summary: string)
  {
    Contains(Lower(title), Lower(keyword)) || Contains(Lower(summary), Lower(keyword))
  }

  /** The keywords, in configured order, that hit the title or the summary. */
  function KeywordMatches(keywords: seq<string>, title: string, summary: string): (r: seq<string>)
    ensures |r| <= |keywords|
    ensures forall kw :: kw in r <==> kw in keywords && Hits(kw, title, summary)
  {
    if keywords == [] then []
    else
      (if Hits(keywords[0], title, summary) then [keywords[0]] else [])
      + KeywordMatches(keywords[1..], title, summary)
  }

  /** Matching distributes over the keyword list, so the result keeps the configured order. */
  lemma {:induction false} KeywordMatchesAppend(a: seq<string>, b: seq<string>, title: string, summary: string)
    ensures KeywordMatches(a + b, title, summary) ==
            KeywordMatches(a, title, summary) + KeywordMatches(b, title, summary)
    decreases |a|
  {
    if a == [] {
      assert a + b == b;
    } else {
      assert (a + b)[0] == a[0];
      assert (a + b)[1..] == a[1..] + b;
      KeywordMatchesAppend(a[1..], b, title, summary);
    }
  }

  /** What happens to one container inside the `try` block. */
  datatype Candidate = Emitted(article: Article) | NoTitle | NoKeywordMatch | Failed

  /** The article an element yields, given its title and summary. */
  function BuildArticle(titleElem: Node, summary: string, paragraphs: seq<Node>,
                        keywords: seq<string>, baseUrl: string): Candidate
  {
    var matches := KeywordMatches(keywords, titleElem.text, summary);
    if matches == [] then NoKeywordMatch
    else Emitted(Article(titleElem.text, summary, Excerpt(paragraphs),
                         titleElem.href.GetOr(baseUrl), baseUrl, matches))
  }

  /**
   * One container: title search (none found: skipped), summary search (none
   * found: ""), excerpt, keyword filter. A selector error anywhere in this
   * block only fails this container.
   */
  function ContainerResult(page: Page, container: Node, rules: RuleSet,
                           keywords: seq<string>, baseUrl: string): Candidate
  {
    match FirstFound(page, container, rules.titleSelectors)
    case LookupError => Failed
    case Found(None) => NoTitle
    case Found(Some(titleElem)) =>
      match FirstFound(page, container, rules.summarySelectors)
      case LookupError => Failed
      case Found(summaryElem) =>
        var summary := if summaryElem.Some? then summaryElem.value.text else "";
        match page.select(container, "p")
        case SelectError => Failed
        case Selected(paragraphs) => BuildArticle(titleElem, summary, paragraphs, keywords, baseUrl)
  }

  /** What every emitted article satisfies. */
  predicate WellFormed(a: Article, keywords: seq<string>, baseUrl: string)
  {
    && a.keywordMatches != []
    && (forall kw :: kw in a.keywordMatches ==> kw in keywords && Hits(kw, a.title, a.summary))
    && |a.excerpt| <= ExcerptLimit + 3
    && a.source == baseUrl
  }

  /** The articles of a list of containers, in order, skipping the containers that yield none. */
  function ArticlesOf(page: Page, containers: seq<Node>, rules: RuleSet,
                      keywords: seq<string>, baseUrl: string): seq<Article>
  {
    if containers == [] then []
    else
      var last := containers[|containers| - 1];
      ArticlesOf(page, containers[..|containers| - 1], rules, keywords, baseUrl)
      + (match ContainerResult(page, last, rules, keywords, baseUrl)
         case Emitted(a) => [a]
         case _ => [])
  }

  /** The result of `_extract_articles`: the list, or the error a top-level `select` raised. */
  datatype Extracted = Articles(articles: seq<Article>) | ExtractError

  /** Every article selector in order, each one's containers in document order, concatenated. */
  function ArticlesFor(page: Page, selectors: seq<string>, rules: RuleSet,
                       keywords: seq<string>, baseUrl: string): Extracted
  {
    if selectors == [] then Articles([])
    else
      match ArticlesFor(page, selectors[..|selectors| - 1], rules, keywords, baseUrl)
      case ExtractError => ExtractError
      case Articles(before) =>
        match page.select(page.root, selectors[|selectors| - 1])
        case SelectError => ExtractError
        case Selected(containers) => Articles(before + ArticlesOf(page, containers, rules, keywords, baseUrl))
  }

  /** `_extract_articles(soup, base_url)` with the configured keywords. */
  function Extract(page: Page, baseUrl: string, keywords: seq<string>): Extracted
  {
    var rules := RulesFor(baseUrl);
    ArticlesFor(page, rules.articleSelectors, rules, keywords, baseUrl)
  }

  /**
   * An emitted article carries the first title element's text and link (the
   * page URL when the element has no `href`), the first summary element's
   * text or "", and satisfies WellFormed.
   */
  lemma {:induction false} EmittedArticle(page: Page, container: Node, rules: RuleSet,
                                          keywords: seq<string>, baseUrl: string)
    requires ContainerResult(page, container, rules, keywords, baseUrl).Emitted?
    ensures var a := ContainerResult(page, container, rules, keywords, baseUrl).article;
            var title := FirstFound(page, container, rules.titleSelectors);
            var summary := FirstFound(page, container, rules.summarySelectors);
            && title.Found? && title.element.Some?
            && a.title == title.element.value.text
            && a.url == title.element.value.href.GetOr(baseUrl)
            && summary.Found?
            && a.summary == (if summary.element.Some? then summary.element.value.text else "")
            && a.keywordMatches == KeywordMatches(keywords, a.title, a.summary)
            && WellFormed(a, keywords, baseUrl)
  {
  }

  /** A container is skipped for want of a title exactly when no title selector matches in it. */
  lemma NoTitleIffNoMatch(page: Page, container: Node, rules: RuleSet,
                          keywords: seq<string>, baseUrl: string)
    ensures ContainerResult(page, container, rules, keywords, baseUrl) == NoTitle <==>
            forall k :: 0 <= k < |rules.titleSelectors| ==>
              page.select(container, rules.titleSelectors[k]) == Selected([])
  {
    FirstFoundNone(page, container, rules.titleSelectors);
  }

  lemma {:induction false} ArticlesOfWellFormed(page: Page, containers: seq<Node>, rules: RuleSet,
                                                keywords: seq<string>, baseUrl: string)
    ensures forall a :: a in ArticlesOf(page, containers, rules, keywords, baseUrl) ==>
              WellFormed(a, keywords, baseUrl)
    decreases |containers|
  {
    if containers != [] {
      var last := containers[|containers| - 1];
      ArticlesOfWellFormed(page, containers[..|containers| - 1], rules, keywords, baseUrl);
      if ContainerResult(page, last, rules, keywords, baseUrl).Emitted? {
        EmittedArticle(page, last, rules, keywords, baseUrl);
      }
    }
  }

  /** Containers are processed independently: the articles of a concatenation concatenate. */
  lemma {:induction false} ArticlesOfAppend(page: Page, a: seq<Node>, b: seq<Node>, rules: RuleSet,
                                            keywords: seq<string>, baseUrl: string)
    ensures ArticlesOf(page, a + b, rules, keywords, baseUrl) ==
            ArticlesOf(page, a, rules, keywords, baseUrl) + ArticlesOf(page, b, rules, keywords, baseUrl)
    decreases |b|
  {
    if b == [] {
      assert a + b == a;
    } else {
      var ab := a + b;
      assert ab[|ab| - 1] == b[|b| - 1];
      assert ab[..|ab| - 1] == a + b[..|b| - 1];
      ArticlesOfAppend(page, a, b[..|b| - 1], rules, keywords, baseUrl);
    }
  }

  /** A container whose processing raised contributes nothing and leaves the others alone. */
  lemma FailedContainerSkipped(page: Page, containers: seq<Node>, k: nat, rules: RuleSet,
                               keywords: seq<string>, baseUrl: string)
    requires k < |containers|
    requires ContainerResult(page, containers[k], rules, keywords, baseUrl) == Failed
    ensures ArticlesOf(page, containers, rules, keywords, baseUrl) ==
            ArticlesOf(page, containers[..k], rules, keywords, baseUrl)
            + ArticlesOf(page, containers[k + 1..], rules, keywords, baseUrl)
  {
    assert containers == containers[..k] + [containers[k]] + containers[k + 1..];
    ArticlesOfAppend(page, containers[..k] + [containers[k]], containers[k + 1..], rules, keywords, baseUrl);
    ArticlesOfAppend(page, containers[..k], [containers[k]], rules, keywords, baseUrl);
    assert [containers[k]][..0] == [];
  }

  /** The article selectors' results are concatenated in selector order (a union with duplicates). */
  lemma {:induction false} ArticlesForAppend(page: Page, a: seq<string>, b: seq<string>, rules: RuleSet,
                                             keywords: seq<string>, baseUrl: string)
    ensures ArticlesFor(page, a + b, rules, keywords, baseUrl) ==
            match ArticlesFor(page, a, rules, keywords, baseUrl)
            case ExtractError => ExtractError
            case Articles(x) =>
              match ArticlesFor(page, b, rules, keywords, baseUrl)
              case ExtractError => ExtractError
              case Articles(y) => Articles(x + y)
    decreases |b|
  {
    if b == [] {
      assert a + b == a;
    } else {
      var ab := a + b;
      assert ab[|ab| - 1] == b[|b| - 1];
      assert ab[..|ab| - 1] == a + b[..|b| - 1];
      ArticlesForAppend(page, a, b[..|b| - 1], rules, keywords, baseUrl);
    }
  }

  /** Two selectors that match the same containers give every article twice: there is no deduplication. */
  lemma RepeatedSelectorDuplicates(page: Page, selector: string, rules: RuleSet,
                                   keywords: seq<string>, baseUrl: string)
    requires page.select(page.root, selector).Selected?
    ensures var once := ArticlesOf(page, page.select(page.root, selector).nodes, rules, keywords, baseUrl);
            ArticlesFor(page, [selector, selector], rules, keywords, baseUrl) == Articles(once + once)
  {
    var once := ArticlesOf(page, page.select(page.root, selector).nodes, rules, keywords, baseUrl);
    assert [selector][..0] == [];
    assert ArticlesFor(page, [selector], rules, keywords, baseUrl) == Articles([] + once);
    assert [] + once == once;
    assert [selector, selector][..1] == [selector];
  }

  /** Extraction raises exactly when `select` on the page raises for some article selector. */
  lemma {:induction false} ArticlesForError(page: Page, selectors: seq<string>, rules: RuleSet,
                                            keywords: seq<string>, baseUrl: string)
    ensures ArticlesFor(page, selectors, rules, keywords, baseUrl) == ExtractError <==>
            exists j :: 0 <= j < |selectors| && page.select(page.root, selectors[j]) == SelectError
    decreases |selectors|
  {
    if selectors != [] {
      var init := selectors[..|selectors| - 1];
      ArticlesForError(page, init, rules, keywords, baseUrl);
      if exists j :: 0 <= j < |init| && page.select(page.root, init[j]) == SelectError {
        var j :| 0 <= j < |init| && page.select(page.root, init[j]) == SelectError;
        assert selectors[j] == init[j];
      }
      if exists j :: 0 <= j < |selectors| && page.select(page.root, selectors[j]) == SelectError {
        var j :| 0 <= j < |selectors| && page.select(page.root, selectors[j]) == SelectError;
        if j < |init| { assert init[j] == selectors[j]; }
      }
    }
  }

  /** Every article extraction returns satisfies WellFormed: at least one keyword hit, excerpt of at most 303 characters. */
  lemma {:induction false} ArticlesForWellFormed(page: Page, selectors: seq<string>, rules: RuleSet,
                                                 keywords: seq<string>, baseUrl: string)
    ensures ArticlesFor(page, selectors, rules, keywords, baseUrl).Articles? ==>
            forall a :: a in ArticlesFor(page, selectors, rules, keywords, baseUrl).articles ==>
              WellFormed(a, keywords, baseUrl)
    decreases |selectors|
  {
    if selectors != [] {
      ArticlesForWellFormed(page, selectors[..|selectors| - 1], rules, keywords, baseUrl);
      var sel := page.select(page.root, selectors[|selectors| - 1]);
      if sel.Selected? {
        ArticlesOfWellFormed(page, sel.nodes, rules, keywords, baseUrl);
      }
    }
  }
}
