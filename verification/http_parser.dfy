/** The bulletin fetcher (`Parser`): the 64 index-page addresses, the error-to-None
    rule of a page fetch, the filter that picks bulletin links out of a page, and
    the local file name a bulletin is saved under.

    The network, BeautifulSoup and `urljoin` are not modelled: a fetch is given as
    its outcome, a parsed page as its sequence of (date text, href) entries in
    document order, and `urljoin` as an arbitrary function of two strings. */
module HttpParser {
  import opened Common
  import opened PyText

  const PAGE_COUNT := 64
  const ENTRIES_PER_PAGE := 10
  const LAST_EXCLUDED_YEAR := 2022
  const DOWNLOAD_FOLDER := "downloads"

  // ---------------------------------------------------------------------------
  // Index pages

  /** `[f"{url}{page}" for page in range(1, 65)]`. */
  function IndexUrls(base: string): (urls: seq<string>)
    ensures |urls| == PAGE_COUNT
    ensures forall i :: 0 <= i < |urls| ==> |base| < |urls[i]| && urls[i][..|base|] == base
  {
    seq(PAGE_COUNT, i requires 0 <= i => base + Decimal(i + 1))
  }

  /** Each index address names its own page: the text after the base is
      `str(page)` for the 1-based page number and reads back as that number, so
      the 64 addresses are pairwise distinct. */
  lemma IndexUrlsNamePages(base: string)
    ensures forall i :: 0 <= i < PAGE_COUNT ==> IndexUrls(base)[i][|base|..] == Decimal(i + 1)
    ensures forall i :: 0 <= i < PAGE_COUNT ==> ParseInt(IndexUrls(base)[i][|base|..]) == Some(i + 1)
    ensures forall i, j :: 0 <= i < j < PAGE_COUNT ==> IndexUrls(base)[i] != IndexUrls(base)[j]
  {
    var urls := IndexUrls(base);
    forall i | 0 <= i < PAGE_COUNT
      ensures ParseInt(urls[i][|base|..]) == Some(i + 1)
    {
      assert urls[i][|base|..] == Decimal(i + 1);
      ParseIntDecimal(i + 1);
    }
  }

  /** What one `session.get(url, timeout=15)` ends with. */
  datatype FetchOutcome =
    | Timeout                                // asyncio.TimeoutError
    | ClientFailure                          // aiohttp.ClientError other than a bad status
    | OtherFailure                           // any other exception
    | Response(status: int, body: string)

  /** `parse_page`: the body of a successful response; every failure, a status of
      400 or more included (`raise_for_status`), is logged and gives `None`. */
  function ParsePage(f: FetchOutcome): (r: Option<string>)
    ensures r.Some? <==> f.Response? && f.status < 400
    ensures r.Some? ==> r.value == f.body
  {
    match f
    case Response(status, body) => if status < 400 then Some(body) else None
    case _ => None
  }

  // ---------------------------------------------------------------------------
  // Links on one page

  /** One `accordeon-inner__wrap-item` div: the text of its span and its link. */
  datatype Entry = Entry(dateText: string, href: string)

  /** `int(date[-4:])`. */
  function EntryYear(e: Entry): Option<int>
  {
    ParseInt(LastN(e.dateText, 4))
  }

  /** The entry is converted and published after 2022. */
  predicate KeptEntry(e: Entry)
  {
    EntryYear(e).Some? && EntryYear(e).value > LAST_EXCLUDED_YEAR
  }

  /** The links of the entries published after 2022, in entry order; a year that
      does not convert raises ValueError. */
  function KeptLinks(es: seq<Entry>, domain: string, join: (string, string) -> string): (r: Result<seq<string>>)
    ensures r.Ok? ==> |r.value| <= |es|
  {
    if es == [] then Ok([])
    else if EntryYear(es[0]).None? then Err(ValueError)
    else if KeptEntry(es[0]) then Prefixed([join(domain, es[0].href)], KeptLinks(es[1..], domain, join))
    else KeptLinks(es[1..], domain, join)
  }

  /** `get_docs_links`: the kept links among the first 10 entries of the page. */
  function DocsLinks(es: seq<Entry>, domain: string, join: (string, string) -> string): Result<seq<string>>
  {
    KeptLinks(Take(es, ENTRIES_PER_PAGE), domain, join)
  }

  method GetDocsLinks(es: seq<Entry>, domain: string, join: (string, string) -> string)
    returns (r: Result<seq<string>>)
    ensures r == DocsLinks(es, domain, join)
    ensures r.Ok? ==> |r.value| <= ENTRIES_PER_PAGE
  {
    var divs := Take(es, ENTRIES_PER_PAGE);
    var links: seq<string> := [];
    var i := 0;
    PrefixedNil(KeptLinks(divs, domain, join));
    while i < |divs|
      invariant 0 <= i <= |divs|
      invariant |links| <= i
      invariant KeptLinks(divs, domain, join) == Prefixed(links, KeptLinks(divs[i..], domain, join))
    {
      KeptLinksStep(divs, i, domain, join);
      var year := EntryYear(divs[i]);
      if year.None? {
        return Err(ValueError);
      }
      if year.value > LAST_EXCLUDED_YEAR {
        var url := join(domain, divs[i].href);
        PrefixedSnoc(links, url, KeptLinks(divs[i + 1..], domain, join));
        links := links + [url];
      }
      i := i + 1;
    }
    assert divs[i..] == [];
    assert links + [] == links;
    r := Ok(links);
  }

  /** One step of the filter: entry `i` either raises, contributes its link, or
      is passed over. */
  lemma KeptLinksStep(es: seq<Entry>, i: int, domain: string, join: (string, string) -> string)
    requires 0 <= i < |es|
    ensures KeptLinks(es[i..], domain, join) ==
      if EntryYear(es[i]).None? then Err(ValueError)
      else if KeptEntry(es[i]) then Prefixed([join(domain, es[i].href)], KeptLinks(es[i + 1..], domain, join))
      else KeptLinks(es[i + 1..], domain, join)
  {
    var tail := es[i..];
    assert tail[0] == es[i] && tail[1..] == es[i + 1..];
  }

  /** Kept links split over a concatenation of entry lists, so their order is the
      entries' order. */
  lemma {:induction false} KeptLinksAppend(a: seq<Entry>, b: seq<Entry>, domain: string, join: (string, string) -> string)
    ensures KeptLinks(a + b, domain, join) ==
      match KeptLinks(a, domain, join)
      case Err(e) => Err(e)
      case Ok(x) => Prefixed(x, KeptLinks(b, domain, join))
  {
    if a != [] {
      assert (a + b)[0] == a[0] && (a + b)[1..] == a[1..] + b;
      KeptLinksAppend(a[1..], b, domain, join);
      var rest := KeptLinks(a[1..], domain, join);
      if rest.Ok? && KeptEntry(a[0]) {
        var u := join(domain, a[0].href);
        var kb := KeptLinks(b, domain, join);
        if kb.Ok? {
          assert [u] + (rest.value + kb.value) == ([u] + rest.value) + kb.value;
        }
      }
    } else {
      assert a + b == b;
      PrefixedNil(KeptLinks(b, domain, join));
    }
  }

  /** The page raises ValueError exactly when some entry's year does not convert. */
  lemma {:induction false} KeptLinksFails(es: seq<Entry>, domain: string, join: (string, string) -> string)
    ensures KeptLinks(es, domain, join).Err? <==> exists k :: 0 <= k < |es| && EntryYear(es[k]).None?
  {
    if es != [] {
      KeptLinksFails(es[1..], domain, join);
      if exists k :: 0 <= k < |es| && EntryYear(es[k]).None? {
        var k :| 0 <= k < |es| && EntryYear(es[k]).None?;
        if k > 0 {
          assert EntryYear(es[1..][k - 1]).None?;
        }
      }
      if exists k :: 0 <= k < |es[1..]| && EntryYear(es[1..][k]).None? {
        var k :| 0 <= k < |es[1..]| && EntryYear(es[1..][k]).None?;
        assert EntryYear(es[k + 1]).None?;
      }
    }
  }

  /** Entry `k` is published after 2022 and its link joins to `url`. */
  predicate KeptAt(es: seq<Entry>, k: int, domain: string, join: (string, string) -> string, url: string)
  {
    0 <= k < |es| && KeptEntry(es[k]) && url == join(domain, es[k].href)
  }

  /** A link is kept exactly when some entry published after 2022 points to it:
      an entry of 2022 or earlier contributes nothing. */
  lemma {:induction false} KeptLinksMembers(es: seq<Entry>, domain: string, join: (string, string) -> string, url: string)
    requires KeptLinks(es, domain, join).Ok?
    ensures url in KeptLinks(es, domain, join).value <==> exists k :: KeptAt(es, k, domain, join, url)
  {
    if es != [] {
      var tail := es[1..];
      var links := KeptLinks(es, domain, join).value;
      var rest := KeptLinks(tail, domain, join).value;
      KeptLinksMembers(tail, domain, join, url);
      if KeptEntry(es[0]) {
        assert links == [join(domain, es[0].href)] + rest;
        if url == join(domain, es[0].href) {
          assert KeptAt(es, 0, domain, join, url);
        }
      } else {
        assert links == rest;
      }
      if exists k :: KeptAt(es, k, domain, join, url) {
        var k :| KeptAt(es, k, domain, join, url);
        if k > 0 {
          assert KeptAt(tail, k - 1, domain, join, url);
        }
      }
      if exists k :: KeptAt(tail, k, domain, join, url) {
        var k :| KeptAt(tail, k, domain, join, url);
        assert KeptAt(es, k + 1, domain, join, url);
      }
    }
  }

  // ---------------------------------------------------------------------------
  // All pages

  /** `[get_soup(response) for response in responses]`: every page is read before
      any link is looked at, and a page whose fetch failed has no text, which
      BeautifulSoup refuses with TypeError. */
  function Soups(responses: seq<Option<string>>, soup: string -> seq<Entry>): (r: Result<seq<seq<Entry>>>)
    ensures r.Ok? <==> forall i :: 0 <= i < |responses| ==> responses[i].Some?
    ensures r.Err? ==> r.error == TypeError
    ensures r.Ok? ==> |r.value| == |responses|
    ensures r.Ok? ==> forall i :: 0 <= i < |responses| ==> r.value[i] == soup(responses[i].value)
  {
    if responses == [] then Ok([])
    else match responses[0]
      case None => Err(TypeError)
      case Some(html) =>
        var rest := Soups(responses[1..], soup);
        assert forall i :: 1 <= i < |responses| ==> responses[i] == responses[1..][i - 1];
        Prefixed([soup(html)], rest)
  }

  /** `list(chain.from_iterable(get_docs_links(soup) for soup in soups))`: the
      pages' links concatenated in page order; the first page with a year that does
      not convert raises ValueError. */
  function CollectLinks(soups: seq<seq<Entry>>, domain: string, join: (string, string) -> string)
    : (r: Result<seq<string>>)
    ensures r.Ok? ==> |r.value| <= ENTRIES_PER_PAGE * |soups|
  {
    if soups == [] then Ok([])
    else match DocsLinks(soups[0], domain, join)
      case Err(e) => Err(e)
      case Ok(links) => Prefixed(links, CollectLinks(soups[1..], domain, join))
  }

  /** Collected links split over a concatenation of pages, so the links come page
      by page in index order. */
  lemma {:induction false} CollectLinksAppend(a: seq<seq<Entry>>, b: seq<seq<Entry>>, domain: string, join: (string, string) -> string)
    ensures CollectLinks(a + b, domain, join) ==
      match CollectLinks(a, domain, join)
      case Err(e) => Err(e)
      case Ok(x) => Prefixed(x, CollectLinks(b, domain, join))
  {
    if a != [] {
      assert (a + b)[0] == a[0] && (a + b)[1..] == a[1..] + b;
      CollectLinksAppend(a[1..], b, domain, join);
      var first := DocsLinks(a[0], domain, join);
      var rest := CollectLinks(a[1..], domain, join);
      var cb := CollectLinks(b, domain, join);
      if first.Ok? && rest.Ok? && cb.Ok? {
        assert first.value + (rest.value + cb.value) == (first.value + rest.value) + cb.value;
      }
    } else {
      assert a + b == b;
      PrefixedNil(CollectLinks(b, domain, join));
    }
  }

  /** Collecting succeeds exactly when every page's years convert, and then a link
      is collected exactly when it is kept on one of the pages. */
  lemma {:induction false} CollectLinksMembers(soups: seq<seq<Entry>>, domain: string, join: (string, string) -> string, url: string)
    ensures CollectLinks(soups, domain, join).Ok? <==>
      forall p :: 0 <= p < |soups| ==> DocsLinks(soups[p], domain, join).Ok?
    ensures CollectLinks(soups, domain, join).Ok? ==>
      (url in CollectLinks(soups, domain, join).value <==>
       exists p :: 0 <= p < |soups| && url in DocsLinks(soups[p], domain, join).value)
  {
    if soups != [] {
      var tail := soups[1..];
      CollectLinksMembers(tail, domain, join, url);
      assert forall p :: 1 <= p < |soups| ==> soups[p] == tail[p - 1];
      if CollectLinks(soups, domain, join).Ok? {
        if exists p :: 0 <= p < |tail| && url in DocsLinks(tail[p], domain, join).value {
          var p :| 0 <= p < |tail| && url in DocsLinks(tail[p], domain, join).value;
          assert url in DocsLinks(soups[p + 1], domain, join).value;
        }
      }
    }
  }

  // ---------------------------------------------------------------------------
  // Staged file names

  /** `s.split("/")[-1]`: the text after the last '/', or all of `s` without one. */
  function AfterLastSlash(s: string): (r: string)
    ensures '/' !in r
    ensures |r| <= |s| && r == s[|s| - |r|..]
    ensures |r| == |s| || s[|s| - |r| - 1] == '/'
  {
    if s == [] || s[|s| - 1] == '/' then []
    else
      var init := AfterLastSlash(s[..|s| - 1]);
      assert s[..|s| - 1][|s| - 1 - |init|..] + [s[|s| - 1]] == s[|s| - 1 - |init|..];
      init + [s[|s| - 1]]
  }

  /** `t.split("?")[0]`: the text before the first '?', or all of `t` without one. */
  function BeforeFirstQuery(t: string): (r: string)
    ensures '?' !in r
    ensures |r| <= |t| && r == t[..|r|]
    ensures |r| == |t| || t[|r|] == '?'
  {
    if t == [] || t[0] == '?' then []
    else [t[0]] + BeforeFirstQuery(t[1..])
  }

  /** The name a bulletin is saved under: the last path segment of its address
      with any query string cut off. It holds neither '/' nor '?'. */
  function StagedName(url: string): (name: string)
    ensures '/' !in name && '?' !in name
  {
    var segment := AfterLastSlash(url);
    var name := BeforeFirstQuery(segment);
    assert forall c :: c in name ==> c in segment;
    name
  }

  /** `os.path.join("downloads", name)`: a file directly inside the download
      folder. */
  function StagedPath(url: string): (path: string)
    ensures |path| > |DOWNLOAD_FOLDER| && path[..|DOWNLOAD_FOLDER| + 1] == DOWNLOAD_FOLDER + "/"
    ensures '/' !in path[|DOWNLOAD_FOLDER| + 1..]
  {
    var path := DOWNLOAD_FOLDER + "/" + StagedName(url);
    assert path[|DOWNLOAD_FOLDER| + 1..] == StagedName(url);
    path
  }

  // ---------------------------------------------------------------------------
  // The whole download step

  /** `[os.path.join("downloads", name(url)) for url in links]`. */
  function StagedPaths(links: seq<string>): (paths: seq<string>)
    ensures |paths| == |links|
    ensures forall k :: 0 <= k < |links| ==> paths[k] == StagedPath(links[k])
  {
    if links == [] then [] else [StagedPath(links[0])] + StagedPaths(links[1..])
  }

  /** The index pages as `gather` returns them: page i's text, or `None`. */
  function Responses(base: string, fetch: string -> FetchOutcome): (responses: seq<Option<string>>)
    ensures |responses| == PAGE_COUNT
    ensures forall pg :: 0 <= pg < PAGE_COUNT ==> responses[pg] == ParsePage(fetch(IndexUrls(base)[pg]))
  {
    var urls := IndexUrls(base);
    seq(PAGE_COUNT, i requires 0 <= i < PAGE_COUNT => ParsePage(fetch(urls[i])))
  }

  /** The links read from index page `pg` (0-based): TypeError when its fetch
      failed, otherwise `get_docs_links` of its soup. */
  function PageLinks(
    base: string, domain: string, fetch: string -> FetchOutcome, soup: string -> seq<Entry>,
    join: (string, string) -> string, pg: int)
    : Result<seq<string>>
    requires 0 <= pg < PAGE_COUNT
  {
    match ParsePage(fetch(IndexUrls(base)[pg]))
    case None => Err(TypeError)
    case Some(html) => DocsLinks(soup(html), domain, join)
  }

  /** Index page `pg` is read and every bulletin it links to downloads. */
  predicate PageDownloads(
    base: string, domain: string, fetch: string -> FetchOutcome, soup: string -> seq<Entry>,
    join: (string, string) -> string, download: string -> bool, pg: int)
    requires 0 <= pg < PAGE_COUNT
  {
    var links := PageLinks(base, domain, fetch, soup, join, pg);
    links.Ok? && forall url :: url in links.value ==> download(url)
  }

  /** Index page `pg` is read and links to `url`. */
  predicate LinkedFrom(
    base: string, domain: string, fetch: string -> FetchOutcome, soup: string -> seq<Entry>,
    join: (string, string) -> string, pg: int, url: string)
  {
    0 <= pg < PAGE_COUNT && PageLinks(base, domain, fetch, soup, join, pg).Ok?
    && url in PageLinks(base, domain, fetch, soup, join, pg).value
  }

  /** `downland_excel_files` without its I/O: fetch the 64 index pages, read each
      page's links, and save every bulletin under its staged path, in page order.
      `fetch` stands for the request of an index page, `soup` for BeautifulSoup's
      reading of a page into its entries, and `download` for whether fetching one
      bulletin succeeds; a bulletin that fails raises from `raise_for_status`,
      which `gather` passes on.

      It succeeds exactly when every index page is read, every year converts and
      every linked bulletin downloads; a failed index fetch raises TypeError before
      any link is read; and the staged files are exactly the links kept on some
      index page, each under its last path segment. */
  function DownloadExcelFiles(
    base: string, domain: string, fetch: string -> FetchOutcome, soup: string -> seq<Entry>,
    join: (string, string) -> string, download: string -> bool)
    : (r: Result<seq<string>>)
    ensures r.Ok? <==> forall pg :: 0 <= pg < PAGE_COUNT ==> PageDownloads(base, domain, fetch, soup, join, download, pg)
    ensures (exists pg :: 0 <= pg < PAGE_COUNT && ParsePage(fetch(IndexUrls(base)[pg])).None?) ==> r == Err(TypeError)
    ensures r.Ok? ==> |r.value| <= ENTRIES_PER_PAGE * PAGE_COUNT
    ensures r.Ok? ==> forall k :: 0 <= k < |r.value| ==>
      |r.value[k]| > |DOWNLOAD_FOLDER| && r.value[k][..|DOWNLOAD_FOLDER| + 1] == DOWNLOAD_FOLDER + "/" && '/' !in r.value[k][|DOWNLOAD_FOLDER| + 1..]
    ensures r.Ok? ==> forall p :: p in r.value <==>
      exists pg, url :: LinkedFrom(base, domain, fetch, soup, join, pg, url) && p == StagedPath(url)
  {
    var responses := Responses(base, fetch);
    match Soups(responses, soup)
    case Err(e) =>
      UnreadPage(base, domain, fetch, soup, join, download);
      Err(e)
    case Ok(soups) =>
      match CollectLinks(soups, domain, join)
      case Err(e) =>
        UnlinkedPage(base, domain, fetch, soup, join, soups, download);
        Err(e)
      case Ok(links) =>
        DownloadedLinks(base, domain, fetch, soup, join, soups, links, download);
        assert forall p :: p in StagedPaths(links) <==>
          exists pg, url :: LinkedFrom(base, domain, fetch, soup, join, pg, url) && p == StagedPath(url) by {
          forall p {
            StagedLink(base, domain, fetch, soup, join, soups, links, p);
          }
        }
        if forall k :: 0 <= k < |links| ==> download(links[k]) then Ok(StagedPaths(links))
        else Err(ClientError)
  }

  /** An index page that was not read leaves its page without links. */
  lemma UnreadPage(
    base: string, domain: string, fetch: string -> FetchOutcome, soup: string -> seq<Entry>,
    join: (string, string) -> string, download: string -> bool)
    requires Soups(Responses(base, fetch), soup).Err?
    ensures !forall pg :: 0 <= pg < PAGE_COUNT ==> PageDownloads(base, domain, fetch, soup, join, download, pg)
  {
    var responses := Responses(base, fetch);
    var pg :| 0 <= pg < |responses| && responses[pg].None?;
    assert !PageDownloads(base, domain, fetch, soup, join, download, pg);
  }

  /** Once every index page is read, page `pg`'s soup gives `PageLinks`, and
      collecting succeeds exactly when every page's links do. */
  lemma CollectedPages(
    base: string, domain: string, fetch: string -> FetchOutcome, soup: string -> seq<Entry>,
    join: (string, string) -> string, soups: seq<seq<Entry>>)
    requires Soups(Responses(base, fetch), soup) == Ok(soups)
    ensures |soups| == PAGE_COUNT
    ensures forall pg :: 0 <= pg < PAGE_COUNT ==> PageLinks(base, domain, fetch, soup, join, pg) == DocsLinks(soups[pg], domain, join)
    ensures CollectLinks(soups, domain, join).Ok? <==>
      forall pg :: 0 <= pg < PAGE_COUNT ==> PageLinks(base, domain, fetch, soup, join, pg).Ok?
  {
    CollectLinksMembers(soups, domain, join, "");
  }

  /** A page whose year does not convert leaves its page without links. */
  lemma UnlinkedPage(
    base: string, domain: string, fetch: string -> FetchOutcome, soup: string -> seq<Entry>,
    join: (string, string) -> string, soups: seq<seq<Entry>>, download: string -> bool)
    requires Soups(Responses(base, fetch), soup) == Ok(soups)
    requires CollectLinks(soups, domain, join).Err?
    ensures !forall pg :: 0 <= pg < PAGE_COUNT ==> PageDownloads(base, domain, fetch, soup, join, download, pg)
  {
    CollectedPages(base, domain, fetch, soup, join, soups);
    var pg :| 0 <= pg < PAGE_COUNT && PageLinks(base, domain, fetch, soup, join, pg).Err?;
    assert !PageDownloads(base, domain, fetch, soup, join, download, pg);
  }

  /** A link is collected exactly when some index page links to it. */
  lemma CollectedLink(
    base: string, domain: string, fetch: string -> FetchOutcome, soup: string -> seq<Entry>,
    join: (string, string) -> string, soups: seq<seq<Entry>>, links: seq<string>, url: string)
    requires Soups(Responses(base, fetch), soup) == Ok(soups)
    requires CollectLinks(soups, domain, join) == Ok(links)
    ensures url in links <==> exists pg :: LinkedFrom(base, domain, fetch, soup, join, pg, url)
  {
    CollectedPages(base, domain, fetch, soup, join, soups);
    CollectLinksMembers(soups, domain, join, url);
    if url in links {
      var pg :| 0 <= pg < |soups| && url in DocsLinks(soups[pg], domain, join).value;
      assert LinkedFrom(base, domain, fetch, soup, join, pg, url);
    }
    if exists pg :: LinkedFrom(base, domain, fetch, soup, join, pg, url) {
      var pg :| LinkedFrom(base, domain, fetch, soup, join, pg, url);
      assert url in DocsLinks(soups[pg], domain, join).value;
    }
  }

  /** Every collected link downloads exactly when every page's links do. */
  lemma DownloadedLinks(
    base: string, domain: string, fetch: string -> FetchOutcome, soup: string -> seq<Entry>,
    join: (string, string) -> string, soups: seq<seq<Entry>>, links: seq<string>, download: string -> bool)
    requires Soups(Responses(base, fetch), soup) == Ok(soups)
    requires CollectLinks(soups, domain, join) == Ok(links)
    ensures (forall k :: 0 <= k < |links| ==> download(links[k])) <==>
      forall pg :: 0 <= pg < PAGE_COUNT ==> PageDownloads(base, domain, fetch, soup, join, download, pg)
  {
    CollectedPages(base, domain, fetch, soup, join, soups);
    if forall k :: 0 <= k < |links| ==> download(links[k]) {
      forall pg | 0 <= pg < PAGE_COUNT
        ensures PageDownloads(base, domain, fetch, soup, join, download, pg)
      {
        forall url | url in PageLinks(base, domain, fetch, soup, join, pg).value
          ensures download(url)
        {
          assert LinkedFrom(base, domain, fetch, soup, join, pg, url);
          CollectedLink(base, domain, fetch, soup, join, soups, links, url);
          var k :| 0 <= k < |links| && links[k] == url;
        }
      }
    }
    if forall pg :: 0 <= pg < PAGE_COUNT ==> PageDownloads(base, domain, fetch, soup, join, download, pg) {
      forall k | 0 <= k < |links|
        ensures download(links[k])
      {
        CollectedLink(base, domain, fetch, soup, join, soups, links, links[k]);
        var pg :| LinkedFrom(base, domain, fetch, soup, join, pg, links[k]);
        assert PageDownloads(base, domain, fetch, soup, join, download, pg);
      }
    }
  }

  /** A staged path comes from exactly the links whose last segment it names. */
  lemma {:induction false} StagedPathsMembers(links: seq<string>, p: string)
    ensures p in StagedPaths(links) <==> exists url :: url in links && p == StagedPath(url)
  {
    var paths := StagedPaths(links);
    if p in paths {
      var k :| 0 <= k < |paths| && paths[k] == p;
      assert links[k] in links;
    }
    if exists url :: url in links && p == StagedPath(url) {
      var url :| url in links && p == StagedPath(url);
      var k :| 0 <= k < |links| && links[k] == url;
      assert paths[k] == p;
    }
  }

  /** A path is staged exactly when some index page links to a bulletin saved
      under it. */
  lemma StagedLink(
    base: string, domain: string, fetch: string -> FetchOutcome, soup: string -> seq<Entry>,
    join: (string, string) -> string, soups: seq<seq<Entry>>, links: seq<string>, p: string)
    requires Soups(Responses(base, fetch), soup) == Ok(soups)
    requires CollectLinks(soups, domain, join) == Ok(links)
    ensures p in StagedPaths(links) <==>
      exists pg, url :: LinkedFrom(base, domain, fetch, soup, join, pg, url) && p == StagedPath(url)
  {
    StagedPathsMembers(links, p);
    if p in StagedPaths(links) {
      var url :| url in links && p == StagedPath(url);
      CollectedLink(base, domain, fetch, soup, join, soups, links, url);
      var pg :| LinkedFrom(base, domain, fetch, soup, join, pg, url);
    }
    if exists pg, url :: LinkedFrom(base, domain, fetch, soup, join, pg, url) && p == StagedPath(url) {
      var pg, url :| LinkedFrom(base, domain, fetch, soup, join, pg, url) && p == StagedPath(url);
      CollectedLink(base, domain, fetch, soup, join, soups, links, url);
    }
  }
}
