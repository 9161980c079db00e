/**
 * The source-specific scraper of the web scraper function: for one
 * configured source it walks the listing pages, fetches each page with
 * retries and back-off, extracts an opportunity from every container that
 * carries a long enough title and description, keeps those that pass the
 * source's keyword filters, and filters the collected list once more at the end.
 */
module WebScraper {
  import opened Wrappers
  import opened Text
  import opened Dom

  /** The selectors of a source; `deadline` and `location` are optional. */
  datatype SourceSelectors = SourceSelectors(
    container: string,
    title: string,
    description: string,
    link: string,
    deadline: Option<string>,
    location: Option<string>)

  /** `kind` is the pagination `type`; `maxPages` is None when it is not configured. */
  datatype Pagination = Pagination(kind: string, maxPages: Option<int>)

  /** The retry count and the pause between pages, in milliseconds (request headers are left out). */
  datatype RequestConfig = RequestConfig(retries: int, delay: int)

  datatype Filters = Filters(keywords: Option<seq<string>>, excludeKeywords: Option<seq<string>>)

  datatype SourceConfig = SourceConfig(
    name: string,
    baseUrl: string,
    listingPath: string,
    selectors: SourceSelectors,
    pagination: Pagination,
    requestConfig: RequestConfig,
    filters: Filters)

  /** `interface ScrapedOpportunity` (its `category` is never set by this scraper and is left out). */
  datatype ScrapedOpportunity = ScrapedOpportunity(
    title: string,
    description: string,
    deadline: Option<string>,
    location: Option<string>,
    applicationUrl: Option<string>,
    organization: string,
    sourceUrl: string)

  const MinTitleLength: nat := 10
  const MinDescriptionLength: nat := 30
  const DefaultMaxPages: int := 5
  /** The wait after a failed attempt is this many milliseconds times the attempt number. */
  const BackoffStep: nat := 1000

  /** What one `scrapePage` call yields, and how many fetches it made. */
  datatype PageOutcome = PageOutcome(result: Result<seq<ScrapedOpportunity>, Error>, attempts: nat)

  /** What one `scrapeOpportunities` call collects before its final filter, with the request and wait logs after it. */
  datatype Crawl = Crawl(result: Result<seq<ScrapedOpportunity>, Error>, requests: seq<string>, sleeps: seq<int>)

  /** `n` fetches of the same URL. */
  function Repeat(url: string, n: nat): (r: seq<string>)
    ensures |r| == n
    ensures forall k :: 0 <= k < n ==> r[k] == url
  {
    if n == 0 then [] else Repeat(url, n - 1) + [url]
  }

  /** The waits after the first `n` failed attempts: 1000, 2000, ... milliseconds. */
  function Backoff(n: nat): (r: seq<int>)
    ensures |r| == n
    ensures forall k :: 0 <= k < n ==> r[k] == BackoffStep * (k + 1)
  {
    if n == 0 then [] else Backoff(n - 1) + [BackoffStep * n]
  }

  /** The waits of a page fetch that made `attempts` attempts: one after each attempt but the last. */
  function RetrySleeps(attempts: nat): seq<int> {
    if attempts == 0 then [] else Backoff(attempts - 1)
  }

  /** The page of the `i`-th response loads. */
  predicate Loads(responses: nat -> Fetch, i: nat) {
    Load(responses(i)).Ok?
  }

  /** The first of the responses with an index from `start` up to `end` (exclusive) whose page loads, if any. */
  function FirstLoad(responses: nat -> Fetch, start: nat, end: nat): (k: Option<nat>)
    ensures k.Some? ==> start <= k.value < end && Loads(responses, k.value)
                        && forall i :: start <= i < k.value ==> !Loads(responses, i)
    ensures k.None? ==> forall i :: start <= i < end ==> !Loads(responses, i)
    decreases end
  {
    if end <= start then None
    else
      var k := FirstLoad(responses, start, end - 1);
      if k.Some? then k
      else if Loads(responses, end - 1) then Some(end - 1)
      else None
  }

  class SourceSpecificScraper {
    const config: SourceConfig

    constructor (config: SourceConfig)
      ensures this.config == config
    {
      this.config := config;
    }

    /** `maxPages || 5`: an absent or zero page limit means five pages. */
    function MaxPages(): int {
      if config.pagination.maxPages.None? || config.pagination.maxPages.value == 0 then DefaultMaxPages
      else config.pagination.maxPages.value
    }

    /**
     * The page limit is never zero, is five when none is configured, and
     * lets the loop fetch no page only when a negative limit is configured.
     */
    lemma PageLimit()
      ensures MaxPages() != 0
      ensures config.pagination.maxPages.None? ==> MaxPages() == DefaultMaxPages
      ensures MaxPages() < 1 <==> config.pagination.maxPages.Some? && config.pagination.maxPages.value < 0
    {
    }

    /** The listing URL, with a `page` query parameter only under URL pagination. */
    function BuildPageUrl(page: nat): (url: string)
      ensures StartsWith(url, config.baseUrl + config.listingPath)
      ensures config.pagination.kind != "url" ==> url == config.baseUrl + config.listingPath
      ensures config.pagination.kind == "url" ==> url == config.baseUrl + config.listingPath + "?page=" + NatToString(page)
    {
      var listing := config.baseUrl + config.listingPath;
      if config.pagination.kind == "url" then
        var url := listing + "?page=" + NatToString(page);
        assert url[..|listing|] == listing;
        url
      else listing
    }

    /** Under URL pagination different pages are fetched from different URLs. */
    lemma PageUrlsDistinct(p: nat, q: nat)
      requires config.pagination.kind == "url" && p != q
      ensures BuildPageUrl(p) != BuildPageUrl(q)
    {
      var head := config.baseUrl + config.listingPath + "?page=";
      if BuildPageUrl(p) == BuildPageUrl(q) {
        assert BuildPageUrl(p)[|head|..] == NatToString(p);
        assert BuildPageUrl(q)[|head|..] == NatToString(q);
        NatToStringInjective(p, q);
      }
    }

    /** The optional `el.textContent?.trim()` of a configured optional selector. */
    function OptionalText(c: Element, sel: Option<string>): (t: Option<string>)
      ensures t.Some? <==> sel.Some? && sel.value != "" && Query(c, sel.value).Some?
      ensures t.Some? ==> t.value == Trim(Query(c, sel.value).value.text)
    {
      if sel.Some? && sel.value != "" then
        var el := Query(c, sel.value);
        if el.Some? then Some(Trim(el.value.text)) else None
      else None
    }

    /** The application URL: an `href` starting with "http" as it is, any other non-empty one after the base URL. */
    function ApplicationUrl(link: Option<Element>): (u: Option<string>)
      ensures u.Some? <==> link.Some? && link.value.href.Some? && link.value.href.value != ""
      ensures u.Some? && StartsWith(link.value.href.value, "http") ==> u.value == link.value.href.value
      ensures u.Some? && !StartsWith(link.value.href.value, "http") ==> u.value == config.baseUrl + link.value.href.value
    {
      if link.Some? && link.value.href.Some? && link.value.href.value != "" then
        var href := link.value.href.value;
        Some(if StartsWith(href, "http") then href else config.baseUrl + href)
      else None
    }

    /** `extractOpportunityFromContainer`. */
    function ExtractOpportunityFromContainer(c: Element): (r: Option<ScrapedOpportunity>)
      ensures r.Some? ==> |r.value.title| >= MinTitleLength && |r.value.description| >= MinDescriptionLength
      ensures r.Some? ==> r.value.organization == config.name && r.value.sourceUrl == config.baseUrl + config.listingPath
      ensures Query(c, config.selectors.title).None? || Query(c, config.selectors.description).None? ==> r.None?
    {
      var titleEl := Query(c, config.selectors.title);
      var descEl := Query(c, config.selectors.description);
      if titleEl.None? || descEl.None? then None
      else
        var title := Trim(titleEl.value.text);
        var description := Trim(descEl.value.text);
        if |title| < MinTitleLength || |description| < MinDescriptionLength then None
        else
          Some(ScrapedOpportunity(
            title,
            description,
            OptionalText(c, config.selectors.deadline),
            OptionalText(c, config.selectors.location),
            ApplicationUrl(Query(c, config.selectors.link)),
            config.name,
            config.baseUrl + config.listingPath))
    }

    /**
     * An opportunity is extracted exactly when the container has a title of
     * at least 10 and a description of at least 30 characters after
     * trimming; it carries the source's name and listing URL, and the
     * optional fields come from their selectors.
     */
    lemma ExtractedFields(c: Element)
      ensures ExtractOpportunityFromContainer(c).Some? <==>
              && Query(c, config.selectors.title).Some?
              && Query(c, config.selectors.description).Some?
              && |Trim(Query(c, config.selectors.title).value.text)| >= MinTitleLength
              && |Trim(Query(c, config.selectors.description).value.text)| >= MinDescriptionLength
      ensures var r := ExtractOpportunityFromContainer(c);
              r.Some? ==>
              && r.value.title == Trim(Query(c, config.selectors.title).value.text)
              && r.value.description == Trim(Query(c, config.selectors.description).value.text)
              && r.value.organization == config.name
              && r.value.sourceUrl == config.baseUrl + config.listingPath
              && r.value.deadline == OptionalText(c, config.selectors.deadline)
              && r.value.location == OptionalText(c, config.selectors.location)
              && r.value.applicationUrl == ApplicationUrl(Query(c, config.selectors.link))
    {
    }

    /** The keyword occurs in the title or the description, ignoring case. */
    predicate Mentions(o: ScrapedOpportunity, keyword: string) {
      ContainsIgnoreCase(o.title + " " + o.description, keyword)
    }

    /**
     * The filters: no exclude keyword may occur, and when include keywords
     * are given at least one of them must. An excluded keyword rejects the
     * opportunity whatever the include keywords say.
     */
    predicate Valid(o: ScrapedOpportunity) {
      && (config.filters.excludeKeywords.Some? ==>
            forall k :: 0 <= k < |config.filters.excludeKeywords.value| ==> !Mentions(o, config.filters.excludeKeywords.value[k]))
      && (config.filters.keywords.Some? && |config.filters.keywords.value| > 0 ==>
            exists k :: 0 <= k < |config.filters.keywords.value| && Mentions(o, config.filters.keywords.value[k]))
    }

    /**
     * The empty keyword occurs in every text: as an excluded keyword it
     * rejects every opportunity, and as a required keyword, with nothing
     * excluded, it admits every one.
     */
    lemma EmptyKeyword(o: ScrapedOpportunity)
      ensures config.filters.excludeKeywords.Some? && "" in config.filters.excludeKeywords.value ==> !Valid(o)
      ensures ((config.filters.excludeKeywords.None? || config.filters.excludeKeywords.value == [])
               && config.filters.keywords.Some? && "" in config.filters.keywords.value) ==> Valid(o)
      ensures ((config.filters.excludeKeywords.None? || config.filters.excludeKeywords.value == [])
               && (config.filters.keywords.None? || config.filters.keywords.value == [])) ==> Valid(o)
    {
      ContainsEmpty(o.title + " " + o.description);
      assert Mentions(o, "");
      if config.filters.excludeKeywords.Some? && "" in config.filters.excludeKeywords.value {
        var k :| 0 <= k < |config.filters.excludeKeywords.value| && config.filters.excludeKeywords.value[k] == "";
      }
      if config.filters.keywords.Some? && "" in config.filters.keywords.value {
        var k :| 0 <= k < |config.filters.keywords.value| && config.filters.keywords.value[k] == "";
      }
    }

    /** `isValidOpportunity`, with its loop over the exclude keywords. */
    method IsValidOpportunity(o: ScrapedOpportunity) returns (valid: bool)
      ensures valid == Valid(o)
    {
      if config.filters.excludeKeywords.Some? {
        var exclude := config.filters.excludeKeywords.value;
        for i := 0 to |exclude|
          invariant forall k :: 0 <= k < i ==> !Mentions(o, exclude[k])
        {
          if Mentions(o, exclude[i]) {
            return false;
          }
        }
      }
      if config.filters.keywords.Some? && |config.filters.keywords.value| > 0 {
        var keywords := config.filters.keywords.value;
        var hasMatchingKeyword := exists k :: 0 <= k < |keywords| && Mentions(o, keywords[k]);
        if !hasMatchingKeyword {
          return false;
        }
      }
      return true;
    }

    /** `filterOpportunities`: the valid opportunities, in order. */
    function Filter(os: seq<ScrapedOpportunity>): (r: seq<ScrapedOpportunity>)
      ensures |r| <= |os|
      ensures forall k :: 0 <= k < |r| ==> Valid(r[k]) && r[k] in os
      ensures forall o :: o in os && Valid(o) ==> o in r
    {
      if os == [] then []
      else
        var init := os[..|os| - 1];
        var last := os[|os| - 1];
        assert forall o :: o in os ==> o in init || o == last;
        Filter(init) + (if Valid(last) then [last] else [])
    }

    /** A list of valid opportunities passes the filter unchanged. */
    lemma {:induction false} FilterKeepsValid(os: seq<ScrapedOpportunity>)
      requires forall k :: 0 <= k < |os| ==> Valid(os[k])
      ensures Filter(os) == os
    {
      if os != [] {
        var init := os[..|os| - 1];
        var last := os[|os| - 1];
        assert forall k :: 0 <= k < |init| ==> init[k] == os[k];
        FilterKeepsValid(init);
        assert Filter(os) == init + [last];
        SplitLast(os);
      }
    }

    /** Filtering twice is filtering once. */
    lemma FilterIdempotent(os: seq<ScrapedOpportunity>)
      ensures Filter(Filter(os)) == Filter(os)
    {
      FilterKeepsValid(Filter(os));
    }

    /** The filter decides element by element. */
    lemma {:induction false} FilterAppend(a: seq<ScrapedOpportunity>, b: seq<ScrapedOpportunity>)
      ensures Filter(a + b) == Filter(a) + Filter(b)
      decreases |b|
    {
      if b == [] {
        assert a + b == a;
      } else {
        var b' := b[..|b| - 1];
        assert (a + b)[..|a + b| - 1] == a + b';
        FilterAppend(a, b');
      }
    }

    /** The opportunities `scrapePage` keeps from `containers`: extracted and valid, in document order. */
    function PageItems(containers: seq<Element>): (r: seq<ScrapedOpportunity>)
      ensures |r| <= |containers|
    {
      if containers == [] then []
      else
        var o := ExtractOpportunityFromContainer(containers[|containers| - 1]);
        PageItems(containers[..|containers| - 1]) + (if o.Some? && Valid(o.value) then [o.value] else [])
    }

    /** The items of the first i + 1 containers are those of the first i, then what container i yields. */
    lemma PageItemsPrefix(containers: seq<Element>, i: nat)
      requires i < |containers|
      ensures var o := ExtractOpportunityFromContainer(containers[i]);
              PageItems(containers[..i + 1]) == PageItems(containers[..i]) + (if o.Some? && Valid(o.value) then [o.value] else [])
    {
      assert containers[..i + 1][..i] == containers[..i] && containers[..i + 1][i] == containers[i];
    }

    /** Every opportunity a page yields passes the filters. */
    lemma {:induction false} PageItemsValid(containers: seq<Element>)
      ensures forall k :: 0 <= k < |PageItems(containers)| ==> Valid(PageItems(containers)[k])
    {
      if containers != [] {
        PageItemsValid(containers[..|containers| - 1]);
      }
    }

    /** Containers are handled one at a time: the items of two runs of containers are the two lists joined. */
    lemma {:induction false} PageItemsAppend(a: seq<Element>, b: seq<Element>)
      ensures PageItems(a + b) == PageItems(a) + PageItems(b)
      decreases |b|
    {
      if b == [] {
        assert a + b == a;
      } else {
        var b', c := b[..|b| - 1], b[|b| - 1];
        assert a + b == (a + b') + [c];
        assert b == b' + [c];
        PageItemsSnoc(a + b', c);
        PageItemsSnoc(b', c);
        PageItemsAppend(a, b');
        AppendAssoc(PageItems(a), PageItems(b'), PageItems([c]));
      }
    }

    /** One more container adds what it yields at the end. */
    lemma PageItemsSnoc(containers: seq<Element>, c: Element)
      ensures PageItems(containers + [c]) == PageItems(containers) + PageItems([c])
    {
      assert (containers + [c])[..|containers|] == containers;
      assert [c][..0] == [];
    }

    /** A page keeps exactly the valid opportunities extracted from its containers. */
    lemma {:induction false} PageItemsMembers(containers: seq<Element>, o: ScrapedOpportunity)
      ensures o in PageItems(containers) <==>
              exists k :: 0 <= k < |containers| && ExtractOpportunityFromContainer(containers[k]) == Some(o) && Valid(o)
      decreases |containers|
    {
      if containers != [] {
        var init := containers[..|containers| - 1];
        var last := ExtractOpportunityFromContainer(containers[|containers| - 1]);
        PageItemsMembers(init, o);
        assert PageItems(containers) == PageItems(init) + (if last.Some? && Valid(last.value) then [last.value] else []);
        if o in PageItems(init) {
          var k :| 0 <= k < |init| && ExtractOpportunityFromContainer(init[k]) == Some(o) && Valid(o);
          assert containers[k] == init[k];
        }
        if k :| 0 <= k < |containers| && ExtractOpportunityFromContainer(containers[k]) == Some(o) && Valid(o) {
          if k < |init| {
            assert init[k] == containers[k];
          }
        }
      }
    }

    /**
     * `scrapePage` from the `start`-th fetch on: the first attempt whose page
     * loads gives its items; when every attempt fails, the last attempt's
     * error; with no attempt allowed, nothing.
     */
    function PageOutcomeOf(responses: nat -> Fetch, start: nat): (p: PageOutcome)
    {
      var retries := config.requestConfig.retries;
      if retries <= 0 then PageOutcome(Ok([]), 0)
      else match FirstLoad(responses, start, start + retries)
        case Some(k) =>
          PageOutcome(Ok(PageItems(QueryAll(Load(responses(k)).value, config.selectors.container))), k - start + 1)
        case None =>
          assert !Loads(responses, start + retries - 1);
          PageOutcome(Err(Load(responses(start + retries - 1)).error), retries)
    }

    /**
     * The retry policy: at most `retries` attempts; an error only once every
     * allowed attempt has failed, and then the last one's; a success from the
     * first attempt that loads, after the failed ones.
     */
    lemma RetryOutcome(responses: nat -> Fetch, start: nat)
      ensures var p := PageOutcomeOf(responses, start); var retries := config.requestConfig.retries;
              && p.attempts <= (if retries > 0 then retries else 0)
              && (retries <= 0 ==> p == PageOutcome(Ok([]), 0))
              && (p.result.Err? ==> p.attempts == retries && Load(responses(start + retries - 1)) == Err(p.result.error))
              && (p.result.Ok? && p.attempts > 0 ==>
                    && Loads(responses, start + p.attempts - 1)
                    && p.result.value == PageItems(QueryAll(Load(responses(start + p.attempts - 1)).value, config.selectors.container)))
      // an error exactly when every allowed attempt fails
      ensures PageOutcomeOf(responses, start).result.Err? <==>
              config.requestConfig.retries > 0
              && forall i :: start <= i < start + config.requestConfig.retries ==> !Loads(responses, i)
      // a success only after every earlier attempt failed
      ensures forall i :: start <= i < start + PageOutcomeOf(responses, start).attempts - 1 ==> !Loads(responses, i)
      ensures PageOutcomeOf(responses, start).result.Ok? ==>
              forall k :: 0 <= k < |PageOutcomeOf(responses, start).result.value| ==> Valid(PageOutcomeOf(responses, start).result.value[k])
    {
      var p := PageOutcomeOf(responses, start);
      if p.result.Ok? && p.attempts > 0 {
        PageItemsValid(QueryAll(Load(responses(start + p.attempts - 1)).value, config.selectors.container));
      }
    }

    /** The outcome of a page fetch whose attempts fail up to the one with index `at`, which loads. */
    lemma PageLoadsAt(responses: nat -> Fetch, start: nat, at: nat)
      requires start <= at < start + config.requestConfig.retries && Loads(responses, at)
      requires forall i :: start <= i < at ==> !Loads(responses, i)
      ensures PageOutcomeOf(responses, start)
              == PageOutcome(Ok(PageItems(QueryAll(Load(responses(at)).value, config.selectors.container))), at - start + 1)
    {
      var first := FirstLoad(responses, start, start + config.requestConfig.retries);
      assert first == Some(at);
    }

    /** The outcome of a page fetch all of whose attempts fail. */
    lemma PageFails(responses: nat -> Fetch, start: nat)
      requires config.requestConfig.retries > 0
      requires forall i :: start <= i < start + config.requestConfig.retries ==> !Loads(responses, i)
      ensures var last := start + config.requestConfig.retries - 1;
              PageOutcomeOf(responses, start) == PageOutcome(Err(Load(responses(last)).error), config.requestConfig.retries)
    {
      assert FirstLoad(responses, start, start + config.requestConfig.retries).None?;
    }

    /** The `containers.forEach` of `scrapePage`: the valid opportunities of a loaded page. */
    method CollectPage(doc: Element) returns (opportunities: seq<ScrapedOpportunity>)
      ensures opportunities == PageItems(QueryAll(doc, config.selectors.container))
    {
      var containers := QueryAll(doc, config.selectors.container);
      opportunities := [];
      for i := 0 to |containers|
        invariant opportunities == PageItems(containers[..i])
      {
        PageItemsPrefix(containers, i);
        var opportunity := ExtractOpportunityFromContainer(containers[i]);
        if opportunity.Some? {
          var valid := IsValidOpportunity(opportunity.value);
          if valid {
            opportunities := opportunities + [opportunity.value];
          }
        }
      }
      assert containers[..|containers|] == containers;
    }

    /** `scrapePage`, with its attempt loop. */
    method ScrapePage(url: string, web: Web) returns (r: Result<seq<ScrapedOpportunity>, Error>)
      modifies web
      ensures var p := PageOutcomeOf(web.responses, |old(web.requests)|);
              && r == p.result
              && web.requests == old(web.requests) + Repeat(url, p.attempts)
              && web.sleeps == old(web.sleeps) + RetrySleeps(p.attempts)
    {
      var retries := config.requestConfig.retries;
      ghost var start := |web.requests|;
      var attempt := 1;
      while attempt <= retries
        invariant 1 <= attempt
        invariant retries >= 1 ==> attempt <= retries
        invariant retries < 1 ==> attempt == 1
        invariant web.requests == old(web.requests) + Repeat(url, attempt - 1)
        invariant web.sleeps == old(web.sleeps) + Backoff(attempt - 1)
        // every fetch so far has failed
        invariant forall i :: start <= i < |web.requests| ==> !Loads(web.responses, i)
        decreases retries - attempt
      {
        ghost var at := |web.requests|;
        var response := web.Get(url);
        assert web.requests == old(web.requests) + Repeat(url, attempt);
        var doc := Load(response);
        if doc.Ok? {
          var opportunities := CollectPage(doc.value);
          PageLoadsAt(web.responses, start, at);
          return Ok(opportunities);
        }
        assert !Loads(web.responses, at);
        if attempt == retries {
          PageFails(web.responses, start);
          return Err(doc.error);
        }
        web.Delay(BackoffStep * attempt);
        assert web.sleeps == old(web.sleeps) + Backoff(attempt);
        attempt := attempt + 1;
      }
      return Ok([]);
    }

    /**
     * The page loop of `scrapeOpportunities` from page `page` on, having
     * collected `found` and with the logs `requests` and `sleeps`: it stops
     * after the last page, at the first page yielding nothing and at the
     * first page whose fetch fails, and waits the configured delay after
     * every page that yields something.
     */
    function CrawlFrom(page: nat, responses: nat -> Fetch, found: seq<ScrapedOpportunity>,
                       requests: seq<string>, sleeps: seq<int>): Crawl
      decreases if page <= MaxPages() then MaxPages() + 1 - page else 0
    {
      if page > MaxPages() then Crawl(Ok(found), requests, sleeps)
      else
        var url := BuildPageUrl(page);
        var p := PageOutcomeOf(responses, |requests|);
        var requests' := requests + Repeat(url, p.attempts);
        var sleeps' := sleeps + RetrySleeps(p.attempts);
        match p.result
        case Err(e) => Crawl(Err(e), requests', sleeps')
        case Ok(items) =>
          if |items| == 0 then Crawl(Ok(found), requests', sleeps')
          else CrawlFrom(page + 1, responses, found + items, requests', sleeps' + [config.requestConfig.delay])
    }

    /** The page loop only appends: to the collected list, to the request log and to the wait log. */
    lemma {:induction false} CrawlExtends(page: nat, responses: nat -> Fetch, found: seq<ScrapedOpportunity>,
                                          requests: seq<string>, sleeps: seq<int>)
      ensures IsPrefix(requests, CrawlFrom(page, responses, found, requests, sleeps).requests)
      ensures IsPrefix(sleeps, CrawlFrom(page, responses, found, requests, sleeps).sleeps)
      ensures CrawlFrom(page, responses, found, requests, sleeps).result.Ok? ==>
              IsPrefix(found, CrawlFrom(page, responses, found, requests, sleeps).result.value)
      // past the last page the loop has ended with what it collected
      ensures page > MaxPages() ==> CrawlFrom(page, responses, found, requests, sleeps) == Crawl(Ok(found), requests, sleeps)
      // a page that yields items appends them, and later pages come after them
      ensures var p := PageOutcomeOf(responses, |requests|);
              page <= MaxPages() && p.result.Ok? && |p.result.value| > 0 && CrawlFrom(page, responses, found, requests, sleeps).result.Ok? ==>
              IsPrefix(found + p.result.value, CrawlFrom(page, responses, found, requests, sleeps).result.value)
      decreases if page <= MaxPages() then MaxPages() + 1 - page else 0
    {
      if page <= MaxPages() {
        var url := BuildPageUrl(page);
        var p := PageOutcomeOf(responses, |requests|);
        var requests' := requests + Repeat(url, p.attempts);
        var sleeps' := sleeps + RetrySleeps(p.attempts);
        AppendExtends(requests, Repeat(url, p.attempts));
        AppendExtends(sleeps, RetrySleeps(p.attempts));
        if p.result.Ok? && |p.result.value| > 0 {
          var found' := found + p.result.value;
          var sleeps'' := sleeps' + [config.requestConfig.delay];
          AppendExtends(found, p.result.value);
          AppendExtends(sleeps', [config.requestConfig.delay]);
          CrawlExtends(page + 1, responses, found', requests', sleeps'');
          var c := CrawlFrom(page + 1, responses, found', requests', sleeps'');
          PrefixTransitive(requests, requests', c.requests);
          PrefixTransitive(sleeps, sleeps', sleeps'');
          PrefixTransitive(sleeps, sleeps'', c.sleeps);
          if c.result.Ok? {
            PrefixTransitive(found, found', c.result.value);
          }
        }
      }
    }

    /**
     * What the page loop collects does not depend on what was collected
     * before it: it is appended after `found`, and the logs are the same.
     */
    lemma {:induction false} CrawlShift(page: nat, responses: nat -> Fetch, found: seq<ScrapedOpportunity>,
                                        requests: seq<string>, sleeps: seq<int>)
      ensures var c := CrawlFrom(page, responses, found, requests, sleeps);
              var c0 := CrawlFrom(page, responses, [], requests, sleeps);
              && c.requests == c0.requests && c.sleeps == c0.sleeps
              && (c.result.Err? <==> c0.result.Err?)
              && (c.result.Err? ==> c.result == c0.result)
              && (c.result.Ok? ==> c.result.value == found + c0.result.value)
      decreases if page <= MaxPages() then MaxPages() + 1 - page else 0
    {
      if page <= MaxPages() {
        var p := PageOutcomeOf(responses, |requests|);
        if p.result.Ok? && |p.result.value| > 0 {
          var items := p.result.value;
          var requests' := requests + Repeat(BuildPageUrl(page), p.attempts);
          var sleeps' := sleeps + RetrySleeps(p.attempts) + [config.requestConfig.delay];
          assert CrawlFrom(page, responses, found, requests, sleeps) == CrawlFrom(page + 1, responses, found + items, requests', sleeps');
          assert [] + items == items;
          assert CrawlFrom(page, responses, [], requests, sleeps) == CrawlFrom(page + 1, responses, items, requests', sleeps');
          CrawlShift(page + 1, responses, found + items, requests', sleeps');
          CrawlShift(page + 1, responses, items, requests', sleeps');
          var rest := CrawlFrom(page + 1, responses, [], requests', sleeps').result;
          if rest.Ok? {
            AppendAssoc(found, items, rest.value);
          }
        }
      }
    }

    /**
     * The pages' items are concatenated in page order: a page that yields
     * items contributes them right after what was collected before it,
     * followed by what the later pages collect on their own.
     */
    lemma CrawlPageOrder(page: nat, responses: nat -> Fetch, found: seq<ScrapedOpportunity>,
                         requests: seq<string>, sleeps: seq<int>)
      requires page <= MaxPages()
      requires PageOutcomeOf(responses, |requests|).result.Ok? && |PageOutcomeOf(responses, |requests|).result.value| > 0
      ensures var p := PageOutcomeOf(responses, |requests|);
              var rest := CrawlFrom(page + 1, responses, [], requests + Repeat(BuildPageUrl(page), p.attempts),
                                    sleeps + RetrySleeps(p.attempts) + [config.requestConfig.delay]);
              var c := CrawlFrom(page, responses, found, requests, sleeps);
              && (c.result.Ok? <==> rest.result.Ok?)
              && (c.result.Ok? ==> c.result.value == found + p.result.value + rest.result.value)
    {
      var p := PageOutcomeOf(responses, |requests|);
      CrawlShift(page + 1, responses, found + p.result.value, requests + Repeat(BuildPageUrl(page), p.attempts),
                 sleeps + RetrySleeps(p.attempts) + [config.requestConfig.delay]);
    }

    /**
     * A page that yields nothing ends the loop with what was collected
     * before it: after its own attempts nothing more is fetched or waited
     * for, and under URL pagination no later page is ever requested.
     */
    lemma EmptyPageStops(page: nat, responses: nat -> Fetch, found: seq<ScrapedOpportunity>,
                         requests: seq<string>, sleeps: seq<int>)
      requires page <= MaxPages()
      requires PageOutcomeOf(responses, |requests|).result == Ok([])
      ensures var p := PageOutcomeOf(responses, |requests|);
              CrawlFrom(page, responses, found, requests, sleeps)
              == Crawl(Ok(found), requests + Repeat(BuildPageUrl(page), p.attempts), sleeps + RetrySleeps(p.attempts))
      ensures config.pagination.kind == "url" ==>
              forall q: nat, k :: page < q && |requests| <= k < |CrawlFrom(page, responses, found, requests, sleeps).requests| ==>
                CrawlFrom(page, responses, found, requests, sleeps).requests[k] != BuildPageUrl(q)
    {
      var p := PageOutcomeOf(responses, |requests|);
      var url := BuildPageUrl(page);
      var c := CrawlFrom(page, responses, found, requests, sleeps);
      assert c.requests == requests + Repeat(url, p.attempts);
      if config.pagination.kind == "url" {
        forall q: nat, k | page < q && |requests| <= k < |c.requests| ensures c.requests[k] != BuildPageUrl(q) {
          assert c.requests[k] == Repeat(url, p.attempts)[k - |requests|] == url;
          PageUrlsDistinct(page, q);
        }
      }
    }

    /** `scrapeOpportunities`: the pages in order, then the filter; a page whose fetch fails ends it with that error. */
    method ScrapeOpportunities(web: Web) returns (r: Result<seq<ScrapedOpportunity>, Error>)
      modifies web
      ensures var c := CrawlFrom(1, web.responses, [], old(web.requests), old(web.sleeps));
              && web.requests == c.requests && web.sleeps == c.sleeps
              && (r.Err? <==> c.result.Err?)
              && (r.Err? ==> r == c.result)
              && (r.Ok? ==> r.value == Filter(c.result.value))
    {
      ghost var c := CrawlFrom(1, web.responses, [], web.requests, web.sleeps);
      var opportunities: seq<ScrapedOpportunity> := [];
      var currentPage: nat := 1;
      while currentPage <= MaxPages()
        invariant CrawlFrom(currentPage, web.responses, opportunities, web.requests, web.sleeps) == c
        decreases MaxPages() + 1 - currentPage
      {
        var pageUrl := BuildPageUrl(currentPage);
        var pageOpportunities := ScrapePage(pageUrl, web);
        if pageOpportunities.Err? {
          return Err(pageOpportunities.error);
        }
        if |pageOpportunities.value| == 0 {
          break;
        }
        opportunities := opportunities + pageOpportunities.value;
        web.Delay(config.requestConfig.delay);
        currentPage := currentPage + 1;
      }
      r := Ok(Filter(opportunities));
    }

    /** Everything the page loop collects passes the filters already. */
    lemma {:induction false} CrawlFoundValid(page: nat, responses: nat -> Fetch, found: seq<ScrapedOpportunity>,
                                             requests: seq<string>, sleeps: seq<int>)
      requires forall k :: 0 <= k < |found| ==> Valid(found[k])
      ensures CrawlFrom(page, responses, found, requests, sleeps).result.Ok? ==>
              forall k :: 0 <= k < |CrawlFrom(page, responses, found, requests, sleeps).result.value| ==>
                Valid(CrawlFrom(page, responses, found, requests, sleeps).result.value[k])
      decreases if page <= MaxPages() then MaxPages() + 1 - page else 0
    {
      if page <= MaxPages() {
        var url := BuildPageUrl(page);
        var p := PageOutcomeOf(responses, |requests|);
        if p.result.Ok? && |p.result.value| > 0 {
          var items := p.result.value;
          RetryOutcome(responses, |requests|);
          assert forall k :: 0 <= k < |found + items| ==> Valid((found + items)[k]) by {
            forall k | 0 <= k < |found + items| ensures Valid((found + items)[k]) {
              if k >= |found| {
                assert (found + items)[k] == items[k - |found|];
              }
            }
          }
          CrawlFoundValid(page + 1, responses, found + items,
                          requests + Repeat(url, p.attempts), sleeps + RetrySleeps(p.attempts) + [config.requestConfig.delay]);
        }
      }
    }

    /** The final filter of `scrapeOpportunities` removes nothing: every page already kept only valid opportunities. */
    lemma FinalFilterKeepsAll(responses: nat -> Fetch, requests: seq<string>, sleeps: seq<int>)
      ensures var c := CrawlFrom(1, responses, [], requests, sleeps);
              c.result.Ok? ==> Filter(c.result.value) == c.result.value
    {
      CrawlFoundValid(1, responses, [], requests, sleeps);
      var c := CrawlFrom(1, responses, [], requests, sleeps);
      if c.result.Ok? {
        FilterKeepsValid(c.result.value);
      }
    }

    /** Every URL the page loop fetches is the URL of a page between `page` and the page limit. */
    lemma {:induction false} CrawlRequestsArePages(page: nat, responses: nat -> Fetch, found: seq<ScrapedOpportunity>,
                                                   requests: seq<string>, sleeps: seq<int>, k: nat)
      requires |requests| <= k < |CrawlFrom(page, responses, found, requests, sleeps).requests|
      ensures exists q :: page <= q <= MaxPages() && CrawlFrom(page, responses, found, requests, sleeps).requests[k] == BuildPageUrl(q)
      decreases if page <= MaxPages() then MaxPages() + 1 - page else 0
    {
      var c := CrawlFrom(page, responses, found, requests, sleeps);
      var url := BuildPageUrl(page);
      var p := PageOutcomeOf(responses, |requests|);
      var requests' := requests + Repeat(url, p.attempts);
      var sleeps' := sleeps + RetrySleeps(p.attempts) + [config.requestConfig.delay];
      var next := page + 1;
      if p.result.Err? || |p.result.value| == 0 {
        assert c.requests == requests';
        assert c.requests[k] == url;
      } else {
        var found' := found + p.result.value;
        assert c == CrawlFrom(next, responses, found', requests', sleeps');
        if k < |requests'| {
          CrawlExtends(next, responses, found', requests', sleeps');
          assert c.requests[k] == c.requests[..|requests'|][k];
          assert c.requests[k] == url;
        } else {
          CrawlRequestsArePages(next, responses, found', requests', sleeps', k);
        }
      }
    }

    /** The waits of a page's own attempts are a prefix of the wait log of the loop from that page on. */
    lemma CrawlKeepsPageSleeps(page: nat, responses: nat -> Fetch, found: seq<ScrapedOpportunity>,
                               requests: seq<string>, sleeps: seq<int>)
      requires page <= MaxPages()
      ensures IsPrefix(sleeps + RetrySleeps(PageOutcomeOf(responses, |requests|).attempts),
                       CrawlFrom(page, responses, found, requests, sleeps).sleeps)
      // a page that yields something is followed by one wait of the configured delay
      ensures var p := PageOutcomeOf(responses, |requests|);
              p.result.Ok? && |p.result.value| > 0 ==>
              IsPrefix(sleeps + RetrySleeps(p.attempts) + [config.requestConfig.delay],
                       CrawlFrom(page, responses, found, requests, sleeps).sleeps)
    {
      var c := CrawlFrom(page, responses, found, requests, sleeps);
      var p := PageOutcomeOf(responses, |requests|);
      var requests' := requests + Repeat(BuildPageUrl(page), p.attempts);
      var sleeps' := sleeps + RetrySleeps(p.attempts);
      if p.result.Err? || |p.result.value| == 0 {
        assert c.sleeps == sleeps';
        AppendExtends(sleeps', []);
        assert sleeps' + [] == sleeps';
      } else {
        var sleeps'' := sleeps' + [config.requestConfig.delay];
        assert c == CrawlFrom(page + 1, responses, found + p.result.value, requests', sleeps'');
        CrawlExtends(page + 1, responses, found + p.result.value, requests', sleeps'');
        AppendExtends(sleeps', [config.requestConfig.delay]);
        PrefixTransitive(sleeps', sleeps'', c.sleeps);
      }
    }

    /**
     * A page whose fetch fails on every attempt ends the loop with that
     * error: the pages collected before it are dropped, and nothing more is
     * fetched or waited for after its own attempts.
     */
    lemma PageErrorStops(page: nat, responses: nat -> Fetch, found: seq<ScrapedOpportunity>,
                         requests: seq<string>, sleeps: seq<int>)
      requires page <= MaxPages()
      requires PageOutcomeOf(responses, |requests|).result.Err?
      ensures var p := PageOutcomeOf(responses, |requests|);
              CrawlFrom(page, responses, found, requests, sleeps)
              == Crawl(p.result, requests + Repeat(BuildPageUrl(page), p.attempts), sleeps + RetrySleeps(p.attempts))
    {
    }

    /** A wait among a page's own retries is the back-off after its failed attempt `k - |sleeps| + 1`. */
    lemma CrawlSleepsRetry(page: nat, responses: nat -> Fetch, found: seq<ScrapedOpportunity>,
                           requests: seq<string>, sleeps: seq<int>, k: nat)
      requires page <= MaxPages()
      requires |sleeps| <= k < |sleeps| + |RetrySleeps(PageOutcomeOf(responses, |requests|).attempts)|
      ensures 1 <= k - |sleeps| + 1 < config.requestConfig.retries
      ensures k < |CrawlFrom(page, responses, found, requests, sleeps).sleeps|
              && CrawlFrom(page, responses, found, requests, sleeps).sleeps[k] == BackoffStep * (k - |sleeps| + 1)
    {
      var c := CrawlFrom(page, responses, found, requests, sleeps);
      var p := PageOutcomeOf(responses, |requests|);
      RetryOutcome(responses, |requests|);
      var sleeps' := sleeps + RetrySleeps(p.attempts);
      CrawlKeepsPageSleeps(page, responses, found, requests, sleeps);
      assert c.sleeps[k] == c.sleeps[..|sleeps'|][k] == sleeps'[k];
      assert sleeps'[k] == Backoff(p.attempts - 1)[k - |sleeps|];
    }

    /** Every wait of the page loop is a retry back-off of 1000 times a failed attempt's number, or the configured delay. */
    lemma {:induction false} CrawlSleeps(page: nat, responses: nat -> Fetch, found: seq<ScrapedOpportunity>,
                                         requests: seq<string>, sleeps: seq<int>, k: nat)
      requires |sleeps| <= k < |CrawlFrom(page, responses, found, requests, sleeps).sleeps|
      ensures CrawlFrom(page, responses, found, requests, sleeps).sleeps[k] == config.requestConfig.delay
              || exists a :: 1 <= a < config.requestConfig.retries
                             && CrawlFrom(page, responses, found, requests, sleeps).sleeps[k] == BackoffStep * a
      decreases if page <= MaxPages() then MaxPages() + 1 - page else 0
    {
      var c := CrawlFrom(page, responses, found, requests, sleeps);
      var url := BuildPageUrl(page);
      var p := PageOutcomeOf(responses, |requests|);
      RetryOutcome(responses, |requests|);
      var requests' := requests + Repeat(url, p.attempts);
      var sleeps' := sleeps + RetrySleeps(p.attempts);
      var next := page + 1;
      if k < |sleeps'| {
        CrawlSleepsRetry(page, responses, found, requests, sleeps, k);
      } else {
        var found' := found + p.result.value;
        var sleeps'' := sleeps' + [config.requestConfig.delay];
        assert c == CrawlFrom(next, responses, found', requests', sleeps'');
        if k == |sleeps'| {
          CrawlExtends(next, responses, found', requests', sleeps'');
          assert c.sleeps[k] == c.sleeps[..|sleeps''|][k] == sleeps''[k];
        } else {
          CrawlSleeps(next, responses, found', requests', sleeps'', k);
        }
      }
    }
  }
}
