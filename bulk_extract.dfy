/**
 * The extraction half of the bulk job scraper: turning one container element
 * of a listing page into a job listing (`extractJobFromContainer`) and one
 * fetched listing page into the listings of all its containers (`scrapeWebsite`).
 */
module BulkExtract {
  import opened Wrappers
  import opened Text
  import opened Dom

  /**
   * The selector strings of one site. A selector the stored configuration
   * leaves out reaches `querySelector` as the string "undefined", which is
   * an ordinary selector here.
   */
  datatype Selectors = Selectors(
    container: string,
    title: string,
    company: string,
    location: string,
    date: string,
    url: string,
    description: string,
    tags: string)

  /** One entry of a bulk configuration's `websites` list. */
  datatype Website = Website(name: string, url: string, selectors: Selectors)

  /** `interface JobListing`. */
  datatype JobListing = JobListing(
    title: string,
    company: string,
    location: Option<string>,
    tags: seq<string>,
    postedDate: string,
    jobUrl: string,
    description: Option<string>,
    source: string)

  const DescriptionCap: nat := 500
  const DefaultPostedDate: string := "Just posted"

  /** The trimmed, non-empty texts of the tag elements `els`, in document order. */
  function TagTexts(els: seq<Element>): (r: seq<string>)
    ensures |r| <= |els|
    ensures forall k :: 0 <= k < |r| ==> r[k] != "" && Trim(r[k]) == r[k]
  {
    if els == [] then []
    else
      var t := Trim(els[|els| - 1].text);
      TrimIdempotent(els[|els| - 1].text);
      TagTexts(els[..|els| - 1]) + (if t != "" then [t] else [])
  }

  /** Tags are collected element by element: the tags of two runs of elements are the two lists joined. */
  lemma {:induction false} TagTextsAppend(a: seq<Element>, b: seq<Element>)
    ensures TagTexts(a + b) == TagTexts(a) + TagTexts(b)
    decreases |b|
  {
    if b != [] {
      var b' := b[..|b| - 1];
      assert (a + b)[..|a + b| - 1] == a + b';
      TagTextsAppend(a, b');
    } else {
      assert a + b == a;
    }
  }

  /** A string is a tag exactly when it is the non-empty trimmed text of one of the tag elements. */
  lemma {:induction false} TagTextsMembers(els: seq<Element>, t: string)
    ensures t in TagTexts(els) <==> t != "" && exists k :: 0 <= k < |els| && Trim(els[k].text) == t
  {
    if els != [] {
      var init := els[..|els| - 1];
      TagTextsMembers(init, t);
      if t != "" && (exists k :: 0 <= k < |els| && Trim(els[k].text) == t) {
        var k :| 0 <= k < |els| && Trim(els[k].text) == t;
        if k < |init| {
          assert init[k] == els[k];
        }
      }
      if t in TagTexts(init) {
        var k :| 0 <= k < |init| && Trim(init[k].text) == t;
        assert els[k] == init[k];
      }
    }
  }

  /**
   * The URL part of `extractJobFromContainer`: an `href` starting with "http"
   * is kept, any other non-empty `href` is put after the origin of the site's
   * URL (Err when that URL does not parse), and without a link element or a
   * non-empty `href` the listing page's own URL is used.
   */
  function JobUrl(link: Option<Element>, website: Website, origin: string -> Option<string>): (r: Result<string, Error>)
    ensures (link.None? || link.value.href.None? || link.value.href.value == "") ==> r == Ok(website.url)
    ensures link.Some? && link.value.href.Some? && StartsWith(link.value.href.value, "http") ==> r == Ok(link.value.href.value)
    ensures link.Some? && link.value.href.Some? && link.value.href.value != "" && !StartsWith(link.value.href.value, "http") ==>
      if origin(website.url).None? then r == Err(InvalidUrl(website.url))
      else r == Ok(origin(website.url).value + link.value.href.value)
    ensures r.Ok? && website.url != "" ==> r.value != ""
  {
    if link.Some? && link.value.href.Some? && link.value.href.value != "" then
      var href := link.value.href.value;
      if StartsWith(href, "http") then Ok(href)
      else if origin(website.url).None? then Err(InvalidUrl(website.url))
      else Ok(origin(website.url).value + href)
    else
      Ok(website.url)
  }

  /** The optional text `el?.textContent?.trim()`. */
  function TrimmedText(el: Option<Element>): Option<string> {
    if el.Some? then Some(Trim(el.value.text)) else None
  }

  /** `dateEl?.textContent?.trim() || 'Just posted'`: never empty, and the default exactly when there is no date text. */
  function PostedDate(dateEl: Option<Element>): (d: string)
    ensures d != ""
    ensures var t := TrimmedText(dateEl); if t.Some? && t.value != "" then d == t.value else d == DefaultPostedDate
  {
    var t := TrimmedText(dateEl);
    if t.Some? && t.value != "" then t.value else DefaultPostedDate
  }

  /** `descEl?.textContent?.trim()?.substring(0, 500)`: present with the element, at most 500 characters, a prefix of the trimmed text. */
  function Description(descEl: Option<Element>): (d: Option<string>)
    ensures d.Some? <==> descEl.Some?
    ensures d.Some? ==> |d.value| <= DescriptionCap && IsPrefix(d.value, Trim(descEl.value.text))
    ensures d.Some? && |Trim(descEl.value.text)| <= DescriptionCap ==> d.value == Trim(descEl.value.text)
  {
    if descEl.Some? then Some(Take(Trim(descEl.value.text), DescriptionCap)) else None
  }

  /**
   * `extractJobFromContainer`: Ok(None) for a container the source returns
   * null for, Err for one on which it throws, Ok(Some(job)) otherwise.
   */
  function JobFromContainer(c: Element, website: Website, origin: string -> Option<string>): (r: Result<Option<JobListing>, Error>)
    // title and company are required, after trimming
    ensures (|| Query(c, website.selectors.title).None?
             || Query(c, website.selectors.company).None?
             || Trim(Query(c, website.selectors.title).value.text) == ""
             || Trim(Query(c, website.selectors.company).value.text) == "")
            ==> r == Ok(None)
    ensures r.Ok? && r.value.Some? ==>
      var job := r.value.value;
      && job.title != "" && job.company != ""
      && Some(job.title) == TrimmedText(Query(c, website.selectors.title))
      && Some(job.company) == TrimmedText(Query(c, website.selectors.company))
      && job.location == TrimmedText(Query(c, website.selectors.location))
      && job.tags == TagTexts(QueryAll(c, website.selectors.tags))
      && job.source == website.name
      && Ok(job.jobUrl) == JobUrl(Query(c, website.selectors.url), website, origin)
    ensures r.Ok? && r.value.Some? ==>
      && r.value.value.description == Description(Query(c, website.selectors.description))
      && r.value.value.postedDate == PostedDate(Query(c, website.selectors.date))
    // only a relative link on a site whose URL does not parse throws
    ensures r.Err? <==> (&& Query(c, website.selectors.title).Some?
                         && Query(c, website.selectors.company).Some?
                         && Trim(Query(c, website.selectors.title).value.text) != ""
                         && Trim(Query(c, website.selectors.company).value.text) != ""
                         && JobUrl(Query(c, website.selectors.url), website, origin).Err?)
    // a container with a title, a company and a resolvable link always yields its listing
    ensures (&& Query(c, website.selectors.title).Some?
             && Query(c, website.selectors.company).Some?
             && Trim(Query(c, website.selectors.title).value.text) != ""
             && Trim(Query(c, website.selectors.company).value.text) != ""
             && JobUrl(Query(c, website.selectors.url), website, origin).Ok?)
            ==> r.Ok? && r.value.Some?
  {
    var sel := website.selectors;
    var titleEl := Query(c, sel.title);
    var companyEl := Query(c, sel.company);
    if titleEl.None? || companyEl.None? then Ok(None)
    else
      var title := Trim(titleEl.value.text);
      var company := Trim(companyEl.value.text);
      if title == "" || company == "" then Ok(None)
      else
        match JobUrl(Query(c, sel.url), website, origin)
        case Err(e) => Err(e)
        case Ok(jobUrl) =>
          Ok(Some(JobListing(
            title,
            company,
            TrimmedText(Query(c, sel.location)),
            TagTexts(QueryAll(c, sel.tags)),
            PostedDate(Query(c, sel.date)),
            jobUrl,
            Description(Query(c, sel.description)),
            website.name)))
  }

  /** `extractJobFromContainer`, with its `tags.push` loop. */
  method ExtractJobFromContainer(c: Element, website: Website, origin: string -> Option<string>)
    returns (r: Result<Option<JobListing>, Error>)
    ensures r == JobFromContainer(c, website, origin)
  {
    var sel := website.selectors;
    var titleEl := Query(c, sel.title);
    var companyEl := Query(c, sel.company);
    if titleEl.None? || companyEl.None? {
      return Ok(None);
    }
    var title := Trim(titleEl.value.text);
    var company := Trim(companyEl.value.text);
    if title == "" || company == "" {
      return Ok(None);
    }

    var tags: seq<string> := [];
    var tagElements := QueryAll(c, sel.tags);
    for i := 0 to |tagElements|
      invariant tags == TagTexts(tagElements[..i])
    {
      assert tagElements[..i + 1][..i] == tagElements[..i];
      var tag := Trim(tagElements[i].text);
      if tag != "" {
        tags := tags + [tag];
      }
    }
    assert tagElements[..|tagElements|] == tagElements;

    var urlEl := Query(c, sel.url);
    var jobUrl := "";
    if urlEl.Some? {
      var href := urlEl.value.href;
      if href.Some? && href.value != "" {
        if StartsWith(href.value, "http") {
          jobUrl := href.value;
        } else {
          var o := origin(website.url);
          if o.None? {
            return Err(InvalidUrl(website.url));
          }
          jobUrl := o.value + href.value;
        }
      }
    }

    r := Ok(Some(JobListing(
      title,
      company,
      TrimmedText(Query(c, sel.location)),
      tags,
      PostedDate(Query(c, sel.date)),
      if jobUrl != "" then jobUrl else website.url,
      Description(Query(c, sel.description)),
      website.name)));
  }

  /** Whether `scrapeWebsite` keeps an extraction outcome: a listing with a title and a company. */
  predicate Kept(r: Result<Option<JobListing>, Error>) {
    r.Ok? && r.value.Some? && r.value.value.title != "" && r.value.value.company != ""
  }

  /** The listings `scrapeWebsite` collects from `containers`, one pass in container order. */
  function JobsFrom(containers: seq<Element>, website: Website, origin: string -> Option<string>): (jobs: seq<JobListing>)
    ensures |jobs| <= |containers|
    ensures forall k :: 0 <= k < |jobs| ==> jobs[k].title != "" && jobs[k].company != ""
  {
    if containers == [] then []
    else
      var r := JobFromContainer(containers[|containers| - 1], website, origin);
      JobsFrom(containers[..|containers| - 1], website, origin) + (if Kept(r) then [r.value.value] else [])
  }

  /** The listings of the first i + 1 containers are those of the first i, then what container i yields. */
  lemma JobsFromPrefix(containers: seq<Element>, i: nat, website: Website, origin: string -> Option<string>)
    requires i < |containers|
    ensures var r := JobFromContainer(containers[i], website, origin);
            JobsFrom(containers[..i + 1], website, origin) == JobsFrom(containers[..i], website, origin) + (if Kept(r) then [r.value.value] else [])
  {
    assert containers[..i + 1][..i] == containers[..i] && containers[..i + 1][i] == containers[i];
  }

  /** Containers are handled one at a time: the listings of two runs of containers are the two lists joined. */
  lemma {:induction false} JobsFromAppend(a: seq<Element>, b: seq<Element>, website: Website, origin: string -> Option<string>)
    ensures JobsFrom(a + b, website, origin) == JobsFrom(a, website, origin) + JobsFrom(b, website, origin)
    decreases |b|
  {
    if b != [] {
      var b', c := b[..|b| - 1], b[|b| - 1];
      assert a + b == (a + b') + [c];
      assert b == b' + [c];
      JobsFromSnoc(a + b', c, website, origin);
      JobsFromSnoc(b', c, website, origin);
      JobsFromAppend(a, b', website, origin);
      AppendAssoc(JobsFrom(a, website, origin), JobsFrom(b', website, origin), JobsFrom([c], website, origin));
    } else {
      assert a + b == a;
    }
  }

  /** One more container adds what it yields at the end. */
  lemma JobsFromSnoc(containers: seq<Element>, c: Element, website: Website, origin: string -> Option<string>)
    ensures JobsFrom(containers + [c], website, origin) == JobsFrom(containers, website, origin) + JobsFrom([c], website, origin)
  {
    assert (containers + [c])[..|containers|] == containers;
    assert [c][..0] == [];
  }

  /** A container whose extraction throws or yields nothing adds nothing, and the containers after it are still scraped. */
  lemma SkippedContainer(a: seq<Element>, c: Element, b: seq<Element>, website: Website, origin: string -> Option<string>)
    requires !Kept(JobFromContainer(c, website, origin))
    ensures JobsFrom(a + [c] + b, website, origin) == JobsFrom(a, website, origin) + JobsFrom(b, website, origin)
  {
    assert [c][..0] == [];
    var none := JobsFrom([c], website, origin);
    assert none == [];
    JobsFromAppend(a, [c], website, origin);
    JobsFromAppend(a + [c], b, website, origin);
  }

  /** Every collected listing is what some container yields. */
  lemma {:induction false} JobsFromSources(containers: seq<Element>, website: Website, origin: string -> Option<string>, j: JobListing)
    requires j in JobsFrom(containers, website, origin)
    ensures exists k :: 0 <= k < |containers| && JobFromContainer(containers[k], website, origin) == Ok(Some(j))
  {
    var init := containers[..|containers| - 1];
    var last := containers[|containers| - 1];
    if j in JobsFrom(init, website, origin) {
      JobsFromSources(init, website, origin, j);
      var k :| 0 <= k < |init| && JobFromContainer(init[k], website, origin) == Ok(Some(j));
      assert containers[k] == init[k];
    } else {
      assert JobFromContainer(last, website, origin) == Ok(Some(j));
    }
  }

  /** A listing is collected exactly when some container yields it and is kept. */
  lemma {:induction false} JobsFromMembers(containers: seq<Element>, website: Website, origin: string -> Option<string>, j: JobListing)
    ensures j in JobsFrom(containers, website, origin) <==>
            exists k :: 0 <= k < |containers| && Kept(JobFromContainer(containers[k], website, origin))
                                              && JobFromContainer(containers[k], website, origin) == Ok(Some(j))
  {
    if j in JobsFrom(containers, website, origin) {
      JobsFromSources(containers, website, origin, j);
    }
    if exists k :: 0 <= k < |containers| && Kept(JobFromContainer(containers[k], website, origin))
                                         && JobFromContainer(containers[k], website, origin) == Ok(Some(j)) {
      var k :| 0 <= k < |containers| && Kept(JobFromContainer(containers[k], website, origin))
                                     && JobFromContainer(containers[k], website, origin) == Ok(Some(j));
      JobsFromKeeps(containers, website, origin, k);
    }
  }

  /** The listing a kept container yields is among those collected. */
  lemma {:induction false} JobsFromKeeps(containers: seq<Element>, website: Website, origin: string -> Option<string>, k: nat)
    requires k < |containers| && Kept(JobFromContainer(containers[k], website, origin))
    ensures JobFromContainer(containers[k], website, origin).value.value in JobsFrom(containers, website, origin)
  {
    var init := containers[..|containers| - 1];
    if k < |init| {
      assert init[k] == containers[k];
      JobsFromKeeps(init, website, origin, k);
    }
  }

  /** `scrapeWebsite`: the page's load error, or the listings of its containers. */
  function SiteJobs(website: Website, response: Fetch, origin: string -> Option<string>): (r: Result<seq<JobListing>, Error>)
    // the site fails exactly when its page does not load, with the error the load throws
    ensures r.Err? <==> Load(response).Err?
    ensures r.Err? ==> r.error == Load(response).error
    ensures r.Ok? ==> |r.value| <= |QueryAll(Load(response).value, website.selectors.container)|
    // otherwise the listings of the page's containers, in document order
    ensures r.Ok? ==> r.value == JobsFrom(QueryAll(Load(response).value, website.selectors.container), website, origin)
  {
    match Load(response)
    case Err(e) => Err(e)
    case Ok(doc) => Ok(JobsFrom(QueryAll(doc, website.selectors.container), website, origin))
  }

  /** `scrapeWebsite`: fetch the site's URL (the response is `response`), parse it and extract every container. */
  method ScrapeWebsite(website: Website, response: Fetch, origin: string -> Option<string>)
    returns (r: Result<seq<JobListing>, Error>)
    ensures r == SiteJobs(website, response, origin)
    ensures r.Err? <==> Load(response).Err?
    ensures r.Ok? ==> |r.value| <= |QueryAll(Load(response).value, website.selectors.container)|
  {
    var doc := Load(response);
    if doc.Err? {
      return Err(doc.error);
    }
    var containers := QueryAll(doc.value, website.selectors.container);
    var jobs: seq<JobListing> := [];
    for i := 0 to |containers|
      invariant jobs == JobsFrom(containers[..i], website, origin)
    {
      JobsFromPrefix(containers, i, website, origin);
      var job := ExtractJobFromContainer(containers[i], website, origin);
      if Kept(job) {
        jobs := jobs + [job.value.value];
      }
    }
    assert containers[..|containers|] == containers;
    r := Ok(jobs);
    assert r == SiteJobs(website, response, origin);
  }
}
