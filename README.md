# Bulk job scraper and source-specific web scraper, modelled in Dafny

This project models the two scraping back ends of an opportunities platform:

- **The bulk job scraper** (`supabase/functions/bulk-job-scraper/index.ts`). The request
  handler validates a `config_id` and records a running job in `bulk_scraping_jobs`. It then
  runs `performBulkScraping`, which visits every website of the stored bulk configuration in
  order. For each site, `scrapeWebsite` fetches the listing page, `extractJobFromContainer`
  turns each container element into a job listing, and `publishJobs` does the publishing. That
  step resolves a category, skips near-duplicates of stored opportunities and inserts one
  normalised `opportunities` row per new listing. At the end the job row is updated with the
  totals, the error count and the per-site results, or marked failed.
- **The class `SourceSpecificScraper`** (`supabase/functions/web-scraper/scrapers/SourceSpecificScraper.ts`).
  For one configured source it walks the listing pages up to the page limit. A page fetch is
  retried with a growing wait after each failed attempt. The loop stops at the first page that
  yields nothing, and a page whose every attempt fails aborts the walk. Each page keeps the
  containers with a long enough title and description that pass the keyword filters. The
  collected list is filtered once more at the end.

Modules:

| module | file | models |
|---|---|---|
| `Wrappers` | `wrappers.dfy` | `Option`, `Result` |
| `Text` | `text.dfy` | `trim`, `toLowerCase`, `includes`, `startsWith`, `substring`, `join`, number-to-string |
| `Dom` | `dom.dfy` | parsed elements and `querySelector(All)`; the outcome of a `fetch` and the `response.ok`/parse checks; the class `Web`, which stands for the network and the clock of `SourceSpecificScraper` |
| `BulkExtract` | `bulk_extract.dfy` | `extractJobFromContainer`, `scrapeWebsite` |
| `BulkStore` | `bulk_store.dfy` | the four database tables as the class `Store`, one method per write |
| `BulkPublish` | `bulk_publish.dfy` | `publishJobs` |
| `BulkOrchestrator` | `bulk_orchestrator.dfy` | the request handler and `performBulkScraping` |
| `WebScraper` | `web_scraper.dfy` | class `SourceSpecificScraper` |

The outside world is left as an input:

- **Fetches.** A fetch yields a network failure, a timeout, or a response with a status and a
  parsed body (none when the parser gives null). In the bulk scraper, `Env.web(i)` is what the
  i-th website's fetch yields. In `SourceSpecificScraper`, `Web.responses(n)` is what the n-th
  fetch call yields. `Web` records every URL fetched (`requests`) and every `delay` in
  milliseconds (`sleeps`), so the methods' contracts state the order of fetches and waits.
- **Database failures.** Whether an insert reports an error is an input: `PublishFaults` for
  `publishJobs`, and `insertFails` for the job row.
- **URL parsing.** `new URL(u).origin` is the function `Env.origin`. It returns None where the
  constructor throws.

## Model

| member | source | states |
|---|---|---|
| `Dom.Query` | supabase/functions/bulk-job-scraper/index.ts:200-205 | `querySelector` gives null exactly when the selector matches nothing, and otherwise the first match in document order |
| `Dom.Load` | supabase/functions/bulk-job-scraper/index.ts:163-178 | a document comes back exactly when the fetch got a 2xx response whose body parsed; a non-2xx status throws `HTTP status: statusText` |
| `Dom.Web.constructor` | supabase/functions/web-scraper/scrapers/SourceSpecificScraper.ts:69-72 | a fresh network view has fetched nothing and waited for nothing |
| `Dom.Web.Get` | supabase/functions/web-scraper/scrapers/SourceSpecificScraper.ts:69-72 | a fetch yields the response due for the next request number, logs its URL and changes nothing else |
| `Dom.Web.Delay` | supabase/functions/web-scraper/scrapers/SourceSpecificScraper.ts:199-201 | a delay logs its duration and fetches nothing |
| `BulkExtract.TagTexts` | supabase/functions/bulk-job-scraper/index.ts:218-224 | the tags are at most one per tag element, each non-empty and already trimmed |
| `BulkExtract.TagTextsAppend` | supabase/functions/bulk-job-scraper/index.ts:221-224 | tags are collected in document order: the tags of two runs of elements joined are the two tag lists joined |
| `BulkExtract.TagTextsMembers` | supabase/functions/bulk-job-scraper/index.ts:221-224 | a string is a tag if and only if it is the non-empty trimmed text of some tag element |
| `BulkExtract.JobUrl` | supabase/functions/bulk-job-scraper/index.ts:226-233 | an `href` starting with "http" is kept; another non-empty `href` goes after the site URL's origin and is an error when that URL does not parse; otherwise the site's URL is used (`jobUrl \|\| website.url`, line 241); never empty for a non-empty site URL |
| `BulkExtract.PostedDate` | supabase/functions/bulk-job-scraper/index.ts:240 | never empty: the trimmed date text when there is one, otherwise "Just posted" |
| `BulkExtract.Description` | supabase/functions/bulk-job-scraper/index.ts:242 | present exactly when the element is; at most 500 characters; a prefix of the trimmed text, and all of it when that is short enough |
| `BulkExtract.JobFromContainer` | supabase/functions/bulk-job-scraper/index.ts:197-245 | null when the title or company element is missing or empty after trimming; an error exactly for a relative link on a site whose URL does not parse; a listing whenever the title and company are present and non-blank and the link resolves, built field by field from the selectors and tagged with the site's name |
| `BulkExtract.ExtractJobFromContainer` | supabase/functions/bulk-job-scraper/index.ts:197-245 | the imperative extraction, with its tag loop, computes `JobFromContainer` |
| `BulkExtract.JobsFrom` | supabase/functions/bulk-job-scraper/index.ts:180-192 | at most one listing per container, each with a non-empty title and company |
| `BulkExtract.JobsFromMembers` | supabase/functions/bulk-job-scraper/index.ts:183-192 | a listing is collected if and only if some container yields it with a non-empty title and company |
| `BulkExtract.JobsFromKeeps` | supabase/functions/bulk-job-scraper/index.ts:183-189 | the listing of every kept container is among those collected |
| `BulkExtract.JobsFromAppend` | supabase/functions/bulk-job-scraper/index.ts:183-192 | containers are handled independently and in order: the listings of two runs of containers joined are the two lists joined |
| `BulkExtract.SkippedContainer` | supabase/functions/bulk-job-scraper/index.ts:184-191 | a container that yields null, or on which extraction throws, contributes nothing and does not stop the others |
| `BulkExtract.JobsFromSources` | supabase/functions/bulk-job-scraper/index.ts:183-192 | every listing of a page was extracted from one of its containers |
| `BulkExtract.SiteJobs` | supabase/functions/bulk-job-scraper/index.ts:162-195 | a site's outcome is an error if and only if its page does not load, and then the error the load throws; otherwise exactly the listings `JobsFrom` collects from the page's containers, at most one per container |
| `BulkExtract.ScrapeWebsite` | supabase/functions/bulk-job-scraper/index.ts:162-195 | the fetch, parse and container loop compute `SiteJobs`: the site fails exactly when its page does not load; otherwise it yields the listings `JobsFrom` collects from its containers |
| `BulkStore.Store.constructor` | supabase/functions/bulk-job-scraper/index.ts:27-29 | the tables hold the given rows and no job run yet |
| `BulkStore.Store.InsertJobRun` | supabase/functions/bulk-job-scraper/index.ts:55-63 | a successful insert appends the row and returns its id; a failed one returns none and changes nothing; other tables untouched |
| `BulkStore.Store.UpdateJobRun` | supabase/functions/bulk-job-scraper/index.ts:133-143 | `.update().eq('id', id)` changes exactly the row with that id, and nothing when there is none |
| `BulkStore.Store.CreateJobsCategory` | supabase/functions/bulk-job-scraper/index.ts:273-281 | a successful insert appends an active category "jobs" described as "Job opportunities"; a failed one changes nothing |
| `BulkStore.Store.InsertOpportunity` | supabase/functions/bulk-job-scraper/index.ts:318-339 | a successful insert appends the row; a failed one changes nothing |
| `BulkPublish.Named` | supabase/functions/bulk-job-scraper/index.ts:253-257 | exactly the categories with that name |
| `BulkPublish.NamedSingleton` | supabase/functions/bulk-job-scraper/index.ts:253-257 | one row is named `name` if and only if exactly one row of the table has that name |
| `BulkPublish.UniqueNamed` | supabase/functions/bulk-job-scraper/index.ts:253-257 | `.single()` gives a category if and only if exactly one row has the name, and then that row; nothing when no row or several rows have it |
| `BulkPublish.FirstActive` | supabase/functions/bulk-job-scraper/index.ts:260-268 | none exactly when no category is active; otherwise the first active one in table order |
| `BulkPublish.ResolveCategory` | supabase/functions/bulk-job-scraper/index.ts:252-291 | the unique "jobs" category wins, then the first active one, then a newly created "jobs" category, whose id is then the one used; the table changes only by that create; a category id always denotes a "jobs" or active row of the resulting table; none exactly when the create fails |
| `BulkPublish.HasDuplicateGrows` | supabase/functions/bulk-job-scraper/index.ts:298-309 | a listing that has a duplicate keeps it when rows are added |
| `BulkPublish.ExactCopyIsDuplicate` | supabase/functions/bulk-job-scraper/index.ts:299-309 | the duplicate query finds a stored row with the listing's own title and company; it finds nothing in an empty table |
| `BulkPublish.SynthesizedDescription` | supabase/functions/bulk-job-scraper/index.ts:312-315 | the fallback description is "title position at company. Location: " followed by the location, or "Remote/Not specified" when there is none or it is empty, then ". Tags: " and the tags joined by ", ", or "None specified" when there are none, then "."; the length clause leaves nothing between the two parts |
| `BulkPublish.ToRow` | supabase/functions/bulk-job-scraper/index.ts:311-338 | the row takes its title, organization and both URLs from the listing; category, source "bulk_scraped", published and "approved" are fixed; location defaults to "Remote"; tags are null exactly when there are none; the description is the listing's, or the synthesized one when it has none or an empty one |
| `BulkPublish.RowIsDuplicateOfItsJob` | supabase/functions/bulk-job-scraper/index.ts:298-338 | a row inserted for a listing is itself a duplicate of that listing under the prefix, case-insensitive check |
| `BulkPublish.PublishAll` | supabase/functions/bulk-job-scraper/index.ts:294-350 | the loop only appends rows, at most one per listing |
| `BulkPublish.AppendedRowsAreFresh` | supabase/functions/bulk-job-scraper/index.ts:298-346 | each appended row is the row of a listing whose insert succeeded and that had no duplicate among the rows before it |
| `BulkPublish.PublishAllCovered` | supabase/functions/bulk-job-scraper/index.ts:306-309 | when every listing already has a duplicate, nothing is inserted |
| `BulkPublish.ListingCovered` | supabase/functions/bulk-job-scraper/index.ts:298-346 | when no insert fails, each listing has a duplicate once the loop is done |
| `BulkPublish.LastJobCovered` | supabase/functions/bulk-job-scraper/index.ts:298-346 | the last listing has a duplicate after the loop when its own insert does not fail |
| `BulkPublish.CoveredStaysCovered` | supabase/functions/bulk-job-scraper/index.ts:298-309 | extending the table keeps every duplicate |
| `BulkPublish.PublishAllCovers` | supabase/functions/bulk-job-scraper/index.ts:294-350 | when no insert fails, every listing of the batch has a duplicate afterwards |
| `BulkPublish.Publish` | supabase/functions/bulk-job-scraper/index.ts:247-354 | the count is exactly the number of rows appended, at most one per listing; existing rows and categories are kept; a failed category create returns 0 and writes nothing |
| `BulkPublish.RepublishInsertsNothing` | supabase/functions/bulk-job-scraper/index.ts:247-354 | publishing is idempotent: after a call with no failed insert, publishing the same batch again inserts nothing, whatever the database does |
| `BulkPublish.PublishJobs` | supabase/functions/bulk-job-scraper/index.ts:247-354 | the imperative loop over the store leaves the tables and returns the count that `Publish` describes, and leaves configs and job runs alone |
| `BulkOrchestrator.Admit` | supabase/functions/bulk-job-scraper/index.ts:21-52 | OPTIONS is the preflight; an unreadable body is a 500; a missing or empty `config_id` is a 400, an unknown one a 404; a configuration is admitted if and only if none of these applies |
| `BulkOrchestrator.RunningRow` | supabase/functions/bulk-job-scraper/index.ts:57-61 | the new job row is running for the given config and has no totals, results or error yet |
| `BulkOrchestrator.StepAppends` | supabase/functions/bulk-job-scraper/index.ts:102-130 | one site only appends rows, and adds exactly the rows it counts as published, never more than it found; a site that is reached adds one error exactly when its page does not load, and otherwise adds its listings to the found total; an aborted run or a non-object entry changes neither total |
| `BulkOrchestrator.StepResults` | supabase/functions/bulk-job-scraper/index.ts:102-130 | once the run has aborted, a turn changes nothing; a turn aborts the run exactly when it was aborted or the entry is not an object; a site that is reached records a result under its name and keeps the results of every other name |
| `BulkOrchestrator.ErrorsOf` | supabase/functions/bulk-job-scraper/index.ts:120-122 | at most one error per website |
| `BulkOrchestrator.FoundOf` | supabase/functions/bulk-job-scraper/index.ts:106-109 | the listings found over the websites whose page loads; nothing when no page loads |
| `BulkOrchestrator.LastStep` | supabase/functions/bulk-job-scraper/index.ts:102-129 | when every entry is an object, the run over the websites is the turn of the last one after the run over the others, which has not aborted |
| `BulkOrchestrator.RunSites` | supabase/functions/bulk-job-scraper/index.ts:102-130 | over all sites, the published total is exactly the number of rows added and never exceeds the found total; at most one error per site |
| `BulkOrchestrator.RunSitesErrors` | supabase/functions/bulk-job-scraper/index.ts:102-129 | when every entry is an object, the error total is the number of websites whose page does not load |
| `BulkOrchestrator.RunSitesFound` | supabase/functions/bulk-job-scraper/index.ts:102-129 | when every entry is an object, the found total is the number of listings of the websites whose page loads |
| `BulkOrchestrator.RunSitesTotals` | supabase/functions/bulk-job-scraper/index.ts:102-129 | when every entry is an object, the run does not abort and its error and found totals are those two counts |
| `BulkOrchestrator.RunSitesFailure` | supabase/functions/bulk-job-scraper/index.ts:102-130 | the loop aborts if and only if some entry is not an object, and the error is then the property read on null |
| `BulkOrchestrator.RunSitesKeys` | supabase/functions/bulk-job-scraper/index.ts:112-128 | every key of `results` is the name of a website of the list |
| `BulkOrchestrator.RunSitesResults` | supabase/functions/bulk-job-scraper/index.ts:112-128 | every per-site result is well formed: failed exactly when it carries an error, a failed site found and published nothing, published never exceeds found |
| `BulkOrchestrator.RunSitesNoErrors` | supabase/functions/bulk-job-scraper/index.ts:105-129 | when every site's page loads, no error is counted |
| `BulkOrchestrator.FailureIsFinal` | supabase/functions/bulk-job-scraper/index.ts:99-159 | once the loop has aborted, later websites change nothing |
| `BulkOrchestrator.LastSiteWins` | supabase/functions/bulk-job-scraper/index.ts:112-128 | a site's entry in `results` is written by the last site of that name: failed exactly when its page did not load, and otherwise with the number of listings found there |
| `BulkOrchestrator.BulkRun` | supabase/functions/bulk-job-scraper/index.ts:93-160 | a `websites` value that is not a list fails at once with nothing counted; published never exceeds found; the opportunities table grows by exactly the published count |
| `BulkOrchestrator.Finish` | supabase/functions/bulk-job-scraper/index.ts:132-159 | completed exactly when the loop did not abort, and then the totals, the error count and the results are written; failed otherwise, and then only the error and the partial results are written |
| `BulkOrchestrator.FinishedRowIsTerminal` | supabase/functions/bulk-job-scraper/index.ts:132-159 | a finished job row is never left running; a completed row never publishes more than it found; a failed row has an error and no totals |
| `BulkOrchestrator.BulkRunTotals` | supabase/functions/bulk-job-scraper/index.ts:93-143 | when every entry is an object, the job row is completed with the number of sites whose page did not load as `errors_count`, the listings of the others as `total_found`, and the rows added as `total_published` |
| `BulkOrchestrator.OneSiteFails` | supabase/functions/bulk-job-scraper/index.ts:102-143 | two sites where the first loads and the second does not: the job completes with the first site's totals, one error, and a completed and a failed result |
| `BulkOrchestrator.ScrapeSites` | supabase/functions/bulk-job-scraper/index.ts:102-130 | the imperative loop over the websites computes the totals, the results and the tables that `RunSites` describes, and touches neither configs nor job runs |
| `BulkOrchestrator.PerformBulkScraping` | supabase/functions/bulk-job-scraper/index.ts:93-160 | the imperative loop leaves the tables as `BulkRun` describes and updates only the job row `jobId`, with `Finish` |
| `BulkOrchestrator.Respond` | supabase/functions/bulk-job-scraper/index.ts:21-82 | a job is started if and only if the request is admitted and the job row is inserted, with the new row's id; a failed insert is a 500; a rejected request keeps the rejection |
| `BulkOrchestrator.HandleRequest` | supabase/functions/bulk-job-scraper/index.ts:21-91 | the reply is `Respond`'s; a request turned away writes nothing; a started one appends its job row and leaves it finished as `Finish` and `BulkRun` say |
| `WebScraper.Repeat` | supabase/functions/web-scraper/scrapers/SourceSpecificScraper.ts:67-72 | n fetches of one URL log it n times |
| `WebScraper.Backoff` | supabase/functions/web-scraper/scrapers/SourceSpecificScraper.ts:105 | the k-th wait between attempts is 1000·k milliseconds, so the waits grow with the attempt number |
| `WebScraper.FirstLoad` | supabase/functions/web-scraper/scrapers/SourceSpecificScraper.ts:67-107 | the first attempt in a range whose response loads, or none when none does |
| `WebScraper.SourceSpecificScraper.constructor` | supabase/functions/web-scraper/scrapers/SourceSpecificScraper.ts:19-21 | the scraper keeps the source configuration it was given |
| `WebScraper.SourceSpecificScraper.PageLimit` | supabase/functions/web-scraper/scrapers/SourceSpecificScraper.ts:30 | `maxPages \|\| 5`: the page limit is never zero, five when none is configured, and below one only for a negative configured limit |
| `WebScraper.SourceSpecificScraper.BuildPageUrl` | supabase/functions/web-scraper/scrapers/SourceSpecificScraper.ts:57-62 | with URL pagination the page number goes in a `?page=` parameter; otherwise every page has the listing URL |
| `WebScraper.SourceSpecificScraper.PageUrlsDistinct` | supabase/functions/web-scraper/scrapers/SourceSpecificScraper.ts:57-62 | with URL pagination, different pages have different URLs |
| `WebScraper.SourceSpecificScraper.OptionalText` | supabase/functions/web-scraper/scrapers/SourceSpecificScraper.ts:136-150 | an optional field is set exactly when its selector is configured, non-empty and matches, and then to the trimmed text |
| `WebScraper.SourceSpecificScraper.ApplicationUrl` | supabase/functions/web-scraper/scrapers/SourceSpecificScraper.ts:152-160 | set exactly when the link has a non-empty `href`; an absolute `href` is kept and a relative one goes after the base URL |
| `WebScraper.SourceSpecificScraper.ExtractOpportunityFromContainer` | supabase/functions/web-scraper/scrapers/SourceSpecificScraper.ts:112-168 | an extracted opportunity has a title of at least 10 and a description of at least 30 characters and carries the source's name and listing URL; nothing is extracted without a title or a description element |
| `WebScraper.SourceSpecificScraper.ExtractedFields` | supabase/functions/web-scraper/scrapers/SourceSpecificScraper.ts:112-168 | an opportunity is extracted if and only if the container has title and description elements whose trimmed texts have at least 10 and 30 characters; it carries the source's name and listing URL and the optional fields |
| `WebScraper.SourceSpecificScraper.IsValidOpportunity` | supabase/functions/web-scraper/scrapers/SourceSpecificScraper.ts:170-193 | the loop over the excluded keywords decides validity: no excluded keyword occurs in "title description", ignoring case, and some required keyword does when any is configured |
| `WebScraper.SourceSpecificScraper.EmptyKeyword` | supabase/functions/web-scraper/scrapers/SourceSpecificScraper.ts:170-193 | an empty excluded keyword rejects every opportunity; with nothing excluded, an empty required keyword admits every one; with no keywords configured, every opportunity is valid |
| `WebScraper.SourceSpecificScraper.Filter` | supabase/functions/web-scraper/scrapers/SourceSpecificScraper.ts:195-197 | keeps exactly the valid opportunities: every kept one is valid and came from the input, and every valid one is kept |
| `WebScraper.SourceSpecificScraper.FilterKeepsValid` | supabase/functions/web-scraper/scrapers/SourceSpecificScraper.ts:195-197 | a list of valid opportunities passes the filter unchanged |
| `WebScraper.SourceSpecificScraper.FilterIdempotent` | supabase/functions/web-scraper/scrapers/SourceSpecificScraper.ts:195-197 | filtering twice is filtering once |
| `WebScraper.SourceSpecificScraper.FilterAppend` | supabase/functions/web-scraper/scrapers/SourceSpecificScraper.ts:195-197 | the filter works element by element: it distributes over concatenation |
| `WebScraper.SourceSpecificScraper.PageItems` | supabase/functions/web-scraper/scrapers/SourceSpecificScraper.ts:85-96 | at most one opportunity per container |
| `WebScraper.SourceSpecificScraper.PageItemsAppend` | supabase/functions/web-scraper/scrapers/SourceSpecificScraper.ts:87-96 | containers are handled one at a time and in order: the items of two runs of containers joined are the two item lists joined |
| `WebScraper.SourceSpecificScraper.PageItemsMembers` | supabase/functions/web-scraper/scrapers/SourceSpecificScraper.ts:87-96 | an opportunity is kept from a page if and only if some container extracts to it and it passes the filters |
| `WebScraper.SourceSpecificScraper.PageItemsValid` | supabase/functions/web-scraper/scrapers/SourceSpecificScraper.ts:87-96 | every opportunity a page keeps passes the filters |
| `WebScraper.SourceSpecificScraper.RetryOutcome` | supabase/functions/web-scraper/scrapers/SourceSpecificScraper.ts:64-110 | never more attempts than `retries`; with no attempt allowed the page yields nothing; the page fails if and only if every allowed attempt fails, with the last attempt's error; a success comes from the first attempt that loads, after failed ones only; its opportunities are valid |
| `WebScraper.SourceSpecificScraper.PageLoadsAt` | supabase/functions/web-scraper/scrapers/SourceSpecificScraper.ts:67-98 | when the attempts fail up to one that loads, the page yields that response's opportunities after that many attempts |
| `WebScraper.SourceSpecificScraper.PageFails` | supabase/functions/web-scraper/scrapers/SourceSpecificScraper.ts:100-104 | when every allowed attempt fails, the page fails with the last attempt's error after `retries` attempts |
| `WebScraper.SourceSpecificScraper.CollectPage` | supabase/functions/web-scraper/scrapers/SourceSpecificScraper.ts:85-98 | the `forEach` over the containers collects the valid opportunities of the page in order |
| `WebScraper.SourceSpecificScraper.ScrapePage` | supabase/functions/web-scraper/scrapers/SourceSpecificScraper.ts:64-110 | the attempt loop yields the retry outcome, fetches the page URL once per attempt and waits 1000, 2000, … ms between failed attempts |
| `WebScraper.SourceSpecificScraper.CrawlExtends` | supabase/functions/web-scraper/scrapers/SourceSpecificScraper.ts:30-46 | the page loop only appends to the fetch log, the wait log and the collected list; past the page limit it ends with what it collected; a page that yields items appends them before anything a later page adds |
| `WebScraper.SourceSpecificScraper.CrawlShift` | supabase/functions/web-scraper/scrapers/SourceSpecificScraper.ts:30-46 | what the page loop collects is appended after what was collected before, and its fetches, waits and errors do not depend on it |
| `WebScraper.SourceSpecificScraper.CrawlPageOrder` | supabase/functions/web-scraper/scrapers/SourceSpecificScraper.ts:30-46 | results are concatenated in page order: a page's items come right after what was collected before it, followed by what the later pages collect |
| `WebScraper.SourceSpecificScraper.ScrapeOpportunities` | supabase/functions/web-scraper/scrapers/SourceSpecificScraper.ts:23-55 | the page loop: each page in order, stopping after the page limit (5 when none is configured), at the first empty page or at the first failing page, whose error is thrown; collecting the items of each page after those of the pages before it; waiting the configured delay after every page that yields something; then the filter (the page-order, empty-page, error and delay facts are `CrawlPageOrder`, `EmptyPageStops`, `PageErrorStops` and `CrawlKeepsPageSleeps` about the same `CrawlFrom`) |
| `WebScraper.SourceSpecificScraper.PageErrorStops` | supabase/functions/web-scraper/scrapers/SourceSpecificScraper.ts:33-54 | a page whose every attempt fails ends the loop with that page's error, dropping the pages collected before it, after that page's own attempts and waits |
| `WebScraper.SourceSpecificScraper.CrawlKeepsPageSleeps` | supabase/functions/web-scraper/scrapers/SourceSpecificScraper.ts:30-46 | the waits of a page's own retries come first, and a page that yields something is followed by exactly one wait of the configured delay |
| `WebScraper.SourceSpecificScraper.EmptyPageStops` | supabase/functions/web-scraper/scrapers/SourceSpecificScraper.ts:36-39 | a page that yields nothing ends the loop with what was collected before it, after that page's own attempts and waits; under URL pagination no later page is ever requested |
| `WebScraper.SourceSpecificScraper.CrawlFoundValid` | supabase/functions/web-scraper/scrapers/SourceSpecificScraper.ts:30-46 | everything the page loop collects passes the filters already |
| `WebScraper.SourceSpecificScraper.FinalFilterKeepsAll` | supabase/functions/web-scraper/scrapers/SourceSpecificScraper.ts:49 | the final filter removes nothing |
| `WebScraper.SourceSpecificScraper.CrawlRequestsArePages` | supabase/functions/web-scraper/scrapers/SourceSpecificScraper.ts:30-34 | every URL fetched is the URL of a page between the first page and the page limit, so no page past the limit is fetched |
| `WebScraper.SourceSpecificScraper.CrawlSleepsRetry` | supabase/functions/web-scraper/scrapers/SourceSpecificScraper.ts:100-105 | a wait among one page's retries is 1000·a ms after its failed attempt a, and a is below `retries` |
| `WebScraper.SourceSpecificScraper.CrawlSleeps` | supabase/functions/web-scraper/scrapers/SourceSpecificScraper.ts:23-110 | every wait is the configured delay or 1000·a ms for a failed attempt a below `retries` |

## Left out

- I/O details: CORS headers, the JSON response bodies, the `Content-Type` header, timestamp columns (`started_at`, `completed_at`, `published_at`, `scraped_at`), console logging and the request headers of `fetch`.
- `EdgeRuntime.waitUntil`: the background run is carried out before the handler returns its reply, so the model does not capture a reply that arrives before the run finishes.
- In `SourceSpecificScraper`, the 30-second abort signal is a possible fetch outcome (`TimedOut`); how long a fetch takes is not modelled. The bulk scraper's `fetch` (index.ts:163-167) has no abort signal. A bulk fetch that never settles stalls the whole run, and the job row stays `running`. The model has no such outcome: every bulk fetch settles.
- Waits are logged, not performed: `delay` records its duration in milliseconds.
- Concurrency between job runs and any race on the duplicate check are left out; runs are modelled one at a time.
- Database errors other than the modelled ones are left out. The modelled ones are a failed job-row insert, a failed category create and a failed opportunity insert. Also left out: the duplicate query or the category lookups reporting an error, and a failing final update of the job row.
- `BulkPublish.IsDuplicateOf`: every character of the title and company prefixes is matched literally, and case folding is ASCII only. The source builds the `ilike` pattern by pasting the prefix between `%` signs, with no escaping. So in the source:
  - `%` and `_` in a prefix match any run of characters and any single character;
  - the query layer reads `*` as `%`;
  - `\` escapes the character after it, so the backslash itself is not matched.
  The first two only widen the match: more stored rows count as duplicates than the model says, and a row still matches itself. A backslash breaks the self-match. For example, the pattern built from the title `C:\Users admin` asks for `C:Users admin`, which its own stored row does not contain, so that listing is inserted again on every run. `BulkPublish.RowIsDuplicateOfItsJob` and `BulkPublish.RepublishInsertsNothing` therefore hold in the source only when the title and company prefixes contain no `\`.
- `WebScraper.SourceSpecificScraper.ExtractOpportunityFromContainer`, `BulkExtract.Description`, `BulkPublish.IsDuplicateOf`: the model counts characters (code points), while JavaScript's `length` and `substring` count UTF-16 code units. The minimum lengths 10 and 30, the 500-character cut and the 50- and 30-character prefixes therefore differ from the source for text outside the Basic Multilingual Plane: one emoji counts twice in the source, and `substring` can split it.
- `Text.Lower`: `toLowerCase` is modelled for ASCII letters only.
- `WebScraper.SourceSpecificScraper.RetryOutcome`: `requestConfig.retries` is an integer in the model. In the source a fractional value, such as `2.5`, never meets `attempt === retries` (SourceSpecificScraper.ts:100-101). A page whose every attempt fails then yields `[]` instead of throwing. The model does not capture that case.
- `BulkPublish.FirstActive`: the model picks the first active category in table order. The query `.eq('is_active', true).limit(1)` (index.ts:261-265) has no `.order()`, so the database may return any active row. The model's choice is one of the rows the source may get.
- Selectors are opaque strings. An invalid selector, which makes `querySelector` throw, is not modelled. The throwing path of `extractJobFromContainer` that is modelled is `new URL` on a site URL that does not parse.
- A `websites` entry of `None` stands for `null` or `undefined`. Reading `website.name` on it (index.ts:103) throws outside the per-site `try`, so the run aborts (`NotAnObject`). Three other inputs are not modelled:
  - A primitive entry such as `42` or `"x"`. In the source, `website.name` and `website.url` are `undefined`, and `fetch(undefined)` rejects inside the per-site `try`. The site is then counted as an error under the key `"undefined"` and the run goes on. The model has no such entry.
  - A `websites` value that is a string. In the source it is iterable, and each character is visited as a primitive entry, as above. In the model, `websites` is a list or `None` (not iterable, `NotIterable`).
  - An object entry without `selectors`. In the source, once its page loads, reading `website.selectors.container` (index.ts:181) throws inside the per-site `try`, so the site is recorded as failed. The model has no such entry, because a `Website` always carries a `Selectors` value; that failed site has no counterpart in the model.
- A `config_id` that is not a string (a number, `false`) is not modelled; a missing one and an empty one are.
- The `category` field of `ScrapedOpportunity` is never set by the scraper and is left out.
- `supabase/functions/web-scraper/sources/source-configs.ts` (the configured sources) is not part of this model; a `SourceConfig` is an input.
- The admin UI that edits bulk configurations is not part of this model.
- Retry and failure behaviour, as the model has it:
  - Between attempts, `scrapePage` waits 1000 ms times the attempt number, whatever the configured delay (SourceSpecificScraper.ts:105).
  - `scrapeWebsite` of the bulk scraper fetches each site once and never retries (index.ts:163-167).
  - In `SourceSpecificScraper`, when every attempt at a page fails, the last error is thrown out of `scrapeOpportunities`, and the pages collected so far are dropped (SourceSpecificScraper.ts:100-104, 51-54).
