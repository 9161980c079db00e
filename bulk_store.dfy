/**
 * The database the bulk job scraper talks to, held in memory: the
 * `bulk_scraping_configs`, `bulk_scraping_jobs`, `categories` and
 * `opportunities` tables. Each query the scraper sends becomes a method or a
 * function here; whether an insert fails is an input of the method that
 * performs it, since the database decides it.
 */
module BulkStore {
  import opened Wrappers
  import opened Dom
  import opened BulkExtract

  /** A row of `categories`. */
  datatype Category = Category(id: nat, name: string, description: string, isActive: bool)

  /** The `metadata` column of a scraped opportunity (the scrape timestamp is left out). */
  datatype Metadata = Metadata(sourceWebsite: string, postedDate: string)

  /** A row of `opportunities` (the `published_at` timestamp is left out). */
  datatype Opportunity = Opportunity(
    title: string,
    description: string,
    organization: string,
    location: string,
    applicationUrl: string,
    sourceUrl: string,
    categoryId: nat,
    source: string,
    isPublished: bool,
    tags: Option<seq<string>>,
    status: string,
    metadata: Metadata)

  /** A stored bulk configuration. `websites` is None when the stored value is not a list; an entry is None when it is not an object. */
  datatype BulkConfig = BulkConfig(id: string, name: string, websites: Option<seq<Option<Website>>>, isActive: bool)

  datatype RunStatus = Running | Completed | Failed

  datatype SiteStatus = SiteCompleted | SiteFailed

  /** One entry of a job run's `results` map. */
  datatype SiteResult = SiteResult(found: nat, published: nat, status: SiteStatus, error: Option<Error>)

  /**
   * A row of `bulk_scraping_jobs` (timestamps left out). The columns the
   * creating insert does not set are None until an update writes them.
   */
  datatype JobRun = JobRun(
    configId: string,
    status: RunStatus,
    totalFound: Option<nat>,
    totalPublished: Option<nat>,
    errorsCount: Option<nat>,
    results: Option<map<string, SiteResult>>,
    errorMessage: Option<Error>)

  /** The tables publishing reads and writes. */
  datatype Db = Db(categories: seq<Category>, opportunities: seq<Opportunity>)

  const JobsCategoryName: string := "jobs"
  const JobsCategoryDescription: string := "Job opportunities"

  class Store {
    var configs: map<string, BulkConfig>
    var jobRuns: seq<JobRun>
    var categories: seq<Category>
    var opportunities: seq<Opportunity>

    constructor (configs: map<string, BulkConfig>, categories: seq<Category>, opportunities: seq<Opportunity>)
      ensures this.configs == configs && this.jobRuns == []
      ensures this.categories == categories && this.opportunities == opportunities
    {
      this.configs := configs;
      this.jobRuns := [];
      this.categories := categories;
      this.opportunities := opportunities;
    }

    function Contents(): Db
      reads this
    {
      Db(categories, opportunities)
    }

    /**
     * Insert a `bulk_scraping_jobs` row. The new row's id is its position;
     * None when the database reports an error.
     */
    method InsertJobRun(row: JobRun, fails: bool) returns (id: Option<nat>)
      modifies this
      ensures id == if fails then None else Some(|old(jobRuns)|)
      ensures jobRuns == if fails then old(jobRuns) else old(jobRuns) + [row]
      ensures configs == old(configs) && categories == old(categories) && opportunities == old(opportunities)
    {
      if fails {
        id := None;
      } else {
        id := Some(|jobRuns|);
        jobRuns := jobRuns + [row];
      }
    }

    /** `.update(change).eq('id', id)`: changes the row with that id, and nothing when there is none. */
    method UpdateJobRun(id: nat, change: JobRun -> JobRun)
      modifies this
      ensures jobRuns == if id < |old(jobRuns)| then old(jobRuns)[id := change(old(jobRuns)[id])] else old(jobRuns)
      ensures configs == old(configs) && categories == old(categories) && opportunities == old(opportunities)
    {
      if id < |jobRuns| {
        jobRuns := jobRuns[id := change(jobRuns[id])];
      }
    }

    /**
     * Insert the default `jobs` category. `outcome` is the id the database
     * assigns, or None when it reports an error.
     */
    method CreateJobsCategory(outcome: Option<nat>) returns (id: Option<nat>)
      modifies this
      ensures id == outcome
      ensures categories == if outcome.None? then old(categories)
                            else old(categories) + [Category(outcome.value, JobsCategoryName, JobsCategoryDescription, true)]
      ensures configs == old(configs) && jobRuns == old(jobRuns) && opportunities == old(opportunities)
    {
      id := outcome;
      if outcome.Some? {
        categories := categories + [Category(outcome.value, JobsCategoryName, JobsCategoryDescription, true)];
      }
    }

    /** Insert an `opportunities` row; `ok` is false when the database reports an error. */
    method InsertOpportunity(row: Opportunity, fails: bool) returns (ok: bool)
      modifies this
      ensures ok == !fails
      ensures opportunities == if ok then old(opportunities) + [row] else old(opportunities)
      ensures configs == old(configs) && jobRuns == old(jobRuns) && categories == old(categories)
    {
      ok := !fails;
      if ok {
        opportunities := opportunities + [row];
      }
    }
  }
}
