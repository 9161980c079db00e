/**
 * The request handler of the bulk job scraper and `performBulkScraping`:
 * validate the request, record a running job, then scrape and publish every
 * website of the configuration in order, and record the totals, the outcome
 * of each website and whether the run completed or failed.
 */
module BulkOrchestrator {
  import opened Wrappers
  import opened Dom
  import opened BulkExtract
  import opened BulkStore
  import opened BulkPublish

  /**
   * What the outside world decides during one run: `web(i)` is the response
   * to the fetch of the i-th website, `origin` stands for `new URL(u).origin`
   * (None: the constructor throws) and `faults(i)` is what the database does
   * while the listings of the i-th website are published.
   */
  datatype Env = Env(web: nat -> Fetch, origin: string -> Option<string>, faults: nat -> PublishFaults)

  // ---------------------------------------------------------------- the request

  /** The request body: unreadable JSON, or an object whose `config_id` is None when absent. */
  datatype Body = Unreadable | Json(configId: Option<string>)

  datatype Request = Request(httpMethod: string, body: Body)

  datatype Rejection = ConfigIdRequired | ConfigNotFound | JobRecordFailed | BodyUnreadable

  /** The handler's answer: the CORS preflight, the started job's id, or an error status. */
  datatype Reply = Preflight | Started(jobId: nat) | Rejected(status: nat, reason: Rejection)

  /** The configuration a request asks for, or the reply that turns it away before any row is written. */
  function Admit(req: Request, configs: map<string, BulkConfig>): (r: Result<BulkConfig, Reply>)
    ensures req.httpMethod == "OPTIONS" ==> r == Err(Preflight)
    ensures req.httpMethod != "OPTIONS" && req.body.Unreadable? ==> r == Err(Rejected(500, BodyUnreadable))
    // a missing or empty `config_id` is a 400, an unknown one a 404
    ensures req.httpMethod != "OPTIONS" && req.body.Json? && (req.body.configId.None? || req.body.configId.value == "") ==>
      r == Err(Rejected(400, ConfigIdRequired))
    ensures r.Ok? <==> req.httpMethod != "OPTIONS" && req.body.Json? && req.body.configId.Some?
                       && req.body.configId.value != "" && req.body.configId.value in configs
    ensures r.Ok? ==> r.value == configs[req.body.configId.value]
    ensures r.Err? && r.error.Rejected? ==> r.error.status in {400, 404, 500}
  {
    if req.httpMethod == "OPTIONS" then Err(Preflight)
    else match req.body
      case Unreadable => Err(Rejected(500, BodyUnreadable))
      case Json(configId) =>
        if configId.None? || configId.value == "" then Err(Rejected(400, ConfigIdRequired))
        else if configId.value !in configs then Err(Rejected(404, ConfigNotFound))
        else Ok(configs[configId.value])
  }

  /** The row inserted for a new run. */
  function RunningRow(configId: string): (row: JobRun)
    ensures row.configId == configId && row.status == Running
    ensures row.totalFound.None? && row.totalPublished.None? && row.errorsCount.None?
    ensures row.results.None? && row.errorMessage.None?
  {
    JobRun(configId, Running, None, None, None, None, None)
  }

  // ---------------------------------------------------------------- the run

  /**
   * The state of `performBulkScraping` after some websites: the three
   * counters, the `results` object, the tables, and the error that ended the
   * loop, if one did.
   */
  datatype Run = Run(found: nat, published: nat, errors: nat, results: map<string, SiteResult>, db: Db, failure: Option<Error>)

  /**
   * One turn of the loop, for the website at index `i`: an entry that is not
   * an object ends the run; a site whose page cannot be loaded counts as an
   * error; otherwise its listings are published. The result is stored under
   * the site's name, replacing an earlier one of the same name.
   */
  function Step(run: Run, i: nat, site: Option<Website>, env: Env): Run {
    if run.failure.Some? then run
    else if site.None? then run.(failure := Some(NotAnObject))
    else
      var w := site.value;
      match SiteJobs(w, env.web(i), env.origin)
      case Err(e) =>
        run.(errors := run.errors + 1, results := run.results[w.name := SiteResult(0, 0, SiteFailed, Some(e))])
      case Ok(jobs) =>
        var p := Publish(run.db, jobs, w.name, env.faults(i));
        run.(found := run.found + |jobs|, published := run.published + p.count,
             results := run.results[w.name := SiteResult(|jobs|, p.count, SiteCompleted, None)], db := p.db)
  }

  /**
   * One turn only appends rows, and counts every row it adds as published; a
   * site counts one error exactly when its page does not load, and otherwise
   * adds its listings to the found total.
   */
  lemma StepAppends(run: Run, i: nat, site: Option<Website>, env: Env)
    ensures var r := Step(run, i, site, env);
            && |run.db.opportunities| <= |r.db.opportunities|
            && r.db.opportunities[..|run.db.opportunities|] == run.db.opportunities
            && r.published - run.published == |r.db.opportunities| - |run.db.opportunities|
            && r.found - run.found >= r.published - run.published
    ensures run.failure.None? && site.Some? ==>
            && Step(run, i, site, env).errors == run.errors + (if Load(env.web(i)).Err? then 1 else 0)
            && Step(run, i, site, env).found
               == run.found + (if Load(env.web(i)).Ok? then |SiteJobs(site.value, env.web(i), env.origin).value| else 0)
    ensures run.failure.Some? || site.None? ==>
            Step(run, i, site, env).errors == run.errors && Step(run, i, site, env).found == run.found
  {
  }

  /**
   * The run ends at the first entry that is not an object and stays ended; a
   * site that is reached records its result under its name and keeps the
   * results of the other names.
   */
  lemma StepResults(run: Run, i: nat, site: Option<Website>, env: Env)
    ensures run.failure.Some? ==> Step(run, i, site, env) == run
    ensures Step(run, i, site, env).failure.Some? <==> run.failure.Some? || site.None?
    ensures run.failure.None? && site.Some? ==>
            && Step(run, i, site, env).results.Keys == run.results.Keys + {site.value.name}
            && forall n :: n in run.results && n != site.value.name ==> Step(run, i, site, env).results[n] == run.results[n]
  {
  }

  /** The number of websites whose page does not load. */
  function ErrorsOf(sites: seq<Option<Website>>, env: Env): (n: nat)
    ensures n <= |sites|
    decreases |sites|
  {
    if sites == [] then 0
    else
      var i := |sites| - 1;
      ErrorsOf(sites[..i], env) + (if sites[i].Some? && Load(env.web(i)).Err? then 1 else 0)
  }

  /** The number of listings found on the websites whose page loads. */
  function FoundOf(sites: seq<Option<Website>>, env: Env): (n: nat)
    // when no page loads, nothing is found
    ensures (forall i :: 0 <= i < |sites| ==> Load(env.web(i)).Err?) ==> n == 0
    decreases |sites|
  {
    if sites == [] then 0
    else
      var i := |sites| - 1;
      var site := if sites[i].Some? then SiteJobs(sites[i].value, env.web(i), env.origin) else Ok([]);
      FoundOf(sites[..i], env) + (if site.Ok? then |site.value| else 0)
  }

  /** Every entry of the list is an object. */
  predicate AllObjects(sites: seq<Option<Website>>) {
    forall i :: 0 <= i < |sites| ==> sites[i].Some?
  }

  /** The turn of the last website, when no earlier entry ended the run. */
  lemma {:induction false} LastStep(db: Db, sites: seq<Option<Website>>, env: Env)
    requires sites != [] && AllObjects(sites)
    ensures RunSites(db, sites[..|sites| - 1], env).failure.None?
    ensures AllObjects(sites[..|sites| - 1])
    ensures RunSites(db, sites, env) == Step(RunSites(db, sites[..|sites| - 1], env), |sites| - 1, sites[|sites| - 1], env)
  {
    var i := |sites| - 1;
    assert forall k :: 0 <= k < i ==> sites[..i][k] == sites[k];
    RunSitesFailure(db, sites[..i], env);
  }

  /** Without an entry that ends the run, it counts one error per site whose page does not load. */
  lemma {:induction false} RunSitesErrors(db: Db, sites: seq<Option<Website>>, env: Env)
    requires AllObjects(sites)
    ensures RunSites(db, sites, env).errors == ErrorsOf(sites, env)
    decreases |sites|
  {
    if sites != [] {
      var i := |sites| - 1;
      LastStep(db, sites, env);
      RunSitesErrors(db, sites[..i], env);
      StepAppends(RunSites(db, sites[..i], env), i, sites[i], env);
    }
  }

  /** Without an entry that ends the run, the found total is every listing of the sites whose page loads. */
  lemma {:induction false} RunSitesFound(db: Db, sites: seq<Option<Website>>, env: Env)
    requires AllObjects(sites)
    ensures RunSites(db, sites, env).found == FoundOf(sites, env)
    decreases |sites|
  {
    if sites != [] {
      var i := |sites| - 1;
      LastStep(db, sites, env);
      RunSitesFound(db, sites[..i], env);
      StepAppends(RunSites(db, sites[..i], env), i, sites[i], env);
    }
  }

  /** A site result that is well formed: a failed site found and published nothing and says why. */
  predicate WellFormed(r: SiteResult) {
    && r.published <= r.found
    && (r.status == SiteFailed <==> r.error.Some?)
    && (r.status == SiteFailed ==> r.found == 0 && r.published == 0)
  }

  /** The loop over `sites`, from the tables `db`. */
  function RunSites(db: Db, sites: seq<Option<Website>>, env: Env): (r: Run)
    // the published total is exactly the number of rows added, and never exceeds the found total
    ensures |db.opportunities| <= |r.db.opportunities| && r.db.opportunities[..|db.opportunities|] == db.opportunities
    ensures r.published == |r.db.opportunities| - |db.opportunities|
    ensures r.published <= r.found
    ensures r.errors <= |sites|
    decreases |sites|
  {
    if sites == [] then Run(0, 0, 0, map[], db, None)
    else
      var i := |sites| - 1;
      var before := RunSites(db, sites[..i], env);
      StepAppends(before, i, sites[i], env);
      var r := Step(before, i, sites[i], env);
      assert r.db.opportunities[..|db.opportunities|] == before.db.opportunities[..|db.opportunities|];
      r
  }

  /** A turn over a website whose page does not load records the failure and counts an error. */
  lemma StepFailed(run: Run, i: nat, w: Website, env: Env)
    requires run.failure.None? && SiteJobs(w, env.web(i), env.origin).Err?
    ensures var e := SiteJobs(w, env.web(i), env.origin).error;
            Step(run, i, Some(w), env) == run.(errors := run.errors + 1, results := run.results[w.name := SiteResult(0, 0, SiteFailed, Some(e))])
  {
  }

  /** A turn over a website whose page loads publishes its listings and records the counts. */
  lemma StepPublished(run: Run, i: nat, w: Website, env: Env)
    requires run.failure.None? && SiteJobs(w, env.web(i), env.origin).Ok?
    ensures var jobs := SiteJobs(w, env.web(i), env.origin).value;
            var p := Publish(run.db, jobs, w.name, env.faults(i));
            Step(run, i, Some(w), env) == run.(found := run.found + |jobs|, published := run.published + p.count,
              results := run.results[w.name := SiteResult(|jobs|, p.count, SiteCompleted, None)], db := p.db)
  {
  }

  /** The run over the first i + 1 websites is one more turn after the run over the first i. */
  lemma RunSitesPrefix(db: Db, sites: seq<Option<Website>>, i: nat, env: Env)
    requires i < |sites|
    ensures RunSites(db, sites[..i + 1], env) == Step(RunSites(db, sites[..i], env), i, sites[i], env)
  {
    assert sites[..i + 1][..i] == sites[..i] && sites[..i + 1][i] == sites[i];
  }

  /** The loop ends early exactly when an entry is not an object, and then with that error. */
  lemma {:induction false} RunSitesFailure(db: Db, sites: seq<Option<Website>>, env: Env)
    ensures RunSites(db, sites, env).failure.Some? <==> exists i :: 0 <= i < |sites| && sites[i].None?
    ensures RunSites(db, sites, env).failure.Some? ==> RunSites(db, sites, env).failure == Some(NotAnObject)
    decreases |sites|
  {
    if sites != [] {
      var i := |sites| - 1;
      RunSitesFailure(db, sites[..i], env);
      assert forall k :: 0 <= k < i ==> sites[..i][k] == sites[k];
    }
  }

  /** Results are keyed by the names of the websites. */
  lemma {:induction false} RunSitesKeys(db: Db, sites: seq<Option<Website>>, env: Env, n: string)
    requires n in RunSites(db, sites, env).results
    ensures exists i :: 0 <= i < |sites| && sites[i].Some? && sites[i].value.name == n
    decreases |sites|
  {
    var i := |sites| - 1;
    var before := RunSites(db, sites[..i], env);
    if n in before.results {
      RunSitesKeys(db, sites[..i], env, n);
      var k :| 0 <= k < i && sites[..i][k].Some? && sites[..i][k].value.name == n;
      assert sites[k] == sites[..i][k];
    } else {
      assert sites[i].Some? && sites[i].value.name == n;
    }
  }

  /** Every result is well formed. */
  lemma {:induction false} RunSitesResults(db: Db, sites: seq<Option<Website>>, env: Env)
    ensures forall n :: n in RunSites(db, sites, env).results ==> WellFormed(RunSites(db, sites, env).results[n])
    decreases |sites|
  {
    if sites != [] {
      var i := |sites| - 1;
      RunSitesResults(db, sites[..i], env);
      var before := RunSites(db, sites[..i], env);
      var results := RunSites(db, sites, env).results;
      var added: SiteResult;
      if before.failure.Some? || sites[i].None? {
        assert results == before.results;
      } else {
        var w := sites[i].value;
        var site := SiteJobs(w, env.web(i), env.origin);
        if site.Ok? {
          var p := Publish(before.db, site.value, w.name, env.faults(i));
          assert p.count <= |site.value|;
          added := SiteResult(|site.value|, p.count, SiteCompleted, None);
        } else {
          added := SiteResult(0, 0, SiteFailed, Some(site.error));
        }
        assert results == before.results[w.name := added];
        forall n | n in results ensures WellFormed(results[n]) {
          if n != w.name {
            assert results[n] == before.results[n];
          }
        }
      }
    }
  }

  /** An error is counted only for a website whose page did not load. */
  lemma {:induction false} RunSitesNoErrors(db: Db, sites: seq<Option<Website>>, env: Env)
    requires forall i :: 0 <= i < |sites| && sites[i].Some? ==> Load(env.web(i)).Ok?
    ensures RunSites(db, sites, env).errors == 0
    decreases |sites|
  {
    if sites != [] {
      var i := |sites| - 1;
      assert forall k :: 0 <= k < i ==> sites[..i][k] == sites[k];
      RunSitesNoErrors(db, sites[..i], env);
    }
  }

  /** Once the loop has ended early, later websites change nothing. */
  lemma {:induction false} FailureIsFinal(db: Db, sites: seq<Option<Website>>, more: seq<Option<Website>>, env: Env)
    requires RunSites(db, sites, env).failure.Some?
    ensures RunSites(db, sites + more, env) == RunSites(db, sites, env)
    decreases |more|
  {
    if more == [] {
      assert sites + more == sites;
    } else {
      var all := sites + more;
      var m := more[..|more| - 1];
      assert all[..|all| - 1] == sites + m;
      FailureIsFinal(db, sites, m, env);
    }
  }

  /** The entry for a site's name describes the last website of that name the loop reached. */
  lemma LastSiteWins(db: Db, sites: seq<Option<Website>>, w: Website, env: Env)
    requires RunSites(db, sites, env).failure.None?
    ensures var r := RunSites(db, sites + [Some(w)], env);
            && w.name in r.results
            && (r.results[w.name].status == SiteFailed <==> Load(env.web(|sites|)).Err?)
            && (r.results[w.name].status == SiteCompleted ==>
                  r.results[w.name].found == |SiteJobs(w, env.web(|sites|), env.origin).value|)
  {
    var all := sites + [Some(w)];
    assert all[..|sites|] == sites;
  }

  /** `performBulkScraping` as a whole: the run over the configured websites, or a run that fails at once when they are not a list. */
  function BulkRun(db: Db, config: BulkConfig, env: Env): (r: Run)
    ensures config.websites.None? ==> r == Run(0, 0, 0, map[], db, Some(NotIterable))
    ensures r.published <= r.found
    ensures |r.db.opportunities| == |db.opportunities| + r.published
  {
    if config.websites.None? then Run(0, 0, 0, map[], db, Some(NotIterable))
    else RunSites(db, config.websites.value, env)
  }

  /**
   * The final update of the job row: a completed run writes its totals,
   * error count and results; a failed one writes only the error and the
   * results gathered so far, and leaves the totals as they were.
   */
  function Finish(row: JobRun, run: Run): (r: JobRun)
    ensures r.configId == row.configId
    ensures r.status == Completed <==> run.failure.None?
    ensures r.status == Failed <==> run.failure.Some?
    ensures r.results == Some(run.results)
    ensures run.failure.None? ==>
      r.totalFound == Some(run.found) && r.totalPublished == Some(run.published)
      && r.errorsCount == Some(run.errors) && r.errorMessage == row.errorMessage
    ensures run.failure.Some? ==>
      r.totalFound == row.totalFound && r.totalPublished == row.totalPublished
      && r.errorsCount == row.errorsCount && r.errorMessage == run.failure
  {
    if run.failure.None? then
      row.(status := Completed, totalFound := Some(run.found), totalPublished := Some(run.published),
           errorsCount := Some(run.errors), results := Some(run.results))
    else
      row.(status := Failed, errorMessage := run.failure, results := Some(run.results))
  }

  /** A job row is terminal once a run has finished with it, and its totals then agree with each other. */
  lemma FinishedRowIsTerminal(db: Db, config: BulkConfig, env: Env)
    ensures var r := Finish(RunningRow(config.id), BulkRun(db, config, env));
            && r.status != Running
            && (r.status == Completed ==> r.totalPublished.value <= r.totalFound.value)
            && (r.status == Failed ==> r.totalFound.None? && r.errorMessage.Some?)
  {
  }

  /**
   * Two websites where the first loads and the second does not: the run
   * completes, the totals are the first site's, one error is counted and each
   * site's result records its own outcome.
   */
  lemma OneSiteFails(db: Db, config: BulkConfig, a: Website, b: Website, env: Env)
    requires config.websites == Some([Some(a), Some(b)]) && a.name != b.name
    requires SiteJobs(a, env.web(0), env.origin).Ok? && Load(env.web(1)).Err?
    ensures var jobs := SiteJobs(a, env.web(0), env.origin).value;
            var published := Publish(db, jobs, a.name, env.faults(0)).count;
            var row := Finish(RunningRow(config.id), BulkRun(db, config, env));
            && row.status == Completed
            && row.totalFound == Some(|jobs|) && row.totalPublished == Some(published) && row.errorsCount == Some(1)
            && row.results.value.Keys == {a.name, b.name}
            && row.results.value[a.name] == SiteResult(|jobs|, published, SiteCompleted, None)
            && row.results.value[b.name] == SiteResult(0, 0, SiteFailed, Some(Load(env.web(1)).error))
  {
    var sites := [Some(a), Some(b)];
    var jobs := SiteJobs(a, env.web(0), env.origin).value;
    var p := Publish(db, jobs, a.name, env.faults(0));
    assert sites[..1] == [Some(a)] && [Some(a)][..0] == [];
    var r0 := RunSites(db, [], env);
    assert r0 == Run(0, 0, 0, map[], db, None);
    var r1 := RunSites(db, [Some(a)], env);
    assert r1 == Step(r0, 0, Some(a), env);
    assert r1 == Run(|jobs|, p.count, 0, map[a.name := SiteResult(|jobs|, p.count, SiteCompleted, None)], p.db, None);
    var e := Load(env.web(1)).error;
    assert SiteJobs(b, env.web(1), env.origin) == Err(e);
    var r2 := RunSites(db, sites, env);
    assert r2 == Step(r1, 1, Some(b), env);
    assert r2.results == r1.results[b.name := SiteResult(0, 0, SiteFailed, Some(e))];
  }

  /**
   * A run over a list of objects completes, and the job row then holds the
   * error count and the found total of the sites, and the rows added as the
   * published total.
   */
  lemma BulkRunTotals(db: Db, config: BulkConfig, env: Env)
    requires config.websites.Some? && AllObjects(config.websites.value)
    ensures var run := BulkRun(db, config, env);
            var row := Finish(RunningRow(config.id), run);
            && row.status == Completed
            && row.errorsCount == Some(ErrorsOf(config.websites.value, env))
            && row.totalFound == Some(FoundOf(config.websites.value, env))
            && row.totalPublished == Some(|run.db.opportunities| - |db.opportunities|)
  {
    var sites := config.websites.value;
    RunSitesTotals(db, sites, env);
    var run := RunSites(db, sites, env);
    assert BulkRun(db, config, env) == run;
    assert |run.db.opportunities| == |db.opportunities| + run.published;
    var row := Finish(RunningRow(config.id), run);
    assert row.errorsCount == Some(run.errors) && row.totalFound == Some(run.found) && row.totalPublished == Some(run.published);
  }

  /** The totals of a run over websites that are all objects. */
  lemma RunSitesTotals(db: Db, sites: seq<Option<Website>>, env: Env)
    requires AllObjects(sites)
    ensures var run := RunSites(db, sites, env);
            && run.failure.None?
            && run.errors == ErrorsOf(sites, env)
            && run.found == FoundOf(sites, env)
  {
    RunSitesErrors(db, sites, env);
    RunSitesFound(db, sites, env);
    RunSitesFailure(db, sites, env);
  }

  // ---------------------------------------------------------------- methods

  /** The loop of `performBulkScraping` over its websites, publishing into the store as it goes. */
  method ScrapeSites(store: Store, sites: seq<Option<Website>>, env: Env)
    returns (totalFound: nat, totalPublished: nat, totalErrors: nat, results: map<string, SiteResult>, failure: Option<Error>)
    modifies store
    ensures Run(totalFound, totalPublished, totalErrors, results, store.Contents(), failure) == RunSites(old(store.Contents()), sites, env)
    ensures store.configs == old(store.configs) && store.jobRuns == old(store.jobRuns)
  {
    ghost var db0 := store.Contents();
    totalFound, totalPublished, totalErrors, results, failure := 0, 0, 0, map[], None;
    var i := 0;
    while i < |sites| && failure.None?
      invariant 0 <= i <= |sites|
      invariant RunSites(db0, sites[..i], env) == Run(totalFound, totalPublished, totalErrors, results, store.Contents(), failure)
      invariant store.configs == old(store.configs) && store.jobRuns == old(store.jobRuns)
    {
      RunSitesPrefix(db0, sites, i, env);
      if sites[i].None? {
        failure := Some(NotAnObject);
      } else {
        var website := sites[i].value;
        var jobs := ScrapeWebsite(website, env.web(i), env.origin);
        if jobs.Err? {
          StepFailed(RunSites(db0, sites[..i], env), i, website, env);
          totalErrors := totalErrors + 1;
          results := results[website.name := SiteResult(0, 0, SiteFailed, Some(jobs.error))];
        } else {
          StepPublished(RunSites(db0, sites[..i], env), i, website, env);
          var published := PublishJobs(store, jobs.value, website.name, env.faults(i));
          totalFound := totalFound + |jobs.value|;
          totalPublished := totalPublished + published;
          results := results[website.name := SiteResult(|jobs.value|, published, SiteCompleted, None)];
        }
      }
      i := i + 1;
    }
    if i < |sites| {
      FailureIsFinal(db0, sites[..i], sites[i..], env);
      assert sites[..i] + sites[i..] == sites;
    } else {
      assert sites[..i] == sites;
    }
  }

  /** `performBulkScraping` against the store, for the job row `jobId`. */
  method PerformBulkScraping(store: Store, jobId: nat, config: BulkConfig, env: Env)
    modifies store
    ensures var run := BulkRun(old(store.Contents()), config, env);
            && store.Contents() == run.db
            && store.jobRuns == if jobId < |old(store.jobRuns)| then old(store.jobRuns)[jobId := Finish(old(store.jobRuns)[jobId], run)]
                                else old(store.jobRuns)
    ensures store.configs == old(store.configs)
  {
    var run: Run;
    if config.websites.None? {
      run := Run(0, 0, 0, map[], store.Contents(), Some(NotIterable));
    } else {
      var found, published, errors, results, failure := ScrapeSites(store, config.websites.value, env);
      run := Run(found, published, errors, results, store.Contents(), failure);
    }
    store.UpdateJobRun(jobId, row => Finish(row, run));
  }

  /** The reply of the handler, given the configurations it can see and whether inserting the job row fails. */
  function Respond(req: Request, configs: map<string, BulkConfig>, insertFails: bool, nextId: nat): (r: Reply)
    ensures r.Started? <==> Admit(req, configs).Ok? && !insertFails
    ensures r.Started? ==> r.jobId == nextId
    ensures Admit(req, configs).Ok? && insertFails ==> r == Rejected(500, JobRecordFailed)
    ensures Admit(req, configs).Err? ==> r == Admit(req, configs).error
  {
    match Admit(req, configs)
    case Err(reply) => reply
    case Ok(_) => if insertFails then Rejected(500, JobRecordFailed) else Started(nextId)
  }

  /**
   * The handler: validate, insert the running job row, and run the scraping
   * for it. The run happens in the background of the reply; here it is
   * carried out before returning.
   */
  method HandleRequest(store: Store, req: Request, insertFails: bool, env: Env) returns (reply: Reply)
    modifies store
    ensures reply == Respond(req, old(store.configs), insertFails, |old(store.jobRuns)|)
    // a request turned away writes nothing
    ensures !reply.Started? ==> store.jobRuns == old(store.jobRuns) && store.Contents() == old(store.Contents())
    // a started run appends its row and leaves it finished
    ensures reply.Started? ==>
      var config := old(store.configs)[req.body.configId.value];
      var run := BulkRun(old(store.Contents()), config, env);
      && store.jobRuns == old(store.jobRuns) + [Finish(RunningRow(req.body.configId.value), run)]
      && store.Contents() == run.db
    ensures store.configs == old(store.configs)
  {
    var admitted := Admit(req, store.configs);
    if admitted.Err? {
      return admitted.error;
    }
    var config := admitted.value;
    var configId := req.body.configId.value;
    var id := store.InsertJobRun(RunningRow(configId), insertFails);
    if id.None? {
      return Rejected(500, JobRecordFailed);
    }
    PerformBulkScraping(store, id.value, config, env);
    reply := Started(id.value);
  }
}
