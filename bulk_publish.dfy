/**
 * `publishJobs` of the bulk job scraper: resolve a category once, then for
 * each listing skip it when the store already holds a near-duplicate, and
 * otherwise insert one normalised opportunity row.
 */
module BulkPublish {
  import opened Wrappers
  import opened Text
  import opened BulkExtract
  import opened BulkStore

  /** The title and organization prefix lengths the duplicate check searches for. */
  const TitlePrefix: nat := 50
  const CompanyPrefix: nat := 30

  /** What the database decides during one `publishJobs` call. */
  datatype PublishFaults = PublishFaults(
    categoryInsert: Option<nat>,  // id given to a created category, None: the insert reports an error
    insertFails: nat -> bool)     // whether inserting the row of the listing at index i reports an error

  // ---------------------------------------------------------------- category

  /** The categories named `name`, in table order. */
  function Named(cats: seq<Category>, name: string): (r: seq<Category>)
    ensures forall c :: c in r <==> c in cats && c.name == name
    ensures |r| <= |cats|
  {
    if cats == [] then []
    else (if cats[0].name == name then [cats[0]] else []) + Named(cats[1..], name)
  }

  /** Exactly one row of `cats`, the one at index `k`, is named `name`. */
  predicate OnlyNamedAt(cats: seq<Category>, name: string, k: int) {
    && 0 <= k < |cats| && cats[k].name == name
    && forall j :: 0 <= j < |cats| && j != k ==> cats[j].name != name
  }

  /** When the first row has the name, `Named` has one entry exactly when no other row has it. */
  lemma NamedSingletonHead(cats: seq<Category>, name: string)
    requires cats != [] && cats[0].name == name
    ensures |Named(cats, name)| == 1 <==> exists k :: OnlyNamedAt(cats, name, k)
  {
    var rest := cats[1..];
    if |Named(cats, name)| == 1 {
      assert Named(rest, name) == [];
      forall j | 1 <= j < |cats| ensures cats[j].name != name {
        assert cats[j] == rest[j - 1];
        assert cats[j] !in Named(rest, name);
      }
      assert OnlyNamedAt(cats, name, 0);
    } else {
      assert Named(rest, name) != [];
      var c := Named(rest, name)[0];
      assert c in rest && c.name == name;
      var j :| 0 <= j < |rest| && rest[j] == c;
      assert cats[j + 1] == c;
    }
  }

  /** Dropping a first row that lacks the name moves the only named row down by one. */
  lemma OnlyNamedDrop(cats: seq<Category>, name: string, k: int)
    requires cats != [] && cats[0].name != name && OnlyNamedAt(cats, name, k)
    ensures OnlyNamedAt(cats[1..], name, k - 1)
  {
    var rest := cats[1..];
    forall j | 0 <= j < |rest| && j != k - 1 ensures rest[j].name != name {
      assert rest[j] == cats[j + 1];
    }
  }

  /** Putting back a first row that lacks the name moves the only named row up by one. */
  lemma OnlyNamedCons(cats: seq<Category>, name: string, k: int)
    requires cats != [] && cats[0].name != name && OnlyNamedAt(cats[1..], name, k)
    ensures OnlyNamedAt(cats, name, k + 1)
  {
    var rest := cats[1..];
    forall j | 0 <= j < |cats| && j != k + 1 ensures cats[j].name != name {
      if j > 0 {
        assert cats[j] == rest[j - 1];
      }
    }
  }

  /** When the first row lacks the name, the rows after it decide. */
  lemma NamedSingletonTail(cats: seq<Category>, name: string)
    requires cats != [] && cats[0].name != name
    requires |Named(cats[1..], name)| == 1 <==> exists k :: OnlyNamedAt(cats[1..], name, k)
    ensures |Named(cats, name)| == 1 <==> exists k :: OnlyNamedAt(cats, name, k)
  {
    assert Named(cats, name) == Named(cats[1..], name);
    if k :| OnlyNamedAt(cats, name, k) {
      OnlyNamedDrop(cats, name, k);
    }
    if k :| OnlyNamedAt(cats[1..], name, k) {
      OnlyNamedCons(cats, name, k);
    }
  }

  /** `Named` has one entry exactly when one row has the name. */
  lemma {:induction false} NamedSingleton(cats: seq<Category>, name: string)
    ensures |Named(cats, name)| == 1 <==> exists k :: OnlyNamedAt(cats, name, k)
  {
    if cats != [] {
      if cats[0].name == name {
        NamedSingletonHead(cats, name);
      } else {
        NamedSingleton(cats[1..], name);
        NamedSingletonTail(cats, name);
      }
    }
  }

  /** `.eq('name', name).single()`: a category exactly when one row has that name, and then that row. */
  function UniqueNamed(cats: seq<Category>, name: string): (r: Option<Category>)
    ensures r.Some? <==> exists k :: OnlyNamedAt(cats, name, k)
    ensures r.Some? ==> r.value in cats && r.value.name == name
    ensures r.Some? ==> forall k :: OnlyNamedAt(cats, name, k) ==> r.value == cats[k]
    ensures (forall c :: c in cats ==> c.name != name) ==> r.None?
  {
    var named := Named(cats, name);
    NamedSingleton(cats, name);
    if |named| == 1 then
      assert named[0] in named;
      Some(named[0])
    else
      None
  }

  /** `.eq('is_active', true).limit(1)`: the first active category in table order. */
  function FirstActive(cats: seq<Category>): (r: Option<Category>)
    ensures r.None? <==> forall k :: 0 <= k < |cats| ==> !cats[k].isActive
    ensures r.Some? ==> exists k :: 0 <= k < |cats| && cats[k] == r.value && r.value.isActive
                                    && forall j :: 0 <= j < k ==> !cats[j].isActive
  {
    if cats == [] then None
    else if cats[0].isActive then Some(cats[0])
    else
      var r := FirstActive(cats[1..]);
      if r.Some? then
        var k :| 0 <= k < |cats[1..]| && cats[1..][k] == r.value && r.value.isActive
                 && forall j :: 0 <= j < k ==> !cats[1..][j].isActive;
        assert cats[k + 1] == r.value;
        r
      else r
  }

  /** The category chosen, and the category table afterwards. */
  datatype Resolution = Resolution(categoryId: Option<nat>, categories: seq<Category>)

  /**
   * The three fallbacks of `publishJobs`: the category named `jobs`, else the
   * first active category, else a newly created `jobs` category; no category
   * when that create fails.
   */
  function ResolveCategory(cats: seq<Category>, created: Option<nat>): (r: Resolution)
    ensures UniqueNamed(cats, JobsCategoryName).Some? ==>
      r == Resolution(Some(UniqueNamed(cats, JobsCategoryName).value.id), cats)
    ensures UniqueNamed(cats, JobsCategoryName).None? && FirstActive(cats).Some? ==>
      r == Resolution(Some(FirstActive(cats).value.id), cats)
    // a category is created only when no category is active and none is the unique `jobs` one
    ensures r.categories != cats <==> UniqueNamed(cats, JobsCategoryName).None? && FirstActive(cats).None? && created.Some?
    ensures r.categories != cats ==>
      r.categories == cats + [Category(created.value, JobsCategoryName, JobsCategoryDescription, true)]
    // and then every insert uses the id of the category just created
    ensures r.categories != cats ==> r.categoryId == created
    // the result is a category of the resulting table, named `jobs` or active
    ensures r.categoryId.Some? ==> exists k :: 0 <= k < |r.categories| && r.categories[k].id == r.categoryId.value
                                              && (r.categories[k].name == JobsCategoryName || r.categories[k].isActive)
    ensures r.categoryId.None? <==> UniqueNamed(cats, JobsCategoryName).None? && FirstActive(cats).None? && created.None?
  {
    var byName := UniqueNamed(cats, JobsCategoryName);
    if byName.Some? then
      ghost var k :| 0 <= k < |cats| && cats[k] == byName.value;
      Resolution(Some(byName.value.id), cats)
    else
      var active := FirstActive(cats);
      if active.Some? then Resolution(Some(active.value.id), cats)
      else if created.None? then Resolution(None, cats)
      else
        var added := Category(created.value, JobsCategoryName, JobsCategoryDescription, true);
        assert (cats + [added])[|cats|] == added;
        Resolution(created, cats + [added])
  }

  // ---------------------------------------------------------------- duplicates

  /**
   * The duplicate query: the row's title contains the first 50 characters of
   * the listing's title and its organization the first 30 of the company,
   * both ignoring case.
   */
  predicate IsDuplicateOf(row: Opportunity, job: JobListing) {
    && ContainsIgnoreCase(row.title, Take(job.title, TitlePrefix))
    && ContainsIgnoreCase(row.organization, Take(job.company, CompanyPrefix))
  }

  /** `existing && existing.length > 0`: some stored row is a duplicate of the listing. */
  predicate HasDuplicate(opps: seq<Opportunity>, job: JobListing) {
    exists k :: 0 <= k < |opps| && IsDuplicateOf(opps[k], job)
  }

  /** A table holding a row with the listing's own title and company has a duplicate of it; an empty table has none. */
  lemma ExactCopyIsDuplicate(opps: seq<Opportunity>, job: JobListing)
    ensures (exists k :: 0 <= k < |opps| && opps[k].title == job.title && opps[k].organization == job.company) ==> HasDuplicate(opps, job)
    ensures opps == [] ==> !HasDuplicate(opps, job)
  {
    if k :| 0 <= k < |opps| && opps[k].title == job.title && opps[k].organization == job.company {
      PrefixContainedIgnoreCase(job.title, TitlePrefix);
      PrefixContainedIgnoreCase(job.company, CompanyPrefix);
      assert IsDuplicateOf(opps[k], job);
    }
  }

  /** A duplicate stays a duplicate when rows are added. */
  lemma HasDuplicateGrows(opps: seq<Opportunity>, more: seq<Opportunity>, job: JobListing)
    requires HasDuplicate(opps, job)
    ensures HasDuplicate(opps + more, job)
  {
    var k :| 0 <= k < |opps| && IsDuplicateOf(opps[k], job);
    assert (opps + more)[k] == opps[k];
  }

  // ---------------------------------------------------------------- normalisation

  /**
   * The description `publishJobs` writes when the listing has none: the
   * title and company, then the location or "Remote/Not specified", then the
   * tags joined by ", " or "None specified".
   */
  function SynthesizedDescription(job: JobListing): (d: string)
    ensures job.location.Some? && job.location.value != "" ==>
      StartsWith(d, job.title + " position at " + job.company + ". Location: " + job.location.value + ". Tags: ")
    ensures job.location.None? || job.location.value == "" ==>
      StartsWith(d, job.title + " position at " + job.company + ". Location: " + "Remote/Not specified" + ". Tags: ")
    ensures Join(job.tags, ", ") != "" ==> EndsWith(d, ". Tags: " + Join(job.tags, ", ") + ".")
    ensures Join(job.tags, ", ") == "" ==> EndsWith(d, ". Tags: " + "None specified" + ".")
    ensures job.tags == [] ==> EndsWith(d, ". Tags: " + "None specified" + ".")
    // and nothing lies between the two: the length is that of the two parts joined
    ensures |d| == |job.title + " position at " + job.company + ". Location: "|
                   + |if job.location.Some? && job.location.value != "" then job.location.value else "Remote/Not specified"|
                   + |". Tags: "|
                   + |if Join(job.tags, ", ") != "" then Join(job.tags, ", ") else "None specified"|
                   + |"."|
  {
    var location := if job.location.Some? && job.location.value != "" then job.location.value else "Remote/Not specified";
    var joined := Join(job.tags, ", ");
    var tags := if joined != "" then joined else "None specified";
    var head := job.title + " position at " + job.company + ". Location: " + location;
    var tail := ". Tags: " + tags + ".";
    AppendExtends(". Tags: ", tags);
    AppendExtends(". Tags: " + tags, ".");
    PrefixTransitive(". Tags: ", ". Tags: " + tags, tail);
    AppendStartsWith(head, tail, ". Tags: ");
    AppendEndsWith(head, tail);
    head + tail
  }

  /** The row `publishJobs` inserts for a listing. */
  function ToRow(job: JobListing, categoryId: nat, source: string): (row: Opportunity)
    ensures row.title == job.title && row.organization == job.company
    ensures row.applicationUrl == job.jobUrl && row.sourceUrl == job.jobUrl
    ensures row.categoryId == categoryId && row.source == "bulk_scraped" && row.isPublished && row.status == "approved"
    ensures row.metadata == Metadata(source, job.postedDate)
    // location defaults to "Remote"
    ensures row.location != ""
    ensures job.location.Some? && job.location.value != "" ==> row.location == job.location.value
    ensures job.location.None? || job.location.value == "" ==> row.location == "Remote"
    // an empty tag list is stored as null
    ensures row.tags.None? <==> job.tags == []
    ensures row.tags.Some? ==> row.tags.value == job.tags
    // the extracted description is kept, otherwise one is synthesised
    ensures row.description != ""
    ensures job.description.Some? && job.description.value != "" ==> row.description == job.description.value
    ensures job.description.None? || job.description.value == "" ==> row.description == SynthesizedDescription(job)
  {
    var description := if job.description.Some? && job.description.value != "" then job.description.value
                       else SynthesizedDescription(job);
    Opportunity(
      job.title,
      description,
      job.company,
      if job.location.Some? && job.location.value != "" then job.location.value else "Remote",
      job.jobUrl,
      job.jobUrl,
      categoryId,
      "bulk_scraped",
      true,
      if |job.tags| > 0 then Some(job.tags) else None,
      "approved",
      Metadata(source, job.postedDate))
  }

  /** The row inserted for a listing is found again by that listing's duplicate query. */
  lemma RowIsDuplicateOfItsJob(job: JobListing, categoryId: nat, source: string)
    ensures IsDuplicateOf(ToRow(job, categoryId, source), job)
  {
    PrefixContainedIgnoreCase(job.title, TitlePrefix);
    PrefixContainedIgnoreCase(job.company, CompanyPrefix);
  }

  // ---------------------------------------------------------------- publishing

  /** The opportunities table after the loop over `jobs` with category `categoryId`. */
  function PublishAll(opps: seq<Opportunity>, jobs: seq<JobListing>, categoryId: nat, source: string,
                      insertFails: nat -> bool): (r: seq<Opportunity>)
    // rows are only ever appended, at most one per listing
    ensures |opps| <= |r| <= |opps| + |jobs|
    ensures r[..|opps|] == opps
    decreases |jobs|
  {
    if jobs == [] then opps
    else
      var i := |jobs| - 1;
      var before := PublishAll(opps, jobs[..i], categoryId, source, insertFails);
      if HasDuplicate(before, jobs[i]) || insertFails(i) then before
      else
        assert (before + [ToRow(jobs[i], categoryId, source)])[..|opps|] == before[..|opps|];
        before + [ToRow(jobs[i], categoryId, source)]
  }

  /** Appending leaves the first k rows and row k as they were. */
  lemma KeepsPrefix(a: seq<Opportunity>, b: seq<Opportunity>, k: nat)
    requires k < |a|
    ensures (a + b)[k] == a[k] && (a + b)[..k] == a[..k]
  {
  }

  /** Row k of `r` is the row of listing i, inserted when no earlier row was a duplicate of it. */
  predicate InsertedFor(r: seq<Opportunity>, k: nat, jobs: seq<JobListing>, i: int, categoryId: nat, source: string,
                        insertFails: nat -> bool) {
    && k < |r| && 0 <= i < |jobs| && r[k] == ToRow(jobs[i], categoryId, source)
    && !insertFails(i) && !HasDuplicate(r[..k], jobs[i])
  }

  /**
   * Every appended row is the row of some listing of the batch, and when it
   * was inserted no row before it was a duplicate of that listing.
   */
  lemma {:induction false} AppendedRowsAreFresh(opps: seq<Opportunity>, jobs: seq<JobListing>, categoryId: nat, source: string,
                                                insertFails: nat -> bool, k: nat)
    requires var r := PublishAll(opps, jobs, categoryId, source, insertFails); |opps| <= k < |r|
    ensures exists i :: InsertedFor(PublishAll(opps, jobs, categoryId, source, insertFails), k, jobs, i, categoryId, source, insertFails)
    decreases |jobs|
  {
    var r := PublishAll(opps, jobs, categoryId, source, insertFails);
    var i := |jobs| - 1;
    var before := PublishAll(opps, jobs[..i], categoryId, source, insertFails);
    var added := !HasDuplicate(before, jobs[i]) && !insertFails(i);
    var tail := if added then [ToRow(jobs[i], categoryId, source)] else [];
    assert r == before + tail;
    if k < |before| {
      AppendedRowsAreFresh(opps, jobs[..i], categoryId, source, insertFails, k);
      var i' :| InsertedFor(before, k, jobs[..i], i', categoryId, source, insertFails);
      KeepsPrefix(before, tail, k);
      assert jobs[..i][i'] == jobs[i'];
      assert InsertedFor(r, k, jobs, i', categoryId, source, insertFails);
    } else {
      assert added && r[k] == ToRow(jobs[i], categoryId, source) && r[..k] == before;
      assert InsertedFor(r, k, jobs, i, categoryId, source, insertFails);
    }
  }

  /** Every listing of the batch has a duplicate in `opps`. */
  predicate Covers(opps: seq<Opportunity>, jobs: seq<JobListing>) {
    forall i :: 0 <= i < |jobs| ==> HasDuplicate(opps, jobs[i])
  }

  /** A table that already covers the batch is left as it is. */
  lemma {:induction false} PublishAllCovered(opps: seq<Opportunity>, jobs: seq<JobListing>, categoryId: nat, source: string,
                                             insertFails: nat -> bool)
    requires Covers(opps, jobs)
    ensures PublishAll(opps, jobs, categoryId, source, insertFails) == opps
    decreases |jobs|
  {
    if jobs != [] {
      var i := |jobs| - 1;
      assert Covers(opps, jobs[..i]) by {
        forall j | 0 <= j < i ensures HasDuplicate(opps, jobs[..i][j]) {
          assert jobs[..i][j] == jobs[j];
        }
      }
      PublishAllCovered(opps, jobs[..i], categoryId, source, insertFails);
      assert HasDuplicate(opps, jobs[i]);
    }
  }

  /** When no insert fails, afterwards every listing of the batch has a duplicate. */
  lemma PublishAllCovers(opps: seq<Opportunity>, jobs: seq<JobListing>, categoryId: nat, source: string,
                         insertFails: nat -> bool)
    requires forall i :: 0 <= i < |jobs| ==> !insertFails(i)
    ensures Covers(PublishAll(opps, jobs, categoryId, source, insertFails), jobs)
  {
    forall j | 0 <= j < |jobs| ensures HasDuplicate(PublishAll(opps, jobs, categoryId, source, insertFails), jobs[j]) {
      ListingCovered(opps, jobs, categoryId, source, insertFails, j);
    }
  }

  /** The listing at index `j` has a duplicate once the batch is published, when no insert fails. */
  lemma {:induction false} ListingCovered(opps: seq<Opportunity>, jobs: seq<JobListing>, categoryId: nat, source: string,
                                          insertFails: nat -> bool, j: nat)
    requires forall i :: 0 <= i < |jobs| ==> !insertFails(i)
    requires j < |jobs|
    ensures HasDuplicate(PublishAll(opps, jobs, categoryId, source, insertFails), jobs[j])
    decreases |jobs|
  {
    var i := |jobs| - 1;
    if j == i {
      LastJobCovered(opps, jobs, categoryId, source, insertFails);
    } else {
      ListingCovered(opps, jobs[..i], categoryId, source, insertFails, j);
      assert jobs[..i][j] == jobs[j];
      CoveredStaysCovered(PublishAll(opps, jobs[..i], categoryId, source, insertFails),
                          PublishAll(opps, jobs, categoryId, source, insertFails), jobs[j]);
    }
  }

  /** The last listing of a batch whose insert does not fail has a duplicate afterwards. */
  lemma LastJobCovered(opps: seq<Opportunity>, jobs: seq<JobListing>, categoryId: nat, source: string,
                       insertFails: nat -> bool)
    requires jobs != [] && !insertFails(|jobs| - 1)
    ensures HasDuplicate(PublishAll(opps, jobs, categoryId, source, insertFails), jobs[|jobs| - 1])
  {
    var i := |jobs| - 1;
    var before := PublishAll(opps, jobs[..i], categoryId, source, insertFails);
    var after := PublishAll(opps, jobs, categoryId, source, insertFails);
    if !HasDuplicate(before, jobs[i]) {
      RowIsDuplicateOfItsJob(jobs[i], categoryId, source);
      assert after[|before|] == ToRow(jobs[i], categoryId, source);
    }
  }

  lemma CoveredStaysCovered(before: seq<Opportunity>, after: seq<Opportunity>, job: JobListing)
    requires HasDuplicate(before, job)
    requires |before| <= |after| && after[..|before|] == before
    ensures HasDuplicate(after, job)
  {
    HasDuplicateGrows(before, after[|before|..], job);
    assert before + after[|before|..] == after;
  }

  /** The outcome of one `publishJobs` call: the tables afterwards and the returned count. */
  datatype Published = Published(db: Db, count: nat)

  /** `publishJobs`. */
  function Publish(db: Db, jobs: seq<JobListing>, source: string, faults: PublishFaults): (p: Published)
    // the count is the number of rows inserted, at most one per listing
    ensures p.count <= |jobs|
    ensures |p.db.opportunities| == |db.opportunities| + p.count
    ensures p.db.opportunities[..|db.opportunities|] == db.opportunities
    // categories are only ever added
    ensures |db.categories| <= |p.db.categories| && p.db.categories[..|db.categories|] == db.categories
    // a failed category create inserts nothing
    ensures ResolveCategory(db.categories, faults.categoryInsert).categoryId.None? ==> p == Published(db, 0)
  {
    var res := ResolveCategory(db.categories, faults.categoryInsert);
    if res.categoryId.None? then Published(db, 0)
    else
      var opps := PublishAll(db.opportunities, jobs, res.categoryId.value, source, faults.insertFails);
      assert res.categories[..|db.categories|] == db.categories;
      Published(Db(res.categories, opps), |opps| - |db.opportunities|)
  }

  /**
   * Publishing is idempotent: when a first call resolved a category and none
   * of its inserts failed, publishing the same batch again against the
   * updated tables inserts nothing, whatever the database does the second time.
   */
  lemma RepublishInsertsNothing(db: Db, jobs: seq<JobListing>, source: string, first: PublishFaults, second: PublishFaults)
    requires ResolveCategory(db.categories, first.categoryInsert).categoryId.Some?
    requires forall i :: 0 <= i < |jobs| ==> !first.insertFails(i)
    ensures var once := Publish(db, jobs, source, first).db;
            Publish(once, jobs, source, second).count == 0
            && Publish(once, jobs, source, second).db.opportunities == once.opportunities
  {
    var once := Publish(db, jobs, source, first).db;
    var res := ResolveCategory(db.categories, first.categoryInsert);
    PublishAllCovers(db.opportunities, jobs, res.categoryId.value, source, first.insertFails);
    var res2 := ResolveCategory(once.categories, second.categoryInsert);
    if res2.categoryId.Some? {
      PublishAllCovered(once.opportunities, jobs, res2.categoryId.value, source, second.insertFails);
    }
  }

  /** `publishJobs` against the store. */
  method PublishJobs(store: Store, jobs: seq<JobListing>, source: string, faults: PublishFaults) returns (published: nat)
    modifies store
    ensures store.Contents() == Publish(old(store.Contents()), jobs, source, faults).db
    ensures published == Publish(old(store.Contents()), jobs, source, faults).count
    ensures store.configs == old(store.configs) && store.jobRuns == old(store.jobRuns)
  {
    var category := UniqueNamed(store.categories, JobsCategoryName);
    if category.None? {
      category := FirstActive(store.categories);
    }
    var categoryId: nat;
    if category.None? {
      var created := store.CreateJobsCategory(faults.categoryInsert);
      if created.None? {
        return 0;
      }
      categoryId := created.value;
    } else {
      categoryId := category.value.id;
    }

    ghost var res := ResolveCategory(old(store.categories), faults.categoryInsert);
    assert res.categoryId == Some(categoryId) && store.categories == res.categories;
    ghost var opps0 := store.opportunities;
    published := 0;
    for i := 0 to |jobs|
      invariant store.opportunities == PublishAll(opps0, jobs[..i], categoryId, source, faults.insertFails)
      invariant published == |store.opportunities| - |opps0|
      invariant store.categories == res.categories
      invariant store.configs == old(store.configs) && store.jobRuns == old(store.jobRuns)
    {
      assert jobs[..i + 1][..i] == jobs[..i] && jobs[..i + 1][i] == jobs[i];
      var job := jobs[i];
      if HasDuplicate(store.opportunities, job) {
        continue;
      }
      var ok := store.InsertOpportunity(ToRow(job, categoryId, source), faults.insertFails(i));
      if ok {
        published := published + 1;
      }
    }
    assert jobs[..|jobs|] == jobs;
  }
}
