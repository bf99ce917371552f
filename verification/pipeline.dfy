/** One run of `main` (fetch_graduate_jobs.py:168-181): collect the three
    fetchers' records in a fixed order, deduplicate, and, unless nothing is
    left, append to the history file and notify. The pauses between fetches
    are left out. */
module Pipeline {
  import opened Text
  import opened Records
  import opened Sources
  import opened Deduplicator
  import opened History
  import opened Notify

  /** What a run did: the deduplicated batch, whether the history file was
      appended to, and the messages it sent (`None` when not sent). */
  datatype RunReport = RunReport(batch: seq<Job>, appended: bool, email: Option<Email>, digest: Option<Digest>)

  /** `all_jobs` after the three `+=` of lines 169-174. */
  function Collected(remote: FetchOutcome<seq<RawJob>>, myjobmag: FetchOutcome<seq<Post>>,
                     jobberman: FetchOutcome<seq<Anchor>>, date: string): seq<Job>
  {
    RemoteJobs(Payload(remote), date) + MyJobMagJobs(Payload(myjobmag), date)
      + JobbermanJobs(Payload(jobberman), date)
  }

  /** Every collected record carries the graduate category. */
  lemma CollectedAreGraduates(remote: FetchOutcome<seq<RawJob>>, myjobmag: FetchOutcome<seq<Post>>,
                              jobberman: FetchOutcome<seq<Anchor>>, date: string)
    ensures forall r :: r in Collected(remote, myjobmag, jobberman, date) ==> r.category == GraduateCategory
  {
    forall r | r in Collected(remote, myjobmag, jobberman, date)
      ensures r.category == GraduateCategory
    {
      RemoteJobsMembership(Payload(remote), date, r);
      MyJobMagMembership(Payload(myjobmag), date, r);
    }
  }

  /** The digest header of a run counts every record of the batch. */
  lemma BatchCountsAllGraduates(remote: FetchOutcome<seq<RawJob>>, myjobmag: FetchOutcome<seq<Post>>,
                                jobberman: FetchOutcome<seq<Anchor>>, date: string)
    ensures var batch := Deduped(Collected(remote, myjobmag, jobberman, date), IdentityKey);
      CountGraduates(batch) == |batch|
  {
    var all := Collected(remote, myjobmag, jobberman, date);
    CollectedAreGraduates(remote, myjobmag, jobberman, date);
    DedupedMembers(all, IdentityKey);
    CountAllGraduates(Deduped(all, IdentityKey));
  }

  /** Lines 168-174: `all_jobs` gathered from the three fetchers in order. */
  method CollectAll(remote: FetchOutcome<seq<RawJob>>, myjobmag: FetchOutcome<seq<Post>>,
                    jobberman: FetchOutcome<seq<Anchor>>, date: string)
    returns (allJobs: seq<Job>)
    ensures allJobs == Collected(remote, myjobmag, jobberman, date)
  {
    allJobs := [];
    var fromRemote := RemotiveGraduates(remote, date);
    allJobs := allJobs + fromRemote;
    assert allJobs == fromRemote;
    var fromMyJobMag := MyJobMag(myjobmag, date);
    allJobs := allJobs + fromMyJobMag;
    var fromJobberman := Jobberman(jobberman, date);
    allJobs := allJobs + fromJobberman;
  }

  /** `main`. */
  method Run(remote: FetchOutcome<seq<RawJob>>, myjobmag: FetchOutcome<seq<Post>>,
             jobberman: FetchOutcome<seq<Anchor>>, date: string, history: HistoryFile)
    returns (report: RunReport)
    requires history.Valid()
    modifies history
    ensures history.Valid()
    ensures report.batch == Deduped(Collected(remote, myjobmag, jobberman, date), IdentityKey)
    ensures UniqueKeys(report.batch, IdentityKey)
    // nothing survives: no append, no email, no message
    ensures report.batch == [] ==>
      && !report.appended && report.email.None? && report.digest.None?
      && history.present == old(history.present) && history.rows == old(history.rows)
    // otherwise the batch is appended, then mailed, then sent as a digest
    ensures report.batch != [] ==>
      && report.appended && history.present
      && history.rows == old(history.rows) + (if old(history.present) then [] else [Header]) + CsvRows(report.batch)
    ensures report.batch != [] ==>
      && report.email.Some? && EmailOf(report.email.value, report.batch, date)
      && report.digest.Some? && DigestOf(report.digest.value, report.batch)
      && CountGraduates(report.batch) == |report.batch|
  {
    var allJobs := CollectAll(remote, myjobmag, jobberman, date);
    var jobs := Dedupe(allJobs);
    if jobs == [] {
      report := RunReport(jobs, false, None, None);
      return;
    }
    history.Append(jobs);
    var email := ComposeEmail(jobs, date);
    var digest := ComposeDigest(jobs);
    BatchCountsAllGraduates(remote, myjobmag, jobberman, date);
    report := RunReport(jobs, true, Some(email), Some(digest));
  }

  /** The API job of the end-to-end example: "Data Analyst" at Acme, located
      "Remote, Nigeria", with url "https://x/1". */
  function ExampleRawJob(): RawJob {
    RawJob(Str("Data Analyst"), Str("Acme"), Str("Remote, Nigeria"), Str("https://x/1"), Missing, Missing)
  }

  lemma ExampleTrimmed()
    ensures Trim("Remote, Nigeria") == "Remote, Nigeria"
    ensures Trim("Data Analyst") == "Data Analyst"
  {
    assert TrimStart("Remote, Nigeria") == "Remote, Nigeria";
    assert TrimEnd("Remote, Nigeria") == "Remote, Nigeria";
    assert TrimStart("Data Analyst") == "Data Analyst";
    assert TrimEnd("Data Analyst") == "Data Analyst";
  }

  lemma ExampleMentionsNigeria()
    ensures Occurs("nigeria", ToLower("Remote, Nigeria"))
  {
    assert ToLower("Remote, Nigeria") == "remote, nigeria";
    assert OccursAt("nigeria", "remote, nigeria", 8);
  }

  /** The example job is relevant (its location names Nigeria) and is
      normalised with its fields kept as given. */
  lemma ExampleRemoteRecord(date: string)
    ensures RelevantJob(ExampleRawJob())
    ensures RemoteRecord(ExampleRawJob(), date)
      == Job(date, GraduateCategory, "Data Analyst", "Acme", "Remote, Nigeria", Some("https://x/1"),
             GraduateKeywords, GraduateSkills, "Remotive")
  {
    ExampleTrimmed();
    ExampleMentionsNigeria();
    KeywordInLocation("Remote, Nigeria", "", "Data Analyst", "nigeria");
  }

  /** A single relevant API job and two failed boards: the batch is exactly
      that job's record, with its location and link as given. */
  lemma SingleRemoteJobRun(date: string)
    ensures Deduped(Collected(Fetched([ExampleRawJob()]), Failed, Failed, date), IdentityKey)
      == [Job(date, GraduateCategory, "Data Analyst", "Acme", "Remote, Nigeria", Some("https://x/1"),
              GraduateKeywords, GraduateSkills, "Remotive")]
  {
    var raw := ExampleRawJob();
    ExampleRemoteRecord(date);
    var rec := RemoteRecord(raw, date);
    assert RemoteJobs([raw], date) == [rec] by {
      assert [raw][..0] == [];
    }
    assert Collected(Fetched([raw]), Failed, Failed, date) == [rec];
    assert [rec][..0] == [];
  }
}
