/** The three fetchers of fetch_graduate_jobs.py with their network and HTML
    parsing removed: each takes what its request produced (or the fact that
    the request failed) and maps it to job records. */
module Sources {
  import opened Text
  import opened Records

  /** What a fetcher's request produced: the decoded payload, or a failure
      (network error, bad status, undecodable body) that the fetcher catches. */
  datatype FetchOutcome<T> = Failed | Fetched(value: T)

  /** The payload a fetcher loops over; a failed request yields nothing. */
  function Payload<T>(outcome: FetchOutcome<seq<T>>): (items: seq<T>)
    ensures outcome.Failed? ==> items == []
  {
    match outcome
    case Failed => []
    case Fetched(items) => items
  }

  // ---------------------------------------------------------------------
  // Remotive (remotive_graduates, lines 16-45)

  /** A JSON member as `dict.get` sees it: absent, `null`, or a string. */
  datatype JsonValue = Missing | Null | Str(s: string)

  /** One element of the API's `jobs` list. */
  datatype RawJob = RawJob(
    title: JsonValue,
    companyName: JsonValue,
    candidateRequiredLocation: JsonValue,
    url: JsonValue,
    jobUrl: JsonValue,
    description: JsonValue)

  /** Python's `j.get(name) or default`: the member when it is a non-empty
      string, otherwise the default. */
  function OrElse(v: JsonValue, default: string): (r: string)
    ensures v.Str? && v.s != "" ==> r == v.s
    ensures !(v.Str? && v.s != "") ==> r == default
  {
    if v.Str? && v.s != "" then v.s else default
  }

  /** The title the corrected fetcher uses: `(j.get('title') or '').strip()`. */
  function RemoteTitle(v: JsonValue): string {
    Trim(OrElse(v, ""))
  }

  /** The title as line 28 computes it, `j.get('title','').strip()`: `None`
      stands for the AttributeError raised when the member is `null`. */
  function RemoteTitleAsWritten(v: JsonValue): (r: Option<string>)
    ensures r.None? <==> v.Null?
    ensures r.Some? ==> r.value == RemoteTitle(v)
  {
    match v
    case Missing => Some(Trim(""))
    case Null => None
    case Str(s) => Some(Trim(s))
  }

  /** `(j.get('candidate_required_location') or '').strip()` */
  function RemoteLocation(raw: RawJob): string {
    Trim(OrElse(raw.candidateRequiredLocation, ""))
  }

  /** `j.get('url') or j.get('job_url') or ''` */
  function RemoteLink(raw: RawJob): (link: string)
    ensures raw.url.Str? && raw.url.s != "" ==> link == raw.url.s
    ensures !(raw.url.Str? && raw.url.s != "") && raw.jobUrl.Str? && raw.jobUrl.s != "" ==> link == raw.jobUrl.s
    ensures !(raw.url.Str? && raw.url.s != "") && !(raw.jobUrl.Str? && raw.jobUrl.s != "") ==> link == ""
  {
    OrElse(raw.url, OrElse(raw.jobUrl, ""))
  }

  const RelevanceKeywords: seq<string> := ["nigeria", "africa"]

  /** Line 33: one of the keywords occurs in the lowercased
      `loc + ' ' + desc + ' ' + title`. */
  function IsRelevant(loc: string, desc: string, title: string): bool {
    var text := ToLower(loc + " " + desc + " " + title);
    Occurs("nigeria", text) || Occurs("africa", text)
  }

  predicate RelevantJob(raw: RawJob) {
    IsRelevant(RemoteLocation(raw), OrElse(raw.description, ""), RemoteTitle(raw.title))
  }

  /** A location that mentions a keyword in any letter case makes the job
      relevant, whatever its description and title. */
  lemma KeywordInLocation(loc: string, desc: string, title: string, kw: string)
    requires kw in RelevanceKeywords
    requires Occurs(kw, ToLower(loc))
    ensures IsRelevant(loc, desc, title)
  {
    var text := ToLower(loc + " " + desc + " " + title);
    var i :| OccursAt(kw, ToLower(loc), i);
    assert text[i..i + |kw|] == ToLower(loc)[i..i + |kw|];
    assert OccursAt(kw, text, i);
  }

  /** The record emitted for a relevant API job (lines 34-44). */
  function RemoteRecord(raw: RawJob, date: string): (j: Job)
    ensures j.date == date && j.category == GraduateCategory && j.source == "Remotive"
    ensures j.title == RemoteTitle(raw.title)
    ensures raw.companyName.Str? && raw.companyName.s != "" ==> j.company == raw.companyName.s
    ensures !(raw.companyName.Str? && raw.companyName.s != "") ==> j.company == "-"
    ensures j.location != ""
    ensures RemoteLocation(raw) == "" ==> j.location == "Nigeria"
    ensures RemoteLocation(raw) != "" ==> j.location == RemoteLocation(raw)
    ensures j.link == Some(RemoteLink(raw))
    ensures j.keywords == GraduateKeywords && j.skills == GraduateSkills
  {
    var loc := RemoteLocation(raw);
    Job(date, GraduateCategory, RemoteTitle(raw.title), OrElse(raw.companyName, "-"),
        if loc == "" then "Nigeria" else loc, Some(RemoteLink(raw)),
        GraduateKeywords, GraduateSkills, "Remotive")
  }

  /** The records `remotive_graduates` returns for a payload, in order. */
  function RemoteJobs(data: seq<RawJob>, date: string): seq<Job> {
    if data == [] then []
    else
      var raw := data[|data| - 1];
      RemoteJobs(data[..|data| - 1], date) + (if RelevantJob(raw) then [RemoteRecord(raw, date)] else [])
  }

  /** A record is emitted iff it is the record of a relevant job of the
      payload. */
  lemma {:induction false} RemoteJobsMembership(data: seq<RawJob>, date: string, j: Job)
    ensures j in RemoteJobs(data, date) <==> exists raw :: raw in data && RelevantJob(raw) && j == RemoteRecord(raw, date)
  {
    if data != [] {
      var p := data[..|data| - 1];
      RemoteJobsMembership(p, date, j);
      assert data == p + [data[|data| - 1]];
    }
  }

  /** At most one record per API job. */
  lemma {:induction false} RemoteJobsLength(data: seq<RawJob>, date: string)
    ensures |RemoteJobs(data, date)| <= |data|
  {
    if data != [] {
      RemoteJobsLength(data[..|data| - 1], date);
    }
  }

  /** `remotive_graduates` with the corrected title (see Findings): loop
      over the payload, normalise each job, keep the relevant ones. */
  method RemotiveGraduates(response: FetchOutcome<seq<RawJob>>, date: string) returns (jobs: seq<Job>)
    ensures jobs == RemoteJobs(Payload(response), date)
    ensures response.Failed? ==> jobs == []
  {
    var data := Payload(response);
    jobs := [];
    for i := 0 to |data|
      invariant jobs == RemoteJobs(data[..i], date)
    {
      assert data[..i + 1][..i] == data[..i];
      var j := data[i];
      var title := RemoteTitle(j.title);
      var company := OrElse(j.companyName, "-");
      var loc := RemoteLocation(j);
      var link := RemoteLink(j);
      var desc := OrElse(j.description, "");
      if IsRelevant(loc, desc, title) {
        jobs := jobs + [Job(date, GraduateCategory, title, company, if loc == "" then "Nigeria" else loc,
                            Some(link), GraduateKeywords, GraduateSkills, "Remotive")];
      }
    }
    assert data[..|data|] == data;
  }

  /** The loop as written: `None` when some job's title is `null`, because
      the AttributeError from line 28 is raised outside the `try` and ends
      the whole run. */
  function RemoteJobsAsWritten(data: seq<RawJob>, date: string): Option<seq<Job>> {
    if data == [] then Some([])
    else
      var raw := data[|data| - 1];
      match RemoteJobsAsWritten(data[..|data| - 1], date)
      case None => None
      case Some(prefix) =>
        match RemoteTitleAsWritten(raw.title)
        case None => None
        case Some(_) => Some(prefix + (if RelevantJob(raw) then [RemoteRecord(raw, date)] else []))
  }

  /** The code as written aborts exactly when some job has a `null` title;
      otherwise it agrees with the corrected fetcher. */
  lemma {:induction false} RemoteAsWrittenAgrees(data: seq<RawJob>, date: string)
    ensures RemoteJobsAsWritten(data, date).None? <==> exists raw :: raw in data && raw.title.Null?
    ensures RemoteJobsAsWritten(data, date).Some? ==> RemoteJobsAsWritten(data, date).value == RemoteJobs(data, date)
  {
    if data != [] {
      var p := data[..|data| - 1];
      RemoteAsWrittenAgrees(p, date);
      assert data == p + [data[|data| - 1]];
    }
  }

  /** A relevant job whose title is `null`: the corrected fetcher emits a
      record with an empty title, the code as written aborts. */
  lemma NullTitleAbortsRemote(date: string)
    ensures var raw := RawJob(Null, Str("Acme"), Str("Nigeria"), Str("https://x/1"), Missing, Missing);
      && RemoteJobsAsWritten([raw], date).None?
      && RemoteJobs([raw], date) == [RemoteRecord(raw, date)]
  {
    var raw := RawJob(Null, Str("Acme"), Str("Nigeria"), Str("https://x/1"), Missing, Missing);
    assert [raw][..0] == [];
    assert RemoteLocation(raw) == "Nigeria";
    assert ToLower("Nigeria")[0..7] == "nigeria";
    assert OccursAt("nigeria", ToLower("Nigeria"), 0);
    KeywordInLocation("Nigeria", "", "", "nigeria");
  }

  // ---------------------------------------------------------------------
  // HTML boards (myjobmag, lines 47-75; jobberman, lines 77-102)

  /** An anchor element as BeautifulSoup hands it over: its `href` attribute
      (absent as `None`) and its stripped text. */
  datatype Anchor = Anchor(href: Option<string>, text: string)

  /** `href and href.startswith('/')` */
  predicate IsRelative(href: Option<string>) {
    href.Some? && |href.value| > 0 && href.value[0] == '/'
  }

  /** Lines 62 and 90: a site-relative href gets the origin prepended; any
      other href, missing or empty ones included, is kept as it is. */
  function ResolveLink(origin: string, href: Option<string>): (link: Option<string>)
    ensures IsRelative(href) ==> link == Some(origin + href.value)
    ensures !IsRelative(href) ==> link == href
  {
    if IsRelative(href) then Some(origin + href.value) else href
  }

  /** For an origin such as "https://...", resolving twice changes nothing:
      a resolved link is no longer site-relative. */
  lemma ResolveLinkIdempotent(origin: string, href: Option<string>)
    requires origin != [] && origin[0] != '/'
    ensures ResolveLink(origin, ResolveLink(origin, href)) == ResolveLink(origin, href)
  {
    if IsRelative(href) {
      assert (origin + href.value)[0] == origin[0];
    }
  }

  const MyJobMagOrigin := "https://www.myjobmag.com"
  const JobbermanOrigin := "https://www.jobberman.com"

  /** A `.job-list-details` block: its `h2 a` anchor, if any, and the text of
      its `.job-company` element, if any. */
  datatype Post = Post(heading: Option<Anchor>, company: Option<string>)

  /** The record for a block that has a heading anchor (lines 60-74). */
  function MyJobMagRecord(a: Anchor, company: Option<string>, date: string): (j: Job)
    ensures j.date == date && j.category == GraduateCategory && j.source == "MyJobMag"
    ensures j.title == a.text && j.location == "Nigeria"
    ensures j.link == ResolveLink(MyJobMagOrigin, a.href)
    ensures company.None? ==> j.company == "-"
    ensures company.Some? ==> j.company == company.value
    ensures j.keywords == GraduateKeywords && j.skills == GraduateSkills
  {
    Job(date, GraduateCategory, a.text, if company.Some? then company.value else "-", "Nigeria",
        ResolveLink(MyJobMagOrigin, a.href), GraduateKeywords, GraduateSkills, "MyJobMag")
  }

  /** The records `myjobmag` returns for the selected blocks, in order. */
  function MyJobMagJobs(posts: seq<Post>, date: string): seq<Job> {
    if posts == [] then []
    else
      var post := posts[|posts| - 1];
      MyJobMagJobs(posts[..|posts| - 1], date)
        + (if post.heading.Some? then [MyJobMagRecord(post.heading.value, post.company, date)] else [])
  }

  /** A record is emitted iff it is the record of a block with a heading
      anchor: blocks without one are skipped (line 59). */
  lemma {:induction false} MyJobMagMembership(posts: seq<Post>, date: string, j: Job)
    ensures j in MyJobMagJobs(posts, date) <==>
      exists post :: post in posts && post.heading.Some? && j == MyJobMagRecord(post.heading.value, post.company, date)
  {
    if posts != [] {
      var p := posts[..|posts| - 1];
      MyJobMagMembership(p, date, j);
      assert posts == p + [posts[|posts| - 1]];
    }
  }

  /** `myjobmag`: loop over the blocks, skip those without a heading anchor. */
  method MyJobMag(response: FetchOutcome<seq<Post>>, date: string) returns (jobs: seq<Job>)
    ensures jobs == MyJobMagJobs(Payload(response), date)
    ensures response.Failed? ==> jobs == []
  {
    var posts := Payload(response);
    jobs := [];
    for i := 0 to |posts|
      invariant jobs == MyJobMagJobs(posts[..i], date)
    {
      assert posts[..i + 1][..i] == posts[..i];
      var post := posts[i];
      if post.heading.None? {
        continue;
      }
      var a := post.heading.value;
      var link := ResolveLink(MyJobMagOrigin, a.href);
      var company := if post.company.Some? then post.company.value else "-";
      jobs := jobs + [Job(date, GraduateCategory, a.text, company, "Nigeria", link,
                          GraduateKeywords, GraduateSkills, "MyJobMag")];
    }
    assert posts[..|posts|] == posts;
  }

  const JobbermanLimit := 40
  const TitleLimit := 200

  /** The record for one listing anchor (lines 88-101): the title is the
      anchor text cut to 200 characters. */
  function JobbermanRecord(a: Anchor, date: string): (j: Job)
    ensures j.date == date && j.category == GraduateCategory && j.source == "Jobberman"
    ensures |j.title| == Min(|a.text|, TitleLimit) && j.title == a.text[..|j.title|]
    ensures j.company == "-" && j.location == "Nigeria"
    ensures j.link == ResolveLink(JobbermanOrigin, a.href)
    ensures j.keywords == GraduateKeywords && j.skills == GraduateSkills
  {
    Job(date, GraduateCategory, Take(a.text, TitleLimit), "-", "Nigeria",
        ResolveLink(JobbermanOrigin, a.href), GraduateKeywords, GraduateSkills, "Jobberman")
  }

  /** The records `jobberman` returns: one per anchor among the first 40. */
  function JobbermanJobs(anchors: seq<Anchor>, date: string): (jobs: seq<Job>)
    ensures |jobs| == Min(|anchors|, JobbermanLimit) <= JobbermanLimit
    ensures forall i :: 0 <= i < |jobs| ==> jobs[i] == JobbermanRecord(anchors[i], date)
    ensures forall i :: 0 <= i < |jobs| ==>
      |jobs[i].title| == Min(|anchors[i].text|, TitleLimit)
      && jobs[i].title == anchors[i].text[..|jobs[i].title|]
      && jobs[i].link == ResolveLink(JobbermanOrigin, anchors[i].href)
      && jobs[i].category == GraduateCategory
  {
    var n := Min(|anchors|, JobbermanLimit);
    seq(n, i requires 0 <= i < n => JobbermanRecord(anchors[i], date))
  }

  /** `jobberman`: loop over the first 40 anchors. */
  method Jobberman(response: FetchOutcome<seq<Anchor>>, date: string) returns (jobs: seq<Job>)
    ensures jobs == JobbermanJobs(Payload(response), date)
    ensures |jobs| <= JobbermanLimit
    ensures response.Failed? ==> jobs == []
  {
    var anchors := Take(Payload(response), JobbermanLimit);
    jobs := [];
    for i := 0 to |anchors|
      invariant |jobs| == i
      invariant forall k :: 0 <= k < i ==> jobs[k] == JobbermanRecord(anchors[k], date)
    {
      var a := anchors[i];
      var link := ResolveLink(JobbermanOrigin, a.href);
      jobs := jobs + [Job(date, GraduateCategory, Take(a.text, TitleLimit), "-", "Nigeria", link,
                          GraduateKeywords, GraduateSkills, "Jobberman")];
    }
  }
}
