/** The job record every fetcher emits, its identity key, and its projection
    onto a row of the history file (fetch_graduate_jobs.py). */
module Records {
  import opened Text

  datatype Option<T> = None | Some(value: T)

  /** One job listing. Every fetcher fills all nine fields; `link` is `None`
      when an HTML anchor had no href (Python's None). */
  datatype Job = Job(
    date: string,
    category: string,
    title: string,
    company: string,
    location: string,
    link: Option<string>,
    keywords: string,
    skills: string,
    source: string)

  const GraduateCategory := "Graduate Trainee"
  const GraduateKeywords := "graduate; trainee; internship; entry level; training"
  const GraduateSkills := "communication; MS Excel; data basics; willingness to learn; teamwork"

  /** Column order of the history file. */
  const Header: seq<string> :=
    ["date", "category", "title", "company", "location", "link", "keywords", "skills", "source"]

  /** Python's `link or ''`. */
  function LinkOrEmpty(link: Option<string>): string {
    match link
    case None => ""
    case Some(s) => s
  }

  /** The key dedupe compares: the stripped link, or, when that is blank,
      the stripped `company|title`. It is never empty and never starts or ends
      with whitespace. */
  function IdentityKey(j: Job): (key: string)
    ensures key != ""
    ensures !IsSpace(key[0]) && !IsSpace(key[|key| - 1])
  {
    var byLink := Trim(LinkOrEmpty(j.link));
    if byLink != "" then
      TrimHasNoOuterSpace(LinkOrEmpty(j.link));
      byLink
    else
      var fallback := j.company + "|" + j.title;
      assert fallback[|j.company|] == '|';
      TrimKeepsNonSpace(fallback, |j.company|);
      TrimHasNoOuterSpace(fallback);
      Trim(fallback)
  }

  /** Two records whose links strip to the same non-blank text share an
      identity key, whatever their titles and companies. */
  lemma SameLinkSameKey(a: Job, b: Job)
    requires Trim(LinkOrEmpty(a.link)) == Trim(LinkOrEmpty(b.link)) != ""
    ensures IdentityKey(a) == IdentityKey(b)
  {
  }

  /** A record looked up by column name, as `r.get(k, '')` does: the field's
      value, with `''` for a missing link and for any name that is not a field. */
  function Field(j: Job, name: string): string {
    if name == "date" then j.date
    else if name == "category" then j.category
    else if name == "title" then j.title
    else if name == "company" then j.company
    else if name == "location" then j.location
    else if name == "link" then LinkOrEmpty(j.link)
    else if name == "keywords" then j.keywords
    else if name == "skills" then j.skills
    else if name == "source" then j.source
    else ""
  }

  /** The row written for a record: one cell per header column, in header
      order, each the value looked up under that column's name. */
  function CsvRow(j: Job): (row: seq<string>)
    ensures |row| == |Header|
    ensures forall i :: 0 <= i < |Header| ==> row[i] == Field(j, Header[i])
  {
    [j.date, j.category, j.title, j.company, j.location, LinkOrEmpty(j.link),
     j.keywords, j.skills, j.source]
  }

  /** Reads a history-file row back into a record, by header position. */
  function RowToJob(row: seq<string>): Job
    requires |row| == |Header|
  {
    Job(row[0], row[1], row[2], row[3], row[4], Some(row[5]), row[6], row[7], row[8])
  }

  /** Writing a record and reading the row back loses nothing except the
      difference between a missing link and an empty one. */
  lemma RowRoundTrip(j: Job)
    ensures RowToJob(CsvRow(j)) == j.(link := Some(LinkOrEmpty(j.link)))
    ensures j.link.Some? ==> RowToJob(CsvRow(j)) == j
  {
  }
}
