/** What the two notifications carry (send_email, lines 127-148;
    send_whatsapp, lines 150-166). Delivery itself is left out: each
    sender is modelled up to the message it hands to its client. */
module Notify {
  import opened Text
  import opened Records

  // ---------------------------------------------------------------------
  // Email summary

  const EmailRowLimit := 20

  /** The cells of one table row, in column order: Company, Title, Location,
      Keywords, Skills, and the Apply link. */
  datatype EmailRow = EmailRow(company: string, title: string, location: string,
                               keywords: string, skills: string, link: string)

  /** What an f-string prints for the link: the text, or "None" when the
      record has no link. */
  function FormatLink(link: Option<string>): string {
    match link
    case None => "None"
    case Some(s) => s
  }

  function EmailRowOf(j: Job): (row: EmailRow)
    ensures row.company == j.company && row.title == j.title && row.location == j.location
    ensures row.keywords == j.keywords && row.skills == j.skills
    ensures j.link.Some? ==> row.link == j.link.value
    ensures j.link.None? ==> row.link == "None"
  {
    EmailRow(j.company, j.title, j.location, j.keywords, j.skills, FormatLink(j.link))
  }

  /** Line 140: the subject carries the run date at its end. */
  function EmailSubject(date: string): (subject: string)
    ensures |subject| >= |date| && subject[|subject| - |date|..] == date
  {
    "\U{1F393} Graduate Trainee Jobs \U{2014} " + date
  }

  /** The table rows the email renders: one per record among the first 20,
      in run order. */
  method EmailTable(rows: seq<Job>) returns (table: seq<EmailRow>)
    ensures |table| == Min(|rows|, EmailRowLimit) <= EmailRowLimit
    ensures forall i :: 0 <= i < |table| ==> table[i] == EmailRowOf(rows[i])
  {
    var shown := Take(rows, EmailRowLimit);
    table := [];
    for i := 0 to |shown|
      invariant |table| == i
      invariant forall k :: 0 <= k < i ==> table[k] == EmailRowOf(rows[k])
    {
      var r := shown[i];
      table := table + [EmailRow(r.company, r.title, r.location, r.keywords, r.skills, FormatLink(r.link))];
    }
  }

  /** The email `send_email` hands to the mail client. */
  datatype Email = Email(subject: string, table: seq<EmailRow>)

  /** The email for a batch: the dated subject and one table row for each of
      its first 20 records. */
  ghost predicate EmailOf(email: Email, rows: seq<Job>, date: string) {
    && email.subject == EmailSubject(date)
    && |email.table| == Min(|rows|, EmailRowLimit)
    && forall i :: 0 <= i < |email.table| ==> email.table[i] == EmailRowOf(rows[i])
  }

  /** `send_email` up to delivery. */
  method ComposeEmail(rows: seq<Job>, date: string) returns (email: Email)
    ensures EmailOf(email, rows, date)
  {
    var table := EmailTable(rows);
    email := Email(EmailSubject(date), table);
  }

  // ---------------------------------------------------------------------
  // WhatsApp digest

  const DigestLimit := 5
  const DigestTitleLimit := 80

  /** `len([r for r in rows if r['category'] == 'Graduate Trainee'])` */
  function CountGraduates(rows: seq<Job>): (n: nat)
    ensures n <= |rows|
  {
    if rows == [] then 0
    else CountGraduates(rows[..|rows| - 1]) + (if rows[|rows| - 1].category == GraduateCategory then 1 else 0)
  }

  /** Every fetcher stamps the graduate category, so for their records the
      header count is the size of the batch. */
  lemma {:induction false} CountAllGraduates(rows: seq<Job>)
    requires forall r :: r in rows ==> r.category == GraduateCategory
    ensures CountGraduates(rows) == |rows|
  {
    if rows != [] {
      CountAllGraduates(rows[..|rows| - 1]);
    }
  }

  /** Counting a concatenation adds the counts. */
  lemma {:induction false} CountGraduatesAppend(a: seq<Job>, b: seq<Job>)
    ensures CountGraduates(a + b) == CountGraduates(a) + CountGraduates(b)
    decreases |b|
  {
    if b == [] {
      assert a + b == a;
    } else {
      var b' := b[..|b| - 1];
      assert (a + b)[..|a + b| - 1] == a + b';
      assert (a + b)[|a + b| - 1] == b[|b| - 1];
      CountGraduatesAppend(a, b');
    }
  }

  const HeaderPrefix := "\U{2705} Graduate Trainee update \U{2014} "
  const HeaderSuffix := " results found\nTop 5:"
  const DigestTrailer := "\nFull details sent to your email."

  /** Line 153: the first line names the count. */
  function DigestHeader(count: nat): string {
    HeaderPrefix + DecimalString(count) + HeaderSuffix
  }

  /** Reads the count back out of a header line. */
  function HeaderCount(header: string): int
    requires |header| >= |HeaderPrefix| + |HeaderSuffix|
  {
    DecimalValue(header[|HeaderPrefix|..|header| - |HeaderSuffix|])
  }

  /** The header determines the count it was built from. */
  lemma HeaderCountRoundTrip(count: nat)
    ensures |DigestHeader(count)| >= |HeaderPrefix| + |HeaderSuffix|
    ensures HeaderCount(DigestHeader(count)) == count
  {
    var h := DigestHeader(count);
    assert h[|HeaderPrefix|..|h| - |HeaderSuffix|] == DecimalString(count);
    DecimalRoundTrip(count);
  }

  /** Line 158: `f"{i}. {company} — {title} — {link}"`. The line is the
      number and ". ", the company, a dash, the first 80 characters of the
      title (all of it when shorter), a dash, and the link or "" when the
      record has none. */
  function DigestLine(i: nat, r: Job): (line: string)
    ensures var p := |DecimalString(i)| + 2;
      var at, n := p + |r.company| + 3, Min(|r.title|, DigestTitleLimit);
      && at + n <= |line|
      && line[..p] == DecimalString(i) + ". "
      && line[p..at - 3] == r.company
      && line[at - 3..at] == " \U{2014} "
      && line[at..at + n] == r.title[..n]
      && line[at + n..] == " \U{2014} " + LinkOrEmpty(r.link)
  {
    var title := Take(r.title, DigestTitleLimit);
    var prefix := DecimalString(i) + ". ";
    var line := prefix + r.company + " \U{2014} " + title + " \U{2014} " + LinkOrEmpty(r.link);
    var at := |prefix| + |r.company| + 3;
    assert line[..|prefix|] == prefix;
    assert line[|prefix|..at - 3] == r.company;
    assert line[at - 3..at] == " \U{2014} ";
    assert line[at..at + |title|] == title;
    assert line[at + |title|..] == " \U{2014} " + LinkOrEmpty(r.link);
    line
  }

  /** `send_whatsapp`'s body: the header, a numbered line for each of the
      first five records, the trailer, joined by newlines. */
  method DigestBody(rows: seq<Job>) returns (lines: seq<string>, body: string)
    ensures |lines| == Min(|rows|, DigestLimit) + 2
    ensures lines[0] == DigestHeader(CountGraduates(rows))
    ensures forall k :: 1 <= k <= Min(|rows|, DigestLimit) ==> lines[k] == DigestLine(k, rows[k - 1])
    ensures lines[|lines| - 1] == DigestTrailer
    ensures body == Join(lines, "\n")
  {
    var top5 := Take(rows, DigestLimit);
    var grads := CountGraduates(rows);
    lines := [DigestHeader(grads)];
    for i := 0 to |top5|
      invariant |lines| == i + 1
      invariant lines[0] == DigestHeader(grads)
      invariant forall k :: 1 <= k <= i ==> lines[k] == DigestLine(k, rows[k - 1])
    {
      var r := top5[i];
      lines := lines + [DigestLine(i + 1, r)];
    }
    lines := lines + [DigestTrailer];
    body := Join(lines, "\n");
  }

  /** The message `send_whatsapp` hands to the messaging client: its lines and
      their join. */
  datatype Digest = Digest(lines: seq<string>, body: string)

  /** The digest for a batch: the header counts its graduate records, then
      one numbered line per record among the first five, then the trailer. */
  ghost predicate DigestOf(digest: Digest, rows: seq<Job>) {
    var lines := digest.lines;
    && |lines| == Min(|rows|, DigestLimit) + 2
    && lines[0] == DigestHeader(CountGraduates(rows))
    && (forall k :: 1 <= k < |lines| - 1 ==> lines[k] == DigestLine(k, rows[k - 1]))
    && lines[|lines| - 1] == DigestTrailer
    && digest.body == Join(lines, "\n")
  }

  /** `send_whatsapp` up to delivery. */
  method ComposeDigest(rows: seq<Job>) returns (digest: Digest)
    ensures DigestOf(digest, rows)
  {
    var lines, body := DigestBody(rows);
    digest := Digest(lines, body);
  }
}
