# Graduate-trainee job alert, modelled in Dafny

This project models the daily graduate-trainee job alert
(`daily-job-search-full/fetch_graduate_jobs.py`). One run of the alert:

1. collects job records from three sources, in this order:
   - the Remotive remote-jobs API, which is filtered to listings that mention Nigeria or Africa;
   - the MyJobMag search page;
   - the first 40 Jobberman listing anchors.
2. drops every record whose identity key was already seen in the same run. The key is the stripped link, or `company|title` when the link is blank.
3. stops if nothing is left. Otherwise it appends the batch to the history file, after a header row when the file is new.
4. builds the notification email: a dated subject and a table of the first 20 records.
5. builds the WhatsApp digest: a count header, a numbered line for each of the first five records (fewer when the batch is smaller) with titles cut to 80 characters, and a trailer.

Modules follow the parts of the script:

| module | file | part of the script |
|---|---|---|
| `Text` | `text.dfy` | the Python built-ins the script relies on: `strip`, `lower`, the substring test, slicing, integer formatting and `join` |
| `Records` | `records.dfy` | the job record, the identity key used by `dedupe`, the projection onto a history row |
| `Deduplicator` | `dedupe.dfy` | `dedupe`. The method follows the loop. The specification function `Deduped` is proved to keep exactly the first record of each key, in order. |
| `Sources` | `sources.dfy` | the three fetchers, each on the payload its request produced |
| `History` | `history.dfy` | `append_to_csv`. The file is a class whose row list only grows. |
| `Notify` | `notify.dfy` | the contents of the email and of the digest |
| `Pipeline` | `pipeline.dfy` | `main`, plus the end-to-end example of one API job |

The state that changes is modelled with imperative methods:
- the loops of `dedupe`, the fetchers and the notifiers are methods with loop invariants;
- the history file is a class with `modifies` clauses.

How each method is specified:
- `Dedupe` and the API and MyJobMag fetchers are proved equal to recursive specification functions of their input (`Deduped`, `RemoteJobs`, `MyJobMagJobs`), and the properties are proved about those functions as lemmas.
- The Jobberman fetcher is proved equal to `JobbermanJobs`, a function that maps `JobbermanRecord` over the first 40 anchors.
- `EmailTable` and `DigestBody` state their output element by element: the row or line for each record shown, plus the header and trailer of the digest.
- `HistoryFile.Append` states the file's new rows in terms of its old ones.

Details of the script that the model keeps:
- The API relevance test checks only "nigeria" and "africa" (line 33).
- Neither HTML board filters its anchors by their text: every heading anchor (MyJobMag) and every one of the first 40 listing anchors (Jobberman) becomes a record.
- The history header is written when the file did not exist before the append (lines 119-123).
- A missing `href` stays Python's `None` (`Option.None`):
  - `r.get('link', '')` hands that `None` to `csv.DictWriter`, which writes it as an empty cell;
  - the digest prints it as an empty string (`link or ''`, line 157);
  - the email's link cell prints it as `None`, as an f-string does.
- The API fetcher, and with it `CollectAll` and `Run`, uses the corrected title handling of the finding below: a `null` title counts as empty. The script as written aborts the whole run on such a title.

## Model

| member | source | states |
|---|---|---|
| Text.TrimStartSpec | daily-job-search-full/fetch_graduate_jobs.py:108 | stripping the front removes exactly a run of leading whitespace; what is left is a suffix of the input that does not start with whitespace |
| Text.TrimEndSpec | daily-job-search-full/fetch_graduate_jobs.py:108 | stripping the back removes exactly a run of trailing whitespace; what is left is a prefix of the input that does not end with whitespace |
| Text.TrimKeepsNonSpace | daily-job-search-full/fetch_graduate_jobs.py:109-110 | a string with any non-whitespace character never strips to the empty string |
| Text.TrimHasNoOuterSpace | daily-job-search-full/fetch_graduate_jobs.py:108 | a stripped string is empty or neither starts nor ends with whitespace |
| Text.Occurs | daily-job-search-full/fetch_graduate_jobs.py:33 | `k in text` holds iff `k` stands in `text` at some position |
| Text.Take | daily-job-search-full/fetch_graduate_jobs.py:128 | the slice `s[:n]` is the prefix of `s` of length `min(len(s), n)` |
| Text.DecimalString | daily-job-search-full/fetch_graduate_jobs.py:153 | an integer formats as at least one decimal digit, with no leading zero |
| Text.DecimalRoundTrip | daily-job-search-full/fetch_graduate_jobs.py:153 | reading the formatted count back gives the count |
| Records.IdentityKey | daily-job-search-full/fetch_graduate_jobs.py:108-110 | the key `dedupe` compares is never empty (the fallback always holds the `\|`) and has no outer whitespace |
| Records.SameLinkSameKey | daily-job-search-full/fetch_graduate_jobs.py:108-110 | two records whose links strip to the same non-blank text share a key, whatever their titles and companies |
| Records.CsvRow | daily-job-search-full/fetch_graduate_jobs.py:118-125 | a row has one cell per header column, in header order, each the record's value under that column name, with `''` for a missing link |
| Records.RowRoundTrip | daily-job-search-full/fetch_graduate_jobs.py:118-125 | reading a written row back by header position gives the record back, except that a missing link becomes an empty one |
| Deduplicator.Deduped | daily-job-search-full/fetch_graduate_jobs.py:104-115 | deduplication never lengthens the list and keeps every key of the input |
| Deduplicator.Dedupe | daily-job-search-full/fetch_graduate_jobs.py:104-115 | the `seen`/`out` loop computes `Deduped` with the identity key; no two output records share a key |
| Deduplicator.DedupedUniqueKeys | daily-job-search-full/fetch_graduate_jobs.py:111-114 | no two records of the output share a key |
| Deduplicator.SeenIffNotFirst | daily-job-search-full/fetch_graduate_jobs.py:111-112 | a record is dropped iff an earlier record of the input carries its key |
| Deduplicator.DedupedSelectsFirstOccurrences | daily-job-search-full/fetch_graduate_jobs.py:104-115 | the output is the input at increasing indices, unchanged and in order, and an index is among them iff no earlier record shares its key |
| Deduplicator.DedupedMembers | daily-job-search-full/fetch_graduate_jobs.py:114 | every output record is an input record |
| Deduplicator.DedupedOfUnique | daily-job-search-full/fetch_graduate_jobs.py:104-115 | a list whose keys are already distinct passes through unchanged |
| Deduplicator.DedupedIdempotent | daily-job-search-full/fetch_graduate_jobs.py:104-115 | deduplicating twice equals deduplicating once |
| Deduplicator.DedupedLength | daily-job-search-full/fetch_graduate_jobs.py:104-115 | the output holds one record per distinct key of the input |
| Deduplicator.SameLinkKeepsFirst | daily-job-search-full/fetch_graduate_jobs.py:108-113 | of two records with the same stripped link, only the first-seen one survives |
| Sources.Payload | daily-job-search-full/fetch_graduate_jobs.py:19-25 | a failed request leaves the fetcher nothing to loop over |
| Sources.OrElse | daily-job-search-full/fetch_graduate_jobs.py:29-32 | `j.get(k) or d`: the member when it is a non-empty string, and the default in every other case (missing, `null`, empty) |
| Sources.RemoteTitleAsWritten | daily-job-search-full/fetch_graduate_jobs.py:28 | line 28 fails exactly on a `null` title and otherwise gives the stripped title |
| Sources.RemoteLink | daily-job-search-full/fetch_graduate_jobs.py:31 | the link is `url` when that is a non-empty string; otherwise `job_url` when that is one; otherwise `''` |
| Sources.KeywordInLocation | daily-job-search-full/fetch_graduate_jobs.py:33 | a location that names a keyword in any letter case makes the job relevant |
| Sources.RemoteRecord | daily-job-search-full/fetch_graduate_jobs.py:29-44 | the record has the run date, graduate tags and source "Remotive"; the company is `company_name` when that is a non-empty string and `-` otherwise; the location is the stripped location, or "Nigeria" when that is blank; the link is the API link |
| Sources.RemoteJobsMembership | daily-job-search-full/fetch_graduate_jobs.py:27-44 | a record is emitted iff it is the record of a relevant job of the payload |
| Sources.RemoteJobsLength | daily-job-search-full/fetch_graduate_jobs.py:27-45 | at most one record per API job |
| Sources.RemotiveGraduates | daily-job-search-full/fetch_graduate_jobs.py:16-45 | the fetch loop computes `RemoteJobs` of the payload, with a `null` title counted as empty (the corrected line 28), and nothing when the request failed |
| Sources.RemoteAsWrittenAgrees | daily-job-search-full/fetch_graduate_jobs.py:27-28 | the loop as written aborts iff some job has a `null` title, and otherwise agrees with the corrected loop |
| Sources.NullTitleAbortsRemote | daily-job-search-full/fetch_graduate_jobs.py:28 | a relevant job with a `null` title aborts the loop as written, while the corrected loop emits its record |
| Sources.ResolveLink | daily-job-search-full/fetch_graduate_jobs.py:62 | a site-relative href gets the origin prepended; any other href, missing or empty included, is kept |
| Sources.ResolveLinkIdempotent | daily-job-search-full/fetch_graduate_jobs.py:90 | resolving a resolved link against an absolute origin changes nothing |
| Sources.MyJobMagRecord | daily-job-search-full/fetch_graduate_jobs.py:60-74 | the record has the anchor text as title, the resolved link, the company text or `-`, and location "Nigeria" |
| Sources.MyJobMagMembership | daily-job-search-full/fetch_graduate_jobs.py:57-59 | a record is emitted iff it is the record of a block with a heading anchor |
| Sources.MyJobMag | daily-job-search-full/fetch_graduate_jobs.py:47-75 | the fetch loop computes `MyJobMagJobs` of the blocks, and nothing when the request failed |
| Sources.JobbermanRecord | daily-job-search-full/fetch_graduate_jobs.py:88-101 | the title is `text[:200]`: the prefix of the anchor text of length `min(len(text), 200)` |
| Sources.JobbermanJobs | daily-job-search-full/fetch_graduate_jobs.py:87-101 | exactly one record for each of the first 40 anchors, in order, each that anchor's `JobbermanRecord`: its title cut to `min(len(text), 200)` characters and its link resolved |
| Sources.Jobberman | daily-job-search-full/fetch_graduate_jobs.py:77-102 | the fetch loop computes `JobbermanJobs`, never more than 40 records, and nothing when the request failed |
| History.CsvRows | daily-job-search-full/fetch_graduate_jobs.py:124-125 | one header-width row per record, in batch order |
| History.HistoryFile.constructor | daily-job-search-full/fetch_graduate_jobs.py:119 | a history file is absent with no rows, or present with its rows |
| History.HistoryFile.Append | daily-job-search-full/fetch_graduate_jobs.py:117-125 | earlier rows are kept, then a header row only when the file was absent, then one row per record; the file then exists |
| Notify.EmailRowOf | daily-job-search-full/fetch_graduate_jobs.py:133 | a table row shows the record's company, title, location, keywords, skills and link, with `None` printed for a missing link |
| Notify.EmailSubject | daily-job-search-full/fetch_graduate_jobs.py:140 | the subject ends with the run date |
| Notify.EmailTable | daily-job-search-full/fetch_graduate_jobs.py:128-133 | one table row for each of the first 20 records, in order |
| Notify.ComposeEmail | daily-job-search-full/fetch_graduate_jobs.py:127-142 | the email carries the dated subject and the table of the first 20 records |
| Notify.CountGraduates | daily-job-search-full/fetch_graduate_jobs.py:152 | the graduate count never exceeds the number of records |
| Notify.CountAllGraduates | daily-job-search-full/fetch_graduate_jobs.py:152 | when every record is a graduate record, the count is the batch size |
| Notify.CountGraduatesAppend | daily-job-search-full/fetch_graduate_jobs.py:152 | the count of a concatenation is the sum of the counts |
| Notify.HeaderCountRoundTrip | daily-job-search-full/fetch_graduate_jobs.py:153 | the digest header determines the count it was built from |
| Notify.DigestLine | daily-job-search-full/fetch_graduate_jobs.py:154-158 | a digest line is its number and `. `, the company, ` — `, exactly the first `min(len(title), 80)` characters of the title, ` — `, and the link or `''` |
| Notify.DigestBody | daily-job-search-full/fetch_graduate_jobs.py:150-160 | the lines are the count header, one numbered line for each of the first five records, and the trailer; the body is their newline join |
| Notify.ComposeDigest | daily-job-search-full/fetch_graduate_jobs.py:150-160 | the digest has the header, numbered lines, trailer and joined body of `DigestBody` |
| Pipeline.CollectedAreGraduates | daily-job-search-full/fetch_graduate_jobs.py:169-174 | every collected record carries the graduate category |
| Pipeline.BatchCountsAllGraduates | daily-job-search-full/fetch_graduate_jobs.py:152 | the digest header of a run counts every record of the batch |
| Pipeline.CollectAll | daily-job-search-full/fetch_graduate_jobs.py:169-174 | `all_jobs` is the API records (with the corrected `null`-title handling), then MyJobMag's, then Jobberman's |
| Pipeline.Run | daily-job-search-full/fetch_graduate_jobs.py:168-181 | the batch is the deduplicated collection (API titles as corrected) with unique keys. An empty batch appends, mails and sends nothing and leaves the file untouched. Otherwise the file exists afterwards and gains the batch's rows, and the batch is mailed and sent as a digest whose count is the batch size. |
| Pipeline.ExampleRemoteRecord | daily-job-search-full/fetch_graduate_jobs.py:27-44 | the example API job (Data Analyst at Acme, "Remote, Nigeria") is relevant and is normalised with its fields as given |
| Pipeline.SingleRemoteJobRun | daily-job-search-full/fetch_graduate_jobs.py:168-175 | that single job with both boards failing yields exactly its record, with location "Remote, Nigeria" and link "https://x/1" |

## Left out

- Network requests, HTML parsing, JSON decoding and the `jobs` key default. Each fetcher takes what its request produced, as a `FetchOutcome`: a failed request stands for every exception the fetcher catches, and yields no records.
- BeautifulSoup selection (`.job-list-details`, `h2 a`, `.job-company`, `a[href*="/listing/"]`) and `get_text(strip=True)`. Each board's input is the sequence of elements the selector found, with their text already stripped.
- JSON members that are neither strings nor `null`, such as numbers or lists. `JsonValue` has only missing, `null` and string.
- `datetime.utcnow()`. The run date is a parameter, the same for every record of a run.
- Notify.EmailSubject: the subject carries the run date passed in. Line 140 reads the clock again, so a run that crosses midnight UTC could date its subject a day after its records; the model does not capture that.
- API payloads the fetcher cannot loop over. A body `{"jobs": null}` sets `data` to `None` inside the `try` (line 22), and `for j in data` then raises TypeError outside it (line 27). An element of `jobs` that is not an object makes `j.get` raise AttributeError (line 28). Either way the whole run aborts, like the `null`-title finding below. The model's payload is always a list of objects (`seq<RawJob>`), so it cannot express these aborts.
- `time.sleep` between fetches.
- `print` logging.
- Environment variables, the SendGrid and Twilio clients, and delivery failures. Each notifier is modelled up to the message it hands to its client, and delivery errors are caught in the source anyway.
- The HTML markup of the email. The table is modelled as its rows of cells.
- CSV quoting, file opening, encoding and newline handling. The history file is its list of rows plus whether it exists.
- `__main__` entry point and scheduling.
- Text.Trim: only ASCII whitespace is stripped; Python's `str.strip()` also strips non-ASCII whitespace such as U+00A0.
- Text.ToLower: only ASCII letters are lowered, where Python's `str.lower()` lowers every cased character.

## Findings

| source | as written | input that shows it | evidently intended | confidence | as-written member | corrected member |
|---|---|---|---|---|---|---|
| daily-job-search-full/fetch_graduate_jobs.py:28 | `j.get('title','')` defaults only a missing title. A JSON `null` title reaches `.strip()` and raises AttributeError. This happens outside the `try`, so the whole run ends before anything is saved or sent. | an API job `{"title": null, "company_name": "Acme", "candidate_required_location": "Nigeria", "url": "https://x/1"}` | a `null` title treated like a missing one, as the `or ''` defaults of lines 29-32 do, so the job is kept with an empty title | medium, not executed | Sources.NullTitleAbortsRemote | Sources.RemotiveGraduates |
