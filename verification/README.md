# levels: ingestion and dashboards, modelled in Dafny

This project models the core of *levels*, a personal progress tracker. It has
a file inbox, a SQLite store and three HTML pages. The model covers:

- **Ingestion** (`app/ingest.py`). `process` walks the inbox. It classifies
  each file by its inbox-relative path and suffix through an ordered if/elif
  chain. It moves recordings and books into the media store and runs the
  extractor the chosen rule calls. It inserts an artifact row, then records
  the outcome in the `ingest_status` ledger through `mark`. `mark` is an
  upsert whose first insert is always "pending". Exceptions are caught per
  file.
- **Week seeding** (`scripts/seed.py`). This computes the Monday-to-Sunday
  window of today and runs `INSERT OR IGNORE` into the week table, which has
  a UNIQUE start date.
- **The dashboard** (`home`, `app/routers/dashboard.py`). It shows:
  - the current and previous week;
  - their minutes, artifact counts and story points;
  - the differences between the two weeks and the output score;
  - the ten latest outputs and five latest metrics;
  - per-day minutes of the fourteen latest active days.
- **The week page** (`week_view`, `app/routers/weeks.py`). It shows:
  - the week row;
  - the week's artifacts and their count per kind;
  - the sessions in the week's date window, with study and build totals;
  - the metrics whose JSON names the week.
- **The health page** (`health`, `app/routers/health.py`). It shows the 100
  most recently active ledger rows and the pending and error counts.

Tables are sequences of row datatypes in insertion order. Each SQL shape is
one combinator (`Seqs.Filter`, `Seqs.Count`, `Seqs.SumOf`, `Sorting.TopK`).
`ORDER BY` leaves ties unordered, so sorting contracts promise only what SQL
promises: descending keys, and a permutation or a top part of the input.

Dates are integers counting days from 1970-01-01, a Thursday. Timestamps
count minutes, and `date(started_at)` is floor division by 1440. The code
compares ISO date text, which orders the same way as these integers.

Modules:

| module | file | contents |
|---|---|---|
| Wrappers | wrappers.dfy | `Option` and `Result` |
| Text | text.dfy | substring containment and ASCII lower-casing |
| Schema | schema.dfy | the rows of the tables and the reading of meta_json |
| Seqs | seqs.dfy | the SQL combinators and their algebra |
| Sorting | sorting.dfy | `ORDER BY ... DESC [LIMIT k]` |
| Classifier | classifier.dfy | the routing chain and the equivalent rule table |
| Ledger | ledger.dfy | `mark` |
| Ingest | ingest.dfy | `process` |
| Seed | seed.dfy | seed.py |
| Aggregates | aggregates.dfy | the SUM and COUNT queries the pages share |
| Dashboard | dashboard.dfy | `home` |
| WeekView | weekview.dfy | `week_view` |
| Health | health.dfy | `health` |

Three behaviours of the code are worth stating plainly:

- `process` has no rule for checklist or task files, so ingestion never
  creates a task artifact.
- The sparkline shows the fourteen latest days that have sessions, not the
  last fourteen calendar days.
- The first `mark` of a path inserts "pending" whatever the outcome.
  `Health.FirstMarkCountsPending` and `Ingest.FailedFirstProbeLooksPending`
  state the consequences.

## Model

| member | source | states |
|---|---|---|
| Classifier.Classify | app/ingest.py:31-51 | Only recordings and books are relocated. Ingestion never yields a task or a metric. Each claimed kind meets its rule's test: `.mp4` for recordings, `.md`/`.txt` for notes and conversations, `.txt` for repos, a case-insensitive `.pdf`/`.epub`/`.mobi` for books, `.md`/`.txt`/`.csv` for study notes, and `codewars.json` or `overthewire.md` for challenges. |
| Classifier.FirstMatch | app/ingest.py:31-51 | The first-match search over a rule table returns nothing exactly when no rule applies. When rule i is the first rule that applies, it returns rule i's route. |
| Classifier.ClassifyIsFirstMatch | app/ingest.py:31-51 | The if/elif chain equals the first-match search over the eight-rule table, in the source's priority order. |
| Classifier.ClassifyIsFirstMatchFromBooks | app/ingest.py:41-51 | When none of the four build rules applies, the chain equals first-match over the last four rules. |
| Classifier.ClaimedPathHasThreeSlashes | app/ingest.py:28-51 | Markers are matched as substrings of a path with no leading slash, so a claimed path has at least three slashes. |
| Classifier.TwoFoldersDeepIsSkipped | app/ingest.py:28-51 | A file directly under `build/notes/` (or under any other marker folder) at the inbox top level is skipped: `Classify` returns None. |
| Classifier.NoteRuleWins | app/ingest.py:31-36 | A `.md`/`.txt` path containing `/build/notes/` is a note, whatever later markers it also contains. |
| Classifier.NestedNoteIsNote | app/ingest.py:35-36 | `x/build/notes/y.md` is classified as a note, not relocated, for any prefix and file. |
| Classifier.BookSuffixIgnoresCase | app/ingest.py:41-43 | Under `/study/books/`, a suffix that lower-cases to a book suffix is a relocated book in every spelling: no earlier rule claims it. |
| Ledger.Mark | app/ingest.py:8-14 | After the upsert the path has a record. An unknown path appends one record and keeps every earlier row. A known path keeps the table's length. Rows of other paths are untouched, and no row's path changes. |
| Ledger.MarkFindSame | app/ingest.py:8-14 | Read back, a new path has first_seen = now, status pending, and no last_ingested or message. A known path keeps first_seen and takes last_ingested = now and the given status and message. |
| Ledger.MarkFindOther | app/ingest.py:8-14 | The record read back for any other path is unchanged. |
| Ledger.MarkKeepsUniquePaths | app/ingest.py:9-12 | The upsert preserves the UNIQUE rel_path invariant. |
| Ledger.MarkNewPath | app/ingest.py:9-13 | For an unknown path the upsert appends exactly one fresh pending record. |
| Ingest.Attempt | app/ingest.py:30-55 | A successful attempt yields an artifact with the following fields. Its kind is the route's kind and its title is the file stem. Its week, points and status are unset, and created_at is the clock. Its path is the media destination for relocated kinds and the inbox path otherwise. A failed move fails with its message. Once moved, a book succeeds with no text and meta `{}`. A moved recording fails with the probe's message, or succeeds with no text and meta `{"duration": seconds}`. A codewars file fails with the JSON loader's message, or succeeds with no text and the loaded document as meta. Every other rule fails with the read's message, or succeeds with the file's text and meta `{}`. |
| Ingest.ProcessFile | app/ingest.py:26-58 | A skipped file changes nothing. At most one artifact is appended after the existing rows. Other paths' ledger records are unchanged. Ledger paths stay unique. Only this file's path can leave the inbox. |
| Ingest.ProcessFileEffect | app/ingest.py:29-58 | For a claimed file there are two outcomes. On success, exactly its artifact is appended, and the record becomes ok, or fresh-pending for an unknown path. On an exception, nothing is appended, and the record becomes error with the message, or fresh-pending for an unknown path. The path is out of the inbox exactly when its move succeeded. |
| Ingest.ProcessAll | app/ingest.py:22-58 | A pass keeps the existing rows as a prefix. It appends at most one row per file and keeps ledger paths unique. |
| Ingest.ProcessAllEffect | app/ingest.py:22-58 | Whatever the tables held before, a pass appends exactly one row per ingested file, each of an inbox kind with no week. Every claimed path has a record afterwards. Every record is either old or belongs to a claimed file. |
| Ingest.AppendedRowsFromInbox | app/ingest.py:53-55 | Every row a pass appends is of an inbox kind, never a task or metric, and attributed to no week. |
| Ingest.PathKeptByLaterFiles | app/ingest.py:8-14 | A path with a ledger record keeps it through any later files. |
| Ingest.FailedFirstProbeLooksPending | app/ingest.py:31-34 | Take a recording moved on first sight whose duration probe raises. It is out of the inbox and yields no artifact. Its record is pending with no message: the error is recorded nowhere. |
| Ingest.NoteIngestedTwice | app/ingest.py:35-56 | A note seen by two passes yields two artifact rows that differ only in created_at, and its record reads ok. |
| Seed.WeekStart | scripts/seed.py:7-8 | The computed start is a Monday, and today lies within its six following days. |
| Seed.SameWindowSameStart | scripts/seed.py:7-9 | Every day of a Monday-to-Sunday window computes the same start. |
| Seed.DistinctWindowsDisjoint | scripts/seed.py:8-9 | Two different computed starts are at least a week apart, so their windows do not overlap. |
| Seed.EnsureWeek | scripts/seed.py:8-11 | Afterwards a row with today's start exists. The table is unchanged if one already did. Otherwise one row (next id, start, start + 6) is appended. Start and id uniqueness are preserved. |
| Seed.EnsureWeekIdempotent | scripts/seed.py:7-11 | Running again on any day of the same window changes nothing. |
| Seed.SeedRunsEffect | scripts/seed.py:7-11 | Any sequence of runs keeps the old rows as a prefix and keeps starts and ids unique. Every run's window gets a row, and every added row is a Monday with its Sunday. |
| Seed.SeedRunsPrefix | scripts/seed.py:8-11 | Runs only append: the rows present before stay a prefix. |
| Seed.SeedRunsUnique | scripts/seed.py:8-11 | Runs keep start_date and id unique. |
| Seed.SeedRunsCover | scripts/seed.py:7-11 | Every run's window has a row afterwards. |
| Seed.SeedRunsCanonical | scripts/seed.py:7-11 | Every row a run adds starts on a Monday and ends on the Sunday after. |
| Aggregates.WindowMinutes | app/routers/dashboard.py:22-25 | With no negative session, a window's minutes lie between 0 and the minutes of all sessions. |
| Aggregates.KindMinutes | app/routers/weeks.py:35-45 | With no negative session, one kind's minutes in a window lie between 0 and the window's minutes. |
| Aggregates.ArtifactCount | app/routers/dashboard.py:28-30 | A week's artifact count is at most the table size, and 0 exactly when no row names the week. |
| Aggregates.TaskPoints | app/routers/dashboard.py:54-59 | With no negative estimate, a week's task points in one status lie between 0 and the points of all rows. |
| Aggregates.KindMinutesAppend | app/routers/weeks.py:35-45 | One kind's window minutes over two batches of sessions are the sum of the two batches' minutes. |
| Aggregates.KindMinutesOne | app/routers/weeks.py:35-45 | A single session contributes its minutes exactly when its day lies in the window and its kind matches, and 0 otherwise. |
| Aggregates.TaskPointsAppend | app/routers/dashboard.py:54-70 | Task points over two batches of rows are the sum of the two batches' points. |
| Aggregates.TaskPointsOne | app/routers/dashboard.py:54-70 | A single row contributes its estimate (0 when NULL) exactly when it is a task of the week in that status, and 0 otherwise. |
| Aggregates.EmptyWindowIsZero | app/routers/dashboard.py:22-25 | A window with no session sums to 0, as COALESCE gives. |
| Aggregates.WindowMinutesAppend | app/routers/dashboard.py:22-25 | The window sum over two batches of sessions is the sum of the two batches' window sums. |
| Aggregates.StudyPlusBuildWithinTotal | app/routers/weeks.py:35-45 | With non-negative minutes, the study total plus the build total is at most the window total. |
| Aggregates.UnattributedRowsChangeNoWeek | app/routers/dashboard.py:28-59 | Rows with no week change no week's artifact count and no week's story points. |
| Aggregates.SessionInOneWeekOnly | app/routers/dashboard.py:22-39 | Two seeded weeks with different starts never both count a session. |
| Dashboard.CurrentAndLast | app/routers/dashboard.py:14-16 | There is a current week iff the table is non-empty, and a last week iff it has two rows. Both are rows of the table, and the last starts no later than the current. |
| Dashboard.CurrentAndLastAreLatest | app/routers/dashboard.py:14-16 | No row starts later than the current week. No row other than the current week starts later than the last week. |
| Dashboard.LastBeforeCurrent | app/routers/dashboard.py:14-16 | Under the UNIQUE start_date, the last week starts strictly before the current one. |
| Dashboard.CurrentWeekIsToday | app/routers/dashboard.py:14-15 | With today's window seeded and no later row, the current week is today's window. |
| Dashboard.WeekTotals | app/routers/dashboard.py:18-70 | Without a week every figure is 0. The artifact count is at most the table size. With no negative session, the week's minutes lie between 0 and the minutes of all sessions. |
| Dashboard.Hours | app/routers/dashboard.py:26 | Sixty times the hours gives back the minutes. |
| Dashboard.Score | app/routers/dashboard.py:77-78 | Six hundred times the score is 600 per artifact plus the minutes: one artifact weighs as much as ten hours. |
| Dashboard.Compare | app/routers/dashboard.py:47-79 | The current figures are the week's hours (minutes/60), artifacts, planned and delivered points. Each delta is this week's figure minus last week's. The output score is artifacts plus minutes/600, and the score delta is that score minus last week's. The score delta is also the artifact delta plus a tenth of the hours delta. Against an all-zero baseline every delta is the current figure. |
| Dashboard.WeekFigures | app/routers/dashboard.py:13-79 | With no week every figure is 0. With a week, the current figures are the latest week's window minutes over 60, artifact count and pending and done task points. With two or more weeks, each delta subtracts the same query over the second latest week. With one week, it is compared with an all-zero baseline. |
| Dashboard.IngestKeepsWeekTotals | app/routers/dashboard.py:28-70 | An ingestion pass leaves every week's minutes, artifact count and story points unchanged. |
| Dashboard.Newest | app/routers/dashboard.py:82-89 | `WHERE p ORDER BY created_at DESC LIMIT k` returns min(count, k) rows. Each row is from the table and satisfies p, newest first. No row appears more often than it matches. |
| Dashboard.NewestKeepsNewer | app/routers/dashboard.py:82-84 | A matching row newer than a shown row is shown too. |
| Dashboard.LatestMetrics | app/routers/dashboard.py:87-100 | The rows are the five newest metrics in order. Each carries the parse of its meta_json: the document itself, `{}` for an empty column, and no parsed data exactly when the text is malformed. |
| Dashboard.LatestDays | app/routers/dashboard.py:103-107 | At most fourteen days, strictly descending. |
| Dashboard.LatestDaysCover | app/routers/dashboard.py:103-107 | A session's day is listed, or fourteen days are listed and all are later. |
| Dashboard.LatestDaysAreActive | app/routers/dashboard.py:103-107 | Every listed day has a session. |
| Dashboard.DailyMinutes | app/routers/dashboard.py:103-110 | At most fourteen points in ascending day order. Each point's minutes are the sum of its day's sessions. |
| Dashboard.DailyMinutesCover | app/routers/dashboard.py:103-110 | Every session's day has a point, or fourteen points are shown and the day is older than the first. |
| WeekView.WeekById | app/routers/weeks.py:14 | The row found has the id. There is none iff no row has it. |
| WeekView.WeekByIdUnique | app/routers/weeks.py:14 | Under the id primary key, the row found is the row with that id. |
| WeekView.WeekArtifacts | app/routers/weeks.py:17 | The list is a permutation of the week's rows, newest first, as many as the week's artifact count. |
| WeekView.WeekArtifactsExact | app/routers/weeks.py:17 | An artifact is listed iff its week_id is the week. |
| WeekView.ArtCounts | app/routers/weeks.py:20-21 | One group per kind, with positive counts. |
| WeekView.ArtCountsExact | app/routers/weeks.py:20-21 | Each group's count is the number of the week's artifacts of its kind, and every kind the week has gets a group. |
| WeekView.ArtCountsTotal | app/routers/weeks.py:17-21 | The group counts add up to the week's artifact count. |
| WeekView.WeekMetricArtifacts | app/routers/weeks.py:54-58 | The rows are a permutation of the metrics whose parsed meta_json is an object whose "week" is the start date, newest first. |
| WeekView.WeekMetrics | app/routers/weeks.py:51-64 | Each of those rows, in order, is shown once with its parsed document. A row whose JSON fails to parse is skipped. |
| WeekView.WeekMetricsComplete | app/routers/weeks.py:54-62 | Every metric that names the week is shown. |
| WeekView.Page | app/routers/weeks.py:14-64 | The week shown is the row with the id. The artifact list and the per-kind counts are the week id's, whether or not the row exists. Without the row, sessions, totals and metrics are empty or zero. With it, the sessions are a permutation of the window's sessions, latest first. The study and build totals are the window's minutes of each kind, and the metrics are the week's metrics. |
| WeekView.PageSessionsMatchWindow | app/routers/weeks.py:29-45 | The listed sessions sum to the window minutes the dashboard shows for the same week. With non-negative minutes, study plus build is at most that sum. |
| Schema.ParseMeta | app/routers/weeks.py:57 | An empty meta_json reads as `{}`, a document reads as itself, and only malformed text has no parse. |
| Health.LastActivity | app/routers/health.py:13 | A record's last activity is its last_ingested time when set, and its first_seen time otherwise. |
| Health.HealthPage | app/routers/health.py:13-15 | It shows min(ledger size, 100) rows from the ledger, each at most as often as it occurs there, ordered by COALESCE(last_ingested, first_seen) descending. Despite the `if rows` guard, pending and errors are the counts over the whole ledger. |
| Health.HealthShowsMostRecent | app/routers/health.py:13 | A record left off the page is no more recent than any shown record. |
| Health.JustMarkedIsShown | app/routers/health.py:13 | A path marked later than every record's last activity is listed on the page, whether the mark inserted or updated it. |
| Health.PendingAndErrorsWithinLedger | app/routers/health.py:14-15 | Pending plus errors never exceeds the number of ledger records. |
| Health.FirstMarkCountsPending | app/routers/health.py:14-15 | The first mark of a path adds one to pending and leaves errors unchanged, whatever its outcome. |

## Left out

- File-system, subprocess and clock calls are inputs to each `Ingest.InboxFile`:
  - the outcome of `p.replace(dest)`;
  - the result or exception of each extractor (`read_text`, `json.loads`,
    `ffprobe`);
  - the time it is handled.
  The walk order of `rglob` is the order of the file sequence.
- The directory creation in `process` and in the media destinations is not
  modelled, and neither is the filtering of non-files by `is_file`. The
  sequence holds only regular files.
- `json.dumps` of the meta dict is not modelled. An ingested artifact stores
  the document itself.
- JSON parsing is abstract. A meta_json column is empty, a well-formed
  document (an object or not), or malformed text.
- Text decoding (`errors="ignore"`) and `.strip()` of repo files are folded
  into the read's result. Each file carries one read result, because each
  rule reads a file once.
- The JSON values and the session kinds follow conventions their types do
  not enforce. `JString` is meant to hold no ISO date, and `OtherActivity`
  no "build" or "study". A `JString` spelling a week's start date does not
  match that week in WeekView.MatchesWeek, where the code would match it.
- The startup lookup of `week_view` (app/routers/weeks.py:67) is left out,
  because the startup table is not part of this model.
- Templates, HTTP routing, and the `print` of seed.py are left out.
- Transaction and commit behaviour of app/db.py is not part of this model.
  Each call is one atomic step.
- Floating point: hours and scores are exact reals, not IEEE doubles.
- Timestamps are integers. `datetime('now')` and `isoformat()` text are not
  modelled.
- Text.Lower folds ASCII letters only, not full Unicode `str.lower`. For
  membership in {.pdf, .epub, .mobi} this gives the same answer.
- WeekView.ArtCounts returns the groups in the alphabetical order of the
  stored kind names. SQLite does not promise that order for `GROUP BY`
  without `ORDER BY`.
- Dashboard.Home and Dashboard.LatestOutputs carry no contract of their own.
  Their content is stated by Dashboard.WeekFigures, Dashboard.Newest,
  Dashboard.LatestMetrics and Dashboard.DailyMinutes.
- Artifact ids, the startup reference of an artifact, and the session logging
  script (scripts/add_session.py) are not modelled.
- The schema file is not part of this model. scaffold.py's schema lacks the
  `estimate_points` and `status` columns that the dashboard queries read, so
  the rows carry the columns those queries use.
