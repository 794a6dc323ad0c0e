/**
  The logical tables of the store: artifact, session_log, week and
  ingest_status, one datatype per row. Rows carry only the columns that
  ingestion writes or the pages read.

  Days are integers counted from 1970-01-01 (day 0). Timestamps are integers
  counted in minutes from the same origin. The store keeps both as ISO-8601
  text, whose lexicographic order is the chronological order, so comparing
  the integers is comparing the texts.
 */
module Schema {
  import opened Wrappers

  /** The `kind` column of an artifact. */
  datatype Kind =
    | Recording | Note | Conversation | Repo | Book | StudyNote | Challenge
    | Task | Metric

  /** The `status` column of a task artifact. */
  datatype TaskStatus = TaskPending | TaskDone

  /**
    A JSON value, reduced to what the pages look at. `JDay(d)` is a string
    that is exactly the ISO date of day `d`. By convention, which the type
    does not enforce, `JString` holds only other strings, so that `JDay(d)` is
    the one value equal to the `start_date` text of a week starting on `d`.
   */
  datatype JsonValue = JDay(day: int) | JString(s: string) | JNumber(x: real) | JOther

  /** A parsed JSON document: an object, or anything else (array, scalar). */
  datatype JsonDoc = JObject(fields: map<string, JsonValue>) | JNonObject

  /** The `meta_json` column: NULL or empty, well-formed JSON, or text `json.loads` rejects. */
  datatype MetaColumn = MetaEmpty | MetaJson(doc: JsonDoc) | MetaMalformed(raw: string)

  /** The empty JSON object `{}`. */
  const EmptyObject: JsonDoc := JObject(map[])

  /** One row of the artifact table. */
  datatype Artifact = Artifact(
    kind: Kind,
    title: string,
    path: string,
    text: Option<string>,
    meta: MetaColumn,
    weekId: Option<int>,
    points: Option<int>,
    status: Option<TaskStatus>,
    createdAt: int)

  /**
    The `kind` column of a session: the two the application logs, or any
    other text (by convention, not enforced, never "build" or "study").
   */
  datatype SessionKind = Build | Study | OtherActivity(name: string)

  /** One row of session_log: when it started (minutes), its length, its kind. */
  datatype Session = Session(startedAt: int, minutes: int, kind: SessionKind)

  const MinutesPerDay := 1440

  /** SQLite's `date(started_at)`: the day a timestamp falls on. */
  function DayOf(t: int): (d: int)
    ensures d * MinutesPerDay <= t < (d + 1) * MinutesPerDay
  {
    t / MinutesPerDay
  }

  /** One row of the week table. */
  datatype Week = Week(id: int, start: int, end: int, notes: Option<string>)

  /** The `status` column of ingest_status. */
  datatype Status = Pending | Ok | Error

  /** One row of ingest_status: the ledger entry of one inbox-relative path. */
  datatype StatusRec = StatusRec(
    relPath: string,
    firstSeen: int,
    lastIngested: Option<int>,
    status: Status,
    message: Option<string>)

  /**
    `json.loads(meta_json) if meta_json else {}`: an empty column reads as the
    empty object, malformed text has no parse.
   */
  function ParseMeta(m: MetaColumn): (r: Option<JsonDoc>)
    ensures r.None? <==> m.MetaMalformed?
    ensures m.MetaEmpty? ==> r == Some(EmptyObject)
    ensures m.MetaJson? ==> r == Some(m.doc)
  {
    match m
    case MetaEmpty => Some(EmptyObject)
    case MetaJson(doc) => Some(doc)
    case MetaMalformed(_) => None
  }
}
