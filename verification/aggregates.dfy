/**
  The aggregate queries the dashboard and week pages share, one function per
  SQL shape:
    - minutes of a date window:  COALESCE(SUM(minutes), 0) FROM session_log
                                 WHERE date(started_at) BETWEEN start AND end [AND kind = k]
    - artifacts of a week:       COUNT(*) FROM artifact WHERE week_id = id
    - story points of a week:    COALESCE(SUM(estimate_points), 0) FROM artifact
                                 WHERE kind = 'task' AND status = s AND week_id = id
 */
module Aggregates {
  import opened Wrappers
  import opened Schema
  import opened Seqs
  import Seed

  /** `date(started_at) BETWEEN start AND end`, both ends included. */
  predicate InWindow(s: Session, start: int, end: int)
  {
    start <= DayOf(s.startedAt) <= end
  }

  function Minutes(s: Session): int
  {
    s.minutes
  }

  /** The window test as a WHERE clause. */
  function InWindowOf(start: int, end: int): Session -> bool
  {
    (s: Session) => InWindow(s, start, end)
  }

  /** `AND kind = k` as a WHERE clause. */
  function OfSessionKind(kind: SessionKind): Session -> bool
  {
    (s: Session) => s.kind == kind
  }

  /** The sessions whose day lies in the window. */
  function WindowSessions(sessions: seq<Session>, start: int, end: int): seq<Session>
  {
    Filter(sessions, InWindowOf(start, end))
  }

  /**
    Minutes logged in the window. With no negative session they are at
    least 0 and at most the minutes of all sessions.
   */
  function WindowMinutes(sessions: seq<Session>, start: int, end: int): (m: int)
    ensures (forall s :: s in sessions ==> s.minutes >= 0) ==> 0 <= m <= SumOf(sessions, Minutes)
  {
    SumOfFilterWithin(sessions, Minutes, InWindowOf(start, end));
    SumOf(WindowSessions(sessions, start, end), Minutes)
  }

  /**
    Minutes logged in the window by sessions of one kind. With no negative
    session they are at least 0 and at most the window's minutes.
   */
  function KindMinutes(sessions: seq<Session>, start: int, end: int, kind: SessionKind): (m: int)
    ensures (forall s :: s in sessions ==> s.minutes >= 0) ==> 0 <= m <= WindowMinutes(sessions, start, end)
  {
    SumOfFilterWithin(WindowSessions(sessions, start, end), Minutes, OfSessionKind(kind));
    SumOf(Filter(WindowSessions(sessions, start, end), OfSessionKind(kind)), Minutes)
  }

  /** The artifact belongs to week `id` by its stored week_id. */
  predicate InWeek(a: Artifact, id: int)
  {
    a.weekId == Some(id)
  }

  /** `WHERE week_id = id`. */
  function InWeekOf(id: int): Artifact -> bool
  {
    (a: Artifact) => InWeek(a, id)
  }

  /** Artifacts attributed to week `id`: none exactly when no row names the week. */
  function ArtifactCount(arts: seq<Artifact>, id: int): (n: nat)
    ensures n <= |arts|
    ensures n == 0 <==> forall a :: a in arts ==> a.weekId != Some(id)
  {
    CountZero(arts, InWeekOf(id));
    Count(arts, InWeekOf(id))
  }

  /** SUM ignores a NULL estimate_points. */
  function Points(a: Artifact): int
  {
    match a.points
    case Some(p) => p
    case None => 0
  }

  /** A task of week `id` whose status is `status`. */
  predicate IsTaskOf(a: Artifact, id: int, status: TaskStatus)
  {
    a.kind == Task && a.status == Some(status) && InWeek(a, id)
  }

  /** `WHERE kind = 'task' AND status = s AND week_id = id`. */
  function TaskOf(id: int, status: TaskStatus): Artifact -> bool
  {
    (a: Artifact) => IsTaskOf(a, id, status)
  }

  /**
    Story points of week `id`'s tasks in the given status. With no negative
    estimate they are at least 0 and at most the points of all rows.
   */
  function TaskPoints(arts: seq<Artifact>, id: int, status: TaskStatus): (r: int)
    ensures (forall a :: a in arts ==> Points(a) >= 0) ==> 0 <= r <= SumOf(arts, Points)
  {
    SumOfFilterWithin(arts, Points, TaskOf(id, status));
    SumOf(Filter(arts, TaskOf(id, status)), Points)
  }

  function CreatedAt(a: Artifact): int
  {
    a.createdAt
  }

  predicate IsMetric(a: Artifact)
  {
    a.kind == Metric
  }

  /** A metric artifact with its meta_json parsed, or with nothing if it does not parse. */
  datatype MetricRow = MetricRow(artifact: Artifact, parsed: Option<JsonDoc>)

  function Parsed(a: Artifact): MetricRow
  {
    MetricRow(a, ParseMeta(a.meta))
  }

  /** A window with no session in it sums to 0 (the COALESCE). */
  lemma EmptyWindowIsZero(sessions: seq<Session>, start: int, end: int)
    requires forall s :: s in sessions ==> !InWindow(s, start, end)
    ensures WindowMinutes(sessions, start, end) == 0
  {
    CountZero(sessions, InWindowOf(start, end));
    CountIsFilterLength(sessions, InWindowOf(start, end));
  }

  /** Sessions logged later add their window minutes to the earlier total. */
  lemma WindowMinutesAppend(older: seq<Session>, newer: seq<Session>, start: int, end: int)
    ensures WindowMinutes(older + newer, start, end) ==
            WindowMinutes(older, start, end) + WindowMinutes(newer, start, end)
  {
    FilterConcat(older, newer, InWindowOf(start, end));
    SumOfConcat(WindowSessions(older, start, end), WindowSessions(newer, start, end), Minutes);
  }

  /** Sessions logged later add their minutes of one kind to the earlier total. */
  lemma KindMinutesAppend(older: seq<Session>, newer: seq<Session>, start: int, end: int, kind: SessionKind)
    ensures KindMinutes(older + newer, start, end, kind) ==
            KindMinutes(older, start, end, kind) + KindMinutes(newer, start, end, kind)
  {
    var isKind := OfSessionKind(kind);
    var wo := WindowSessions(older, start, end);
    var wn := WindowSessions(newer, start, end);
    FilterConcat(older, newer, InWindowOf(start, end));
    FilterConcat(wo, wn, isKind);
    SumOfConcat(Filter(wo, isKind), Filter(wn, isKind), Minutes);
  }

  /** A single session adds its minutes exactly when it lies in the window and has the kind. */
  lemma KindMinutesOne(s: Session, start: int, end: int, kind: SessionKind)
    ensures KindMinutes([s], start, end, kind) ==
            if InWindow(s, start, end) && s.kind == kind then s.minutes else 0
  {
    FilterOne(s, InWindowOf(start, end));
    if InWindow(s, start, end) {
      FilterOne(s, OfSessionKind(kind));
      if s.kind == kind {
        SumOfOne(s, Minutes);
      }
    }
  }

  /** Rows added later add their task points to the earlier total. */
  lemma TaskPointsAppend(older: seq<Artifact>, newer: seq<Artifact>, id: int, status: TaskStatus)
    ensures TaskPoints(older + newer, id, status) == TaskPoints(older, id, status) + TaskPoints(newer, id, status)
  {
    FilterConcat(older, newer, TaskOf(id, status));
    SumOfConcat(Filter(older, TaskOf(id, status)), Filter(newer, TaskOf(id, status)), Points);
  }

  /** A single row adds its estimate exactly when it is a task of the week in that status. */
  lemma TaskPointsOne(a: Artifact, id: int, status: TaskStatus)
    ensures TaskPoints([a], id, status) == if IsTaskOf(a, id, status) then Points(a) else 0
  {
    FilterOne(a, TaskOf(id, status));
    if IsTaskOf(a, id, status) {
      SumOfOne(a, Points);
    }
  }

  /**
    The study and build totals never exceed the window total when no session
    has negative minutes (the column does not forbid them); sessions of any
    other kind make up the difference.
   */
  lemma StudyPlusBuildWithinTotal(sessions: seq<Session>, start: int, end: int)
    requires forall s :: s in sessions ==> s.minutes >= 0
    ensures KindMinutes(sessions, start, end, Study) + KindMinutes(sessions, start, end, Build)
            <= WindowMinutes(sessions, start, end)
  {
    var w := WindowSessions(sessions, start, end);
    var isStudy := OfSessionKind(Study);
    var isBuild := OfSessionKind(Build);
    SumOfPartition(w, Minutes, isStudy);
    var rest := Filter(w, Not(isStudy));
    SumOfPartition(rest, Minutes, isBuild);
    SumOfNonNegative(Filter(rest, Not(isBuild)), Minutes);
    assert Filter(rest, isBuild) == Filter(w, isBuild) by {
      FilterOfComplement(w, isStudy, isBuild);
    }
  }

  /** Rows attributed to no week change no week's artifact count or story points. */
  lemma UnattributedRowsChangeNoWeek(arts: seq<Artifact>, added: seq<Artifact>, id: int, status: TaskStatus)
    requires forall a :: a in added ==> a.weekId.None?
    ensures ArtifactCount(arts + added, id) == ArtifactCount(arts, id)
    ensures TaskPoints(arts + added, id, status) == TaskPoints(arts, id, status)
  {
    var inWeek := InWeekOf(id);
    var isTask := TaskOf(id, status);
    CountConcat(arts, added, inWeek);
    CountZero(added, inWeek);
    FilterConcat(arts, added, isTask);
    FilterNone(added, isTask);
    assert Filter(arts, isTask) + [] == Filter(arts, isTask);
  }

  /**
    Two well-formed week rows with different starts never both count a
    session: their windows are disjoint.
   */
  lemma SessionInOneWeekOnly(s: Session, a: Week, b: Week)
    requires Seed.Canonical(a) && Seed.Canonical(b) && a.start != b.start
    ensures !(InWindow(s, a.start, a.end) && InWindow(s, b.start, b.end))
  {
    Seed.MondayOfWindow(a.start, a.start);
    Seed.MondayOfWindow(b.start, b.start);
    Seed.DistinctWindowsDisjoint(a.start, b.start);
  }
}
