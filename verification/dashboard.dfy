/**
  The dashboard page (`home` in app/routers/dashboard.py): this week's and
  last week's totals and their differences, the output score, the latest
  outputs and metrics, and the minutes of the last fourteen active days.
 */
module Dashboard {
  import opened Wrappers
  import opened Schema
  import opened Seqs
  import opened Sorting
  import opened Aggregates
  import Seed
  import Ingest

  function StartOf(w: Week): int
  {
    w.start
  }

  /** `ORDER BY start_date DESC LIMIT 2`: the current week and the week before it. */
  function CurrentAndLast(weeks: seq<Week>): (r: (Option<Week>, Option<Week>))
    ensures r.0.None? <==> |weeks| == 0
    ensures r.1.None? <==> |weeks| < 2
    ensures r.0.Some? ==> r.0.value in weeks
    ensures r.1.Some? ==> r.0.Some? && r.1.value in weeks && r.1.value.start <= r.0.value.start
  {
    var top := TopK(weeks, StartOf, 2);
    assert forall i :: 0 <= i < |top| ==> top[i] in multiset(weeks);
    if |top| == 0 then (None, None)
    else if |top| == 1 then (Some(top[0]), None)
    else (Some(top[0]), Some(top[1]))
  }

  /**
    The current week has the latest start of all rows, and the last week the
    latest start of all other rows.
   */
  lemma CurrentAndLastAreLatest(weeks: seq<Week>, w: Week)
    requires w in weeks
    ensures var (cur, last) := CurrentAndLast(weeks);
      && w.start <= cur.value.start
      && (last.Some? && w != cur.value ==> w.start <= last.value.start)
  {
    TopKFirstIsMax(weeks, StartOf, 2, w);
    if |weeks| >= 2 && w != TopK(weeks, StartOf, 2)[0] {
      TopTwoSecondIsMaxOfRest(weeks, StartOf, w);
    }
  }

  /** Under the UNIQUE start_date constraint the last week starts strictly before the current one. */
  lemma LastBeforeCurrent(weeks: seq<Week>)
    requires Seed.UniqueStarts(weeks) && |weeks| >= 2
    ensures var (cur, last) := CurrentAndLast(weeks);
      last.value.start < cur.value.start
  {
    assert DistinctKeys(weeks, StartOf);
    TopKStrict(weeks, StartOf, 2, 0, 1);
  }

  /** The four figures the page computes per week. */
  datatype Totals = Totals(minutes: int, artifacts: nat, planned: int, delivered: int)

  /**
    A week's figures; every figure stays 0 when there is no such week. Its
    artifacts are among the table's rows, and with no negative session its
    minutes lie between 0 and the minutes of all sessions.
   */
  function WeekTotals(w: Option<Week>, sessions: seq<Session>, arts: seq<Artifact>): (t: Totals)
    ensures w.None? ==> t == Totals(0, 0, 0, 0)
    ensures t.artifacts <= |arts|
    ensures w.Some? && (forall s :: s in sessions ==> s.minutes >= 0) ==> 0 <= t.minutes <= SumOf(sessions, Minutes)
  {
    match w
    case None => Totals(0, 0, 0, 0)
    case Some(wk) =>
      Totals(WindowMinutes(sessions, wk.start, wk.end), ArtifactCount(arts, wk.id),
             TaskPoints(arts, wk.id, TaskPending), TaskPoints(arts, wk.id, TaskDone))
  }

  /** Minutes to hours by true division: sixty times the hours gives the minutes back. */
  function Hours(minutes: int): (h: real)
    ensures h * 60.0 == minutes as real
  {
    minutes as real / 60.0
  }

  /** artifacts + hours / 10: one artifact weighs as much as ten hours, that is 600 minutes. */
  function Score(t: Totals): (s: real)
    ensures s * 600.0 == t.artifacts as real * 600.0 + t.minutes as real
  {
    t.artifacts as real + Hours(t.minutes) / 10.0
  }

  predicate IsOutput(a: Artifact)
  {
    a.kind != Metric
  }

  /**
    `SELECT * FROM artifact WHERE <p> ORDER BY created_at DESC LIMIT k`: up to
    `k` rows satisfying `p`, newest first.
   */
  function Newest(arts: seq<Artifact>, p: Artifact -> bool, k: nat): (r: seq<Artifact>)
    ensures |r| == if Count(arts, p) < k then Count(arts, p) else k
    ensures forall i :: 0 <= i < |r| ==> r[i] in arts && p(r[i])
    ensures multiset(r) <= multiset(Filter(arts, p))
    ensures SortedDesc(r, CreatedAt)
  {
    var ms := Filter(arts, p);
    CountIsFilterLength(arts, p);
    var r := TopK(ms, CreatedAt, k);
    assert forall i :: 0 <= i < |r| ==> r[i] in arts && p(r[i]) by {
      forall i | 0 <= i < |r|
        ensures r[i] in arts && p(r[i])
      {
        assert r[i] in ms;
      }
    }
    r
  }

  /** No row left out is newer than a row shown. */
  lemma NewestKeepsNewer(arts: seq<Artifact>, p: Artifact -> bool, k: nat, a: Artifact, i: int)
    requires a in arts && p(a)
    requires 0 <= i < |Newest(arts, p, k)| && a.createdAt > Newest(arts, p, k)[i].createdAt
    ensures a in Newest(arts, p, k)
  {
    var ms := Filter(arts, p);
    assert a in ms;
    TopKKeepsGreater(ms, CreatedAt, k, a, i);
  }

  /** The latest outputs: `WHERE kind != 'metric' ... LIMIT 10`. */
  function LatestOutputs(arts: seq<Artifact>): seq<Artifact>
  {
    Newest(arts, IsOutput, 10)
  }

  /**
    The latest metrics, `WHERE kind = 'metric' ... LIMIT 5`, each paired with
    its parsed meta_json; a row whose JSON does not parse is still shown,
    without parsed data.
   */
  function LatestMetrics(arts: seq<Artifact>): (r: seq<MetricRow>)
    ensures |r| == |Newest(arts, IsMetric, 5)|
    ensures forall i :: 0 <= i < |r| ==> r[i].artifact == Newest(arts, IsMetric, 5)[i]
    ensures forall i :: 0 <= i < |r| ==> r[i].parsed == ParseMeta(r[i].artifact.meta)
    ensures forall i :: 0 <= i < |r| ==> (r[i].parsed.None? <==> r[i].artifact.meta.MetaMalformed?)
    ensures forall i :: 0 <= i < |r| ==>
      r[i].artifact.meta.MetaEmpty? ==> r[i].parsed == Some(EmptyObject)
    ensures forall i :: 0 <= i < |r| ==>
      r[i].artifact.meta.MetaJson? ==> r[i].parsed == Some(r[i].artifact.meta.doc)
  {
    Map(Newest(arts, IsMetric, 5), Parsed)
  }

  /** One point of the sparkline: a day and the minutes logged on it. */
  datatype DayTotal = DayTotal(day: int, minutes: int)

  function DayOfSession(s: Session): int
  {
    DayOf(s.startedAt)
  }

  /** `date(started_at)` of every session. */
  function SessionDays(sessions: seq<Session>): (r: seq<int>)
    ensures forall d :: d in r <==> exists s :: s in sessions && DayOfSession(s) == d
  {
    var r := seq(|sessions|, i requires 0 <= i < |sessions| => DayOfSession(sessions[i]));
    assert forall s :: s in sessions ==> DayOfSession(s) in r by {
      forall s | s in sessions
        ensures DayOfSession(s) in r
      {
        var i :| 0 <= i < |sessions| && sessions[i] == s;
        assert r[i] == DayOfSession(s);
      }
    }
    r
  }

  /** The minutes of one group of `GROUP BY date(started_at)`: a one-day window. */
  function DayMinutes(sessions: seq<Session>, d: int): int
  {
    WindowMinutes(sessions, d, d)
  }

  /** Days that have sessions, latest first, at most fourteen of them. */
  function LatestDays(sessions: seq<Session>): (r: seq<int>)
    ensures |r| <= 14
    ensures StrictlyDecreasing(r)
  {
    Take(Dedup(SortDesc(SessionDays(sessions), Id)), 14)
  }

  /** The distinct session days, latest first. */
  lemma DistinctDays(sessions: seq<Session>)
    ensures var all := Dedup(SortDesc(SessionDays(sessions), Id));
      && (forall s :: s in sessions ==> DayOfSession(s) in all)
      && (forall d :: d in all ==> exists s :: s in sessions && DayOfSession(s) == d)
  {
    var days := SessionDays(sessions);
    var sorted := SortDesc(days, Id);
    forall d
      ensures d in sorted <==> d in days
    {
      assert d in sorted <==> d in multiset(sorted);
      assert d in days <==> d in multiset(days);
    }
    forall s | s in sessions
      ensures DayOfSession(s) in days
    {
      var i :| 0 <= i < |sessions| && sessions[i] == s;
      assert days[i] == DayOfSession(s);
    }
  }

  /** A session day missing from the list is older than all fourteen listed days. */
  lemma LatestDaysCover(sessions: seq<Session>, s: Session)
    requires s in sessions
    ensures var r := LatestDays(sessions);
      DayOfSession(s) in r || (|r| == 14 && DayOfSession(s) < r[13])
  {
    var all := Dedup(SortDesc(SessionDays(sessions), Id));
    DistinctDays(sessions);
    var r := Take(all, 14);
    assert DayOfSession(s) in all;
    var j :| 0 <= j < |all| && all[j] == DayOfSession(s);
    if j < 14 {
      assert r[j] == all[j];
    } else {
      assert all[13] > all[j];
    }
  }

  /** Every listed day is the day of some session. */
  lemma LatestDaysAreActive(sessions: seq<Session>, d: int)
    requires d in LatestDays(sessions)
    ensures exists s :: s in sessions && DayOfSession(s) == d
  {
    var all := Dedup(SortDesc(SessionDays(sessions), Id));
    DistinctDays(sessions);
    var r := Take(all, 14);
    var j :| 0 <= j < |r| && r[j] == d;
    assert all[j] in all;
  }

  /**
    `GROUP BY d ORDER BY d DESC LIMIT 14`, then reversed: the last fourteen
    days with sessions, oldest first, each with the sum of its minutes.
   */
  function DailyMinutes(sessions: seq<Session>): (r: seq<DayTotal>)
    ensures |r| <= 14
    ensures forall i, j :: 0 <= i < j < |r| ==> r[i].day < r[j].day
    ensures forall i :: 0 <= i < |r| ==> r[i].minutes == DayMinutes(sessions, r[i].day)
    ensures forall i :: 0 <= i < |r| ==> r[i].day in LatestDays(sessions)
  {
    var latest := LatestDays(sessions);
    ReverseIncreasing(latest);
    Map(Reverse(latest), DayTotalOf(sessions))
  }

  /** A day with the sum of its minutes. */
  function DayTotalOf(sessions: seq<Session>): int -> DayTotal
  {
    d => DayTotal(d, DayMinutes(sessions, d))
  }

  /**
    The sparkline has a point for exactly the latest days with sessions: each
    point's day has sessions, and a session whose day has no point is older
    than the first point while all fourteen points are in use.
   */
  lemma DailyMinutesCover(sessions: seq<Session>, s: Session)
    requires s in sessions
    ensures var r := DailyMinutes(sessions);
      (exists i :: 0 <= i < |r| && r[i].day == DayOfSession(s)) ||
      (|r| == 14 && DayOfSession(s) < r[0].day)
  {
    var latest := LatestDays(sessions);
    var r := DailyMinutes(sessions);
    LatestDaysCover(sessions, s);
    assert |r| == |latest|;
    if DayOfSession(s) in latest {
      var j :| 0 <= j < |latest| && latest[j] == DayOfSession(s);
      assert r[|latest| - 1 - j].day == Reverse(latest)[|latest| - 1 - j] == DayOfSession(s);
    } else {
      assert r[0].day == latest[13];
    }
  }

  /** The figures of the page's header: this week's totals and their differences to last week's. */
  datatype Figures = Figures(
    thisHours: real,
    thisArtifacts: int,
    thisPlanned: int,
    thisDelivered: int,
    outputScore: real,
    hoursDelta: real,
    artifactsDelta: int,
    plannedDelta: int,
    deliveredDelta: int,
    scoreDelta: real)

  /**
    This week's figures beside last week's: the hours are the minutes over
    60, the score is the artifact count plus a tenth of the hours, each
    difference is this week's figure minus last week's, and against a zero
    baseline every difference is the figure itself.
   */
  function Compare(t: Totals, l: Totals): (p: Figures)
    ensures p.thisHours * 60.0 == t.minutes as real
    ensures p.thisArtifacts == t.artifacts && p.thisPlanned == t.planned && p.thisDelivered == t.delivered
    ensures p.outputScore == t.artifacts as real + t.minutes as real / 600.0
    ensures p.hoursDelta * 60.0 == (t.minutes - l.minutes) as real
    ensures p.artifactsDelta == t.artifacts - l.artifacts
    ensures p.plannedDelta == t.planned - l.planned
    ensures p.deliveredDelta == t.delivered - l.delivered
    ensures p.scoreDelta == p.outputScore - (l.artifacts as real + l.minutes as real / 600.0)
    ensures p.scoreDelta == p.artifactsDelta as real + p.hoursDelta / 10.0
    ensures l == Totals(0, 0, 0, 0) ==>
      p.hoursDelta == p.thisHours && p.artifactsDelta == p.thisArtifacts &&
      p.plannedDelta == p.thisPlanned && p.deliveredDelta == p.thisDelivered && p.scoreDelta == p.outputScore
  {
    Figures(Hours(t.minutes), t.artifacts, t.planned, t.delivered, Score(t),
            Hours(t.minutes) - Hours(l.minutes), t.artifacts - l.artifacts,
            t.planned - l.planned, t.delivered - l.delivered, Score(t) - Score(l))
  }

  /**
    Lines 13-79 of `home`: the current week against the one before it. The
    current figures are the latest week's window minutes, artifact count and
    story points; each difference subtracts the same query over the second
    latest week, or 0 when there is only one week; with no week at all every
    figure is 0.
   */
  function WeekFigures(weeks: seq<Week>, sessions: seq<Session>, arts: seq<Artifact>): (p: Figures)
    ensures |weeks| == 0 ==> p == Figures(0.0, 0, 0, 0, 0.0, 0.0, 0, 0, 0, 0.0)
    ensures |weeks| == 1 ==> p == Compare(WeekTotals(Some(weeks[0]), sessions, arts), Totals(0, 0, 0, 0))
    ensures |weeks| >= 1 ==>
      var cur := CurrentAndLast(weeks).0.value;
      && p.thisHours * 60.0 == WindowMinutes(sessions, cur.start, cur.end) as real
      && p.thisArtifacts == ArtifactCount(arts, cur.id)
      && p.thisPlanned == TaskPoints(arts, cur.id, TaskPending)
      && p.thisDelivered == TaskPoints(arts, cur.id, TaskDone)
      && p.outputScore == p.thisArtifacts as real + p.thisHours / 10.0
      && p.scoreDelta == p.artifactsDelta as real + p.hoursDelta / 10.0
    ensures |weeks| >= 2 ==>
      var (cur, last) := (CurrentAndLast(weeks).0.value, CurrentAndLast(weeks).1.value);
      && p.hoursDelta * 60.0 == (WindowMinutes(sessions, cur.start, cur.end) - WindowMinutes(sessions, last.start, last.end)) as real
      && p.artifactsDelta == ArtifactCount(arts, cur.id) - ArtifactCount(arts, last.id)
      && p.plannedDelta == TaskPoints(arts, cur.id, TaskPending) - TaskPoints(arts, last.id, TaskPending)
      && p.deliveredDelta == TaskPoints(arts, cur.id, TaskDone) - TaskPoints(arts, last.id, TaskDone)
  {
    var r := CurrentAndLast(weeks);
    Compare(WeekTotals(r.0, sessions, arts), WeekTotals(r.1, sessions, arts))
  }

  /** What the page shows. */
  datatype Page = Page(figures: Figures, latestOutputs: seq<Artifact>, latestMetrics: seq<MetricRow>, daily: seq<DayTotal>)

  /** `home`. */
  function Home(weeks: seq<Week>, sessions: seq<Session>, arts: seq<Artifact>): Page
  {
    Page(WeekFigures(weeks, sessions, arts), LatestOutputs(arts), LatestMetrics(arts), DailyMinutes(sessions))
  }

  /**
    With the week table as seeding leaves it — a row for today's window and
    none starting later — the page's current week is today's window.
   */
  lemma CurrentWeekIsToday(weeks: seq<Week>, today: int)
    requires Seed.HasStart(weeks, Seed.WeekStart(today))
    requires forall w :: w in weeks ==> w.start <= Seed.WeekStart(today)
    ensures CurrentAndLast(weeks).0.Some?
    ensures CurrentAndLast(weeks).0.value.start == Seed.WeekStart(today)
  {
    var i :| 0 <= i < |weeks| && weeks[i].start == Seed.WeekStart(today);
    CurrentAndLastAreLatest(weeks, weeks[i]);
  }

  /**
    An ingestion pass never moves a week's figures: the rows it appends
    belong to no week and are never tasks.
   */
  lemma IngestKeepsWeekTotals(cfg: Ingest.Config, st: Ingest.State, files: seq<Ingest.InboxFile>,
                              w: Option<Week>, sessions: seq<Session>)
    ensures var r := Ingest.ProcessAll(cfg, st, files);
      WeekTotals(w, sessions, r.artifacts) == WeekTotals(w, sessions, st.artifacts)
  {
    var r := Ingest.ProcessAll(cfg, st, files);
    Ingest.AppendedRowsFromInbox(cfg, st, files);
    var added := r.artifacts[|st.artifacts|..];
    assert r.artifacts == st.artifacts + added;
    assert forall a :: a in added ==> Ingest.FromInbox(a) by {
      forall a | a in added
        ensures Ingest.FromInbox(a)
      {
        var k :| 0 <= k < |added| && added[k] == a;
        assert r.artifacts[|st.artifacts| + k] == a;
      }
    }
    if w.Some? {
      UnattributedRowsChangeNoWeek(st.artifacts, added, w.value.id, TaskPending);
      UnattributedRowsChangeNoWeek(st.artifacts, added, w.value.id, TaskDone);
    }
  }
}
