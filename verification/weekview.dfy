/**
  The week page (`week_view` in app/routers/weeks.py): the week row, the
  week's artifacts and their count per kind, the sessions of its date window
  with the study and build totals, and the metrics whose meta_json names the
  week's start date.
 */
module WeekView {
  import opened Wrappers
  import opened Schema
  import opened Seqs
  import opened Sorting
  import opened Aggregates
  import Seed

  /** `SELECT * FROM week WHERE id = ?`: the first row with that id, if any. */
  function WeekById(weeks: seq<Week>, id: int): (r: Option<Week>)
    ensures r.Some? ==> r.value in weeks && r.value.id == id
    ensures r.None? <==> forall w :: w in weeks ==> w.id != id
  {
    if |weeks| == 0 then None
    else if weeks[0].id == id then Some(weeks[0])
    else
      var r := WeekById(weeks[1..], id);
      assert forall w :: w in weeks ==> w == weeks[0] || w in weeks[1..];
      r
  }

  /** Under the id primary key the row found is the only row with that id. */
  lemma WeekByIdUnique(weeks: seq<Week>, id: int, w: Week)
    requires Seed.UniqueIds(weeks)
    requires w in weeks && w.id == id
    ensures WeekById(weeks, id) == Some(w)
  {
    var r := WeekById(weeks, id);
    var i :| 0 <= i < |weeks| && weeks[i] == w;
    var j :| 0 <= j < |weeks| && weeks[j] == r.value;
    assert i == j;
  }

  /** `WHERE week_id = ? ORDER BY created_at DESC`: the week's artifacts, newest first. */
  function WeekArtifacts(arts: seq<Artifact>, id: int): (r: seq<Artifact>)
    ensures multiset(r) == multiset(Filter(arts, InWeekOf(id)))
    ensures SortedDesc(r, CreatedAt)
    ensures |r| == ArtifactCount(arts, id)
  {
    CountIsFilterLength(arts, InWeekOf(id));
    SortDesc(Filter(arts, InWeekOf(id)), CreatedAt)
  }

  /** Every artifact listed belongs to the week, and every artifact of the week is listed. */
  lemma WeekArtifactsExact(arts: seq<Artifact>, id: int, a: Artifact)
    ensures a in WeekArtifacts(arts, id) <==> a in arts && a.weekId == Some(id)
  {
    var f := Filter(arts, InWeekOf(id));
    var r := WeekArtifacts(arts, id);
    assert a in r <==> a in multiset(r);
    assert a in f <==> a in multiset(f);
    assert InWeekOf(id)(a) <==> a.weekId == Some(id);
  }

  /** One row of `GROUP BY kind`: a kind and how many of the week's artifacts have it. */
  datatype KindCount = KindCount(kind: Kind, n: nat)

  function N(c: KindCount): int
  {
    c.n
  }

  /**
    Every kind, in the order of its stored name (book, challenge, conversation,
    metric, note, recording, repo, study_note, task).
   */
  const KindsByName: seq<Kind> := [Book, Challenge, Conversation, Metric, Note, Recording, Repo, StudyNote, Task]

  /** No kind is listed twice. */
  predicate DistinctKinds(ks: seq<Kind>)
  {
    forall i, j :: 0 <= i < j < |ks| ==> ks[i] != ks[j]
  }

  /** `WHERE kind = k`. */
  function OfKind(k: Kind): Artifact -> bool
  {
    (a: Artifact) => a.kind == k
  }

  /** `WHERE kind IN ks`. */
  function KindIn(ks: seq<Kind>): Artifact -> bool
  {
    (a: Artifact) => a.kind in ks
  }

  /** Every kind is listed. */
  lemma EveryKindListed(k: Kind)
    ensures k in KindsByName
  {
    var i := match k
      case Book => 0 case Challenge => 1 case Conversation => 2
      case Metric => 3 case Note => 4 case Recording => 5
      case Repo => 6 case StudyNote => 7 case Task => 8;
    assert KindsByName[i] == k;
  }

  /** The first of distinct kinds is not among the rest. */
  lemma HeadNotInTail(ks: seq<Kind>)
    requires |ks| > 0 && DistinctKinds(ks)
    ensures ks[0] !in ks[1..]
    ensures DistinctKinds(ks[1..])
  {
    forall j | 0 <= j < |ks[1..]|
      ensures ks[1..][j] != ks[0]
    {
      assert ks[1..][j] == ks[j + 1];
    }
  }

  /** The groups of `s` for the kinds `ks`: one row per kind that occurs, in the order of `ks`. */
  function CountsOver(ks: seq<Kind>, s: seq<Artifact>): (r: seq<KindCount>)
    requires DistinctKinds(ks)
    ensures forall i :: 0 <= i < |r| ==> r[i].n > 0
    ensures forall i :: 0 <= i < |r| ==> r[i].kind in ks
    ensures forall i, j :: 0 <= i < j < |r| ==> r[i].kind != r[j].kind
    decreases |ks|
  {
    if |ks| == 0 then []
    else
      HeadNotInTail(ks);
      var tail := CountsOver(ks[1..], s);
      var c := Count(s, OfKind(ks[0]));
      assert forall i :: 0 <= i < |tail| ==> tail[i].kind in ks by {
        forall i | 0 <= i < |tail|
          ensures tail[i].kind in ks
        {
          var j :| 0 <= j < |ks[1..]| && ks[1..][j] == tail[i].kind;
          assert ks[j + 1] == tail[i].kind;
        }
      }
      assert ks[0] in ks;
      if c > 0 then ConsGroup(KindCount(ks[0], c), tail) else tail
  }

  /** A group in front of groups of other kinds. */
  function ConsGroup(g: KindCount, tail: seq<KindCount>): (r: seq<KindCount>)
    requires forall i :: 0 <= i < |tail| ==> tail[i].kind != g.kind
    requires forall i, j :: 0 <= i < j < |tail| ==> tail[i].kind != tail[j].kind
    ensures |r| == |tail| + 1 && r[0] == g && forall i :: 0 <= i < |tail| ==> r[i + 1] == tail[i]
    ensures forall i, j :: 0 <= i < j < |r| ==> r[i].kind != r[j].kind
  {
    [g] + tail
  }

  /** Each group counts exactly the rows of its kind. */
  lemma {:induction false} CountsOverCounts(ks: seq<Kind>, s: seq<Artifact>, i: int)
    requires DistinctKinds(ks)
    requires 0 <= i < |CountsOver(ks, s)|
    ensures CountsOver(ks, s)[i].n == Count(s, OfKind(CountsOver(ks, s)[i].kind))
    decreases |ks|
  {
    HeadNotInTail(ks);
    var r := CountsOver(ks, s);
    var tail := CountsOver(ks[1..], s);
    if Count(s, OfKind(ks[0])) == 0 {
      CountsOverCounts(ks[1..], s, i);
    } else if i > 0 {
      assert r[i] == tail[i - 1];
      CountsOverCounts(ks[1..], s, i - 1);
    }
  }

  /** Every kind of `ks` that occurs in `s` gets a group. */
  lemma {:induction false} CountsOverCovers(ks: seq<Kind>, s: seq<Artifact>, k: Kind)
    requires DistinctKinds(ks)
    requires k in ks && Count(s, OfKind(k)) > 0
    ensures exists i :: 0 <= i < |CountsOver(ks, s)| && CountsOver(ks, s)[i].kind == k
    decreases |ks|
  {
    HeadNotInTail(ks);
    var r := CountsOver(ks, s);
    var tail := CountsOver(ks[1..], s);
    if k == ks[0] {
      assert r[0].kind == k;
    } else {
      assert k in ks[1..];
      CountsOverCovers(ks[1..], s, k);
      var i :| 0 <= i < |tail| && tail[i].kind == k;
      if Count(s, OfKind(ks[0])) > 0 {
        assert r[i + 1].kind == k;
      } else {
        assert r[i].kind == k;
      }
    }
  }

  /** The group counts of distinct kinds add up to the rows of those kinds. */
  lemma {:induction false} CountsOverSum(ks: seq<Kind>, s: seq<Artifact>)
    requires DistinctKinds(ks)
    ensures SumOf(CountsOver(ks, s), N) == Count(s, KindIn(ks))
    decreases |ks|
  {
    if |ks| == 0 {
      CountZero(s, KindIn(ks));
    } else {
      var tail := CountsOver(ks[1..], s);
      HeadNotInTail(ks);
      CountsOverSum(ks[1..], s);
      var c := Count(s, OfKind(ks[0]));
      SumOfConcat([KindCount(ks[0], c)], tail, N);
      assert forall k :: k in ks <==> k == ks[0] || k in ks[1..];
      CountUnion(s, OfKind(ks[0]), KindIn(ks[1..]), KindIn(ks));
    }
  }

  /** The listed kinds are distinct. */
  lemma KindsByNameDistinct()
    ensures DistinctKinds(KindsByName)
  {
  }

  /** `SELECT kind, COUNT(*) n FROM artifact WHERE week_id = ? GROUP BY kind`. */
  function ArtCounts(arts: seq<Artifact>, id: int): (r: seq<KindCount>)
    ensures forall i :: 0 <= i < |r| ==> r[i].n > 0
    ensures forall i, j :: 0 <= i < j < |r| ==> r[i].kind != r[j].kind
  {
    KindsByNameDistinct();
    CountsOver(KindsByName, Filter(arts, InWeekOf(id)))
  }

  /** Each group counts exactly the week's artifacts of its kind, and every kind the week has gets a group. */
  lemma ArtCountsExact(arts: seq<Artifact>, id: int, k: Kind)
    ensures var week := Filter(arts, InWeekOf(id));
      var r := ArtCounts(arts, id);
      && (forall i :: 0 <= i < |r| && r[i].kind == k ==> r[i].n == Count(week, OfKind(k)))
      && (Count(week, OfKind(k)) > 0 ==> exists i :: 0 <= i < |r| && r[i].kind == k)
  {
    KindsByNameDistinct();
    EveryKindListed(k);
    var week := Filter(arts, InWeekOf(id));
    var r := ArtCounts(arts, id);
    forall i | 0 <= i < |r| && r[i].kind == k
      ensures r[i].n == Count(week, OfKind(k))
    {
      CountsOverCounts(KindsByName, week, i);
    }
    if Count(week, OfKind(k)) > 0 {
      CountsOverCovers(KindsByName, week, k);
    }
  }

  /** The groups' counts add up to the week's artifact count. */
  lemma ArtCountsTotal(arts: seq<Artifact>, id: int)
    ensures SumOf(ArtCounts(arts, id), N) == ArtifactCount(arts, id)
  {
    var week := Filter(arts, InWeekOf(id));
    KindsByNameDistinct();
    CountsOverSum(KindsByName, week);
    EveryRowHasListedKind(week);
    CountIsFilterLength(arts, InWeekOf(id));
  }

  /** Every row's kind is one of the listed kinds. */
  lemma EveryRowHasListedKind(s: seq<Artifact>)
    ensures Count(s, KindIn(KindsByName)) == |s|
  {
    forall a | a in s
      ensures KindIn(KindsByName)(a)
    {
      EveryKindListed(a.kind);
    }
    CountAll(s, KindIn(KindsByName));
  }

  function StartedAt(s: Session): int
  {
    s.startedAt
  }

  /**
    The metric's meta_json parses to an object whose "week" entry is the
    date string of `start`. Any other document, including one that is not an
    object or does not parse, does not match.
   */
  predicate MatchesWeek(a: Artifact, start: int)
  {
    match ParseMeta(a.meta)
    case Some(JObject(fields)) => "week" in fields && fields["week"] == JDay(start)
    case _ => false
  }

  /** `MatchesWeek` as a filter. */
  function MatchesWeekOf(start: int): Artifact -> bool
  {
    (a: Artifact) => MatchesWeek(a, start)
  }

  /**
    `SELECT * FROM artifact WHERE kind='metric' ORDER BY created_at DESC`,
    keeping the rows whose JSON names the week; a row whose JSON fails to
    parse is skipped.
   */
  function WeekMetricArtifacts(arts: seq<Artifact>, start: int): (r: seq<Artifact>)
    ensures forall i :: 0 <= i < |r| ==> r[i] in arts && r[i].kind == Metric && MatchesWeek(r[i], start)
    ensures forall a :: a in arts && a.kind == Metric && MatchesWeek(a, start) ==> a in r
    ensures multiset(r) == multiset(Filter(Filter(arts, IsMetric), MatchesWeekOf(start)))
    ensures SortedDesc(r, CreatedAt)
  {
    var sorted := SortDesc(Filter(arts, IsMetric), CreatedAt);
    FilterKeepsSorted(sorted, CreatedAt, MatchesWeekOf(start));
    SortedMetricsFromArts(arts, sorted);
    FilterPermutation(sorted, Filter(arts, IsMetric), MatchesWeekOf(start));
    Filter(sorted, MatchesWeekOf(start))
  }

  /** The sorted metric rows are metric rows of the table. */
  lemma SortedMetricsFromArts(arts: seq<Artifact>, sorted: seq<Artifact>)
    requires multiset(sorted) == multiset(Filter(arts, IsMetric))
    ensures forall a :: a in sorted <==> a in arts && a.kind == Metric
  {
    forall a
      ensures a in sorted <==> a in arts && a.kind == Metric
    {
      assert a in sorted <==> a in multiset(Filter(arts, IsMetric));
    }
  }

  /** The week's metrics, each with its parsed meta_json. */
  function WeekMetrics(arts: seq<Artifact>, start: int): (r: seq<MetricRow>)
    ensures |r| == |WeekMetricArtifacts(arts, start)|
    ensures forall i :: 0 <= i < |r| ==> r[i].artifact == WeekMetricArtifacts(arts, start)[i]
    ensures forall i :: 0 <= i < |r| ==>
      && r[i].artifact in arts
      && r[i].artifact.kind == Metric
      && MatchesWeek(r[i].artifact, start)
      && r[i].parsed.Some?
      && r[i].parsed == ParseMeta(r[i].artifact.meta)
    ensures forall i, j :: 0 <= i < j < |r| ==> r[i].artifact.createdAt >= r[j].artifact.createdAt
  {
    Map(WeekMetricArtifacts(arts, start), Parsed)
  }

  /** Every metric naming the week is shown. */
  lemma WeekMetricsComplete(arts: seq<Artifact>, start: int, a: Artifact)
    requires a in arts && a.kind == Metric && MatchesWeek(a, start)
    ensures exists i :: 0 <= i < |WeekMetrics(arts, start)| && WeekMetrics(arts, start)[i].artifact == a
  {
    var kept := WeekMetricArtifacts(arts, start);
    var i :| 0 <= i < |kept| && kept[i] == a;
    assert WeekMetrics(arts, start)[i].artifact == a;
  }

  /** What the page shows. */
  datatype View = View(
    week: Option<Week>,
    arts: seq<Artifact>,
    counts: seq<KindCount>,
    sessions: seq<Session>,
    study: int,
    build: int,
    metrics: seq<MetricRow>)

  /**
    `week_view`: the artifact list and the counts come from the week id
    alone and are computed even when no week has that id; sessions, the
    two totals and the metrics need the week row and stay empty or 0
    without it.
   */
  function Page(weeks: seq<Week>, sessions: seq<Session>, arts: seq<Artifact>, id: int): (v: View)
    ensures v.week == WeekById(weeks, id)
    ensures v.arts == WeekArtifacts(arts, id) && v.counts == ArtCounts(arts, id)
    ensures v.week.None? ==> v.sessions == [] && v.study == 0 && v.build == 0 && v.metrics == []
    ensures v.week.Some? ==>
      var w := v.week.value;
      && multiset(v.sessions) == multiset(WindowSessions(sessions, w.start, w.end))
      && SortedDesc(v.sessions, StartedAt)
      && v.study == KindMinutes(sessions, w.start, w.end, Study)
      && v.build == KindMinutes(sessions, w.start, w.end, Build)
      && v.metrics == WeekMetrics(arts, w.start)
  {
    var arts' := WeekArtifacts(arts, id);
    var counts := ArtCounts(arts, id);
    match WeekById(weeks, id)
    case None => View(None, arts', counts, [], 0, 0, [])
    case Some(w) =>
      View(Some(w), arts', counts,
           SortDesc(WindowSessions(sessions, w.start, w.end), StartedAt),
           KindMinutes(sessions, w.start, w.end, Study),
           KindMinutes(sessions, w.start, w.end, Build),
           WeekMetrics(arts, w.start))
  }

  /**
    The sessions the page lists add up to the minutes the dashboard shows for
    the same week, and the study and build totals stay within that sum when
    no session has negative minutes.
   */
  lemma PageSessionsMatchWindow(weeks: seq<Week>, sessions: seq<Session>, arts: seq<Artifact>, id: int)
    requires WeekById(weeks, id).Some?
    ensures var v := Page(weeks, sessions, arts, id);
      var w := v.week.value;
      && SumOf(v.sessions, Minutes) == WindowMinutes(sessions, w.start, w.end)
      && ((forall s :: s in sessions ==> s.minutes >= 0) ==> v.study + v.build <= SumOf(v.sessions, Minutes))
  {
    var v := Page(weeks, sessions, arts, id);
    var w := v.week.value;
    SumOfPermutation(v.sessions, WindowSessions(sessions, w.start, w.end), Minutes);
    if forall s :: s in sessions ==> s.minutes >= 0 {
      StudyPlusBuildWithinTotal(sessions, w.start, w.end);
    }
  }
}
