/**
  The week table and scripts/seed.py: the Monday-to-Sunday window of a day,
  and `INSERT OR IGNORE INTO week(start_date, end_date)` for the current
  window, which the UNIQUE constraint on start_date turns into
  "insert unless a row with this start already exists".
 */
module Seed {
  import opened Wrappers
  import opened Schema

  /** Day 0 (1970-01-01) is a Thursday; `date.weekday()` numbers Monday 0 through Sunday 6. */
  const EpochWeekday := 3

  /** `date.weekday()`. */
  function Weekday(d: int): (w: int)
    ensures 0 <= w < 7
  {
    (d + EpochWeekday) % 7
  }

  /** `today - timedelta(days=today.weekday())`: the Monday of today's window. */
  function WeekStart(today: int): (s: int)
    ensures Weekday(s) == 0
    ensures s <= today <= s + 6
  {
    var s := today - Weekday(today);
    assert s + EpochWeekday == 7 * ((today + EpochWeekday) / 7);
    s
  }

  /** A Monday whose window holds `t` is the start `t` computes. */
  lemma MondayOfWindow(s: int, t: int)
    requires Weekday(s) == 0 && s <= t <= s + 6
    ensures WeekStart(t) == s
  {
    var q := (s + EpochWeekday) / 7;
    assert s + EpochWeekday == 7 * q;
    assert t + EpochWeekday == 7 * q + (t - s);
    assert Weekday(t) == t - s;
  }

  /** Any two days of one Monday-Sunday window compute the same start. */
  lemma SameWindowSameStart(a: int, b: int)
    requires WeekStart(a) <= b <= WeekStart(a) + 6
    ensures WeekStart(b) == WeekStart(a)
  {
    MondayOfWindow(WeekStart(a), b);
  }

  /** Windows of different starts do not overlap: their Mondays are at least a week apart. */
  lemma DistinctWindowsDisjoint(a: int, b: int)
    requires WeekStart(a) != WeekStart(b)
    ensures WeekStart(a) + 6 < WeekStart(b) || WeekStart(b) + 6 < WeekStart(a)
  {
    var sa, sb := WeekStart(a), WeekStart(b);
    var p, q := (sa + EpochWeekday) / 7, (sb + EpochWeekday) / 7;
    assert sa + EpochWeekday == 7 * p;
    assert sb + EpochWeekday == 7 * q;
    assert p != q;
  }

  /** The start_date column is UNIQUE. */
  predicate UniqueStarts(weeks: seq<Week>)
  {
    forall i, j :: 0 <= i < j < |weeks| ==> weeks[i].start != weeks[j].start
  }

  /** The id column is the INTEGER PRIMARY KEY. */
  predicate UniqueIds(weeks: seq<Week>)
  {
    forall i, j :: 0 <= i < j < |weeks| ==> weeks[i].id != weeks[j].id
  }

  /** A row as seed.py writes it: a Monday start, and an end six days later. */
  predicate Canonical(w: Week)
  {
    Weekday(w.start) == 0 && w.end == w.start + 6
  }

  /** The largest id in a non-empty table. */
  function MaxId(weeks: seq<Week>): (m: int)
    requires |weeks| > 0
    ensures forall w :: w in weeks ==> w.id <= m
    ensures exists w :: w in weeks && w.id == m
  {
    if |weeks| == 1 then weeks[0].id
    else
      var rest := MaxId(weeks[1..]);
      assert forall w :: w in weeks[1..] ==> w in weeks;
      assert forall w :: w in weeks ==> w == weeks[0] || w in weeks[1..];
      if weeks[0].id >= rest then weeks[0].id else rest
  }

  /** SQLite's next rowid: one more than the largest, or 1 in an empty table. */
  function NextId(weeks: seq<Week>): (id: int)
    ensures forall w :: w in weeks ==> w.id < id
  {
    if |weeks| == 0 then 1 else MaxId(weeks) + 1
  }

  /** The row whose start is `s`, if any. */
  predicate HasStart(weeks: seq<Week>, s: int)
  {
    exists i :: 0 <= i < |weeks| && weeks[i].start == s
  }

  /** One run of seed.py on day `today`. */
  function EnsureWeek(weeks: seq<Week>, today: int): (r: seq<Week>)
    ensures HasStart(r, WeekStart(today))
    ensures HasStart(weeks, WeekStart(today)) ==> r == weeks
    ensures !HasStart(weeks, WeekStart(today)) ==>
      r == weeks + [Week(NextId(weeks), WeekStart(today), WeekStart(today) + 6, None)]
    ensures UniqueStarts(weeks) ==> UniqueStarts(r)
    ensures UniqueIds(weeks) ==> UniqueIds(r)
  {
    var s := WeekStart(today);
    if HasStart(weeks, s) then weeks
    else
      var r := weeks + [Week(NextId(weeks), s, s + 6, None)];
      assert r[|weeks|].start == s;
      assert forall i :: 0 <= i < |weeks| ==> weeks[i] in weeks;
      r
  }

  /** Running seed.py again on any day of the same window changes nothing. */
  lemma EnsureWeekIdempotent(weeks: seq<Week>, today: int, later: int)
    requires WeekStart(today) <= later <= WeekStart(today) + 6
    ensures EnsureWeek(EnsureWeek(weeks, today), later) == EnsureWeek(weeks, today)
  {
    SameWindowSameStart(today, later);
  }

  /** seed.py run once on each of `days`, in order. */
  function SeedRuns(weeks: seq<Week>, days: seq<int>): seq<Week>
    decreases |days|
  {
    if |days| == 0 then weeks else SeedRuns(EnsureWeek(weeks, days[0]), days[1..])
  }

  /**
    Any number of runs: the rows present before are untouched, one row per
    start_date and per id remains, every run's window has a row, and every
    row added starts on a Monday and ends six days later.
   */
  lemma SeedRunsEffect(weeks: seq<Week>, days: seq<int>)
    requires UniqueStarts(weeks) && UniqueIds(weeks)
    ensures var r := SeedRuns(weeks, days);
      && |weeks| <= |r| && r[..|weeks|] == weeks
      && UniqueStarts(r) && UniqueIds(r)
      && (forall d :: d in days ==> HasStart(r, WeekStart(d)))
      && (forall i :: |weeks| <= i < |r| ==> Canonical(r[i]))
  {
    SeedRunsPrefix(weeks, days);
    SeedRunsUnique(weeks, days);
    SeedRunsCover(weeks, days);
    SeedRunsCanonical(weeks, days);
  }

  /** Runs only append: the rows present before stay a prefix. */
  lemma {:induction false} SeedRunsPrefix(weeks: seq<Week>, days: seq<int>)
    ensures var r := SeedRuns(weeks, days);
      |weeks| <= |r| && r[..|weeks|] == weeks
    decreases |days|
  {
    if |days| > 0 {
      var mid := EnsureWeek(weeks, days[0]);
      SeedRunsPrefix(mid, days[1..]);
      var r := SeedRuns(mid, days[1..]);
      assert r == SeedRuns(weeks, days);
      assert |weeks| <= |mid| && mid[..|weeks|] == weeks;
      assert r[..|weeks|] == r[..|mid|][..|weeks|];
    }
  }

  /** Runs keep start_date and id unique. */
  lemma {:induction false} SeedRunsUnique(weeks: seq<Week>, days: seq<int>)
    requires UniqueStarts(weeks) && UniqueIds(weeks)
    ensures UniqueStarts(SeedRuns(weeks, days)) && UniqueIds(SeedRuns(weeks, days))
    decreases |days|
  {
    if |days| > 0 {
      SeedRunsUnique(EnsureWeek(weeks, days[0]), days[1..]);
    }
  }

  /** Every run's window has a row afterwards. */
  lemma {:induction false} SeedRunsCover(weeks: seq<Week>, days: seq<int>)
    ensures forall d :: d in days ==> HasStart(SeedRuns(weeks, days), WeekStart(d))
    decreases |days|
  {
    if |days| > 0 {
      var mid := EnsureWeek(weeks, days[0]);
      SeedRunsCover(mid, days[1..]);
      SeedRunsPrefix(mid, days[1..]);
      var r := SeedRuns(mid, days[1..]);
      assert r == SeedRuns(weeks, days);
      HasStartKept(mid, r, WeekStart(days[0]));
      forall d | d in days
        ensures HasStart(r, WeekStart(d))
      {
        if d != days[0] {
          assert d in days[1..];
        }
      }
    }
  }

  /** Every row a run adds starts on a Monday and ends on the Sunday after. */
  lemma {:induction false} SeedRunsCanonical(weeks: seq<Week>, days: seq<int>)
    ensures var r := SeedRuns(weeks, days);
      forall i :: |weeks| <= i < |r| ==> Canonical(r[i])
    decreases |days|
  {
    if |days| > 0 {
      var mid := EnsureWeek(weeks, days[0]);
      SeedRunsCanonical(mid, days[1..]);
      SeedRunsPrefix(mid, days[1..]);
      var r := SeedRuns(mid, days[1..]);
      assert r == SeedRuns(weeks, days);
      forall i | |weeks| <= i < |r|
        ensures Canonical(r[i])
      {
        if i < |mid| {
          assert r[i] == r[..|mid|][i] == mid[i];
        }
      }
    }
  }

  /** A row present in a prefix of a table is present in the table. */
  lemma HasStartKept(a: seq<Week>, b: seq<Week>, s: int)
    requires |a| <= |b| && b[..|a|] == a
    requires HasStart(a, s)
    ensures HasStart(b, s)
  {
    var i :| 0 <= i < |a| && a[i].start == s;
    assert b[i] == b[..|a|][i];
  }
}
