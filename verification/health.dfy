/**
  The ingest health page (`health` in app/routers/health.py): the 100 most
  recently active ledger records, and the number of pending and failed paths
  across the whole ledger.
 */
module Health {
  import opened Wrappers
  import opened Schema
  import opened Seqs
  import opened Sorting
  import opened Ledger

  /**
    `COALESCE(last_ingested, first_seen)`: when the path was last handled,
    which is its first sighting until a later `mark` sets last_ingested.
   */
  function LastActivity(rec: StatusRec): (t: int)
    ensures rec.lastIngested.None? ==> t == rec.firstSeen
    ensures rec.lastIngested.Some? ==> t == rec.lastIngested.value
  {
    match rec.lastIngested
    case Some(t) => t
    case None => rec.firstSeen
  }

  /** `WHERE status = s`. */
  function HasStatus(s: Status): StatusRec -> bool
  {
    (rec: StatusRec) => rec.status == s
  }

  /** The rows shown at most. */
  const RowLimit := 100

  /** What the page shows. */
  datatype HealthView = HealthView(rows: seq<StatusRec>, pending: nat, errors: nat)

  /**
    `health`: the rows ordered by last activity, newest first, limited to 100;
    the two counts are queried only when some row came back and are 0
    otherwise. The guard never matters: the counts are those of the whole
    ledger, shown rows or not.
   */
  function HealthPage(l: seq<StatusRec>): (v: HealthView)
    ensures |v.rows| == if |l| < RowLimit then |l| else RowLimit
    ensures forall i :: 0 <= i < |v.rows| ==> v.rows[i] in l
    ensures multiset(v.rows) <= multiset(l)
    ensures SortedDesc(v.rows, LastActivity)
    ensures v.pending == Count(l, HasStatus(Pending))
    ensures v.errors == Count(l, HasStatus(Error))
  {
    var rows := TopK(l, LastActivity, RowLimit);
    if |rows| > 0 then
      HealthView(rows, Count(l, HasStatus(Pending)), Count(l, HasStatus(Error)))
    else
      HealthView(rows, 0, 0)
  }

  /** A record left off the page is no more recent than any record shown. */
  lemma HealthShowsMostRecent(l: seq<StatusRec>, rec: StatusRec, i: int)
    requires rec in l && rec !in HealthPage(l).rows
    requires 0 <= i < |HealthPage(l).rows|
    ensures LastActivity(rec) <= LastActivity(HealthPage(l).rows[i])
  {
    TopKCovers(l, LastActivity, RowLimit, rec);
  }

  /**
    A path `mark`ed later than every record's last activity is listed on the
    page, whether the mark inserted it or updated it.
   */
  lemma JustMarkedIsShown(l: seq<StatusRec>, rel: string, outcome: Status, msg: string, now: int)
    requires forall rec :: rec in l ==> LastActivity(rec) < now
    ensures var after := Mark(l, rel, outcome, msg, now);
      Find(after, rel).value in HealthPage(after).rows
  {
    var after := Mark(l, rel, outcome, msg, now);
    var marked := Find(after, rel).value;
    var rows := HealthPage(after).rows;
    MarkedIsOnlyLatest(l, rel, outcome, msg, now);
    TopKFirstIsMax(after, LastActivity, RowLimit, marked);
    TopKCovers(after, LastActivity, RowLimit, marked);
    assert rows[0] in after;
  }

  /** After such a mark the marked record is the one record whose last activity is `now`. */
  lemma MarkedIsOnlyLatest(l: seq<StatusRec>, rel: string, outcome: Status, msg: string, now: int)
    requires forall rec :: rec in l ==> LastActivity(rec) < now
    ensures var after := Mark(l, rel, outcome, msg, now);
      && LastActivity(Find(after, rel).value) == now
      && forall rec :: rec in after && rec != Find(after, rel).value ==> LastActivity(rec) < now
  {
    var after := Mark(l, rel, outcome, msg, now);
    match IndexOf(l, rel)
    case None =>
      assert after == l + [FreshRecord(rel, now)];
      assert Find(after, rel).value == FreshRecord(rel, now) by {
        assert forall x :: x in l ==> x.relPath != rel;
      }
    case Some(i) =>
      assert after == l[i := Touched(l[i], outcome, msg, now)];
      assert Find(after, rel).value == after[i];
      forall rec | rec in after && rec != after[i]
        ensures LastActivity(rec) < now
      {
        var j :| 0 <= j < |after| && after[j] == rec;
        assert after[j] == l[j];
      }
  }

  /** Pending and failed paths together never outnumber the ledger. */
  lemma PendingAndErrorsWithinLedger(l: seq<StatusRec>)
    ensures HealthPage(l).pending + HealthPage(l).errors <= |l|
  {
    CountExclusive(l, HasStatus(Pending), HasStatus(Error));
  }

  /**
    The first `mark` of a path counts it as pending, whatever outcome the
    ingest reported, and leaves the error count as it was.
   */
  lemma FirstMarkCountsPending(l: seq<StatusRec>, rel: string, outcome: Status, msg: string, now: int)
    requires Find(l, rel).None?
    ensures var after := HealthPage(Mark(l, rel, outcome, msg, now));
      && after.pending == HealthPage(l).pending + 1
      && after.errors == HealthPage(l).errors
  {
    MarkNewPath(l, rel, outcome, msg, now);
    AppendedPendingCounts(l, FreshRecord(rel, now));
  }

  /** Appending a pending record adds one to the pending count and none to the error count. */
  lemma AppendedPendingCounts(l: seq<StatusRec>, rec: StatusRec)
    requires rec.status == Pending
    ensures Count(l + [rec], HasStatus(Pending)) == Count(l, HasStatus(Pending)) + 1
    ensures Count(l + [rec], HasStatus(Error)) == Count(l, HasStatus(Error))
  {
    CountConcat(l, [rec], HasStatus(Pending));
    CountConcat(l, [rec], HasStatus(Error));
    assert [rec][1..] == [];
  }
}
