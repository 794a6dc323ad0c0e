/**
  The ingest_status ledger and `mark`, its upsert (app/ingest.py). The table
  is a sequence of records in insertion order; the UNIQUE constraint on
  rel_path is the invariant `UniquePaths`, which every upsert preserves, so the
  ledger behaves as a map from path to record (`Find`).
 */
module Ledger {
  import opened Wrappers
  import opened Schema

  /** At most one record per path. */
  predicate UniquePaths(l: seq<StatusRec>)
  {
    forall i, j :: 0 <= i < j < |l| ==> l[i].relPath != l[j].relPath
  }

  /** The position of the first record for `rel`, if any. */
  function IndexOf(l: seq<StatusRec>, rel: string): (r: Option<nat>)
    ensures r.Some? ==> r.value < |l| && l[r.value].relPath == rel
    ensures r.Some? ==> forall j :: 0 <= j < r.value ==> l[j].relPath != rel
    ensures r.None? <==> forall i :: 0 <= i < |l| ==> l[i].relPath != rel
  {
    if |l| == 0 then None
    else if l[0].relPath == rel then Some(0)
    else
      match IndexOf(l[1..], rel)
      case None => None
      case Some(i) => Some(i + 1)
  }

  /** The record for `rel`, as `SELECT * FROM ingest_status WHERE rel_path = ?` reads it. */
  function Find(l: seq<StatusRec>, rel: string): (r: Option<StatusRec>)
    ensures r.Some? ==> r.value in l && r.value.relPath == rel
    ensures r.None? <==> forall x :: x in l ==> x.relPath != rel
  {
    match IndexOf(l, rel)
    case None => None
    case Some(i) => Some(l[i])
  }

  /** The record the first `mark` of a path inserts, whatever outcome it was given. */
  function FreshRecord(rel: string, now: int): StatusRec
  {
    StatusRec(rel, now, None, Pending, None)
  }

  /** What a later `mark` makes of the existing record `prev`. */
  function Touched(prev: StatusRec, outcome: Status, msg: string, now: int): StatusRec
  {
    prev.(lastIngested := Some(now), status := outcome, message := Some(msg))
  }

  /**
    `mark(c, rel, status, msg)`: INSERT a pending record with first_seen = now;
    on a conflict on rel_path instead set last_ingested, status and message.
   */
  function Mark(l: seq<StatusRec>, rel: string, outcome: Status, msg: string, now: int): (r: seq<StatusRec>)
    ensures Find(r, rel).Some?
    ensures Find(l, rel).None? ==> |r| == |l| + 1 && r[..|l|] == l
    ensures Find(l, rel).Some? ==> |r| == |l|
    ensures forall i :: 0 <= i < |l| && l[i].relPath != rel ==> r[i] == l[i]
    ensures forall i :: 0 <= i < |l| ==> r[i].relPath == l[i].relPath
  {
    match IndexOf(l, rel)
    case None =>
      var r := l + [FreshRecord(rel, now)];
      assert r[|l|] in r;
      r
    case Some(i) =>
      var r := l[i := Touched(l[i], outcome, msg, now)];
      assert r[i] in r;
      r
  }

  /** Marking keeps one record per path. */
  lemma MarkKeepsUniquePaths(l: seq<StatusRec>, rel: string, outcome: Status, msg: string, now: int)
    ensures UniquePaths(l) ==> UniquePaths(Mark(l, rel, outcome, msg, now))
  {
    var r := Mark(l, rel, outcome, msg, now);
    if UniquePaths(l) && IndexOf(l, rel).None? {
      assert r == l + [FreshRecord(rel, now)];
    }
  }

  /**
    Reading back the marked path: a path seen for the first time gets a
    pending record with first_seen = now and no last_ingested or message; a
    known path keeps first_seen and takes the new time, outcome and message.
   */
  lemma MarkFindSame(l: seq<StatusRec>, rel: string, outcome: Status, msg: string, now: int)
    ensures Find(Mark(l, rel, outcome, msg, now), rel) ==
      match Find(l, rel)
      case None => Some(FreshRecord(rel, now))
      case Some(prev) => Some(Touched(prev, outcome, msg, now))
  {
    var r := Mark(l, rel, outcome, msg, now);
    match IndexOf(l, rel)
    case None =>
      assert IndexOf(r, rel) == Some(|l|);
    case Some(i) =>
      assert IndexOf(r, rel) == Some(i);
  }

  /** Marking one path leaves the record of every other path as it was. */
  lemma MarkFindOther(l: seq<StatusRec>, rel: string, outcome: Status, msg: string, now: int, other: string)
    requires other != rel
    ensures Find(Mark(l, rel, outcome, msg, now), other) == Find(l, other)
  {
    match IndexOf(l, rel)
    case None =>
      IndexOfSamePaths(l, l + [FreshRecord(rel, now)], other);
    case Some(i) =>
      IndexOfSamePaths(l, l[i := Touched(l[i], outcome, msg, now)], other);
  }

  /**
    A table that agrees with `l` on the path of every row of `l`, and whose
    other rows are not for `other`, has `other` at the same position.
   */
  lemma IndexOfSamePaths(l: seq<StatusRec>, r: seq<StatusRec>, other: string)
    requires |l| <= |r|
    requires forall i :: 0 <= i < |l| ==> r[i].relPath == l[i].relPath
    requires forall i :: |l| <= i < |r| ==> r[i].relPath != other
    ensures IndexOf(r, other) == IndexOf(l, other)
  {
    match IndexOf(l, other)
    case None =>
      assert IndexOf(r, other).None?;
    case Some(j) =>
      match IndexOf(r, other)
      case None =>
      case Some(k) =>
        assert k == j;
  }

  /** A path seen for the first time is appended as a fresh pending record. */
  lemma MarkNewPath(l: seq<StatusRec>, rel: string, outcome: Status, msg: string, now: int)
    requires Find(l, rel).None?
    ensures Mark(l, rel, outcome, msg, now) == l + [FreshRecord(rel, now)]
  {
    assert IndexOf(l, rel).None?;
  }
}
