/**
  One ingestion pass, `process` of app/ingest.py, as a fold over the files the
  inbox walk yields. File-system and subprocess calls are inputs: each inbox
  file carries the outcome of moving it into the media store and the outcome
  of each extractor a rule may call on it (reading the text, loading the
  JSON, probing the duration). The clock reading of the moment the file is
  handled is an input too.
 */
module Ingest {
  import opened Wrappers
  import opened Schema
  import opened Ledger
  import opened Classifier
  import Seqs

  /** The inbox and media roots (LEVELS_INBOX and LEVELS_MEDIA). */
  datatype Config = Config(inbox: string, media: string)

  /** A file-system step that may raise: `p.replace(dest)`. */
  datatype Step = Done | Raised(message: string)

  /**
    One regular file of the walk: its inbox-relative path, name, stem and
    suffix, and the clock when it is handled. Each call the rules can make on
    it is an input, as its result or the message of the exception it raises:
    moving it into the media store (`p.replace(dest)`), reading its text (the
    `read_text` call of its rule, stripped for repos), loading it as JSON
    (`json.loads(p.read_text())`), and probing its duration
    (`probe_duration_mp4`). A rule uses only the calls it makes.
   */
  datatype InboxFile = InboxFile(
    rel: string,
    name: string,
    stem: string,
    suffix: string,
    move: Step,
    readText: Result<string>,
    loadJson: Result<JsonDoc>,
    probe: Result<real>,
    clock: int)

  /** The artifact and ingest_status tables, and the inbox paths moved out so far. */
  datatype State = State(artifacts: seq<Artifact>, ledger: seq<StatusRec>, movedOut: set<string>)

  /** MEDIA/"recordings"/name or MEDIA/"books"/name. */
  function Destination(cfg: Config, kind: Kind, name: string): string
  {
    cfg.media + (if kind == Recording then "/recordings/" else "/books/") + name
  }

  /** `str(p)` for a file left in the inbox. */
  function InboxPath(cfg: Config, rel: string): string
  {
    cfg.inbox + "/" + rel
  }

  /** The `{"duration": seconds}` meta of a recording. */
  function DurationMeta(seconds: real): JsonDoc
  {
    JObject(map["duration" := JNumber(seconds)])
  }

  /** The codewars rule, the one rule that parses the file as JSON. */
  predicate IsCodewars(route: Route, f: InboxFile)
  {
    route.kind == Challenge && f.name == "codewars.json"
  }

  /** The rules that store the file's text: notes, conversations, repos, study notes and overthewire. */
  predicate ReadsText(route: Route, f: InboxFile)
  {
    route.kind != Recording && route.kind != Book && !IsCodewars(route, f)
  }

  /** The row the INSERT writes: no week, no points, no task status. */
  function Row(kind: Kind, f: InboxFile, path: string, text: Option<string>, meta: JsonDoc): Artifact
  {
    Artifact(kind, f.stem, path, text, MetaJson(meta), None, None, None, f.clock)
  }

  /**
    The body of the `try` for a claimed file: the artifact to insert, or the
    message of the exception raised first. Recordings and books are moved
    before anything else; a recording is probed only after its move. A
    recording stores its duration and no text, a book neither, a codewars
    file its JSON document and no text, and every other rule the file's text
    with an empty meta object.
   */
  function Attempt(cfg: Config, route: Route, f: InboxFile): (r: Result<Artifact>)
    ensures r.Success? ==>
      && r.value.kind == route.kind
      && r.value.title == f.stem
      && r.value.weekId.None? && r.value.points.None? && r.value.status.None?
      && r.value.createdAt == f.clock
    ensures r.Success? ==>
      r.value.path == if route.relocate then Destination(cfg, route.kind, f.name) else InboxPath(cfg, f.rel)
    ensures route.relocate && f.move.Raised? ==> r == Failure(f.move.message)
    ensures route.kind == Book && (!route.relocate || f.move.Done?) ==>
      r.Success? && r.value.text.None? && r.value.meta == MetaJson(EmptyObject)
    ensures route.kind == Recording && (!route.relocate || f.move.Done?) ==>
      match f.probe
      case Failure(e) => r == Failure(e)
      case Success(x) => r.Success? && r.value.text.None? && r.value.meta == MetaJson(DurationMeta(x))
    ensures IsCodewars(route, f) && (!route.relocate || f.move.Done?) ==>
      match f.loadJson
      case Failure(e) => r == Failure(e)
      case Success(doc) => r.Success? && r.value.text.None? && r.value.meta == MetaJson(doc)
    ensures ReadsText(route, f) && (!route.relocate || f.move.Done?) ==>
      match f.readText
      case Failure(e) => r == Failure(e)
      case Success(t) => r.Success? && r.value.text == Some(t) && r.value.meta == MetaJson(EmptyObject)
  {
    if route.relocate && f.move.Raised? then Failure(f.move.message)
    else
      var path := if route.relocate then Destination(cfg, route.kind, f.name) else InboxPath(cfg, f.rel);
      if route.kind == Book then Success(Row(Book, f, path, None, EmptyObject))
      else if route.kind == Recording then
        match f.probe
        case Failure(e) => Failure(e)
        case Success(x) => Success(Row(Recording, f, path, None, DurationMeta(x)))
      else if IsCodewars(route, f) then
        match f.loadJson
        case Failure(e) => Failure(e)
        case Success(doc) => Success(Row(Challenge, f, path, None, doc))
      else
        match f.readText
        case Failure(e) => Failure(e)
        case Success(t) => Success(Row(route.kind, f, path, Some(t), EmptyObject))
  }

  /** One iteration of the walk: classify, try, insert, mark; exceptions are caught per file. */
  function ProcessFile(cfg: Config, st: State, f: InboxFile): (r: State)
    ensures Classify(f.rel, f.name, f.suffix).None? ==> r == st
    ensures UniquePaths(st.ledger) ==> UniquePaths(r.ledger)
    ensures |st.artifacts| <= |r.artifacts| <= |st.artifacts| + 1
    ensures r.artifacts[..|st.artifacts|] == st.artifacts
    ensures forall other :: other != f.rel ==> Find(r.ledger, other) == Find(st.ledger, other)
    ensures st.movedOut <= r.movedOut <= st.movedOut + {f.rel}
  {
    match Classify(f.rel, f.name, f.suffix)
    case None => st
    case Some(route) =>
      var moved := if route.relocate && f.move.Done? then st.movedOut + {f.rel} else st.movedOut;
      var (artifacts, outcome, msg) :=
        match Attempt(cfg, route, f)
        case Success(a) => (st.artifacts + [a], Ok, "")
        case Failure(e) => (st.artifacts, Error, e);
      var ledger := Mark(st.ledger, f.rel, outcome, msg, f.clock);
      MarkKeepsUniquePaths(st.ledger, f.rel, outcome, msg, f.clock);
      assert forall other :: other != f.rel ==> Find(ledger, other) == Find(st.ledger, other) by {
        forall other | other != f.rel
          ensures Find(ledger, other) == Find(st.ledger, other)
        {
          MarkFindOther(st.ledger, f.rel, outcome, msg, f.clock, other);
        }
      }
      State(artifacts, ledger, moved)
  }

  /** `for p in INBOX.rglob("*")`: the files in walk order. */
  function ProcessAll(cfg: Config, st: State, files: seq<InboxFile>): (r: State)
    ensures UniquePaths(st.ledger) ==> UniquePaths(r.ledger)
    ensures |st.artifacts| <= |r.artifacts| <= |st.artifacts| + |files|
    ensures r.artifacts[..|st.artifacts|] == st.artifacts
    decreases |files|
  {
    if |files| == 0 then st
    else ProcessAll(cfg, ProcessFile(cfg, st, files[0]), files[1..])
  }

  /** The file yields an artifact: a rule claims it and its attempt succeeds. */
  predicate Ingested(cfg: Config, f: InboxFile)
  {
    match Classify(f.rel, f.name, f.suffix)
    case None => false
    case Some(route) => Attempt(cfg, route, f).Success?
  }

  /** An artifact ingestion can write: not a task or metric, and attributed to no week. */
  predicate FromInbox(a: Artifact)
  {
    a.kind != Task && a.kind != Metric && a.weekId.None?
  }

  /**
    The per-file promise: a skipped file changes nothing; a claimed file gets
    exactly one artifact if its attempt succeeds and none otherwise, and its
    ledger record reads ok (or error with the exception text) if the path was
    known, and pending with no message if it was not. Relocated kinds are out
    of the inbox once their move succeeded, even if the later probe failed.
   */
  lemma ProcessFileEffect(cfg: Config, st: State, f: InboxFile)
    ensures var r := ProcessFile(cfg, st, f);
      match Classify(f.rel, f.name, f.suffix)
      case None => r == st
      case Some(route) =>
        && (f.rel in r.movedOut <==> f.rel in st.movedOut || (route.relocate && f.move.Done?))
        && match Attempt(cfg, route, f)
           case Success(a) =>
             && r.artifacts == st.artifacts + [a]
             && a.kind == route.kind && a.title == f.stem && FromInbox(a)
             && Find(r.ledger, f.rel) == Some(
                  match Find(st.ledger, f.rel)
                  case None => FreshRecord(f.rel, f.clock)
                  case Some(prev) => Touched(prev, Ok, "", f.clock))
           case Failure(e) =>
             && r.artifacts == st.artifacts
             && Find(r.ledger, f.rel) == Some(
                  match Find(st.ledger, f.rel)
                  case None => FreshRecord(f.rel, f.clock)
                  case Some(prev) => Touched(prev, Error, e, f.clock))
  {
    match Classify(f.rel, f.name, f.suffix)
    case None =>
    case Some(route) =>
      match Attempt(cfg, route, f)
      case Success(a) => MarkFindSame(st.ledger, f.rel, Ok, "", f.clock);
      case Failure(e) => MarkFindSame(st.ledger, f.rel, Error, e, f.clock);
  }

  /**
    A whole pass appends one artifact per ingested file after the existing
    rows, each of an inbox kind and with no week; every
    claimed path has a ledger record afterwards, and every record is either
    old or belongs to a claimed file (skipped files leave no trace).
   */
  lemma {:induction false} ProcessAllEffect(cfg: Config, st: State, files: seq<InboxFile>)
    ensures var r := ProcessAll(cfg, st, files);
      && |r.artifacts| == |st.artifacts| + Seqs.Count(files, f => Ingested(cfg, f))
      && AppendsFromInbox(st.artifacts, r.artifacts)
      && (forall f :: f in files && Classify(f.rel, f.name, f.suffix).Some? ==> Find(r.ledger, f.rel).Some?)
      && (forall p :: Find(r.ledger, p).Some? ==>
            Find(st.ledger, p).Some? || exists f :: f in files && f.rel == p && Classify(f.rel, f.name, f.suffix).Some?)
    decreases |files|
  {
    AppendedRowsFromInbox(cfg, st, files);
    if |files| > 0 {
      var f := files[0];
      var mid := ProcessFile(cfg, st, f);
      ProcessFileEffect(cfg, st, f);
      ProcessAllEffect(cfg, mid, files[1..]);
      var r := ProcessAll(cfg, mid, files[1..]);
      assert r == ProcessAll(cfg, st, files);
      forall g | g in files && Classify(g.rel, g.name, g.suffix).Some?
        ensures Find(r.ledger, g.rel).Some?
      {
        if g != f {
          assert g in files[1..];
        } else {
          PathKeptByLaterFiles(cfg, mid, files[1..], f.rel);
        }
      }
      forall p | Find(r.ledger, p).Some?
        ensures Find(st.ledger, p).Some? || exists g :: g in files && g.rel == p && Classify(g.rel, g.name, g.suffix).Some?
      {
        if Find(mid.ledger, p).Some? && p != f.rel {
          assert Find(mid.ledger, p) == Find(st.ledger, p);
        } else if Find(mid.ledger, p).None? {
          var g :| g in files[1..] && g.rel == p && Classify(g.rel, g.name, g.suffix).Some?;
          assert g in files;
        } else {
          assert f in files;
        }
      }
    }
  }

  /** Every row `after` holds past the length of `before` is one ingestion can write. */
  predicate AppendsFromInbox(before: seq<Artifact>, after: seq<Artifact>)
  {
    |before| <= |after| && forall i :: |before| <= i < |after| ==> FromInbox(after[i])
  }

  /**
    Whatever the table held before, the rows a pass appends are all of an
    inbox kind and attributed to no week.
   */
  lemma {:induction false} AppendedRowsFromInbox(cfg: Config, st: State, files: seq<InboxFile>)
    ensures AppendsFromInbox(st.artifacts, ProcessAll(cfg, st, files).artifacts)
    decreases |files|
  {
    if |files| > 0 {
      var mid := ProcessFile(cfg, st, files[0]);
      AppendedRowFromInbox(cfg, st, files[0]);
      AppendedRowsFromInbox(cfg, mid, files[1..]);
      var r := ProcessAll(cfg, mid, files[1..]);
      assert r == ProcessAll(cfg, st, files);
      AppendsChain(st.artifacts, mid.artifacts, r.artifacts);
    }
  }

  lemma AppendsChain(a: seq<Artifact>, b: seq<Artifact>, c: seq<Artifact>)
    requires AppendsFromInbox(a, b) && AppendsFromInbox(b, c)
    requires c[..|b|] == b
    ensures AppendsFromInbox(a, c)
  {
    forall i | |a| <= i < |c|
      ensures FromInbox(c[i])
    {
      if i < |b| {
        assert c[i] == c[..|b|][i];
      }
    }
  }

  /** The row one file may append is of an inbox kind and attributed to no week. */
  lemma AppendedRowFromInbox(cfg: Config, st: State, f: InboxFile)
    ensures AppendsFromInbox(st.artifacts, ProcessFile(cfg, st, f).artifacts)
  {
    match Classify(f.rel, f.name, f.suffix)
    case None =>
    case Some(route) =>
      match Attempt(cfg, route, f)
      case Success(a) => assert ProcessFile(cfg, st, f).artifacts == st.artifacts + [a];
      case Failure(_) =>
  }

  /** Once a path has a ledger record, later files never remove it. */
  lemma {:induction false} PathKeptByLaterFiles(cfg: Config, st: State, files: seq<InboxFile>, p: string)
    requires Find(st.ledger, p).Some?
    ensures Find(ProcessAll(cfg, st, files).ledger, p).Some?
    decreases |files|
  {
    if |files| > 0 {
      var f := files[0];
      var mid := ProcessFile(cfg, st, f);
      ProcessFileEffect(cfg, st, f);
      PathKeptByLaterFiles(cfg, mid, files[1..], p);
    }
  }

  /**
    The first `mark` of a path always inserts "pending": a recording whose move
    succeeds but whose probe raises on its first sighting ends up moved out of
    the inbox, with no artifact, and with a pending record that has no message
    and no last_ingested — the error is recorded nowhere, and since the file
    has left the inbox no later pass will revisit it.
   */
  lemma FailedFirstProbeLooksPending(cfg: Config, st: State, f: InboxFile)
    requires Classify(f.rel, f.name, f.suffix) == Some(Route(Recording, true))
    requires f.move.Done? && f.probe.Failure?
    requires Find(st.ledger, f.rel).None?
    ensures var r := ProcessFile(cfg, st, f);
      && f.rel in r.movedOut
      && r.artifacts == st.artifacts
      && Find(r.ledger, f.rel) == Some(StatusRec(f.rel, f.clock, None, Pending, None))
  {
    ProcessFileEffect(cfg, st, f);
  }

  /**
    Files that stay in the inbox are not guarded against re-ingestion: the
    same note seen again by a later pass yields a second artifact row that
    differs from the first only in its created_at, while its ledger record is
    updated in place to "ok".
   */
  lemma NoteIngestedTwice(cfg: Config, st: State, f: InboxFile, later: int)
    requires Classify(f.rel, f.name, f.suffix) == Some(Route(Note, false))
    requires f.readText.Success?
    ensures var once := ProcessFile(cfg, st, f);
      var twice := ProcessFile(cfg, once, f.(clock := later));
      var n := |st.artifacts|;
      && |twice.artifacts| == n + 2
      && twice.artifacts[n].createdAt == f.clock
      && twice.artifacts[n + 1] == twice.artifacts[n].(createdAt := later)
      && Find(twice.ledger, f.rel).Some?
      && Find(twice.ledger, f.rel).value.status == Ok
  {
    var g := f.(clock := later);
    var once := ProcessFile(cfg, st, f);
    ProcessFileEffect(cfg, st, f);
    ProcessFileEffect(cfg, once, g);
    var a := Attempt(cfg, Route(Note, false), f);
    var b := Attempt(cfg, Route(Note, false), g);
    assert a.Success? && b.Success? && b.value == a.value.(createdAt := later);
    assert once.artifacts == st.artifacts + [a.value];
    assert ProcessFile(cfg, once, g).artifacts == once.artifacts + [b.value];
  }
}
