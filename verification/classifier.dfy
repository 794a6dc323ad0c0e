/**
  The classification chain of `process` (app/ingest.py): an inbox file is
  routed by its inbox-relative path `rel`, its file name and its suffix (the
  last extension, dot included, as pathlib reports it) through an ordered
  list of rules; the first rule that applies decides the artifact kind and
  whether the file is first moved into the media store. A file no rule claims
  is skipped.

  Folder markers are matched by plain substring containment on `rel`, which is
  relative to the inbox and so has no leading slash.
 */
module Classifier {
  import opened Wrappers
  import opened Schema
  import opened Text

  /** The decision for a claimed file: its artifact kind, and whether it is relocated. */
  datatype Route = Route(kind: Kind, relocate: bool)

  const RecordingsDir := "/build/recordings/"
  const NotesDir := "/build/notes/"
  const ConversationsDir := "/build/conversations/"
  const ReposDir := "/build/repos/"
  const BooksDir := "/study/books/"
  const StudyNotesDir := "/study/notes/"
  const ChallengesDir := "/study/challenges/"

  const TextSuffixes: set<string> := {".md", ".txt"}
  const BookSuffixes: set<string> := {".pdf", ".epub", ".mobi"}
  const StudyNoteSuffixes: set<string> := {".md", ".txt", ".csv"}

  /** The if/elif chain of `process`, in its order. */
  function Classify(rel: string, name: string, suffix: string): (r: Option<Route>)
    ensures r.Some? ==> (r.value.relocate <==> r.value.kind == Recording || r.value.kind == Book)
    ensures r.Some? ==> r.value.kind != Task && r.value.kind != Metric
    ensures r.Some? && r.value.kind == Recording ==> suffix == ".mp4"
    ensures r.Some? && (r.value.kind == Note || r.value.kind == Conversation) ==> suffix in TextSuffixes
    ensures r.Some? && r.value.kind == Repo ==> suffix == ".txt"
    ensures r.Some? && r.value.kind == Book ==> Lower(suffix) in BookSuffixes
    ensures r.Some? && r.value.kind == StudyNote ==> suffix in StudyNoteSuffixes
    ensures r.Some? && r.value.kind == Challenge ==> name == "codewars.json" || name == "overthewire.md"
  {
    if Contains(rel, RecordingsDir) && suffix == ".mp4" then Some(Route(Recording, true))
    else if Contains(rel, NotesDir) && suffix in TextSuffixes then Some(Route(Note, false))
    else if Contains(rel, ConversationsDir) && suffix in TextSuffixes then Some(Route(Conversation, false))
    else if Contains(rel, ReposDir) && suffix == ".txt" then Some(Route(Repo, false))
    else if Contains(rel, BooksDir) && Lower(suffix) in BookSuffixes then Some(Route(Book, true))
    else if Contains(rel, StudyNotesDir) && suffix in StudyNoteSuffixes then Some(Route(StudyNote, false))
    else if Contains(rel, ChallengesDir) && name == "codewars.json" then Some(Route(Challenge, false))
    else if Contains(rel, ChallengesDir) && name == "overthewire.md" then Some(Route(Challenge, false))
    else None
  }

  // ---------------------------------------------------------------------------
  // The same chain as data: a rule table read by a generic first-match search.

  /** The file-name half of a rule. */
  datatype NameTest =
    | SuffixIn(suffixes: set<string>)
    | LowerSuffixIn(lowered: set<string>)
    | NameIs(fileName: string)

  /** A folder marker, a file-name test, and the route taken when both hold. */
  datatype Rule = Rule(marker: string, test: NameTest, route: Route)

  /** The rule table of the inbox, highest priority first. */
  function Rules(): seq<Rule>
  {
    [ Rule(RecordingsDir, SuffixIn({".mp4"}), Route(Recording, true)),
      Rule(NotesDir, SuffixIn(TextSuffixes), Route(Note, false)),
      Rule(ConversationsDir, SuffixIn(TextSuffixes), Route(Conversation, false)),
      Rule(ReposDir, SuffixIn({".txt"}), Route(Repo, false)),
      Rule(BooksDir, LowerSuffixIn(BookSuffixes), Route(Book, true)),
      Rule(StudyNotesDir, SuffixIn(StudyNoteSuffixes), Route(StudyNote, false)),
      Rule(ChallengesDir, NameIs("codewars.json"), Route(Challenge, false)),
      Rule(ChallengesDir, NameIs("overthewire.md"), Route(Challenge, false)) ]
  }

  predicate Applies(rule: Rule, rel: string, name: string, suffix: string)
  {
    && Contains(rel, rule.marker)
    && match rule.test
       case SuffixIn(suffixes) => suffix in suffixes
       case LowerSuffixIn(lowered) => Lower(suffix) in lowered
       case NameIs(fileName) => name == fileName
  }

  /** The route of the first rule that applies, or None when none does. */
  function FirstMatch(rules: seq<Rule>, rel: string, name: string, suffix: string): (r: Option<Route>)
    ensures r.None? <==> forall i :: 0 <= i < |rules| ==> !Applies(rules[i], rel, name, suffix)
    ensures forall i ::
      && 0 <= i < |rules|
      && Applies(rules[i], rel, name, suffix)
      && (forall j :: 0 <= j < i ==> !Applies(rules[j], rel, name, suffix))
      ==> r == Some(rules[i].route)
  {
    if |rules| == 0 then None
    else if Applies(rules[0], rel, name, suffix) then Some(rules[0].route)
    else
      var r := FirstMatch(rules[1..], rel, name, suffix);
      assert forall i :: 1 <= i < |rules| ==> rules[i] == rules[1..][i - 1];
      r
  }

  /** The if/elif chain is exactly first-match over the rule table. */
  lemma ClassifyIsFirstMatch(rel: string, name: string, suffix: string)
    ensures Classify(rel, name, suffix) == FirstMatch(Rules(), rel, name, suffix)
  {
    var rs := Rules();
    assert Applies(rs[0], rel, name, suffix) <==> Contains(rel, RecordingsDir) && suffix == ".mp4";
    if !Applies(rs[0], rel, name, suffix) {
      assert FirstMatch(rs[0..], rel, name, suffix) == FirstMatch(rs[1..], rel, name, suffix) by {
        assert rs[0..][1..] == rs[1..];
      }
      assert Applies(rs[1], rel, name, suffix) <==> Contains(rel, NotesDir) && suffix in TextSuffixes;
      if !Applies(rs[1], rel, name, suffix) {
        assert FirstMatch(rs[1..], rel, name, suffix) == FirstMatch(rs[2..], rel, name, suffix) by {
          assert rs[1..][1..] == rs[2..];
        }
        assert Applies(rs[2], rel, name, suffix) <==> Contains(rel, ConversationsDir) && suffix in TextSuffixes;
        if !Applies(rs[2], rel, name, suffix) {
          assert FirstMatch(rs[2..], rel, name, suffix) == FirstMatch(rs[3..], rel, name, suffix) by {
            assert rs[2..][1..] == rs[3..];
          }
          assert Applies(rs[3], rel, name, suffix) <==> Contains(rel, ReposDir) && suffix == ".txt";
          if !Applies(rs[3], rel, name, suffix) {
            assert FirstMatch(rs[3..], rel, name, suffix) == FirstMatch(rs[4..], rel, name, suffix) by {
              assert rs[3..][1..] == rs[4..];
            }
            ClassifyIsFirstMatchFromBooks(rel, name, suffix);
          }
        }
      }
    }
  }

  /** Past the four build rules, the chain and the table's last four rules agree. */
  lemma ClassifyIsFirstMatchFromBooks(rel: string, name: string, suffix: string)
    requires !(Contains(rel, RecordingsDir) && suffix == ".mp4")
    requires !(Contains(rel, NotesDir) && suffix in TextSuffixes)
    requires !(Contains(rel, ConversationsDir) && suffix in TextSuffixes)
    requires !(Contains(rel, ReposDir) && suffix == ".txt")
    ensures Classify(rel, name, suffix) == FirstMatch(Rules()[4..], rel, name, suffix)
  {
    var rs := Rules();
    assert Applies(rs[4], rel, name, suffix) <==> Contains(rel, BooksDir) && Lower(suffix) in BookSuffixes;
    if !Applies(rs[4], rel, name, suffix) {
      assert FirstMatch(rs[4..], rel, name, suffix) == FirstMatch(rs[5..], rel, name, suffix) by {
        assert rs[4..][1..] == rs[5..];
      }
      assert Applies(rs[5], rel, name, suffix) <==> Contains(rel, StudyNotesDir) && suffix in StudyNoteSuffixes;
      if !Applies(rs[5], rel, name, suffix) {
        assert FirstMatch(rs[5..], rel, name, suffix) == FirstMatch(rs[6..], rel, name, suffix) by {
          assert rs[5..][1..] == rs[6..];
        }
        assert Applies(rs[6], rel, name, suffix) <==> Contains(rel, ChallengesDir) && name == "codewars.json";
        if !Applies(rs[6], rel, name, suffix) {
          assert FirstMatch(rs[6..], rel, name, suffix) == FirstMatch(rs[7..], rel, name, suffix) by {
            assert rs[6..][1..] == rs[7..];
          }
          assert Applies(rs[7], rel, name, suffix) <==> Contains(rel, ChallengesDir) && name == "overthewire.md";
          if !Applies(rs[7], rel, name, suffix) {
            assert FirstMatch(rs[7..], rel, name, suffix) == FirstMatch(rs[8..], rel, name, suffix) by {
              assert rs[7..][1..] == rs[8..];
            }
            assert rs[8..] == [];
          }
        }
      }
    }
  }

  // ---------------------------------------------------------------------------
  // Consequences of the substring semantics.

  /** `rel` has at least three slashes. */
  predicate ThreeSlashes(rel: string)
  {
    exists i, j, k :: 0 <= i < j < k < |rel| && rel[i] == '/' && rel[j] == '/' && rel[k] == '/'
  }

  /** A marker of the form /x/y/ with |x| = 5 puts three slashes into any path containing it. */
  lemma MarkerSlashes(rel: string, marker: string)
    requires Contains(rel, marker)
    requires |marker| >= 8 && marker[0] == '/' && marker[6] == '/' && marker[|marker| - 1] == '/'
    ensures ThreeSlashes(rel)
  {
    var i :| 0 <= i <= |rel| - |marker| && OccursAt(rel, marker, i);
    assert rel[i..i + |marker|] == marker;
    assert rel[i] == marker[0];
    assert rel[i + 6] == marker[6];
    assert rel[i + |marker| - 1] == marker[|marker| - 1];
  }

  /**
    Every folder marker starts and ends with a slash and has one more inside,
    so a path must have three slashes to be claimed: with `rel` relative to the
    inbox, a file directly under inbox/build/notes/ is never a note.
   */
  lemma ClaimedPathHasThreeSlashes(rel: string, name: string, suffix: string)
    ensures Classify(rel, name, suffix).Some? ==> ThreeSlashes(rel)
  {
    if Contains(rel, RecordingsDir) { MarkerSlashes(rel, RecordingsDir); }
    if Contains(rel, NotesDir) { MarkerSlashes(rel, NotesDir); }
    if Contains(rel, ConversationsDir) { MarkerSlashes(rel, ConversationsDir); }
    if Contains(rel, ReposDir) { MarkerSlashes(rel, ReposDir); }
    if Contains(rel, BooksDir) { MarkerSlashes(rel, BooksDir); }
    if Contains(rel, StudyNotesDir) { MarkerSlashes(rel, StudyNotesDir); }
    if Contains(rel, ChallengesDir) { MarkerSlashes(rel, ChallengesDir); }
  }

  /**
    A file two folders below the inbox (`build/notes/x.md`, `study/books/b.pdf`)
    is skipped, whatever its name: the marker needs a slash before its first folder.
   */
  lemma TwoFoldersDeepIsSkipped(top: string, sub: string, file: string, name: string, suffix: string)
    requires '/' !in top && '/' !in sub && '/' !in file
    ensures Classify(top + "/" + sub + "/" + file, name, suffix) == None
  {
    var rel := top + "/" + sub + "/" + file;
    var p1, p2 := |top|, |top| + 1 + |sub|;
    forall i | 0 <= i < |rel| && i != p1 && i != p2
      ensures rel[i] != '/'
    {
      if i < p1 {
        assert rel[i] == top[i];
      } else if p1 < i < p2 {
        assert rel[i] == sub[i - p1 - 1];
      } else {
        assert rel[i] == file[i - p2 - 1];
      }
    }
    assert !ThreeSlashes(rel);
    ClaimedPathHasThreeSlashes(rel, name, suffix);
  }

  /**
    A .md or .txt file anywhere below a build/notes folder is a note, even when
    the path also carries a later rule's marker (say /study/notes/): the note
    rule comes second and only the .mp4 rule precedes it.
   */
  lemma NoteRuleWins(rel: string, name: string, suffix: string)
    requires Contains(rel, NotesDir) && suffix in TextSuffixes
    ensures Classify(rel, name, suffix) == Some(Route(Note, false))
  {
  }

  /** `u/build/notes/x.md`: one folder above build/notes is enough. */
  lemma NestedNoteIsNote(parent: string, file: string, name: string)
    ensures Classify(parent + NotesDir + file, name, ".md") == Some(Route(Note, false))
  {
    var rel := parent + NotesDir + file;
    assert rel[|parent|..|parent| + |NotesDir|] == NotesDir;
    assert OccursAt(rel, NotesDir, |parent|);
    NoteRuleWins(rel, name, ".md");
  }

  /**
    Only the book rule lower-cases the suffix: a .PDF, .Epub or .MOBI under a
    study/books folder is a book, since no earlier rule accepts any spelling
    that lower-cases to a book suffix.
   */
  lemma BookSuffixIgnoresCase(rel: string, name: string, suffix: string)
    requires Contains(rel, BooksDir) && Lower(suffix) in BookSuffixes
    ensures Classify(rel, name, suffix) == Some(Route(Book, true))
  {
    var low := Lower(suffix);
    assert low == ".pdf" || low == ".epub" || low == ".mobi";
    if |suffix| == 4 {
      assert low[1] == 'p';
      assert suffix[1] == 'p' || suffix[1] == 'P';
    }
    if |suffix| == 3 {
      assert false;
    }
  }
}
