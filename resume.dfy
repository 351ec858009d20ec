/**
 * Resuming a labelling session. As written, `load_stats` joins every saved
 * `fileID` to the image directory while `save_stats` records bare file
 * names, and the table written back keeps the joined form; a later resume
 * joins those entries a second time and no longer recognises them.
 * `RunFixed` keeps saved names bare and compares file names, and is proved
 * to record every image at most once over any number of sessions.
 */
module Resumption {
  import opened Wrappers
  import opened Collections
  import opened Paths
  import opened Capture
  import opened Discovery
  import opened Store
  import opened Runner

  /** The queue with the corrected resumption: the discovered paths whose file name the saved table lacks. */
  function FixedRunQueue(dir: string, listing: seq<string>, file: Option<seq<Row>>): (queue: seq<string>)
    ensures forall p :: p in queue <==>
      p in Discovered(dir, listing) && (file.Some? ==> Basename(p) !in Ids(file.value))
  {
    var paths := Discovered(dir, listing);
    if file.Some? then FixedResumeQueue(paths, file.value) else paths
  }

  /**
   * `run` on a fresh Selector with the corrected resumption: the saved rows
   * are kept as they are and only grow, by at most one row per image.
   */
  function RunFixed(dir: string, listing: seq<string>, file: Option<seq<Row>>, events: seq<Event>): (o: Outcome)
    ensures Discovered(dir, listing) == [] ==> o == Outcome([], false, Exit(1))
    ensures Discovered(dir, listing) != [] ==>
      var base := if file.Some? then file.value else [];
      && base <= o.ledger
      && |o.ledger| <= |base| + |Discovered(dir, listing)|
      && (o.saved <==> |base| < |o.ledger|)
  {
    var paths := Discovered(dir, listing);
    if paths == [] then Outcome([], false, Exit(1))
    else
      var base := if file.Some? then file.value else [];
      var s := Session(FixedRunQueue(dir, listing, file), events);
      Outcome(base + s.rows, s.rows != [], EndOf(s.end))
  }

  /** The discovered paths of a listing of plain, distinct names have distinct file names. */
  lemma DiscoveredNamesDistinct(dir: string, listing: seq<string>)
    requires Distinct(listing)
    requires forall n :: n in listing ==> '/' !in n
    ensures Distinct(Map(Basename, Discovered(dir, listing)))
  {
    var names := ImageNames(listing);
    assert Map((x: string) => x, listing) == listing;
    FilterKeepsDistinct((x: string) => x, IsImageName, listing);
    assert Map((x: string) => x, names) == names;
    var paths := Discovered(dir, listing);
    forall i | 0 <= i < |paths|
      ensures Map(Basename, paths)[i] == names[i]
    {
      assert names[i] in names;
      BasenameOfJoin(dir, names[i]);
    }
    assert Map(Basename, paths) == names;
  }

  /**
   * With the corrected resumption, a table that names every image at most
   * once still does so after the next run: the run never offers an image
   * the table already records, and records each image it handles once.
   */
  lemma FixedRunRecordsEachImageOnce(dir: string, listing: seq<string>, file: Option<seq<Row>>, events: seq<Event>)
    requires Distinct(listing)
    requires forall n :: n in listing ==> '/' !in n
    requires file.Some? ==> Distinct(Ids(file.value))
    ensures Distinct(Ids(RunFixed(dir, listing, file, events).ledger))
  {
    var paths := Discovered(dir, listing);
    if paths != [] {
      var base := if file.Some? then file.value else [];
      var queue := FixedRunQueue(dir, listing, file);
      var s := Session(queue, events);
      var added := Ids(s.rows);
      assert Distinct(Map(Basename, queue)) by {
        DiscoveredNamesDistinct(dir, listing);
        if file.Some? {
          FilterKeepsDistinct(Basename, NotRecorded(base), paths);
        }
      }
      assert Distinct(added) by {
        SessionRecordsQueuedNames(queue, events);
      }
      forall x | x in added
        ensures x !in Ids(base)
      {
        var j :| 0 <= j < |added| && added[j] == x;
        SessionRecordsInQueueOrder(queue, events);
        assert added[j] == Basename(queue[j]) && queue[j] in queue;
      }
      DistinctConcat(Ids(base), added);
      IdsAppend(base, s.rows);
      assert RunFixed(dir, listing, file, events).ledger == base + s.rows;
    }
  }

  /** The file names a session records are those of the front of its queue, in order. */
  lemma SessionRecordsQueuedNames(queue: seq<string>, events: seq<Event>)
    ensures var s := Session(queue, events);
      Ids(s.rows) == Map(Basename, queue)[..|s.rows|]
  {
    SessionRecordsInQueueOrder(queue, events);
  }

  /** The listing `a.jpg`, `b.jpg` holds just those two images. */
  lemma TwoImagesListing()
    ensures ImageNames(["a.jpg", "b.jpg"]) == ["a.jpg", "b.jpg"]
  {
    assert IsImageName("a.jpg") by {
      assert Lower("a.jpg")[2..] == "jpg";
    }
    assert IsImageName("b.jpg") by {
      assert Lower("b.jpg")[2..] == "jpg";
    }
    ImagesOfTwo("a.jpg", "b.jpg");
  }

  /** A listing whose images are `a.jpg` and `b.jpg` queues both, joined to the directory. */
  lemma TwoImagesQueued(dir: string, listing: seq<string>)
    requires ImageNames(listing) == ["a.jpg", "b.jpg"]
    ensures Discovered(dir, listing) == [Join(dir, "a.jpg"), Join(dir, "b.jpg")]
  {
  }

  /** A path joined to a relative directory is longer than the path itself, so joining twice changes it. */
  lemma JoinRelativeLengthens(dir: string, p: string)
    requires dir != [] && dir[0] != '/'
    requires p != [] && p[0] != '/'
    ensures |Join(dir, p)| > |p| && Join(dir, p)[0] != '/'
  {
  }

  /**
   * A lone key that ends the first image's capture: that image is recorded
   * with no points; after a quit the loop stops, after 'n' on the last
   * image it is done.
   */
  lemma LoneKeySession(queue: seq<string>, events: seq<Event>, stop: Stop)
    requires queue != [] && |events| == 1 && StopOf(events[0]) == Some(stop)
    requires stop == NextImage ==> |queue| == 1
    ensures Session(queue, events)
         == SessionResult([Record(queue[0], [])], if stop == NextImage then AllDone else UserQuit, 1)
  {
    assert Handle([], events) == Handled([], Some(stop), 1);
    assert events[1..] == [];
  }

  /** A run that finds a saved table: the resumed ledger followed by what the loop records. */
  lemma ResumedRun(dir: string, listing: seq<string>, rows: seq<Row>, events: seq<Event>)
    requires Discovered(dir, listing) != []
    ensures var base := Resumed(dir, rows);
      var s := Session(ResumeQueue(Discovered(dir, listing), Ids(base)), events);
      RunAsWritten(dir, listing, Some(rows), events) == Outcome(base + s.rows, s.rows != [], EndOf(s.end))
  {
  }

  lemma ResumeQueueOfTwo(p: string, q: string, labelled: seq<string>)
    ensures ResumeQueue([p, q], labelled)
         == (if p in labelled then [] else [p]) + (if q in labelled then [] else [q])
  {
    var s := [p, q];
    assert s[1..] == [q] && s[1..][1..] == [];
    assert NotIn(labelled)(p) == (p !in labelled);
    assert NotIn(labelled)(q) == (q !in labelled);
    assert Filter(NotIn(labelled), [q]) == (if q in labelled then [] else [q]);
  }

  /** In a relative directory, the joined paths of `a.jpg` and `b.jpg` differ, and joining `a.jpg`'s path again changes it. */
  lemma RelativePathsDiffer(dir: string)
    requires dir != [] && dir[0] != '/'
    ensures Join(dir, "a.jpg") != Join(dir, "b.jpg")
    ensures Join(dir, Join(dir, "a.jpg")) != Join(dir, "a.jpg")
    ensures Join(dir, Join(dir, "a.jpg")) != Join(dir, "b.jpg")
  {
    var a, b := Join(dir, "a.jpg"), Join(dir, "b.jpg");
    JoinRelativeLengthens(dir, "a.jpg");
    JoinRelativeLengthens(dir, a);
    if a == b {
      JoinInjective(dir, "a.jpg", "b.jpg");
    }
    assert |b| == |a|;
  }

  /** First session: a quit on `a.jpg` still records it, and the run exits with status 1. */
  lemma FirstSessionQuits(dir: string, listing: seq<string>, quit: seq<Event>)
    requires ImageNames(listing) == ["a.jpg", "b.jpg"]
    requires quit == [Key('q' as int)]
    ensures RunAsWritten(dir, listing, None, quit) == Outcome([Row("a.jpg", 0, [])], true, Exit(1))
  {
    var a, b := Join(dir, "a.jpg"), Join(dir, "b.jpg");
    assert Discovered(dir, listing) == [a, b] by {
      TwoImagesQueued(dir, listing);
    }
    assert Session([a, b], quit) == SessionResult([Row("a.jpg", 0, [])], UserQuit, 1) by {
      LoneKeySession([a, b], quit, QuitSession);
      RecordOfJoin(dir, "a.jpg", []);
    }
    FirstRun(dir, listing, quit);
  }

  /** A queue of one joined plain name and a single 'n': that name is recorded bare and the loop is done. */
  lemma LoneImageNext(dir: string, name: string, next: seq<Event>)
    requires '/' !in name
    requires next == [Key('n' as int)]
    ensures Session([Join(dir, name)], next) == SessionResult([Row(name, 0, [])], AllDone, 1)
  {
    LoneKeySession([Join(dir, name)], next, NextImage);
    RecordOfJoin(dir, name, []);
  }

  /** Second session: `a.jpg`'s row comes back with the directory joined to it, and `b.jpg` is recorded bare. */
  lemma SecondSessionMixesForms(dir: string, listing: seq<string>, next: seq<Event>)
    requires dir != [] && dir[0] != '/'
    requires ImageNames(listing) == ["a.jpg", "b.jpg"]
    requires next == [Key('n' as int)]
    ensures RunAsWritten(dir, listing, Some([Row("a.jpg", 0, [])]), next)
         == Outcome([Row(Join(dir, "a.jpg"), 0, []), Row("b.jpg", 0, [])], true, Finished)
  {
    var a, b := Join(dir, "a.jpg"), Join(dir, "b.jpg");
    var rows := [Row("a.jpg", 0, [])];
    var base := [Row(a, 0, [])];
    var queue := ResumeQueue(Discovered(dir, listing), Ids(Resumed(dir, rows)));
    assert Resumed(dir, rows) == base;
    assert queue == [b] by {
      TwoImagesQueued(dir, listing);
      assert Ids(base) == [a];
      RelativePathsDiffer(dir);
      ResumeQueueOfTwo(a, b, [a]);
    }
    LoneImageNext(dir, "b.jpg", next);
    assert RunAsWritten(dir, listing, Some(rows), next) == Outcome(base + Session(queue, next).rows, true, Finished) by {
      TwoImagesQueued(dir, listing);
      ResumedRun(dir, listing, rows, next);
    }
  }

  /** Third session: `a.jpg`'s row is joined a second time, so `a.jpg` is queued and recorded again. */
  lemma ThirdSessionRelabels(dir: string, listing: seq<string>, next: seq<Event>)
    requires dir != [] && dir[0] != '/'
    requires ImageNames(listing) == ["a.jpg", "b.jpg"]
    requires next == [Key('n' as int)]
    ensures RunAsWritten(dir, listing, Some([Row(Join(dir, "a.jpg"), 0, []), Row("b.jpg", 0, [])]), next)
         == Outcome([Row(Join(dir, Join(dir, "a.jpg")), 0, []), Row(Join(dir, "b.jpg"), 0, []), Row("a.jpg", 0, [])],
                    true, Finished)
  {
    var a, b := Join(dir, "a.jpg"), Join(dir, "b.jpg");
    var rows := [Row(a, 0, []), Row("b.jpg", 0, [])];
    var base := [Row(Join(dir, a), 0, []), Row(b, 0, [])];
    var queue := ResumeQueue(Discovered(dir, listing), Ids(Resumed(dir, rows)));
    assert Resumed(dir, rows) == base;
    assert queue == [a] by {
      TwoImagesQueued(dir, listing);
      assert Ids(base) == [Join(dir, a), b];
      RelativePathsDiffer(dir);
      ResumeQueueOfTwo(a, b, [Join(dir, a), b]);
    }
    LoneImageNext(dir, "a.jpg", next);
    assert RunAsWritten(dir, listing, Some(rows), next) == Outcome(base + Session(queue, next).rows, true, Finished) by {
      TwoImagesQueued(dir, listing);
      ResumedRun(dir, listing, rows, next);
    }
  }

  /**
   * The table written by the second session, resumed once more: `a.jpg`'s
   * row is joined a second time, so `a.jpg`'s path is queued again.
   */
  lemma JoinedTwiceIsRequeued(dir: string, listing: seq<string>, rows: seq<Row>)
    requires dir != [] && dir[0] != '/'
    requires ImageNames(listing) == ["a.jpg", "b.jpg"]
    requires rows == [Row(Join(dir, "a.jpg"), 0, []), Row("b.jpg", 0, [])]
    ensures Join(dir, "a.jpg") in ResumeQueue(Discovered(dir, listing), Ids(Resumed(dir, rows)))
  {
    var a, b := Join(dir, "a.jpg"), Join(dir, "b.jpg");
    TwoImagesQueued(dir, listing);
    RelativePathsDiffer(dir);
    assert Ids(Resumed(dir, rows)) == [Join(dir, a), b];
    ResumeQueueOfTwo(a, b, [Join(dir, a), b]);
  }

  /**
   * As written, a third session offers again an image the first one
   * recorded. In any relative directory holding `a.jpg` and `b.jpg`: the
   * first session quits on `a.jpg` (which is still recorded), the second
   * records `b.jpg` and writes `a.jpg`'s row back with the directory joined
   * to it, and the third joins that row once more, so `a.jpg` is queued and
   * its file name ends up in two rows.
   */
  lemma ThirdSessionOffersLabelledImageAgain(dir: string, listing: seq<string>, quit: seq<Event>, next: seq<Event>)
    requires dir != [] && dir[0] != '/'
    requires ImageNames(listing) == ["a.jpg", "b.jpg"]
    requires quit == [Key('q' as int)] && next == [Key('n' as int)]
    ensures var o1 := RunAsWritten(dir, listing, None, quit);
      var o2 := RunAsWritten(dir, listing, FileAfter(None, o1), next);
      var o3 := RunAsWritten(dir, listing, FileAfter(FileAfter(None, o1), o2), next);
      && |o3.ledger| == 3
      && o3.ledger[2].fileID == "a.jpg"
      && Basename(o3.ledger[0].fileID) == "a.jpg"
      && Join(dir, "a.jpg") in ResumeQueue(Discovered(dir, listing), Ids(Resumed(dir, o2.ledger)))
  {
    var a := Join(dir, "a.jpg");
    var rows1 := [Row("a.jpg", 0, [])];
    var rows2 := [Row(a, 0, []), Row("b.jpg", 0, [])];
    var o1 := RunAsWritten(dir, listing, None, quit);
    var o2 := RunAsWritten(dir, listing, Some(rows1), next);
    var o3 := RunAsWritten(dir, listing, Some(rows2), next);
    assert o1 == Outcome(rows1, true, Exit(1)) by {
      FirstSessionQuits(dir, listing, quit);
    }
    assert o2 == Outcome(rows2, true, Finished) by {
      SecondSessionMixesForms(dir, listing, next);
    }
    assert o3.ledger == [Row(Join(dir, a), 0, []), Row(Join(dir, "b.jpg"), 0, []), Row("a.jpg", 0, [])] by {
      ThirdSessionRelabels(dir, listing, next);
    }
    assert Basename(Join(dir, a)) == "a.jpg" by {
      BasenameOfJoinedPath(dir, a);
      BasenameOfJoin(dir, "a.jpg");
    }
    JoinedTwiceIsRequeued(dir, listing, rows2);
  }
}
