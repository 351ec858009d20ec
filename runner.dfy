/**
 * The driving loop (`Selector.run`) as a function of its inputs: the
 * directory listing, the saved table (if there is one) and the stream of
 * input events. `Selector.Run` is proved to compute `RunAsWritten`.
 */
module Runner {
  import opened Wrappers
  import opened Collections
  import opened Paths
  import opened Capture
  import opened Discovery
  import opened Store

  /** The paths `find_images` queues: each image name joined to the directory. */
  function Discovered(dir: string, listing: seq<string>): (paths: seq<string>)
    ensures |paths| == |ImageNames(listing)|
    ensures forall i :: 0 <= i < |paths| ==> paths[i] == Join(dir, ImageNames(listing)[i])
  {
    Map((n: string) => Join(dir, n), ImageNames(listing))
  }

  /** How the loop over the queue ends. */
  datatype SessionEnd =
    | AllDone        // every queued image was handled
    | UserQuit       // a handler saw ESC or 'q'
    | AwaitingInput  // the events ran out while an image was being captured

  /** The rows the loop appends, how it ended and how many events it consumed. */
  datatype SessionResult = SessionResult(rows: seq<Row>, end: SessionEnd, used: nat)

  /**
   * The loop of `run` over `queue`: each image is captured from the events
   * that follow the previous image's, then recorded; a quit is recorded too,
   * before the loop stops.
   */
  function Session(queue: seq<string>, events: seq<Event>): (s: SessionResult)
    ensures s.used <= |events|
    ensures |s.rows| <= |queue|
    ensures s.end == AllDone ==> |s.rows| == |queue|
    ensures s.end == AwaitingInput ==> |s.rows| < |queue|
    ensures s.end == UserQuit ==> 1 <= |s.rows|
    decreases |queue|
  {
    if queue == [] then SessionResult([], AllDone, 0)
    else
      var h := Handle([], events);
      if h.stop.None? then SessionResult([], AwaitingInput, h.used)
      else
        var row := Record(queue[0], h.points);
        if h.stop == Some(QuitSession) then SessionResult([row], UserQuit, h.used)
        else
          var rest := Session(queue[1..], events[h.used..]);
          SessionResult([row] + rest.rows, rest.end, h.used + rest.used)
  }

  /**
   * The loop records the images in queue order: row `j` is named after the
   * `j`-th queued path.
   */
  lemma {:induction false} SessionRecordsInQueueOrder(queue: seq<string>, events: seq<Event>)
    ensures var s := Session(queue, events);
      forall j :: 0 <= j < |s.rows| ==>
        s.rows[j].fileID == Basename(queue[j])
    decreases |queue|
  {
    if queue != [] {
      var h := Handle([], events);
      if h.stop.Some? {
        var row := Record(queue[0], h.points);
        if h.stop.value == QuitSession {
          assert Session(queue, events).rows == [row];
        } else {
          var rest := Session(queue[1..], events[h.used..]);
          assert Session(queue, events).rows == [row] + rest.rows;
          SessionRecordsInQueueOrder(queue[1..], events[h.used..]);
          RowsInOrderCons(queue, row, rest.rows);
        }
      }
    }
  }

  /** Prepending the row of the first queued path to rows in order for the rest keeps them in order. */
  lemma RowsInOrderCons(queue: seq<string>, row: Row, rows: seq<Row>)
    requires |rows| < |queue|
    requires row.fileID == Basename(queue[0])
    requires forall j :: 0 <= j < |rows| ==> rows[j].fileID == Basename(queue[1..][j])
    ensures forall j :: 0 <= j < |[row] + rows| ==> ([row] + rows)[j].fileID == Basename(queue[j])
  {
    forall j | 1 <= j < |[row] + rows|
      ensures ([row] + rows)[j].fileID == Basename(queue[j])
    {
      assert ([row] + rows)[j] == rows[j - 1] && queue[j] == queue[1..][j - 1];
    }
  }

  /**
   * Every image whose capture ended, by 'n' or by a quit, is recorded once:
   * the loop appends as many rows as it consumed stopping keys.
   */
  lemma {:induction false} SessionRecordsEveryEndedImage(queue: seq<string>, events: seq<Event>)
    ensures var s := Session(queue, events); |s.rows| == Stops(events[..s.used])
    decreases |queue|
  {
    if queue == [] {
      assert events[..0] == [];
    } else {
      var h := Handle([], events);
      var s := Session(queue, events);
      HandleConsumesOneStop([], events);
      match h.stop
      case None =>
        assert s.rows == [] && s.used == h.used;
      case Some(QuitSession) =>
        assert |s.rows| == 1 && s.used == h.used;
      case Some(NextImage) =>
        var more := events[h.used..];
        var rest := Session(queue[1..], more);
        assert |s.rows| == 1 + |rest.rows| && s.used == h.used + rest.used;
        assert |rest.rows| == Stops(more[..rest.used]) by {
          SessionRecordsEveryEndedImage(queue[1..], more);
        }
        StopsSplit(events, h.used, rest.used);
    }
  }

  /** The stopping events among the first `a + b` are those among the first `a` and the next `b`. */
  lemma StopsSplit(events: seq<Event>, a: nat, b: nat)
    requires a + b <= |events|
    ensures Stops(events[..a + b]) == Stops(events[..a]) + Stops(events[a..][..b])
  {
    assert events[..a + b] == events[..a] + events[a..][..b];
    StopsAppend(events[..a], events[a..][..b]);
  }

  /**
   * The loop stops for a quit exactly when the last event it consumed is
   * ESC or 'q'.
   */
  lemma {:induction false} SessionQuitsOnLastEvent(queue: seq<string>, events: seq<Event>)
    ensures var s := Session(queue, events);
      s.end == UserQuit <==> 0 < s.used && StopOf(events[s.used - 1]) == Some(QuitSession)
    decreases |queue|
  {
    if queue != [] {
      var h := Handle([], events);
      HandleStopsOnLastUsed(events);
      if h.stop == Some(NextImage) {
        var more := events[h.used..];
        SessionAfterNext(queue, events);
        SessionQuitsOnLastEvent(queue[1..], more);
        QuitOnLastEventAfterNext(events, h.used, Session(queue[1..], more), Session(queue, events));
      }
    }
  }

  /** The last event the image handler consumes is the one that stopped it, and stops nothing when the events ran out. */
  lemma HandleStopsOnLastUsed(events: seq<Event>)
    ensures var h := Handle([], events); 0 < h.used ==> StopOf(events[h.used - 1]) == h.stop
  {
    HandleEndsAtFirstStop([], events);
  }

  /** The loop after the first image's 'n' quits on its last event exactly when the whole loop does. */
  lemma QuitOnLastEventAfterNext(events: seq<Event>, used: nat, rest: SessionResult, s: SessionResult)
    requires 1 <= used <= |events| && StopOf(events[used - 1]) == Some(NextImage)
    requires rest.used <= |events[used..]|
    requires rest.end == UserQuit <==> 0 < rest.used && StopOf(events[used..][rest.used - 1]) == Some(QuitSession)
    requires s.end == rest.end && s.used == used + rest.used
    ensures s.end == UserQuit <==> 0 < s.used && StopOf(events[s.used - 1]) == Some(QuitSession)
  {
    if 0 < rest.used {
      assert events[s.used - 1] == events[used..][rest.used - 1];
    }
  }

  /**
   * No event before the last one the loop consumed is ESC or 'q': the loop
   * stops right after the first image whose capture asked to quit.
   */
  lemma {:induction false} SessionStopsAtFirstQuit(queue: seq<string>, events: seq<Event>)
    ensures var s := Session(queue, events);
      forall j :: 0 <= j < s.used - 1 ==> StopOf(events[j]) != Some(QuitSession)
    decreases |queue|
  {
    if queue != [] {
      var h := Handle([], events);
      var s := Session(queue, events);
      assert forall j :: 0 <= j < h.used - 1 ==> StopOf(events[j]) != Some(QuitSession) by {
        HandleEndsAtFirstStop([], events);
      }
      if h.stop.Some? && h.stop.value == NextImage {
        var more := events[h.used..];
        var rest := Session(queue[1..], more);
        assert s.used == h.used + rest.used;
        assert StopOf(events[h.used - 1]) == Some(NextImage) by {
          HandleEndsAtFirstStop([], events);
        }
        assert forall j :: 0 <= j < rest.used - 1 ==> StopOf(more[j]) != Some(QuitSession) by {
          SessionStopsAtFirstQuit(queue[1..], more);
        }
        NoQuitAcross(events, h.used, rest.used);
      } else {
        assert s.used == h.used;
      }
    }
  }

  /** No quit among the first `u` events and none among the `r - 1` after them but the last. */
  lemma NoQuitAcross(events: seq<Event>, u: nat, r: nat)
    requires 1 <= u && u + r <= |events|
    requires forall j :: 0 <= j < u - 1 ==> StopOf(events[j]) != Some(QuitSession)
    requires StopOf(events[u - 1]) != Some(QuitSession)
    requires forall j :: 0 <= j < r - 1 ==> StopOf(events[u..][j]) != Some(QuitSession)
    ensures forall j :: 0 <= j < u + r - 1 ==> StopOf(events[j]) != Some(QuitSession)
  {
    forall j | u <= j < u + r - 1
      ensures StopOf(events[j]) != Some(QuitSession)
    {
      assert events[j] == events[u..][j - u];
    }
  }

  /** How `run` ends: `sys.exit(status)`, a normal return, or still waiting for input. */
  datatype RunEnd = Exit(status: int) | Finished | Waiting

  function EndOf(e: SessionEnd): (r: RunEnd)
    ensures r == Exit(1) <==> e == UserQuit
    ensures r == Finished <==> e == AllDone
  {
    match e
    case AllDone => Finished
    case UserQuit => Exit(1)
    case AwaitingInput => Waiting
  }

  /** The ledger when `run` stops, whether the table was written, and how `run` ended. */
  datatype Outcome = Outcome(ledger: seq<Row>, saved: bool, end: RunEnd)

  /**
   * The table a run leaves on disk, given the one it started from: a run
   * never removes the table, and a run that wrote it leaves its ledger.
   */
  function FileAfter(file: Option<seq<Row>>, o: Outcome): (r: Option<seq<Row>>)
    ensures file.Some? ==> r.Some?
    ensures o.saved ==> r == Some(o.ledger)
    ensures !o.saved ==> r == file
  {
    if o.saved then Some(o.ledger) else file
  }

  /**
   * The queue `run` labels as written: the discovered paths, less those
   * among the resumed entries when a table was saved.
   */
  function RunQueue(dir: string, listing: seq<string>, file: Option<seq<Row>>): (queue: seq<string>)
    ensures |queue| <= |Discovered(dir, listing)|
    ensures forall p :: p in queue ==> p in Discovered(dir, listing)
  {
    var paths := Discovered(dir, listing);
    if file.Some? then ResumeQueue(paths, Ids(Resumed(dir, file.value))) else paths
  }

  /**
   * `run` on a fresh Selector, as the source is written: no images means
   * exit status 1 and nothing saved; otherwise resumed entries are joined to
   * the directory, the queue is filtered against them, and the loop runs.
   * The ledger only grows from the resumed rows, by at most one row per
   * image, and the table is written exactly when it grew.
   */
  function RunAsWritten(dir: string, listing: seq<string>, file: Option<seq<Row>>, events: seq<Event>): (o: Outcome)
    ensures Discovered(dir, listing) == [] ==> o == Outcome([], false, Exit(1))
    ensures Discovered(dir, listing) != [] ==>
      var base := if file.Some? then Resumed(dir, file.value) else [];
      && base <= o.ledger
      && |o.ledger| <= |base| + |Discovered(dir, listing)|
      && (o.saved <==> |base| < |o.ledger|)
  {
    var paths := Discovered(dir, listing);
    if paths == [] then Outcome([], false, Exit(1))
    else
      var base := if file.Some? then Resumed(dir, file.value) else [];
      var s := Session(RunQueue(dir, listing, file), events);
      Outcome(base + s.rows, s.rows != [], EndOf(s.end))
  }

  /**
   * After a resume the ledger mixes two forms of `fileID`: every resumed row
   * holds the directory joined to its saved name, every row added in this
   * run holds a bare file name.
   */
  lemma RunAsWrittenMixesFileIdForms(dir: string, listing: seq<string>, rows: seq<Row>, events: seq<Event>)
    requires ImageNames(listing) != []
    ensures var o := RunAsWritten(dir, listing, Some(rows), events);
      && |rows| <= |o.ledger|
      && (forall i :: 0 <= i < |rows| ==> o.ledger[i].fileID == Join(dir, rows[i].fileID))
      && (forall i :: |rows| <= i < |o.ledger| ==> '/' !in o.ledger[i].fileID)
  {
    var paths := Discovered(dir, listing);
    assert paths != [] by { assert |paths| == |ImageNames(listing)|; }
    var base := Resumed(dir, rows);
    var queue := ResumeQueue(paths, Ids(base));
    var s := Session(queue, events);
    assert RunAsWritten(dir, listing, Some(rows), events).ledger == base + s.rows;
    assert forall j :: 0 <= j < |s.rows| ==> '/' !in s.rows[j].fileID by {
      SessionRecordsInQueueOrder(queue, events);
    }
    LedgerForms(dir, rows, s.rows);
  }

  /** Resumed rows followed by rows named without a '/': the two forms of `fileID`, side by side. */
  lemma LedgerForms(dir: string, rows: seq<Row>, added: seq<Row>)
    requires forall j :: 0 <= j < |added| ==> '/' !in added[j].fileID
    ensures var l := Resumed(dir, rows) + added;
      && |rows| <= |l|
      && (forall i :: 0 <= i < |rows| ==> l[i].fileID == Join(dir, rows[i].fileID))
      && (forall i :: |rows| <= i < |l| ==> '/' !in l[i].fileID)
  {
    var l := Resumed(dir, rows) + added;
    forall i | |rows| <= i < |l|
      ensures '/' !in l[i].fileID
    {
      assert l[i] == added[i - |rows|];
    }
  }

  /**
   * The loop stopped for a quit on image `|s.rows| - 1`, whose capture
   * started at event `u`, the first event or the one right after an 'n':
   * that capture saw a quit and consumed the loop's last events, and the
   * last row is that image's, with the points held at the quit.
   */
  predicate QuitCapture(queue: seq<string>, events: seq<Event>, s: SessionResult, u: nat)
  {
    && u <= |events|
    && (u == 0 || StopOf(events[u - 1]) == Some(NextImage))
    && 1 <= |s.rows| <= |queue|
    && var h := Handle([], events[u..]);
       && h.stop == Some(QuitSession)
       && u + h.used == s.used
       && s.rows[|s.rows| - 1] == Record(queue[|s.rows| - 1], h.points)
  }

  /**
   * Where the capture of the last image the loop over `queue` opened
   * started: at the first event, or right after each 'n' that moved the
   * loop on to another queued image.
   */
  function LastCaptureStart(queue: seq<string>, events: seq<Event>): nat
    decreases |queue|
  {
    if queue == [] then 0
    else
      var h := Handle([], events);
      if h.stop == Some(NextImage) && 1 < |queue| then h.used + LastCaptureStart(queue[1..], events[h.used..]) else 0
  }

  /** The events the capture of the last image the loop over `queue` opened reads from. */
  function LastCaptureEvents(queue: seq<string>, events: seq<Event>): seq<Event>
    decreases |queue|
  {
    if queue == [] then events
    else
      var h := Handle([], events);
      if h.stop == Some(NextImage) && 1 < |queue| then LastCaptureEvents(queue[1..], events[h.used..]) else events
  }

  /** The last capture starts within the events, at the first one or right after an 'n'. */
  lemma {:induction false} LastCaptureStartsAfterNext(queue: seq<string>, events: seq<Event>)
    ensures var u := LastCaptureStart(queue, events);
      u <= |events| && (u == 0 || StopOf(events[u - 1]) == Some(NextImage))
    decreases |queue|
  {
    if queue != [] {
      var h := Handle([], events);
      if h.stop == Some(NextImage) && 1 < |queue| {
        var more := events[h.used..];
        LastCaptureStartsAfterNext(queue[1..], more);
        NextIsLastUsed(events, h.used);
        CaptureAfterNext(events, h.used, LastCaptureStart(queue[1..], more), LastCaptureStart(queue, events));
      }
    }
  }

  /** The last capture reads the events from where it starts on. */
  lemma {:induction false} LastCaptureReadsFromStart(queue: seq<string>, events: seq<Event>)
    ensures var u := LastCaptureStart(queue, events);
      u <= |events| && events[u..] == LastCaptureEvents(queue, events)
    decreases |queue|
  {
    if queue != [] {
      var h := Handle([], events);
      if h.stop == Some(NextImage) && 1 < |queue| {
        var more := events[h.used..];
        LastCaptureReadsFromStart(queue[1..], more);
        DropDrop(events, h.used, LastCaptureStart(queue[1..], more));
      } else {
        assert events[0..] == events;
      }
    }
  }

  /** A capture that starts after an 'n' within the events that follow an 'n' starts after an 'n' within the whole events. */
  lemma CaptureAfterNext(events: seq<Event>, used: nat, v: nat, u: nat)
    requires 1 <= used <= |events| && StopOf(events[used - 1]) == Some(NextImage)
    requires v <= |events[used..]| && (v == 0 || StopOf(events[used..][v - 1]) == Some(NextImage))
    requires u == used + v
    ensures u <= |events| && (u == 0 || StopOf(events[u - 1]) == Some(NextImage))
  {
    if v != 0 {
      assert events[used + v - 1] == events[used..][v - 1];
    }
  }

  /**
   * A loop that ends by a quit ends with its last capture: that capture saw
   * the quit and consumed the loop's last events, and the loop's last row
   * is its image's, with its points.
   */
  lemma {:induction false} QuitEndsLastCapture(queue: seq<string>, events: seq<Event>)
    ensures var s := Session(queue, events); var c := Handle([], LastCaptureEvents(queue, events));
      s.end == UserQuit ==>
        && c.stop == Some(QuitSession)
        && LastCaptureStart(queue, events) + c.used == s.used
        && s.rows[|s.rows| - 1] == Record(queue[|s.rows| - 1], c.points)
    decreases |queue|
  {
    if queue != [] {
      var h := Handle([], events);
      match h.stop
      case None =>
      case Some(QuitSession) =>
      case Some(NextImage) =>
        var more := events[h.used..];
        var rest := Session(queue[1..], more);
        SessionAfterNext(queue, events);
        if rest.end == UserQuit {
          QuitEndsLastCapture(queue[1..], more);
          assert 1 < |queue|;
          assert queue[1..][|rest.rows| - 1] == queue[|rest.rows|];
        }
    }
  }

  /**
   * A loop that ends by a quit still records the image being captured, with
   * its points: `LastCaptureStart` is where that image's capture started.
   */
  lemma SessionQuitRecordsCapture(queue: seq<string>, events: seq<Event>)
    ensures var s := Session(queue, events);
      s.end == UserQuit ==> QuitCapture(queue, events, s, LastCaptureStart(queue, events))
  {
    LastCaptureStartsAfterNext(queue, events);
    LastCaptureReadsFromStart(queue, events);
    QuitEndsLastCapture(queue, events);
  }

  /** An image left by 'n' was left on the event just before the next image's capture starts. */
  lemma {:induction false} NextIsLastUsed(events: seq<Event>, used: nat)
    requires Handle([], events).stop == Some(NextImage) && Handle([], events).used == used
    ensures 1 <= used <= |events| && StopOf(events[used - 1]) == Some(NextImage)
  {
    HandleEndsAtFirstStop([], events);
  }

  /**
   * Quitting still commits the image being captured: when `run` exits with
   * status 1 after images were found, the table was written and its last
   * row is the one the loop recorded for the image it quit on, with the
   * points held at the quit, from the capture that started right after the
   * previous image's 'n' (or at the first event).
   */
  lemma RunQuitCommitsCurrentImage(dir: string, listing: seq<string>, file: Option<seq<Row>>, events: seq<Event>)
    requires ImageNames(listing) != []
    ensures var o := RunAsWritten(dir, listing, file, events);
      var queue := RunQueue(dir, listing, file);
      var s := Session(queue, events);
      o.end == Exit(1) ==>
        && o.saved && o.ledger != [] && s.rows != []
        && o.ledger[|o.ledger| - 1] == s.rows[|s.rows| - 1]
        && QuitCapture(queue, events, s, LastCaptureStart(queue, events))
  {
    var queue := RunQueue(dir, listing, file);
    var s := Session(queue, events);
    RunAsWrittenRuns(dir, listing, file, events);
    SessionQuitRecordsCapture(queue, events);
    if s.end == UserQuit {
      var base := if file.Some? then Resumed(dir, file.value) else [];
      LastOfAppend(base, s.rows);
    }
  }

  /** Once images are found, `run` is the loop over its queue, after the resumed rows. */
  lemma RunAsWrittenRuns(dir: string, listing: seq<string>, file: Option<seq<Row>>, events: seq<Event>)
    requires ImageNames(listing) != []
    ensures var base := if file.Some? then Resumed(dir, file.value) else [];
      var s := Session(RunQueue(dir, listing, file), events);
      RunAsWritten(dir, listing, file, events) == Outcome(base + s.rows, s.rows != [], EndOf(s.end))
  {
    var paths := Discovered(dir, listing);
    assert paths != [] by { assert |paths| == |ImageNames(listing)|; }
  }


  lemma LastOfAppend(base: seq<Row>, rows: seq<Row>)
    requires rows != []
    ensures base + rows != [] && (base + rows)[|base + rows| - 1] == rows[|rows| - 1]
  {
  }

  /**
   * Resuming from a table of bare file names works: an image is queued
   * again exactly when its name is not in the table.
   */
  lemma ResumeExcludesBareNames(dir: string, listing: seq<string>, rows: seq<Row>, name: string)
    requires forall id :: id in Ids(rows) ==> '/' !in id
    requires name in ImageNames(listing) && '/' !in name
    ensures Join(dir, name) in ResumeQueue(Discovered(dir, listing), Ids(Resumed(dir, rows)))
      <==> name !in Ids(rows)
  {
    var names := ImageNames(listing);
    var labelled := Ids(Resumed(dir, rows));
    var k :| 0 <= k < |names| && names[k] == name;
    assert Join(dir, name) == Discovered(dir, listing)[k];
    if name in Ids(rows) {
      var i :| 0 <= i < |rows| && Ids(rows)[i] == name;
      assert labelled[i] == Join(dir, name);
    }
    if Join(dir, name) in labelled {
      var i :| 0 <= i < |labelled| && labelled[i] == Join(dir, name);
      assert Ids(rows)[i] in Ids(rows);
      JoinInjective(dir, name, rows[i].fileID);
    }
  }

  /** Listing `a.jpg`, `b.png` and `c.gif` queues the first two, joined to the directory. */
  lemma DiscoveredExample(dir: string)
    ensures Discovered(dir, ["a.jpg", "b.png", "c.gif"]) == [Join(dir, "a.jpg"), Join(dir, "b.png")]
  {
    MixedExtensionsExample();
  }

  /** Two clicks then 'n': the capture holds both points in click order and consumed three events. */
  lemma CaptureExample(rest: seq<Event>)
    ensures Handle([], [Mouse(LButtonUp, 10, 20), Mouse(LButtonUp, 30, 40), Key('n' as int)] + rest)
         == Handled([Point(10, 20), Point(30, 40)], Some(NextImage), 3)
  {
    var events := [Mouse(LButtonUp, 10, 20), Mouse(LButtonUp, 30, 40), Key('n' as int)] + rest;
    var p, q := Point(10, 20), Point(30, 40);
    assert StopOf(Key('n' as int)) == Some(NextImage);
    assert events[1..][1..][0] == Key('n' as int);
    assert Handle([p, q], events[1..][1..]) == Handled([p, q], Some(NextImage), 1);
    assert Apply([p], events[1..][0]) == [p, q];
    assert Handle([p], events[1..]) == Handled([p, q], Some(NextImage), 2);
    assert Apply([], events[0]) == [p];
  }

  /** An image whose capture ends with 'n' is recorded, and the loop goes on with the next image and the events after the 'n'. */
  lemma SessionAfterNext(queue: seq<string>, events: seq<Event>)
    requires queue != [] && Handle([], events).stop == Some(NextImage)
    ensures var h := Handle([], events); var rest := Session(queue[1..], events[h.used..]);
      Session(queue, events) == SessionResult([Record(queue[0], h.points)] + rest.rows, rest.end, h.used + rest.used)
  {
  }

  /** A queue of one image and a lone 'n': the image is recorded with no points and the loop is done. */
  lemma OneImageNextExample(path: string)
    ensures Session([path], [Key('n' as int)]) == SessionResult([Record(path, [])], AllDone, 1)
  {
    var more := [Key('n' as int)];
    assert Handle([], more) == Handled([], Some(NextImage), 1);
    assert more[1..] == [];
    assert [path][1..] == [];
  }

  /** A run with no saved table records into an empty ledger whatever the loop over the discovered images records. */
  lemma FirstRun(dir: string, listing: seq<string>, events: seq<Event>)
    requires Discovered(dir, listing) != []
    ensures var s := Session(Discovered(dir, listing), events);
      RunAsWritten(dir, listing, None, events) == Outcome(s.rows, s.rows != [], EndOf(s.end))
  {
    var s := Session(Discovered(dir, listing), events);
    assert [] + s.rows == s.rows;
  }

  /** Two clicks then 'n' on the first queued image record both points for it; the loop goes on with the rest. */
  lemma TwoClicksExample(queue: seq<string>, rest: seq<Event>)
    requires queue != []
    ensures var r := Session(queue[1..], rest);
      Session(queue, [Mouse(LButtonUp, 10, 20), Mouse(LButtonUp, 30, 40), Key('n' as int)] + rest)
      == SessionResult([Record(queue[0], [Point(10, 20), Point(30, 40)])] + r.rows, r.end, 3 + r.used)
  {
    var events := [Mouse(LButtonUp, 10, 20), Mouse(LButtonUp, 30, 40), Key('n' as int)] + rest;
    CaptureExample(rest);
    SessionAfterNext(queue, events);
    assert events[3..] == rest;
  }

  /**
   * A first session, in any directory, over `a.jpg`, `b.png` and `c.gif`:
   * two clicks then 'n' on `a.jpg`, 'n' at once on `b.png`. The table gets
   * two rows and the run returns normally.
   */
  lemma FirstSessionExample(dir: string, listing: seq<string>, events: seq<Event>, more: seq<Event>)
    requires listing == ["a.jpg", "b.png", "c.gif"]
    requires more == [Key('n' as int)]
    requires events == [Mouse(LButtonUp, 10, 20), Mouse(LButtonUp, 30, 40), Key('n' as int)] + more
    ensures RunAsWritten(dir, listing, None, events)
         == Outcome([Row("a.jpg", 2, [Point(10, 20), Point(30, 40)]), Row("b.png", 0, [])], true, Finished)
  {
    var paths := [Join(dir, "a.jpg"), Join(dir, "b.png")];
    var a := Row("a.jpg", 2, [Point(10, 20), Point(30, 40)]);
    var b := Row("b.png", 0, []);
    assert Discovered(dir, listing) == paths by {
      DiscoveredExample(dir);
    }
    assert Session(paths[1..], more) == SessionResult([b], AllDone, 1) by {
      assert paths[1..] == [Join(dir, "b.png")];
      OneImageNextExample(Join(dir, "b.png"));
      RecordOfJoin(dir, "b.png", []);
    }
    assert Session(paths, events) == SessionResult([a, b], AllDone, 4) by {
      TwoClicksExample(paths, more);
      RecordOfJoin(dir, "a.jpg", [Point(10, 20), Point(30, 40)]);
    }
    FirstRun(dir, listing, events);
  }
}
