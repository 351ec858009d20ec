/**
 * The `Selector` object itself: its lists change in place as `load_stats`,
 * `save_stats` and `image_handler` run, and `run` drives them. Each method
 * is proved against the functions of the other modules; `Run` computes
 * `RunAsWritten`.
 */
module PixelSelector {
  import opened Wrappers
  import opened Collections
  import opened Paths
  import opened Capture
  import opened Discovery
  import opened Store
  import opened Runner
  import opened Resumption
  import opened LoopState

  class Selector {
    /** The directory the images are listed from. */
    const imgDir: string
    /** Where the table is read from and written to. */
    const excelPath: string

    /** The three parallel columns of the ledger: `fileID`, `num` and `coords`. */
    var labelledFiles: seq<string>
    var num: seq<int>
    var coords: seq<seq<Point>>

    /** The paths still to be labelled. */
    var unlabelledFiles: seq<string>
    /** Cleared by ESC or 'q'. */
    var keepGoing: bool
    /** The image being labelled and the points clicked on it so far. */
    var imgPath: string
    var theseCoords: seq<Point>

    /** The ledger's columns have one entry per labelled image. */
    predicate Valid()
      reads this`labelledFiles, this`num, this`coords
    {
      |labelledFiles| == |num| == |coords|
    }

    /** The state `__init__` leaves: an empty ledger and nothing asked to stop. */
    predicate Initial()
      reads this
    {
      labelledFiles == [] && num == [] && coords == [] && keepGoing
    }

    /** The ledger as rows, one per labelled image, in the order they were appended. */
    function Ledger(): (ledger: seq<Row>)
      reads this`labelledFiles, this`num, this`coords
      requires Valid()
      ensures |ledger| == |labelledFiles|
    {
      var ids, ns, cs := labelledFiles, num, coords;
      seq(|ids|, i requires 0 <= i < |ids| => Row(ids[i], ns[i], cs[i]))
    }

    /** The `fileID` column is the ledger's ids. */
    lemma LedgerIds()
      requires Valid()
      ensures Ids(Ledger()) == labelledFiles
    {
    }

    constructor(dir: string)
      ensures imgDir == dir && excelPath == Join(dir, "coords.xlsx")
      ensures Valid() && Initial()
    {
      imgDir := dir;
      excelPath := Join(dir, "coords.xlsx");
      labelledFiles, num, coords := [], [], [];
      keepGoing := true;
      unlabelledFiles, imgPath, theseCoords := [], [], [];
    }

    /**
     * `find_images`: queue the image files of `listing` (the directory's
     * entries) as paths under `imgDir`. Reports whether any was found; the
     * caller exits with status 1 when none was.
     */
    method FindImages(listing: seq<string>) returns (found: bool)
      modifies this`unlabelledFiles
      ensures found <==> ImageNames(listing) != []
      ensures found ==> unlabelledFiles == Discovered(imgDir, listing)
      ensures !found ==> unlabelledFiles == old(unlabelledFiles)
    {
      var paths := Discovered(imgDir, listing);
      found := paths != [];
      if found {
        unlabelledFiles := paths;
      }
    }

    /**
     * `load_stats`: `file` is the table at `excelPath`, None when there is no
     * such file. A table replaces the ledger with its rows, each `fileID`
     * joined to `imgDir`, and drops those paths from the queue.
     */
    method LoadStats(file: Option<seq<Row>>)
      modifies this`labelledFiles, this`num, this`coords, this`unlabelledFiles
      ensures file.None? ==> labelledFiles == old(labelledFiles) && num == old(num) && coords == old(coords)
      ensures file.None? ==> unlabelledFiles == old(unlabelledFiles)
      ensures file.Some? ==> Valid() && Ledger() == Resumed(imgDir, file.value)
      ensures file.Some? ==> unlabelledFiles == ResumeQueue(old(unlabelledFiles), labelledFiles)
    {
      if file.Some? {
        var rows := file.value;
        var ledger := Resumed(imgDir, rows);
        labelledFiles := Ids(ledger);
        unlabelledFiles := ResumeQueue(unlabelledFiles, labelledFiles);
        coords := Map((r: Row) => r.coords, rows);
        num := Map((r: Row) => r.num, rows);
        assert Ledger() == ledger;
      }
    }

    /**
     * `load_stats` corrected: the saved rows are taken as they are, bare file
     * names included, and a queued path is dropped when its file name is
     * among them.
     */
    method LoadStatsFixed(file: Option<seq<Row>>)
      modifies this`labelledFiles, this`num, this`coords, this`unlabelledFiles
      ensures file.None? ==> labelledFiles == old(labelledFiles) && num == old(num) && coords == old(coords)
      ensures file.None? ==> unlabelledFiles == old(unlabelledFiles)
      ensures file.Some? ==> Valid() && Ledger() == file.value
      ensures file.Some? ==> unlabelledFiles == FixedResumeQueue(old(unlabelledFiles), file.value)
    {
      if file.Some? {
        var rows := file.value;
        labelledFiles := Ids(rows);
        unlabelledFiles := FixedResumeQueue(unlabelledFiles, rows);
        coords := Map((r: Row) => r.coords, rows);
        num := Map((r: Row) => r.num, rows);
        assert Ledger() == rows;
      }
    }

    /**
     * `save_stats`: append the row for the current image to the ledger and
     * return the whole table, which is what is written to `excelPath`.
     */
    method SaveStats() returns (table: seq<Row>)
      requires Valid()
      modifies this`labelledFiles, this`num, this`coords
      ensures Valid()
      ensures Ledger() == old(Ledger()) + [Record(imgPath, theseCoords)]
      ensures table == Ledger()
    {
      var row := Record(imgPath, theseCoords);
      labelledFiles := labelledFiles + [row.fileID];
      coords := coords + [theseCoords];
      num := num + [|theseCoords|];
      table := Ledger();
      assert table == old(Ledger()) + [row];
    }

    /**
     * `image_handler`: capture points on the current image from `events`
     * until 'n', 'q' or ESC. Returns how many events it consumed and how it
     * stopped; None means the events ran out while it was still waiting.
     */
    method ImageHandler(events: seq<Event>) returns (used: nat, stop: Option<Stop>)
      modifies this`theseCoords, this`keepGoing
      ensures Handle([], events) == Handled(theseCoords, stop, used)
      ensures keepGoing == (old(keepGoing) && stop != Some(QuitSession))
    {
      theseCoords := [];
      var i := 0;
      while i < |events|
        invariant 0 <= i <= |events|
        invariant keepGoing == old(keepGoing)
        invariant var h := Handle(theseCoords, events[i..]);
          Handle([], events) == Handled(h.points, h.stop, i + h.used)
      {
        assert events[i..][0] == events[i] && events[i..][1..] == events[i + 1..];
        ghost var before := theseCoords;
        match events[i] {
          case Mouse(kind, x, y) =>
            if kind == LButtonUp {
              theseCoords := theseCoords + [Point(x, y)];
            }
          case Key(raw) =>
            var key := KeyCode(raw);
            if key == Esc || key == 'q' as int {
              keepGoing := false;
              return i + 1, Some(QuitSession);
            }
            if key == 'n' as int {
              return i + 1, Some(NextImage);
            }
            if key == 'r' as int {
              theseCoords := [];
            }
        }
        assert StopOf(events[i]).None? && theseCoords == Apply(before, events[i]);
        i := i + 1;
      }
      assert events[i..] == [];
      return |events|, None;
    }

    /**
     * One turn of the loop of `run`: make `path` the current image, capture
     * its points from `events` and save its row. When the events run out
     * first, nothing is saved.
     */
    method LabelImage(path: string, events: seq<Event>) returns (used: nat, stop: Option<Stop>)
      requires Valid()
      modifies this`labelledFiles, this`num, this`coords, this`imgPath, this`theseCoords, this`keepGoing
      ensures Valid() && imgPath == path
      ensures Handle([], events) == Handled(theseCoords, stop, used)
      ensures stop.Some? ==> Ledger() == old(Ledger()) + [Record(path, theseCoords)]
      ensures stop.None? ==> Ledger() == old(Ledger())
      ensures keepGoing == (old(keepGoing) && stop != Some(QuitSession))
    {
      imgPath := path;
      used, stop := ImageHandler(events);
      if stop.Some? {
        var table := SaveStats();
      }
    }

    /**
     * The loop of `run`: label each path of `queue` in turn from the events,
     * saving after each image and stopping after a quit. The rows it
     * appends, whether it wrote the table and how it ends are those of
     * `Session`; the image and points it leaves held are `HeldAfter`'s.
     */
    method LabelQueue(queue: seq<string>, events: seq<Event>) returns (saved: bool, end: RunEnd)
      requires Valid() && keepGoing
      modifies this`labelledFiles, this`num, this`coords, this`imgPath, this`theseCoords, this`keepGoing
      ensures Valid()
      ensures var s := Session(queue, events);
        Ledger() == old(Ledger()) + s.rows && saved == (s.rows != []) && end == EndOf(s.end)
      ensures keepGoing == (end != Exit(1))
      ensures Held(imgPath, theseCoords) == HeldAfter(queue, events, Held(old(imgPath), old(theseCoords)))
    {
      ghost var base := Ledger();
      ghost var start := Held(imgPath, theseCoords);
      ghost var done: seq<Row> := [];
      var input := events;
      var k: nat := 0;
      saved := false;
      ProgressStart(queue, events, start);
      while k < |queue|
        invariant Progress(queue, events, k, input, done, start, Held(imgPath, theseCoords))
        invariant Valid() && keepGoing
        invariant Ledger() == base + done && saved == (done != [])
      {
        ghost var now := Held(imgPath, theseCoords);
        var used, stop := LabelImage(queue[k], input);
        if stop.None? {
          ProgressWaiting(queue, events, k, input, done, start, now, theseCoords);
          return saved, Waiting;
        }
        ghost var row := Record(queue[k], theseCoords);
        AppendAssociates(base, done, [row]);
        saved := true;
        if !keepGoing {
          ProgressQuit(queue, events, k, input, done, start, now, theseCoords, used);
          return saved, Exit(1);
        }
        assert stop.value != QuitSession;
        ProgressNext(queue, events, k, input, done, start, now, theseCoords, used);
        done := done + [row];
        input := input[used..];
        k := k + 1;
      }
      ProgressDone(queue, events, input, done, start, Held(imgPath, theseCoords));
      return saved, Finished;
    }

    /**
     * `run` on a fresh Selector: queue the images (exit status 1 when there
     * are none), resume from `file`, then label the queue. The ledger it
     * leaves and both results are those of `RunAsWritten`.
     */
    method Run(listing: seq<string>, file: Option<seq<Row>>, events: seq<Event>) returns (saved: bool, end: RunEnd)
      requires Valid() && Initial()
      modifies this
      ensures Valid()
      ensures Outcome(Ledger(), saved, end) == RunAsWritten(imgDir, listing, file, events)
      ensures Discovered(imgDir, listing) == [] ==>
        keepGoing && unlabelledFiles == old(unlabelledFiles) && imgPath == old(imgPath) && theseCoords == old(theseCoords)
      ensures Discovered(imgDir, listing) != [] ==>
        && unlabelledFiles == RunQueue(imgDir, listing, file)
        && keepGoing == (end != Exit(1))
        && Held(imgPath, theseCoords) == HeldAfter(RunQueue(imgDir, listing, file), events, Held(old(imgPath), old(theseCoords)))
    {
      var found := FindImages(listing);
      if !found {
        return false, Exit(1);
      }
      LoadStats(file);
      if file.Some? {
        LedgerIds();
      }
      saved, end := LabelQueue(unlabelledFiles, events);
    }

    /** `run` with the corrected resumption: its ledger and results are those of `RunFixed`. */
    method RunCorrected(listing: seq<string>, file: Option<seq<Row>>, events: seq<Event>) returns (saved: bool, end: RunEnd)
      requires Valid() && Initial()
      modifies this
      ensures Valid()
      ensures Outcome(Ledger(), saved, end) == RunFixed(imgDir, listing, file, events)
      ensures Discovered(imgDir, listing) == [] ==>
        keepGoing && unlabelledFiles == old(unlabelledFiles) && imgPath == old(imgPath) && theseCoords == old(theseCoords)
      ensures Discovered(imgDir, listing) != [] ==>
        && unlabelledFiles == FixedRunQueue(imgDir, listing, file)
        && keepGoing == (end != Exit(1))
        && Held(imgPath, theseCoords) == HeldAfter(FixedRunQueue(imgDir, listing, file), events, Held(old(imgPath), old(theseCoords)))
    {
      var found := FindImages(listing);
      if !found {
        return false, Exit(1);
      }
      LoadStatsFixed(file);
      if file.Some? {
        LedgerIds();
      }
      saved, end := LabelQueue(unlabelledFiles, events);
    }
  }
}
