/**
 * The ledger of labelled images (`coords.xlsx`) as the Selector keeps it in
 * memory: what `save_stats` appends and what `load_stats` makes of a saved
 * table.
 */
module Store {
  import opened Collections
  import opened Paths
  import opened Capture

  /** One row of the saved table: the columns `fileID`, `num` and `coords`. */
  datatype Row = Row(fileID: string, num: int, coords: seq<Point>)

  function Ids(rows: seq<Row>): seq<string>
  {
    Map((r: Row) => r.fileID, rows)
  }

  lemma IdsAppend(a: seq<Row>, b: seq<Row>)
    ensures Ids(a + b) == Ids(a) + Ids(b)
  {
  }

  /** The row `save_stats` records for the image at `path` with the points `pts`. */
  function Record(path: string, pts: seq<Point>): (r: Row)
    ensures r.num == |r.coords| && r.coords == pts
    ensures '/' !in r.fileID && |r.fileID| <= |path|
  {
    Row(Basename(path), |pts|, pts)
  }

  /** The recorded `fileID` is the last component of the image's path: its tail after the last '/'. */
  lemma RecordNamesTheFile(path: string, pts: seq<Point>)
    ensures var id := Record(path, pts).fileID;
      path[|path| - |id|..] == id && (id == path || path[|path| - |id| - 1] == '/')
  {
    BasenameIsLastComponent(path);
  }

  /** An image found by listing the directory is recorded under its plain name. */
  lemma RecordOfJoin(dir: string, name: string, pts: seq<Point>)
    requires '/' !in name
    ensures Record(Join(dir, name), pts) == Row(name, |pts|, pts)
  {
    BasenameOfJoin(dir, name);
  }

  /** The ledger `load_stats` leaves: each saved `fileID` joined to the image directory. */
  function Resumed(dir: string, rows: seq<Row>): (ledger: seq<Row>)
    ensures |ledger| == |rows|
    ensures forall i :: 0 <= i < |rows| ==>
      ledger[i] == Row(Join(dir, rows[i].fileID), rows[i].num, rows[i].coords)
  {
    Map((r: Row) => Row(Join(dir, r.fileID), r.num, r.coords), rows)
  }

  /** Whether `p` is not among the `labelled` entries. */
  function NotIn(labelled: seq<string>): string -> bool
  {
    p => p !in labelled
  }

  /** The work queue after `load_stats`: the queued paths that are not among the labelled entries. */
  function ResumeQueue(queue: seq<string>, labelled: seq<string>): (rest: seq<string>)
    ensures forall p :: p in rest <==> p in queue && p !in labelled
  {
    forall p | p in queue && p !in labelled
      ensures p in Filter(NotIn(labelled), queue)
    {
      FilterKeeps(NotIn(labelled), queue, p);
    }
    Filter(NotIn(labelled), queue)
  }

  /** Resuming keeps the queue's order: a queue split in two resumes part by part. */
  lemma ResumeQueueInOrder(a: seq<string>, b: seq<string>, labelled: seq<string>)
    ensures ResumeQueue(a + b, labelled) == ResumeQueue(a, labelled) + ResumeQueue(b, labelled)
  {
    FilterAppend(NotIn(labelled), a, b);
  }

  /** Whether the table `rows` has no entry for the file name of `p`. */
  function NotRecorded(rows: seq<Row>): string -> bool
  {
    p => Basename(p) !in Ids(rows)
  }

  /**
   * Corrected resumption: the ledger keeps its bare file names, and an image
   * is queued exactly when its file name is not among them.
   */
  function FixedResumeQueue(queue: seq<string>, rows: seq<Row>): (rest: seq<string>)
    ensures forall p :: p in rest <==> p in queue && Basename(p) !in Ids(rows)
  {
    forall p | p in queue && Basename(p) !in Ids(rows)
      ensures p in Filter(NotRecorded(rows), queue)
    {
      FilterKeeps(NotRecorded(rows), queue, p);
    }
    Filter(NotRecorded(rows), queue)
  }
}
