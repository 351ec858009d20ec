# Pixel selector — a verified model

`pixel_selector.py` is a small tool for labelling images by hand. It
lists a directory's JPG and PNG images and shows them one at a time. The
user clicks points on each image: 'r' clears the points, 'n' moves to the
next image, and 'q' or ESC quits. After every image the tool appends one
row to a ledger, `coords.xlsx`, with the columns `fileID`, `num` and
`coords`, and writes the whole table out. The next run reads the table
back and skips the images it records; for a relative image directory,
runs after that can offer a recorded image again (see Findings).

This project models the `Selector` class in Dafny:

- `PixelSelector.Selector` is a class with the source's fields
  (`labelledFiles`, `num`, `coords`, `unlabelledFiles`, `keepGoing`,
  `imgPath`, `theseCoords`). Its methods change them in place, as
  `find_images`, `load_stats`, `save_stats`, `image_handler` and `run` do.
- Each method is proved against a pure specification in another module:
  - `Discovery`: which directory entries are images;
  - `Store`: the ledger rows, what `save_stats` appends and what `load_stats` resumes;
  - `Capture`: what the capture loop makes of a stream of mouse and keyboard events;
  - `Runner`: the loop of `run` over the queue, and `RunAsWritten`, the whole run as a function of its inputs;
  - `LoopState`: where the loop of `run` stands between two images, and `HeldAfter`, the image and points it leaves in `imgPath` and `theseCoords`;
  - `Resumption`: resuming across sessions, the corrected resumption `RunFixed`, and the example that shows the difference;
  - `Paths`: `os.path.join` and `os.path.basename`.
- The outside world is given as inputs:
  - the directory listing is a `seq<string>`;
  - the saved table is an `Option<seq<Row>>`, None when the file does not exist;
  - the window's input is a sequence of `Event`s. Each `Mouse(kind, x, y)` is one call of the mouse callback. Each `Key(raw)` is one result of `cv2.waitKey(1)`, -1 when no key was pressed.
- `sys.exit(1)` and the normal return are modelled as the `RunEnd` values `Exit(1)` and `Finished`.

Points where the code differs from what a user might expect; the model follows the code:

- **A quit still saves the current image.** One might expect the image being captured to be discarded on a quit. But `run` calls `save_stats` before it tests `keep_going` (pixel_selector.py:134-137). `Runner.RunQuitCommitsCurrentImage` proves that the last row written is the one for the image quit on, with the points held at the quit (the clicks after that image's last 'r').
- **Ledger entries are not kept unique.** One might expect each image to be recorded at most once. As written, the table can record one image twice: see Findings.
- **Discovery keeps listing order** and does not sort.
- **The extension test has no dot.** `xjpg` counts as an image, and so does a directory whose name ends in `png`.

## Model

| member | source | states |
|---|---|---|
| Paths.Join | pixel_selector.py:21 | `os.path.join` of a directory and one name, with POSIX separators: an absolute name replaces the directory; otherwise the name follows the directory, with a '/' inserted unless the directory is empty or already ends with one (its properties are proved in `Paths.JoinKeepsParts`) |
| Paths.JoinKeepsParts | pixel_selector.py:42 | the joined path ends with the name, and starts with the directory unless the name is absolute |
| Paths.Basename | pixel_selector.py:65 | `os.path.basename` returns a name with no '/', no longer than the path |
| Paths.BasenameIsLastComponent | pixel_selector.py:65 | the recorded file name is the tail of the path after its last '/', or the whole path when it has none |
| Paths.BasenameAfterDirectory | pixel_selector.py:65 | a name without '/' that follows a directory part is its own basename |
| Paths.BasenameOfJoin | pixel_selector.py:42 | joining a plain name to any directory gives back that name as the basename |
| Paths.BasenameIgnoresDirectory | pixel_selector.py:65 | whatever precedes a '/' does not change the basename of what follows it |
| Paths.BasenameOfJoinedPath | pixel_selector.py:53 | joining any path to the directory leaves its basename unchanged |
| Paths.JoinInjective | pixel_selector.py:53-54 | for one directory, different plain names join to different paths |
| Discovery.LowerChar | pixel_selector.py:36 | an ASCII capital becomes the lower-case letter at the same position in the alphabet; every other character is kept; no capital remains |
| Discovery.Lower | pixel_selector.py:36 | `fn.lower()` keeps the length and lowers each character, leaving no ASCII capital |
| Discovery.IsImageName | pixel_selector.py:34-36 | an entry is an image when its ASCII-lower-cased name ends with "jpg" or "png"; such a name has at least three characters |
| Discovery.ImageNames | pixel_selector.py:34-36 | an entry is kept iff it is in the listing and its lower-cased name ends with "jpg" or "png" |
| Discovery.ImageNamesInListingOrder | pixel_selector.py:35-36 | discovery is positional: the images of a + b are the images of a followed by those of b |
| Discovery.ExtensionCaseIgnored | pixel_selector.py:36 | any letter case of "jpg" or "png" at the end makes an image name |
| Discovery.ImageNamesOfOne | pixel_selector.py:35-36 | a one-entry listing yields that entry exactly when it is an image name |
| Discovery.ImagesOfTwo | pixel_selector.py:35-36 | two image entries both come out, in listing order |
| Discovery.ImagesOfThree | pixel_selector.py:35-36 | two images then a non-image: only the images come out, in order |
| Discovery.MixedExtensionsExample | pixel_selector.py:34-36 | `a.jpg`, `b.png`, `c.gif` yields exactly `a.jpg`, `b.png` |
| Capture.KeyCode | pixel_selector.py:104 | the masked key code lies in 0..255, equals the raw code when that already does, and is 255 for "no key" (-1) |
| Capture.StopOf | pixel_selector.py:106-111 | only a key can stop a capture ('q' or ESC quit, 'n' moves on), and a stopping key neither clears the points nor adds one |
| Capture.IsReset | pixel_selector.py:113-114 | 'r' is a key and adds no point |
| Capture.ClickOf | pixel_selector.py:89-91 | an event adds a point iff it is a left-button release, and then exactly the point at its coordinates |
| Capture.Clicks | pixel_selector.py:89-91 | the points clicked in a stream of events, no more than there are events |
| Capture.Apply | pixel_selector.py:89-91 | a non-stopping event either clears the points ('r') or keeps them all and adds at most one |
| Capture.Handle | pixel_selector.py:102-115 | the capture consumes no more events than it is given, all of them when it never stops, and at least one when it stops |
| Capture.FirstStop | pixel_selector.py:106-111 | no event before the returned position is 'n', 'q' or ESC, and the event at it is one |
| Capture.HandleEndsAtFirstStop | pixel_selector.py:102-111 | the capture stops at the first 'n', 'q' or ESC, with that key's outcome, having consumed exactly the events up to it |
| Capture.HandleKeepsClicksSinceLastReset | pixel_selector.py:86-114 | at the stop, the points are the left-button releases after the last 'r', in click order; with no 'r', they follow the points held on entry |
| Capture.HandleKeepsAllClicks | pixel_selector.py:90-91 | with no 'r' before the stop, every release is appended in click order |
| Capture.HandleClicksAfterReset | pixel_selector.py:113-114 | after an 'r' and no later one, the points are exactly the releases that follow it |
| Capture.StopsAppend | pixel_selector.py:106-111 | the stopping keys of a + b are those of a plus those of b |
| Capture.NoStopsBeforeFirst | pixel_selector.py:106-111 | no stopping key precedes the first one |
| Capture.HandleConsumesOneStop | pixel_selector.py:102-111 | a capture that stopped consumed exactly one 'n', 'q' or ESC; one still waiting consumed none |
| Store.Record | pixel_selector.py:65-67 | the appended row holds the points as clicked, `num` equal to their count, and a `fileID` without '/' no longer than the path |
| Store.RecordNamesTheFile | pixel_selector.py:65 | the row's `fileID` is the part of the image path after its last '/' |
| Store.RecordOfJoin | pixel_selector.py:65 | an image found by listing the directory is recorded under its plain name |
| Store.Resumed | pixel_selector.py:53 | the resumed ledger has one row per saved row: `fileID` joined to the directory, `num` and `coords` as saved |
| Store.ResumeQueue | pixel_selector.py:54 | a path stays queued iff it was queued and is not among the labelled entries |
| Store.ResumeQueueInOrder | pixel_selector.py:54 | the exclusion keeps queue order: a split queue resumes part by part |
| Store.FixedResumeQueue | pixel_selector.py:53-54 | corrected exclusion: a path stays queued iff its file name is not in the table |
| Runner.Discovered | pixel_selector.py:42 | the queued paths are the image names, in order, each joined to the directory |
| Runner.RunQueue | pixel_selector.py:53-54 | the queue `run` labels is at most the discovered paths, and holds only discovered paths |
| Runner.Session | pixel_selector.py:130-137 | the loop consumes at most the events given and records at most one row per queued image. It records every image when done, fewer when waiting, at least one on a quit |
| Runner.SessionRecordsInQueueOrder | pixel_selector.py:130-134 | row j is recorded for the j-th queued path, under its file name |
| Runner.SessionRecordsEveryEndedImage | pixel_selector.py:133-134 | the loop records one row per capture that ended, as many as the stopping keys it consumed |
| Runner.SessionQuitsOnLastEvent | pixel_selector.py:136-137 | the loop ends by a quit iff the last event it consumed is 'q' or ESC |
| Runner.SessionStopsAtFirstQuit | pixel_selector.py:136-137 | no event before the last one consumed is a quit: the loop stops at the first image whose capture asked to quit |
| Runner.RunAsWrittenMixesFileIdForms | pixel_selector.py:53-79 | after a resume, resumed rows hold the joined path and rows added in this run hold a bare name |
| Runner.LastCaptureStartsAfterNext | pixel_selector.py:130-134 | the capture of the last image the loop opened starts within the events, at the first one or right after the 'n' that left the previous image |
| Runner.LastCaptureReadsFromStart | pixel_selector.py:130-133 | that capture reads the events from its start on |
| Runner.QuitEndsLastCapture | pixel_selector.py:130-137 | when the loop ends by a quit, its last capture stopped for the quit and consumed the loop's last events, and the last row is `Record` of that image with the capture's points |
| Runner.SessionQuitRecordsCapture | pixel_selector.py:130-137 | when the loop ends by a quit, its last row is `Record` of the image quit on, with the points held at the quit: those of the capture that starts at the first event or right after the previous image's 'n' and ends on the quit key, the loop's last event |
| Runner.HandleStopsOnLastUsed | pixel_selector.py:102-111 | the last event a capture consumes is the key that stopped it; when the events ran out, it stops nothing |
| Runner.NextIsLastUsed | pixel_selector.py:110-111 | an image left by 'n' was left on the last event its capture consumed |
| Runner.EndOf | pixel_selector.py:136-141 | the run exits with status 1 iff the loop ended by a quit, and returns normally iff every queued image was handled |
| Runner.FileAfter | pixel_selector.py:79 | a run never removes the table; a run that wrote it leaves its ledger, otherwise the table is as it was |
| Runner.RunAsWrittenRuns | pixel_selector.py:127-141 | once images are found, the run's ledger is the resumed rows followed by the loop's rows, written iff the loop recorded a row, and it ends as the loop ends |
| Runner.RunAsWritten | pixel_selector.py:122-141 | no image found: exit status 1 and nothing written. Otherwise the ledger is the resumed rows extended by at most one row per image, and the table is written iff a row was added |
| Runner.RunQuitCommitsCurrentImage | pixel_selector.py:134-137 | an exit with status 1 after images were found always follows a write, and the table's last row is the loop's row for the image quit on: `Record` of that path with the points held at the quit, from the capture that started right after the previous image's 'n' (or at the first event) |
| Runner.ResumeExcludesBareNames | pixel_selector.py:53-54 | with a table of bare names, an image is queued again iff its name is not in the table |
| Runner.DiscoveredExample | pixel_selector.py:34-43 | `a.jpg`, `b.png`, `c.gif` queues the first two, joined to the directory |
| Runner.CaptureExample | pixel_selector.py:89-111 | two clicks then 'n' capture both points in order and consume three events |
| Runner.SessionAfterNext | pixel_selector.py:130-134 | after an 'n', the image is recorded and the loop goes on with the next image and the remaining events |
| Runner.OneImageNextExample | pixel_selector.py:130-134 | one image and a lone 'n' record that image with no points, and the loop is done |
| Runner.FirstRun | pixel_selector.py:127-134 | without a saved table, the ledger is just what the loop records over the discovered images |
| Runner.TwoClicksExample | pixel_selector.py:130-134 | two clicks then 'n' record both points for the first queued image |
| Runner.FirstSessionExample | pixel_selector.py:122-141 | the two-image first session yields rows `a.jpg` (2 points) and `b.png` (0 points) and returns normally |
| Resumption.FixedRunQueue | pixel_selector.py:53-54 | corrected queue: a path is queued iff it was discovered and the saved table lacks its file name |
| Resumption.RunFixed | pixel_selector.py:122-141 | the corrected run: the saved rows are kept unchanged and extended by at most one row per image; written iff a row was added; exit status 1 when nothing was found |
| Resumption.DiscoveredNamesDistinct | pixel_selector.py:42 | distinct plain names in the listing give queued paths with distinct file names |
| Resumption.FixedRunRecordsEachImageOnce | pixel_selector.py:53-54 | corrected resumption: if the table names every image at most once, so does the table after the run |
| Resumption.SessionRecordsQueuedNames | pixel_selector.py:130-134 | the names a session records are those at the front of its queue, in order |
| Resumption.TwoImagesListing | pixel_selector.py:34-36 | the listing `a.jpg`, `b.jpg` holds exactly those two images |
| Resumption.TwoImagesQueued | pixel_selector.py:42 | a listing whose images are `a.jpg` and `b.jpg` queues both, joined to the directory |
| Resumption.JoinRelativeLengthens | pixel_selector.py:53 | joining a relative path to a relative directory lengthens it and keeps it relative |
| Resumption.LoneKeySession | pixel_selector.py:102-137 | a lone stopping key records the first image with no points, then quits or finishes |
| Resumption.ResumedRun | pixel_selector.py:127-130 | with a saved table, the ledger is the resumed rows followed by what the loop records |
| Resumption.ResumeQueueOfTwo | pixel_selector.py:54 | a two-path queue keeps each path that is not labelled, in order |
| Resumption.RelativePathsDiffer | pixel_selector.py:53 | in a relative directory, joining `a.jpg`'s path a second time changes it |
| Resumption.FirstSessionQuits | pixel_selector.py:130-137 | a 'q' on `a.jpg` records `a.jpg` and exits with status 1 |
| Resumption.LoneImageNext | pixel_selector.py:130-134 | one joined plain name and an 'n' record that name bare |
| Resumption.SecondSessionMixesForms | pixel_selector.py:53-79 | the second session writes `a.jpg`'s row with the directory joined to it and `b.jpg`'s bare |
| Resumption.ThirdSessionRelabels | pixel_selector.py:53-54 | the third session queues `a.jpg` again and records it a second time |
| Resumption.JoinedTwiceIsRequeued | pixel_selector.py:53-54 | resuming the second session's table leaves `a.jpg`'s path in the queue |
| Resumption.ThirdSessionOffersLabelledImageAgain | pixel_selector.py:53-54 | as written, three sessions leave `a.jpg`'s file name in two rows, and the third session queues `a.jpg` again |
| LoopState.ProgressStart | pixel_selector.py:130 | before the first image, nothing is recorded and the whole loop is still ahead |
| LoopState.ProgressNext | pixel_selector.py:130-134 | after an 'n' on image k, the loop has recorded one more row, holds image k with its points, and goes on after the consumed events |
| LoopState.ProgressQuit | pixel_selector.py:134-137 | after a quit on image k, the loop's rows end with that image's row, it ends by a quit, and it leaves image k held with its points |
| LoopState.ProgressWaiting | pixel_selector.py:102-104 | when the events run out on image k, nothing more is recorded and image k is left held with the points captured so far |
| LoopState.ProgressDone | pixel_selector.py:130-139 | after the last queued image, the loop is done with the rows recorded so far and leaves held what it holds |
| LoopState.HeldAfterIsLeftAt | pixel_selector.py:130-134 | what the loop leaves held is the last image it recorded with that row's points; when the events ran out, the image being captured with the points of a capture that began at the first event or right after a stop |
| LoopState.LeftAtAfterNext | pixel_selector.py:130-134 | what the rest of the loop leaves after an image left by 'n' is what the whole loop leaves |
| LoopState.WaitingCaptureAfter | pixel_selector.py:102-111 | a capture that ran out of events after a stop is one that began right after a stop in the whole event stream |
| PixelSelector.Selector.Ledger | pixel_selector.py:69-71 | the three parallel columns read as rows: same length, with `fileID`, `num` and `coords` taken index by index |
| PixelSelector.Selector.LedgerIds | pixel_selector.py:69-71 | the `fileID` column of the ledger rows is `labelled_files` |
| PixelSelector.Selector.constructor | pixel_selector.py:18-27 | the ledger path is the directory joined to `coords.xlsx`; the three lists are empty and `keepGoing` is set |
| PixelSelector.Selector.FindImages | pixel_selector.py:29-43 | finds images iff the listing has an image name; then the queue is those names joined to the directory; otherwise the queue is unchanged |
| PixelSelector.Selector.LoadStats | pixel_selector.py:45-58 | with no file nothing changes; with a table the ledger becomes the resumed rows and the queue drops the labelled paths |
| PixelSelector.Selector.LoadStatsFixed | pixel_selector.py:53-56 | corrected load: the ledger is the table as saved, and the queue drops paths whose file name it records |
| PixelSelector.Selector.SaveStats | pixel_selector.py:60-79 | appends exactly one row (basename, point count, points) to the three columns, keeps them of equal length, and returns the whole table |
| PixelSelector.Selector.ImageHandler | pixel_selector.py:81-115 | the loop over events computes `Handle([], events)`: the points, how it stopped and how many events it used; `keepGoing` is cleared iff it stopped for a quit |
| PixelSelector.Selector.LabelImage | pixel_selector.py:132-134 | one turn of the loop: `imgPath` becomes the path; capture, then append that image's row when the capture stopped |
| PixelSelector.Selector.LabelQueue | pixel_selector.py:130-139 | the loop appends exactly `Session`'s rows, writes the table iff it appended a row, and ends as `Session` ends. `keepGoing` is cleared iff it exits with status 1, and `imgPath`/`theseCoords` are left as `HeldAfter` says |
| PixelSelector.Selector.Run | pixel_selector.py:122-141 | the ledger, the write flag and the ending are those of `RunAsWritten`. With images found, `unlabelledFiles` is `RunQueue`, `keepGoing` is cleared iff it exits with status 1, and the current image and its points are `HeldAfter` over that queue. With none found, nothing else changes |
| PixelSelector.Selector.RunCorrected | pixel_selector.py:122-141 | with the corrected load, the ledger and results are those of `RunFixed`; the queue is `FixedRunQueue`, and the other fields are as for `Run` |

## Left out

- OpenCV rendering and windows (pixel_selector.py:92-99, 103, 115-117) are not modelled. Drawing markers and restoring the clone do not affect the data. The window's input is the `Event` sequence.
- Reading and writing the Excel file through pandas and numpy (pixel_selector.py:52, 55-56, 73-79) is not modelled:
  - the table read is the `file` parameter, and `os.path.isfile` is whether it is present;
  - the table written is what `SaveStats` returns;
  - `num` is taken from the saved table as is, as the source does.
- JSON encoding of `coords` (pixel_selector.py:55, 66) is not modelled. Points are kept decoded. After a resume the source's `coords` list mixes decoded lists with JSON strings; the model does not distinguish them.
- `os.listdir` (pixel_selector.py:35) is the `listing` parameter. The entry's kind is not checked, as in the source.
- Path handling is POSIX `os.path` (`posixpath`): '/' is the only separator and a leading '/' makes a path absolute. Windows `ntpath` is not modelled: its backslash separator and its drive letters.
- `Discovery.LowerChar`: `str.lower()` is modelled for ASCII letters only. Other Unicode case mappings are not modelled.
- `print` messages (pixel_selector.py:39, 139) are not modelled. `sys.exit(1)` is `Exit(1)`.
- The capture waits for input without a timeout. When the events run out mid-capture, the model stops with `Waiting` (`AwaitingInput`) and saves nothing for that image. The program would block instead.
- Concurrency is not modelled. The mouse callback runs between `waitKey` polls; the model takes both as one interleaved event sequence.
- Every queued entry is assumed to open as an image. In the source, an entry `cv2.imread` cannot read (pixel_selector.py:96-97) or a missing directory (`os.listdir` at pixel_selector.py:35) ends the run with an exception; neither failure is modelled.
- `main` and its command-line handling (pixel_selector.py:143-153) are not modelled.
- PixelSelector.Selector.Run: requires the state the constructor leaves, because `main` calls `run` once on a fresh `Selector`. A second `run` on the same object is not modelled.
- Integer widths are not modelled: coordinates and key codes are unbounded integers. The key mask `& 0xFF` is written as `% 256`, which agrees with Python's `&` for negative codes too.

## Findings

| source | as written | input that shows it | evidently intended | confidence | as-written member | corrected member |
|---|---|---|---|---|---|---|
| pixel_selector.py:53 | `load_stats` joins each saved `fileID` to the image directory. `save_stats` (pixel_selector.py:65, 69) appends bare file names, and the joined entries are written back as they are. With a relative directory, the next resume joins those entries again, no longer matches them, and queues the image a second time. | a relative directory `d` holding `a.jpg` and `b.jpg`; session 1: 'q'; session 2: 'n'; session 3: 'n'. Session 3 offers `a.jpg` again and the table ends with `d/d/a.jpg`, `d/b.jpg`, `a.jpg` | a resumed image is recognised by its file name in every later session, so each image is recorded at most once | high, not executed | Resumption.ThirdSessionOffersLabelledImageAgain | Resumption.FixedRunRecordsEachImageOnce |

The corrected resumption keeps the saved names bare and compares file
names (`Store.FixedResumeQueue`). `PixelSelector.Selector.RunCorrected`
runs it through the same methods as `Run`, with `LoadStatsFixed` in place
of `LoadStats`.
