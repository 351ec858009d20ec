/**
 * Where the labelling loop of `run` stands between two images, stated
 * against `Session`, and what the loop leaves behind in `imgPath` and
 * `theseCoords` when it stops.
 */
module LoopState {
  import opened Wrappers
  import opened Collections
  import opened Capture
  import opened Store
  import opened Runner

  /** The image the selector holds (`imgPath`) and the points clicked on it (`theseCoords`). */
  datatype Held = Held(path: string, pts: seq<Point>)

  /**
   * What the selector holds when the loop over `queue` stops, starting from
   * `held`: each image the loop opens replaces it, with the points captured
   * on that image, and the loop goes on only past an image left by 'n'.
   */
  function HeldAfter(queue: seq<string>, events: seq<Event>, held: Held): Held
    decreases |queue|
  {
    if queue == [] then held
    else
      var h := Handle([], events);
      var shown := Held(queue[0], h.points);
      if h.stop == Some(NextImage) then HeldAfter(queue[1..], events[h.used..], shown) else shown
  }

  /**
   * The loop has recorded `done` for the first `k` queued images, `input`
   * is what is left of the events and `now` is what the selector holds:
   * what the whole loop records is `done` followed by what the rest of the
   * loop records from `input`, it ends as the rest ends, and it leaves held
   * what the rest leaves from `now`.
   */
  ghost predicate Progress(queue: seq<string>, events: seq<Event>, k: nat, input: seq<Event>, done: seq<Row>, start: Held, now: Held)
  {
    && k <= |queue| && |done| == k
    && var s, rest := Session(queue, events), Session(queue[k..], input);
       && s.rows == done + rest.rows && s.end == rest.end
       && HeldAfter(queue, events, start) == HeldAfter(queue[k..], input, now)
  }

  lemma ProgressStart(queue: seq<string>, events: seq<Event>, start: Held)
    ensures Progress(queue, events, 0, events, [], start, start)
  {
    assert queue[0..] == queue;
  }

  /** The capture of image `k` ended with 'n': it is recorded, held, and the loop goes on after the events it consumed. */
  lemma ProgressNext(queue: seq<string>, events: seq<Event>, k: nat, input: seq<Event>, done: seq<Row>, start: Held, now: Held, pts: seq<Point>, used: nat)
    requires Progress(queue, events, k, input, done, start, now) && k < |queue|
    requires Handle([], input) == Handled(pts, Some(NextImage), used)
    ensures Progress(queue, events, k + 1, input[used..], done + [Record(queue[k], pts)], start, Held(queue[k], pts))
  {
    var q := queue[k..];
    SessionAfterNext(q, input);
    assert q[0] == queue[k] && q[1..] == queue[k + 1..];
    var rest := Session(queue[k + 1..], input[used..]);
    AppendAssociates(done, [Record(queue[k], pts)], rest.rows);
  }

  /** The capture of image `k` ended with a quit: it is recorded, held, and the loop ends there. */
  lemma ProgressQuit(queue: seq<string>, events: seq<Event>, k: nat, input: seq<Event>, done: seq<Row>, start: Held, now: Held, pts: seq<Point>, used: nat)
    requires Progress(queue, events, k, input, done, start, now) && k < |queue|
    requires Handle([], input) == Handled(pts, Some(QuitSession), used)
    ensures Session(queue, events).rows == done + [Record(queue[k], pts)]
    ensures Session(queue, events).end == UserQuit
    ensures HeldAfter(queue, events, start) == Held(queue[k], pts)
  {
    assert queue[k..][0] == queue[k];
  }

  /** The events ran out during the capture of image `k`: nothing more is recorded, and image `k` is held. */
  lemma ProgressWaiting(queue: seq<string>, events: seq<Event>, k: nat, input: seq<Event>, done: seq<Row>, start: Held, now: Held, pts: seq<Point>)
    requires Progress(queue, events, k, input, done, start, now) && k < |queue|
    requires Handle([], input).stop.None? && Handle([], input).points == pts
    ensures Session(queue, events).rows == done
    ensures Session(queue, events).end == AwaitingInput
    ensures HeldAfter(queue, events, start) == Held(queue[k], pts)
  {
    assert done + [] == done;
    assert queue[k..][0] == queue[k];
  }

  /** Every queued image was handled: the loop recorded `done`, is done, and holds what it holds now. */
  lemma ProgressDone(queue: seq<string>, events: seq<Event>, input: seq<Event>, done: seq<Row>, start: Held, now: Held)
    requires Progress(queue, events, |queue|, input, done, start, now)
    ensures Session(queue, events).rows == done
    ensures Session(queue, events).end == AllDone
    ensures HeldAfter(queue, events, start) == now
  {
    assert queue[|queue|..] == [] && done + [] == done;
  }

  /**
   * What the loop over `queue` leaves as the current image `path` and its
   * points `pts`, given `path0` and `pts0` before it: unchanged for an empty
   * queue; after a stop, the last image recorded and its points; when the
   * events ran out, the image being captured and what a capture holds that
   * began at the first event or right after one that stopped a capture.
   */
  ghost predicate LeftAt(queue: seq<string>, events: seq<Event>, path0: string, pts0: seq<Point>, path: string, pts: seq<Point>)
  {
    var s := Session(queue, events);
    && (queue == [] ==> path == path0 && pts == pts0)
    && (s.end != AwaitingInput && s.rows != [] ==>
          path == queue[|s.rows| - 1] && pts == s.rows[|s.rows| - 1].coords)
    && (s.end == AwaitingInput ==>
          && path == queue[|s.rows|]
          && exists u: nat :: WaitingCapture(events, u, pts))
  }

  /** The capture that began at event `u` (the first, or right after a stop) ran out of events holding `pts`. */
  predicate WaitingCapture(events: seq<Event>, u: nat, pts: seq<Point>)
  {
    && u <= |events| && (u == 0 || StopOf(events[u - 1]).Some?)
    && Handle([], events[u..]) == Handled(pts, None, |events| - u)
  }

  /**
   * What the loop leaves held is the last image it recorded, with the points
   * recorded for it, or, when the events ran out, the image being captured
   * with the points of the capture that ran out.
   */
  lemma {:induction false} HeldAfterIsLeftAt(queue: seq<string>, events: seq<Event>, held: Held)
    ensures var r := HeldAfter(queue, events, held);
      LeftAt(queue, events, held.path, held.pts, r.path, r.pts)
    decreases |queue|
  {
    if queue != [] {
      var h := Handle([], events);
      var shown := Held(queue[0], h.points);
      match h.stop
      case None =>
        assert WaitingCapture(events, 0, h.points) by {
          assert events[0..] == events;
        }
      case Some(QuitSession) =>
      case Some(NextImage) =>
        var more := events[h.used..];
        HeldAfterIsLeftAt(queue[1..], more, shown);
        LeftAtAfterNext(queue, events, held, HeldAfter(queue[1..], more, shown));
    }
  }

  /** What the rest of the loop leaves after an image left by 'n' is what the whole loop leaves. */
  lemma LeftAtAfterNext(queue: seq<string>, events: seq<Event>, held: Held, r: Held)
    requires queue != [] && Handle([], events).stop == Some(NextImage)
    requires var h := Handle([], events);
      LeftAt(queue[1..], events[h.used..], queue[0], h.points, r.path, r.pts)
    ensures LeftAt(queue, events, held.path, held.pts, r.path, r.pts)
  {
    var h := Handle([], events);
    var more := events[h.used..];
    var rest := Session(queue[1..], more);
    SessionAfterNext(queue, events);
    if rest.end == AwaitingInput {
      var v: nat :| WaitingCapture(more, v, r.pts);
      NextIsLastUsed(events, h.used);
      WaitingCaptureAfter(events, h.used, v, r.pts);
      assert queue[1..][|rest.rows|] == queue[|rest.rows| + 1];
    } else if rest.rows != [] {
      assert queue[1..][|rest.rows| - 1] == queue[|rest.rows|];
    }
  }

  /** A capture that ran out after the first `used` events, which end with a stop, is one of the whole input. */
  lemma WaitingCaptureAfter(events: seq<Event>, used: nat, v: nat, pts: seq<Point>)
    requires 1 <= used <= |events| && StopOf(events[used - 1]).Some?
    requires WaitingCapture(events[used..], v, pts)
    ensures WaitingCapture(events, used + v, pts)
  {
    assert events[used..][v..] == events[used + v..];
    if v != 0 {
      assert events[used + v - 1] == events[used..][v - 1];
    }
  }
}
