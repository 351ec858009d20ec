/**
 * Per-image capture (`Selector.image_handler`): the window's mouse and
 * keyboard input is an abstract stream of events, and this module says what
 * the handler makes of a stream.
 */
module Capture {
  import opened Wrappers
  import opened Collections

  /** A clicked pixel. */
  datatype Point = Point(x: int, y: int)

  /** OpenCV's code for "left button released" (`cv2.EVENT_LBUTTONUP`). */
  const LButtonUp: int := 4
  /** The escape key. */
  const Esc: int := 27

  datatype Event =
    | Mouse(kind: int, x: int, y: int)  // one call of the mouse callback, with OpenCV's event code
    | Key(raw: int)                     // one result of `cv2.waitKey(1)`; -1 when no key was pressed

  /** The key the handler compares: the raw code masked with 0xFF (Python's `&` on a negative int agrees with `%`). */
  function KeyCode(raw: int): (k: int)
    ensures 0 <= k < 256
    ensures 0 <= raw < 256 ==> k == raw
    ensures raw == -1 ==> k == 255
  {
    raw % 256
  }

  /** How an image's capture ends. */
  datatype Stop = NextImage | QuitSession

  /** ESC or 'q' end the image and the session, 'n' ends the image; nothing else stops. */
  function StopOf(e: Event): (r: Option<Stop>)
    ensures r.Some? ==> e.Key? && !IsReset(e) && ClickOf(e) == []
  {
    match e
    case Key(raw) =>
      if KeyCode(raw) == Esc || KeyCode(raw) == 'q' as int then Some(QuitSession)
      else if KeyCode(raw) == 'n' as int then Some(NextImage)
      else None
    case Mouse(_, _, _) => None
  }

  /** 'r' clears the points; it is a key, so it never adds one. */
  predicate IsReset(e: Event)
    ensures IsReset(e) ==> e.Key? && ClickOf(e) == []
  {
    e.Key? && KeyCode(e.raw) == 'r' as int
  }

  /** The point an event adds: one for a left-button release, none otherwise. */
  function ClickOf(e: Event): (r: seq<Point>)
    ensures r != [] <==> e.Mouse? && e.kind == LButtonUp
    ensures r != [] ==> r == [Point(e.x, e.y)]
  {
    if e.Mouse? && e.kind == LButtonUp then [Point(e.x, e.y)] else []
  }

  /** Every point clicked in `es`, in click order. */
  function Clicks(es: seq<Event>): (r: seq<Point>)
    ensures |r| <= |es|
  {
    if es == [] then [] else ClickOf(es[0]) + Clicks(es[1..])
  }

  /** What one event that does not stop the capture does to the points so far. */
  function Apply(pts: seq<Point>, e: Event): (r: seq<Point>)
    ensures IsReset(e) ==> r == []
    ensures !IsReset(e) ==> pts <= r && |r| <= |pts| + 1
  {
    if IsReset(e) then [] else pts + ClickOf(e)
  }

  /**
   * The handler's result: the points it holds, how it stopped (None: the
   * stream ran out while it was still waiting for input) and how many
   * events it consumed.
   */
  datatype Handled = Handled(points: seq<Point>, stop: Option<Stop>, used: nat)

  /** The handler's loop run on `es`, starting from the points `pts`. */
  function Handle(pts: seq<Point>, es: seq<Event>): (h: Handled)
    ensures h.used <= |es|
    ensures h.stop.None? ==> h.used == |es|
    ensures h.stop.Some? ==> 1 <= h.used
    decreases |es|
  {
    if es == [] then Handled(pts, None, 0)
    else if StopOf(es[0]).Some? then Handled(pts, StopOf(es[0]), 1)
    else
      var h := Handle(Apply(pts, es[0]), es[1..]);
      Handled(h.points, h.stop, h.used + 1)
  }

  /** The position of the first event that stops the capture, or |es| when none does. */
  function FirstStop(es: seq<Event>): (k: nat)
    ensures k <= |es|
    ensures forall j :: 0 <= j < k ==> StopOf(es[j]).None?
    ensures k < |es| ==> StopOf(es[k]).Some?
  {
    if es == [] || StopOf(es[0]).Some? then 0 else 1 + FirstStop(es[1..])
  }

  /**
   * The handler stops at the first 'n', 'q' or ESC, consuming it and no
   * more, and keeps waiting (consuming everything) when there is none.
   */
  lemma {:induction false} HandleEndsAtFirstStop(pts: seq<Point>, es: seq<Event>)
    ensures var h := Handle(pts, es); var k := FirstStop(es);
      && h.stop == (if k < |es| then StopOf(es[k]) else None)
      && h.used == (if k < |es| then k + 1 else |es|)
    decreases |es|
  {
    if es != [] && StopOf(es[0]).None? {
      HandleEndsAtFirstStop(Apply(pts, es[0]), es[1..]);
    }
  }

  /**
   * The points held when the capture stops are those clicked after the last
   * 'r' before the stop, in click order; with no 'r' they follow the points
   * held on entry. `k` is the position just after that last 'r' (0 when
   * there is none).
   */
  lemma HandleKeepsClicksSinceLastReset(pts: seq<Point>, es: seq<Event>, k: nat)
    requires k <= FirstStop(es)
    requires k == 0 || IsReset(es[k - 1])
    requires forall j :: k <= j < FirstStop(es) ==> !IsReset(es[j])
    ensures Handle(pts, es).points == (if k == 0 then pts else []) + Clicks(es[k..FirstStop(es)])
  {
    if k == 0 {
      HandleKeepsAllClicks(pts, es, FirstStop(es));
    } else {
      HandleClicksAfterReset(pts, es, k, FirstStop(es));
    }
  }

  /** With no 'r' before the stop, the clicks are added to the points held on entry. */
  lemma {:induction false} HandleKeepsAllClicks(pts: seq<Point>, es: seq<Event>, n: nat)
    requires n == FirstStop(es)
    requires forall j :: 0 <= j < n ==> !IsReset(es[j])
    ensures Handle(pts, es).points == pts + Clicks(es[..n])
    decreases |es|
  {
    if n == 0 {
      assert es[..n] == [];
    } else {
      var rest := es[1..];
      var c := ClickOf(es[0]);
      assert Handle(pts, es).points == Handle(pts + c, rest).points by {
        assert StopOf(es[0]).None? && !IsReset(es[0]);
      }
      assert Handle(pts + c, rest).points == (pts + c) + Clicks(rest[..n - 1]) by {
        NoResetAfter(es, 1, n);
        HandleKeepsAllClicks(pts + c, rest, n - 1);
      }
      assert Clicks(es[..n]) == c + Clicks(rest[..n - 1]) by {
        assert es[..n][0] == es[0] && es[..n][1..] == rest[..n - 1];
      }
      AppendAssociates(pts, c, Clicks(rest[..n - 1]));
    }
  }

  /** After an 'r' at `k - 1` and none later, the points are the clicks from `k` on. */
  lemma {:induction false} HandleClicksAfterReset(pts: seq<Point>, es: seq<Event>, k: nat, n: nat)
    requires n == FirstStop(es) && 1 <= k <= n
    requires IsReset(es[k - 1])
    requires forall j :: k <= j < n ==> !IsReset(es[j])
    ensures Handle(pts, es).points == Clicks(es[k..n])
    decreases |es|
  {
    var rest := es[1..];
    var p := Apply(pts, es[0]);
    assert StopOf(es[0]).None?;
    assert Handle(pts, es).points == Handle(p, rest).points;
    NoResetAfter(es, k, n);
    assert rest[k - 1..n - 1] == es[k..n];
    if k == 1 {
      assert p == [];
      HandleKeepsAllClicks(p, rest, n - 1);
      assert rest[..n - 1] == rest[0..n - 1];
    } else {
      HandleClicksAfterReset(p, rest, k - 1, n - 1);
    }
  }

  /** No reset among `es[k..n]` is no reset among the same events seen from `es[1..]`. */
  lemma NoResetAfter(es: seq<Event>, k: nat, n: nat)
    requires 1 <= k <= n <= |es|
    requires forall j :: k <= j < n ==> !IsReset(es[j])
    ensures forall j :: k - 1 <= j < n - 1 ==> !IsReset(es[1..][j])
  {
    forall j | k - 1 <= j < n - 1
      ensures !IsReset(es[1..][j])
    {
      assert es[1..][j] == es[j + 1];
    }
  }

  /** Number of events in `es` that stop a capture. */
  function Stops(es: seq<Event>): nat
  {
    if es == [] then 0 else (if StopOf(es[0]).Some? then 1 else 0) + Stops(es[1..])
  }

  lemma {:induction false} StopsAppend(a: seq<Event>, b: seq<Event>)
    ensures Stops(a + b) == Stops(a) + Stops(b)
  {
    if a == [] {
      assert a + b == b;
    } else {
      assert (a + b)[0] == a[0];
      assert (a + b)[1..] == a[1..] + b;
      StopsAppend(a[1..], b);
    }
  }

  lemma {:induction false} NoStopsBeforeFirst(es: seq<Event>, k: nat)
    requires k <= FirstStop(es)
    ensures Stops(es[..k]) == 0
  {
    if k > 0 {
      assert es[..k][1..] == es[1..][..k - 1];
      NoStopsBeforeFirst(es[1..], k - 1);
    }
  }

  /** A capture that stopped consumed exactly one stopping event; one still waiting consumed none. */
  lemma HandleConsumesOneStop(pts: seq<Point>, es: seq<Event>)
    ensures var h := Handle(pts, es);
      Stops(es[..h.used]) == (if h.stop.Some? then 1 else 0)
  {
    var h := Handle(pts, es);
    var k := FirstStop(es);
    HandleEndsAtFirstStop(pts, es);
    NoStopsBeforeFirst(es, k);
    if k < |es| {
      assert es[..h.used] == es[..k] + [es[k]];
      StopsAppend(es[..k], [es[k]]);
    } else {
      assert es[..h.used] == es[..k];
    }
  }
}
