/**
 * One iteration of the gesture-to-mouse loop of handgesturetest.py, as a
 * function from the loop's state and one frame's observations to the new
 * state and the mouse/scroll calls the iteration makes.  Time is in integer
 * milliseconds; the cursor position is a real.
 */
module GestureControl {
  import opened Wrappers
  import opened HandLandmarks

  // Working frame and cursor constants of `main`.
  const FrameW := 640
  const FrameH := 480
  const FrameR := 100
  const Smooth: real := 8.0
  const StabThresh: nat := 10
  const StabRad: real := 10.0
  const ScrollDownSpeed := -60
  const ScrollUpSpeed := 60

  // Timing constants, in milliseconds.
  const CtrlToggleHoldMs := 800
  const CtrlCooldownMs := 1000
  const PinchClickCooldownMs := 200
  const KeyDebounceMs := 200

  const PinchRatio: real := 0.25
  const PinchMinPx: nat := 18

  /** `ord('g')` and `ord('q')`. */
  const KeyG := 103
  const KeyQ := 113

  datatype Point = Point(x: real, y: real)

  /** The screen size `autopy.screen.size()` reports. */
  datatype Screen = Screen(w: real, h: real)

  predicate ValidScreen(scr: Screen)
  {
    scr.w >= 0.0 && scr.h >= 0.0
  }

  predicate OnScreen(p: Point, scr: Screen)
  {
    0.0 <= p.x <= scr.w && 0.0 <= p.y <= scr.h
  }

  /** The variables of `main` that survive from one loop iteration to the next. */
  datatype CtrlState = CtrlState(
    controlEnabled: bool,
    tagFinger: bool,
    ctrlLastToggle: int,
    ctrlHoldStarted: Option<int>,
    pinchEngaged: bool,
    pinchLastClick: int,
    hold: bool,
    prev: Point,
    stabBuf: seq<Point>)

  /** The state before the first frame. */
  const Initial := CtrlState(true, true, 0, None, false, 0, false, Point(0.0, 0.0), [])

  /** Which branch made an `autopy.mouse.click()`; both are the same left click. */
  datatype ClickCause = Stabilised | Pinch

  /** The mouse and scroll calls one iteration makes, in order. */
  datatype Action =
    | MouseMove(x: real, y: real)   // autopy.mouse.move
    | Click(cause: ClickCause)      // autopy.mouse.click
    | ButtonDown                    // autopy.mouse.toggle(down=True)
    | ButtonUp                      // autopy.mouse.toggle(down=False)
    | Scroll(amount: int)           // pyautogui.scroll

  /** A state together with the calls made to reach it. */
  datatype Out = Out(st: CtrlState, acts: seq<Action>)

  /**
   * What one camera frame provides: the landmark list (empty when no hand is
   * seen), the clock at the start of hand processing, the raw key code from
   * `cv2.waitKey`, and the clock when the key is handled.
   */
  datatype Frame = Frame(landmarks: seq<Landmark>, now: int, rawKey: int, keyNow: int)

  predicate FrameOk(fr: Frame)
  {
    |fr.landmarks| == 0 || |fr.landmarks| >= HandLandmarkCount
  }

  datatype StepResult = StepResult(st: CtrlState, acts: seq<Action>, quit: bool)

  /** `k & 0xFF`. */
  function KeyByte(raw: int): (k: int)
    ensures 0 <= k < 256
    ensures 0 <= raw < 256 ==> k == raw
    ensures (raw - k) % 256 == 0
  {
    raw % 256
  }

  /** `np.interp(v, (lo, hi), (0, outHi))`: linear between the ends, clamped outside them. */
  function Interp(v: int, lo: int, hi: int, outHi: real): (r: real)
    requires lo < hi
    ensures 0.0 <= outHi ==> 0.0 <= r <= outHi
    ensures v <= lo ==> r == 0.0
    ensures hi <= v ==> r == outHi
  {
    if v <= lo then 0.0
    else if v >= hi then outHi
    else
      var t := (v - lo) as real / (hi - lo) as real;
      assert 0.0 < t < 1.0;
      assert 0.0 <= outHi ==> 0.0 <= t * outHi <= outHi by {
        if 0.0 <= outHi {
          assert outHi - t * outHi == (1.0 - t) * outHi;
        }
      }
      t * outHi
  }

  /** The smoothed cursor target for index-tip pixel (x1, y1): a step of 1/`Smooth` toward the mapped point. */
  function SmoothedCursor(prev: Point, x1: int, y1: int, scr: Screen): (c: Point)
    ensures ValidScreen(scr) && OnScreen(prev, scr) ==> OnScreen(c, scr)
  {
    var x3 := Interp(x1, FrameR, FrameW - FrameR, scr.w);
    var y3 := Interp(y1, FrameR, FrameH - FrameR, scr.h);
    Point(prev.x + (x3 - prev.x) / Smooth, prev.y + (y3 - prev.y) / Smooth)
  }

  /**
   * Append to the stabilisation buffer and drop its oldest entry when it grows
   * past `StabThresh`.
   */
  function PushStab(buf: seq<Point>, p: Point): (r: seq<Point>)
    ensures |buf| <= StabThresh ==> |r| == if |buf| < StabThresh then |buf| + 1 else StabThresh
  {
    var b := buf + [p];
    if |b| > StabThresh then b[1..] else b
  }

  /** The newest `StabThresh` positions of `ps` (all of them when there are fewer), oldest first. */
  function Newest(ps: seq<Point>): (r: seq<Point>)
    ensures |r| <= StabThresh && |r| <= |ps|
  {
    if |ps| <= StabThresh then ps else ps[|ps| - StabThresh..]
  }

  /** Pushing the positions `ps` one after another. */
  function PushAll(buf: seq<Point>, ps: seq<Point>): seq<Point>
    decreases |ps|
  {
    if ps == [] then buf else PushAll(PushStab(buf, ps[0]), ps[1..])
  }

  /** A push onto a buffer within bounds keeps the newest positions, oldest first. */
  lemma PushStabNewest(buf: seq<Point>, p: Point)
    requires |buf| <= StabThresh
    ensures PushStab(buf, p) == Newest(buf + [p])
  {
  }

  /** Trimming to the newest positions before appending more changes nothing in the end. */
  lemma NewestAppend(xs: seq<Point>, ys: seq<Point>)
    ensures Newest(Newest(xs) + ys) == Newest(xs + ys)
  {
    if |xs| > StabThresh {
      var k := |xs| - StabThresh;
      assert (xs + ys)[k..] == xs[k..] + ys;
      assert (xs + ys)[|xs + ys| - StabThresh..] == (xs[k..] + ys)[|xs[k..] + ys| - StabThresh..];
    }
  }

  /**
   * However many positions are pushed, the buffer holds the newest
   * `StabThresh` of everything it has seen, oldest first.
   */
  lemma {:induction false} PushAllNewest(buf: seq<Point>, ps: seq<Point>)
    requires |buf| <= StabThresh
    ensures PushAll(buf, ps) == Newest(buf + ps)
    decreases |ps|
  {
    if ps == [] {
      assert buf + ps == buf;
    } else {
      var b := PushStab(buf, ps[0]);
      PushStabNewest(buf, ps[0]);
      PushAllNewest(b, ps[1..]);
      NewestAppend(buf + [ps[0]], ps[1..]);
      assert buf + [ps[0]] + ps[1..] == buf + ps;
    }
  }

  /** `norm(p - q) < StabRad`, compared on squares. */
  predicate Near(p: Point, q: Point)
  {
    (p.x - q.x) * (p.x - q.x) + (p.y - q.y) * (p.y - q.y) < StabRad * StabRad
  }

  /** Every buffered position lies within `StabRad` of the oldest one. */
  predicate AllNearFirst(buf: seq<Point>)
    requires |buf| > 0
  {
    forall i :: 0 <= i < |buf| ==> Near(buf[i], buf[0])
  }

  /** Move the cursor toward the index tip, remember it, and buffer it. */
  function MoveCursor(s: CtrlState, x1: int, y1: int, scr: Screen): (o: Out)
    ensures o.st == s.(prev := o.st.prev, stabBuf := PushStab(s.stabBuf, o.st.prev))
    ensures o.acts == [MouseMove(scr.w - o.st.prev.x, o.st.prev.y)]
    ensures ValidScreen(scr) && OnScreen(s.prev, scr) ==> OnScreen(o.st.prev, scr)
  {
    var c := SmoothedCursor(s.prev, x1, y1, scr);
    Out(s.(prev := c, stabBuf := PushStab(s.stabBuf, c)), [MouseMove(scr.w - c.x, c.y)])
  }

  /**
   * The stabilised click: with index and pinky raised, click once the buffer is
   * full and steady, and empty the buffer.
   */
  function StableClick(s: CtrlState, f: seq<int>): (o: Out)
    requires |f| == 5
    ensures o.acts != [] <==>
      f[1] == 1 && f[4] == 1 && |s.stabBuf| == StabThresh && AllNearFirst(s.stabBuf)
    ensures o.acts != [] ==> o.acts == [Click(Stabilised)] && o.st == s.(stabBuf := [])
    ensures o.acts == [] ==> o.st == s
  {
    if f[1] == 1 && f[4] == 1 && |s.stabBuf| == StabThresh && AllNearFirst(s.stabBuf) then
      Out(s.(stabBuf := []), [Click(Stabilised)])
    else
      Out(s, [])
  }

  /** A pinch, with the latch open and the cooldown since the last pinch click passed. */
  predicate PinchFires(s: CtrlState, isPinch: bool, now: int)
  {
    isPinch && !s.pinchEngaged && now - s.pinchLastClick >= PinchClickCooldownMs
  }

  /**
   * The pinch click: fires only when the latch is open and the cooldown has
   * passed, and closes the latch; a frame without a pinch reopens it.
   */
  function PinchClick(s: CtrlState, isPinch: bool, now: int): (o: Out)
    ensures o.acts != [] <==> PinchFires(s, isPinch, now)
    ensures o.acts != [] ==> o.acts == [Click(Pinch)] && o.st.pinchEngaged && o.st.pinchLastClick == now
    ensures o.acts == [] ==> o.st.pinchLastClick == s.pinchLastClick
    ensures o.st.pinchEngaged != s.pinchEngaged ==> (o.st.pinchEngaged <==> isPinch)
    ensures o.st == s.(pinchEngaged := o.st.pinchEngaged, pinchLastClick := o.st.pinchLastClick)
  {
    if PinchFires(s, isPinch, now) then
      Out(s.(pinchEngaged := true, pinchLastClick := now), [Click(Pinch)])
    else if !isPinch then
      Out(s.(pinchEngaged := false), [])
    else
      Out(s, [])
  }

  /** The drag gesture: thumb down and the four fingers up. */
  predicate IsDrag(f: seq<int>)
    requires |f| == 5
  {
    f[0] == 0 && AllAre(f[1..], 1)
  }

  /**
   * Hold-and-drag: press the button when the drag gesture starts, move and
   * buffer the cursor while it lasts, release the button when it ends.
   */
  function HoldDrag(s: CtrlState, f: seq<int>, x1: int, y1: int, scr: Screen): (o: Out)
    requires |f| == 5
    ensures o.st.hold <==> IsDrag(f)
    ensures ValidScreen(scr) && OnScreen(s.prev, scr) ==> OnScreen(o.st.prev, scr)
    ensures |s.stabBuf| <= StabThresh ==> |o.st.stabBuf| <= StabThresh
    ensures o.st == s.(hold := o.st.hold, prev := o.st.prev, stabBuf := o.st.stabBuf)
    ensures IsDrag(f) ==> o.st == MoveCursor(s.(hold := true), x1, y1, scr).st
    ensures !IsDrag(f) ==> o.st.prev == s.prev && o.st.stabBuf == s.stabBuf
    ensures IsDrag(f) ==> o.acts == (if s.hold then [] else [ButtonDown]) + [MouseMove(scr.w - o.st.prev.x, o.st.prev.y)]
    ensures !IsDrag(f) ==> o.acts == if s.hold then [ButtonUp] else []
  {
    if IsDrag(f) then
      var down := if !s.hold then [ButtonDown] else [];
      var m := MoveCursor(s.(hold := true), x1, y1, scr);
      Out(m.st, down + m.acts)
    else if s.hold then
      Out(s.(hold := false), [ButtonUp])
    else
      Out(s, [])
  }

  /** The two scroll checks: all fingers up scrolls down, all fingers down scrolls up. */
  function Scrolls(f: seq<int>): (acts: seq<Action>)
    requires |f| == 5
    ensures |acts| <= 1
    ensures forall a :: a in acts ==> a == Scroll(ScrollDownSpeed) || a == Scroll(ScrollUpSpeed)
    ensures Scroll(ScrollDownSpeed) in acts <==> AllAre(f, 1)
    ensures Scroll(ScrollUpSpeed) in acts <==> AllAre(f, 0)
  {
    AllRaisedAllLoweredExclusive(f);
    (if AllAre(f, 1) then [Scroll(ScrollDownSpeed)] else [])
      + (if AllAre(f, 0) then [Scroll(ScrollUpSpeed)] else [])
  }

  /** The cursor move, made when the index finger is up and the middle finger down. */
  function MoveIfPointing(s: CtrlState, f: seq<int>, x1: int, y1: int, scr: Screen): (o: Out)
    requires |f| == 5
    ensures o.acts != [] <==> f[1] == 1 && f[2] == 0
    ensures forall a :: a in o.acts ==> a.MouseMove?
    ensures o.st == s.(prev := o.st.prev, stabBuf := o.st.stabBuf)
    ensures ValidScreen(scr) && OnScreen(s.prev, scr) ==> OnScreen(o.st.prev, scr)
    ensures |s.stabBuf| <= StabThresh ==> |o.st.stabBuf| <= StabThresh
    ensures f[1] == 1 && f[2] == 0 ==> o == MoveCursor(s, x1, y1, scr)
    ensures !(f[1] == 1 && f[2] == 0) ==> o == Out(s, [])
  {
    if f[1] == 1 && f[2] == 0 then MoveCursor(s, x1, y1, scr) else Out(s, [])
  }

  /** The enabled branch from the hold-and-drag check on: the drag, then the scrolls. */
  function FromHoldDrag(s: CtrlState, f: seq<int>, x1: int, y1: int, scr: Screen): Out
    requires |f| == 5
  {
    var o := HoldDrag(s, f, x1, y1, scr);
    Out(o.st, o.acts + Scrolls(f))
  }

  /** The enabled branch from the pinch click on. */
  function FromPinchClick(s: CtrlState, f: seq<int>, x1: int, y1: int, isPinch: bool, now: int, scr: Screen): Out
    requires |f| == 5
  {
    var o := PinchClick(s, isPinch, now);
    var r := FromHoldDrag(o.st, f, x1, y1, scr);
    Out(r.st, o.acts + r.acts)
  }

  /** The enabled branch from the stabilised click on. */
  function FromStableClick(s: CtrlState, f: seq<int>, x1: int, y1: int, isPinch: bool, now: int, scr: Screen): Out
    requires |f| == 5
  {
    var o := StableClick(s, f);
    var r := FromPinchClick(o.st, f, x1, y1, isPinch, now, scr);
    Out(r.st, o.acts + r.acts)
  }

  /**
   * The gesture actions run while control is enabled, in the source's order:
   * move, stabilised click, pinch click, hold-and-drag, scroll down, scroll up.
   */
  function EnabledActions(s: CtrlState, f: seq<int>, x1: int, y1: int, isPinch: bool, now: int, scr: Screen): Out
    requires |f| == 5
  {
    var o := MoveIfPointing(s, f, x1, y1, scr);
    var r := FromStableClick(o.st, f, x1, y1, isPinch, now, scr);
    Out(r.st, o.acts + r.acts)
  }

  /**
   * The long-press master toggle.  The middle-finger gesture (while `tagFinger`)
   * disables control, the shaka gesture (while not `tagFinger`) enables it; the
   * first frame of either only records when it started, and any other gesture
   * forgets that start.
   */
  function MasterToggle(s: CtrlState, f: seq<int>, now: int): (o: Out)
    // a toggle happens only after a long enough press, outside the cooldown
    ensures o.st.tagFinger != s.tagFinger ==>
      && s.ctrlHoldStarted.Some?
      && now - s.ctrlHoldStarted.value >= CtrlToggleHoldMs
      && now - s.ctrlLastToggle >= CtrlCooldownMs
      && o.st.ctrlLastToggle == now && o.st.ctrlHoldStarted == None
      && o.st.controlEnabled == o.st.tagFinger
      && (if s.tagFinger then IsMiddle(f) && !o.st.controlEnabled else IsShaka(f) && o.st.controlEnabled)
    // a long enough press outside the cooldown does toggle
    ensures && ((IsMiddle(f) && s.tagFinger) || (IsShaka(f) && !s.tagFinger))
            && s.ctrlHoldStarted.Some?
            && now - s.ctrlHoldStarted.value >= CtrlToggleHoldMs
            && now - s.ctrlLastToggle >= CtrlCooldownMs
            ==> o.st.tagFinger != s.tagFinger
    // a press still too short, or inside the cooldown, keeps its start and changes nothing
    ensures && ((IsMiddle(f) && s.tagFinger) || (IsShaka(f) && !s.tagFinger))
            && s.ctrlHoldStarted.Some?
            && !(now - s.ctrlHoldStarted.value >= CtrlToggleHoldMs && now - s.ctrlLastToggle >= CtrlCooldownMs)
            ==> o == Out(s, [])
    // without a toggle nothing but the press start changes
    ensures o.st.tagFinger == s.tagFinger ==> o == Out(s.(ctrlHoldStarted := o.st.ctrlHoldStarted), [])
    // the first frame of the gesture only records its start
    ensures ((IsMiddle(f) && s.tagFinger) || (IsShaka(f) && !s.tagFinger)) && s.ctrlHoldStarted.None? ==>
      o == Out(s.(ctrlHoldStarted := Some(now)), [])
    // any other gesture resets the press
    ensures !(IsMiddle(f) && s.tagFinger) && !(IsShaka(f) && !s.tagFinger) ==>
      o == Out(s.(ctrlHoldStarted := None), [])
    // the pinch latch, the cursor and the buffer are untouched
    ensures o.st.pinchEngaged == s.pinchEngaged && o.st.pinchLastClick == s.pinchLastClick
    ensures o.st.prev == s.prev && o.st.stabBuf == s.stabBuf
    // disabling releases a held button
    ensures o.acts == (if s.hold && !o.st.hold then [ButtonUp] else [])
    ensures o.st.hold ==> o.st.controlEnabled || (s.hold && !s.controlEnabled)
    ensures o.st.controlEnabled ==> o.st.hold == s.hold
    ensures o.st.tagFinger != s.tagFinger && !o.st.controlEnabled ==> !o.st.hold
  {
    if IsMiddle(f) && s.tagFinger then
      match s.ctrlHoldStarted
      case None => Out(s.(ctrlHoldStarted := Some(now)), [])
      case Some(started) =>
        if now - started >= CtrlToggleHoldMs && now - s.ctrlLastToggle >= CtrlCooldownMs then
          var t := s.(controlEnabled := false, tagFinger := false, ctrlLastToggle := now, ctrlHoldStarted := None);
          if t.hold then Out(t.(hold := false), [ButtonUp]) else Out(t, [])
        else
          Out(s, [])
    else if IsShaka(f) && !s.tagFinger then
      match s.ctrlHoldStarted
      case None => Out(s.(ctrlHoldStarted := Some(now)), [])
      case Some(started) =>
        if now - started >= CtrlToggleHoldMs && now - s.ctrlLastToggle >= CtrlCooldownMs then
          Out(s.(controlEnabled := true, tagFinger := true, ctrlLastToggle := now, ctrlHoldStarted := None), [])
        else
          Out(s, [])
    else
      Out(s.(ctrlHoldStarted := None), [])
  }

  /** Everything an iteration does when a hand is in view. */
  function HandStep(s: CtrlState, lms: seq<Landmark>, now: int, scr: Screen): Out
    requires |lms| >= HandLandmarkCount
  {
    var f := Fingers(lms);
    var o1 := MasterToggle(s, f, now);
    var isPinch := PinchState(lms, PinchRatio, PinchMinPx);
    if o1.st.controlEnabled then
      var o2 := EnabledActions(o1.st, f, lms[8].x, lms[8].y, isPinch, now, scr);
      Out(o2.st, o1.acts + o2.acts)
    else if o1.st.hold then
      Out(o1.st.(hold := false), o1.acts + [ButtonUp])
    else
      o1
  }

  /**
   * The keyboard toggle on 'g': outside a 200 ms debounce it flips
   * `controlEnabled` alone, restarts the shared cooldown, and releases a
   * held button when it disables.
   */
  function KeyToggle(s: CtrlState, keyNow: int): (o: Out)
    ensures (o.st.controlEnabled != s.controlEnabled) <==> keyNow - s.ctrlLastToggle >= KeyDebounceMs
    ensures o.st.controlEnabled != s.controlEnabled ==> o.st.ctrlLastToggle == keyNow
    ensures o.st == s.(controlEnabled := o.st.controlEnabled, ctrlLastToggle := o.st.ctrlLastToggle, hold := o.st.hold)
    ensures keyNow - s.ctrlLastToggle < KeyDebounceMs ==> o == Out(s, [])
    ensures o.st.hold ==> s.hold
    ensures o.st.hold != s.hold ==> s.controlEnabled && !o.st.controlEnabled
    ensures s.controlEnabled && !o.st.controlEnabled ==> !o.st.hold
    ensures o.acts == (if s.hold && !o.st.hold then [ButtonUp] else [])
  {
    if keyNow - s.ctrlLastToggle >= KeyDebounceMs then
      var t := s.(controlEnabled := !s.controlEnabled, ctrlLastToggle := keyNow);
      if !t.controlEnabled && t.hold then Out(t.(hold := false), [ButtonUp]) else Out(t, [])
    else
      Out(s, [])
  }

  /** One iteration of `main`'s loop. */
  function Step(s: CtrlState, fr: Frame, scr: Screen): StepResult
    requires FrameOk(fr)
  {
    var o := if |fr.landmarks| != 0 then HandStep(s, fr.landmarks, fr.now, scr) else Out(s, []);
    var k := KeyByte(fr.rawKey);
    var o' := if k == KeyG then KeyToggle(o.st, fr.keyNow) else Out(o.st, []);
    StepResult(o'.st, o.acts + o'.acts, k == KeyQ)
  }

  /** The loop from a state over a sequence of frames, stopping after a 'q'. */
  function Session(s: CtrlState, frames: seq<Frame>, scr: Screen): (o: Out)
    requires forall i :: 0 <= i < |frames| ==> FrameOk(frames[i])
    decreases |frames|
  {
    if frames == [] then Out(s, [])
    else
      var r := Step(s, frames[0], scr);
      if r.quit then Out(r.st, r.acts)
      else
        var rest := Session(r.st, frames[1..], scr);
        Out(rest.st, r.acts + rest.acts)
  }

  // ---------------------------------------------------------------------
  // Counting and replaying calls

  /** How many times `a` occurs in `acts`. */
  function Count(acts: seq<Action>, a: Action): nat
    decreases |acts|
  {
    if acts == [] then 0 else (if acts[0] == a then 1 else 0) + Count(acts[1..], a)
  }

  lemma {:induction false} CountConcat(xs: seq<Action>, ys: seq<Action>, a: Action)
    ensures Count(xs + ys, a) == Count(xs, a) + Count(ys, a)
    decreases |xs|
  {
    if xs == [] {
      assert xs + ys == ys;
    } else {
      assert (xs + ys)[1..] == xs[1..] + ys;
      CountConcat(xs[1..], ys, a);
    }
  }

  lemma {:induction false} CountInIff(acts: seq<Action>, a: Action)
    ensures Count(acts, a) > 0 <==> a in acts
    decreases |acts|
  {
    if acts != [] {
      CountInIff(acts[1..], a);
      assert a in acts <==> acts[0] == a || a in acts[1..];
    }
  }

  /** A list of at most one call holds `a` once if it is `[a]` and not at all otherwise. */
  lemma CountShort(acts: seq<Action>, a: Action)
    requires |acts| <= 1
    ensures Count(acts, a) == if acts == [a] then 1 else 0
  {
    if acts != [] {
      assert acts[1..] == [];
    }
  }

  /**
   * Replays button presses and releases from a button state: `None` when a
   * press comes while pressed or a release while released, otherwise the
   * final button state.
   */
  function ButtonAfter(pressed: bool, acts: seq<Action>): Option<bool>
    decreases |acts|
  {
    if acts == [] then Some(pressed)
    else if acts[0] == ButtonDown then (if pressed then None else ButtonAfter(true, acts[1..]))
    else if acts[0] == ButtonUp then (if pressed then ButtonAfter(false, acts[1..]) else None)
    else ButtonAfter(pressed, acts[1..])
  }

  lemma {:induction false} ButtonAfterConcat(p: bool, a: seq<Action>, q: bool, b: seq<Action>)
    requires ButtonAfter(p, a) == Some(q)
    ensures ButtonAfter(p, a + b) == ButtonAfter(q, b)
    decreases |a|
  {
    if a == [] {
      assert a + b == b;
    } else {
      assert (a + b)[1..] == a[1..] + b;
      if a[0] == ButtonDown {
        ButtonAfterConcat(true, a[1..], q, b);
      } else if a[0] == ButtonUp {
        ButtonAfterConcat(false, a[1..], q, b);
      } else {
        ButtonAfterConcat(p, a[1..], q, b);
      }
    }
  }

  lemma ButtonAfterSingle(p: bool, a: Action)
    ensures ButtonAfter(p, [a]) == if a == ButtonDown then (if p then None else Some(true))
                                   else if a == ButtonUp then (if p then Some(false) else None)
                                   else Some(p)
  {
    assert [a][1..] == [];
  }

  /** Calls that neither press nor release leave the button as it is. */
  lemma {:induction false} ButtonAfterNoButton(p: bool, acts: seq<Action>)
    requires ButtonDown !in acts && ButtonUp !in acts
    ensures ButtonAfter(p, acts) == Some(p)
    decreases |acts|
  {
    if acts != [] {
      assert forall a :: a in acts[1..] ==> a in acts;
      ButtonAfterNoButton(p, acts[1..]);
    }
  }

  // ---------------------------------------------------------------------
  // The enabled branch, phase by phase

  /**
   * What the enabled branch does from some phase on, started in `s` on the
   * fingers `f`: it scrolls down once exactly when all fingers are up and up
   * once exactly when all are down; it presses the button once exactly when the
   * drag gesture is seen while the button is not held; its presses and
   * releases leave the button as the new `hold`, which is set exactly on the
   * drag gesture.
   */
  predicate DragTally(s: CtrlState, f: seq<int>, o: Out)
    requires |f| == 5
  {
    && Count(o.acts, Scroll(ScrollDownSpeed)) == (if AllAre(f, 1) then 1 else 0)
    && Count(o.acts, Scroll(ScrollUpSpeed)) == (if AllAre(f, 0) then 1 else 0)
    && Count(o.acts, ButtonDown) == (if IsDrag(f) && !s.hold then 1 else 0)
    && ButtonAfter(s.hold, o.acts) == Some(o.st.hold)
    && (o.st.hold <==> IsDrag(f))
  }

  /**
   * The pinch click happens once exactly when it fires, and the latch and the
   * cooldown move as the pinch click says.
   */
  predicate PinchTally(s: CtrlState, isPinch: bool, now: int, o: Out)
  {
    && Count(o.acts, Click(Pinch)) == (if PinchFires(s, isPinch, now) then 1 else 0)
    && o.st.pinchLastClick == (if PinchFires(s, isPinch, now) then now else s.pinchLastClick)
    && (o.st.pinchEngaged <==> isPinch && (s.pinchEngaged || PinchFires(s, isPinch, now)))
  }

  /** The buffer stays within `StabThresh` and the cursor on the screen. */
  predicate KeepsBounds(s: CtrlState, o: Out, scr: Screen)
  {
    && (|s.stabBuf| <= StabThresh ==> |o.st.stabBuf| <= StabThresh)
    && (ValidScreen(scr) && OnScreen(s.prev, scr) ==> OnScreen(o.st.prev, scr))
  }

  lemma HoldDragCounts(s: CtrlState, f: seq<int>, x1: int, y1: int, scr: Screen)
    requires |f| == 5
    ensures var o := HoldDrag(s, f, x1, y1, scr);
      && Count(o.acts, ButtonDown) == (if IsDrag(f) && !s.hold then 1 else 0)
      && Click(Pinch) !in o.acts && Scroll(ScrollDownSpeed) !in o.acts && Scroll(ScrollUpSpeed) !in o.acts
      && ButtonAfter(s.hold, o.acts) == Some(o.st.hold)
  {
    var o := HoldDrag(s, f, x1, y1, scr);
    if IsDrag(f) {
      var last := o.acts[|o.acts| - 1];
      CountShort([last], ButtonDown);
      ButtonAfterSingle(true, last);
      if !s.hold {
        CountConcat([ButtonDown], [last], ButtonDown);
        CountShort([ButtonDown], ButtonDown);
        ButtonAfterSingle(false, ButtonDown);
        ButtonAfterConcat(false, [ButtonDown], true, [last]);
      }
    } else {
      CountShort(o.acts, ButtonDown);
      if s.hold {
        ButtonAfterSingle(true, ButtonUp);
      }
    }
  }

  lemma ScrollsCounts(f: seq<int>)
    requires |f| == 5
    ensures var sc := Scrolls(f);
      && Count(sc, Scroll(ScrollDownSpeed)) == (if AllAre(f, 1) then 1 else 0)
      && Count(sc, Scroll(ScrollUpSpeed)) == (if AllAre(f, 0) then 1 else 0)
      && Count(sc, ButtonDown) == 0 && Count(sc, Click(Pinch)) == 0
      && ButtonDown !in sc && ButtonUp !in sc
  {
    var sc := Scrolls(f);
    CountShort(sc, Scroll(ScrollDownSpeed));
    CountShort(sc, Scroll(ScrollUpSpeed));
    CountShort(sc, ButtonDown);
    CountShort(sc, Click(Pinch));
  }

  lemma FromHoldDragTally(s: CtrlState, f: seq<int>, x1: int, y1: int, scr: Screen)
    requires |f| == 5
    ensures var o := FromHoldDrag(s, f, x1, y1, scr);
      && DragTally(s, f, o) && o.st.controlEnabled == s.controlEnabled
      && Count(o.acts, Click(Pinch)) == 0
      && o.st.pinchEngaged == s.pinchEngaged && o.st.pinchLastClick == s.pinchLastClick
      && KeepsBounds(s, o, scr)
  {
    var h := HoldDrag(s, f, x1, y1, scr);
    var sc := Scrolls(f);
    HoldDragCounts(s, f, x1, y1, scr);
    ScrollsCounts(f);
    var down, up := Scroll(ScrollDownSpeed), Scroll(ScrollUpSpeed);
    CountInIff(h.acts, down);
    CountInIff(h.acts, up);
    CountInIff(h.acts, Click(Pinch));
    QuietSuffix(s.hold, h.acts, sc);
  }

  /** Calls that neither press nor release, put behind others, add their counts and leave the button. */
  lemma QuietSuffix(p: bool, xs: seq<Action>, ys: seq<Action>)
    requires ButtonDown !in ys && ButtonUp !in ys
    ensures forall a :: Count(xs + ys, a) == Count(xs, a) + Count(ys, a)
    ensures ButtonAfter(p, xs) != None ==> ButtonAfter(p, xs + ys) == ButtonAfter(p, xs)
  {
    forall a ensures Count(xs + ys, a) == Count(xs, a) + Count(ys, a) {
      CountConcat(xs, ys, a);
    }
    if ButtonAfter(p, xs) != None {
      var q := ButtonAfter(p, xs).value;
      ButtonAfterNoButton(q, ys);
      ButtonAfterConcat(p, xs, q, ys);
    }
  }

  /**
   * Calls that neither scroll nor press nor release, put in front of a part of
   * the enabled branch started from a state with the same `hold`, keep its `DragTally` and add their pinch clicks to its.
   */
  lemma QuietPrefix(s: CtrlState, f: seq<int>, pre: seq<Action>, t: CtrlState, o: Out)
    requires |f| == 5
    requires Scroll(ScrollDownSpeed) !in pre && Scroll(ScrollUpSpeed) !in pre
    requires ButtonDown !in pre && ButtonUp !in pre
    requires t.hold == s.hold
    requires DragTally(t, f, o)
    ensures DragTally(s, f, Out(o.st, pre + o.acts))
    ensures Count(pre + o.acts, Click(Pinch)) == Count(pre, Click(Pinch)) + Count(o.acts, Click(Pinch))
  {
    var down, up := Scroll(ScrollDownSpeed), Scroll(ScrollUpSpeed);
    CountConcat(pre, o.acts, down);
    CountConcat(pre, o.acts, up);
    CountConcat(pre, o.acts, ButtonDown);
    CountConcat(pre, o.acts, Click(Pinch));
    CountInIff(pre, down);
    CountInIff(pre, up);
    CountInIff(pre, ButtonDown);
    ButtonAfterNoButton(s.hold, pre);
    ButtonAfterConcat(s.hold, pre, s.hold, o.acts);
  }

  lemma FromPinchClickTally(s: CtrlState, f: seq<int>, x1: int, y1: int, isPinch: bool, now: int, scr: Screen)
    requires |f| == 5
    ensures var o := FromPinchClick(s, f, x1, y1, isPinch, now, scr);
      && DragTally(s, f, o) && PinchTally(s, isPinch, now, o) && KeepsBounds(s, o, scr)
      && o.st.controlEnabled == s.controlEnabled
  {
    var p := PinchClick(s, isPinch, now);
    var r := FromHoldDrag(p.st, f, x1, y1, scr);
    FromHoldDragTally(p.st, f, x1, y1, scr);
    CountShort(p.acts, Click(Pinch));
    QuietPrefix(s, f, p.acts, p.st, r);
  }

  /**
   * A phase that makes no scroll, press, release or pinch click and changes
   * only the cursor and the buffer, within their bounds, put in front of a
   * part of the enabled branch, keeps that part's tallies.
   */
  lemma QuietLayer(s: CtrlState, f: seq<int>, isPinch: bool, now: int, scr: Screen, pre: seq<Action>, t: CtrlState, o: Out)
    requires |f| == 5
    requires Scroll(ScrollDownSpeed) !in pre && Scroll(ScrollUpSpeed) !in pre
    requires ButtonDown !in pre && ButtonUp !in pre && Click(Pinch) !in pre
    requires t == s.(prev := t.prev, stabBuf := t.stabBuf) && KeepsBounds(s, Out(t, pre), scr)
    requires DragTally(t, f, o) && PinchTally(t, isPinch, now, o) && KeepsBounds(t, o, scr)
    requires o.st.controlEnabled == t.controlEnabled
    ensures var r := Out(o.st, pre + o.acts);
      && DragTally(s, f, r) && PinchTally(s, isPinch, now, r) && KeepsBounds(s, r, scr)
      && r.st.controlEnabled == s.controlEnabled
  {
    QuietPrefix(s, f, pre, t, o);
    CountInIff(pre, Click(Pinch));
  }

  /** The pinch click and what follows it, behind a phase that changes only the buffer. */
  lemma AfterBufferOnly(s: CtrlState, f: seq<int>, x1: int, y1: int, isPinch: bool, now: int, scr: Screen,
                        pre: seq<Action>, t: CtrlState)
    requires |f| == 5
    requires pre == [] || pre == [Click(Stabilised)]
    requires t == s.(stabBuf := t.stabBuf) && |t.stabBuf| <= |s.stabBuf|
    ensures var r := FromPinchClick(t, f, x1, y1, isPinch, now, scr);
      var o := Out(r.st, pre + r.acts);
      && DragTally(s, f, o) && PinchTally(s, isPinch, now, o) && KeepsBounds(s, o, scr)
      && o.st.controlEnabled == s.controlEnabled
  {
    var r := FromPinchClick(t, f, x1, y1, isPinch, now, scr);
    FromPinchClickTally(t, f, x1, y1, isPinch, now, scr);
    QuietLayer(s, f, isPinch, now, scr, pre, t, r);
  }

  lemma FromStableClickTally(s: CtrlState, f: seq<int>, x1: int, y1: int, isPinch: bool, now: int, scr: Screen)
    requires |f| == 5
    ensures var o := FromStableClick(s, f, x1, y1, isPinch, now, scr);
      && DragTally(s, f, o) && PinchTally(s, isPinch, now, o) && KeepsBounds(s, o, scr)
      && o.st.controlEnabled == s.controlEnabled
  {
    var c := StableClick(s, f);
    AfterBufferOnly(s, f, x1, y1, isPinch, now, scr, c.acts, c.st);
  }

  /**
   * The whole enabled branch: its scrolls, presses and pinch clicks are those
   * `DragTally` and `PinchTally` describe, and it keeps the buffer and cursor
   * bounds.
   */
  lemma EnabledTally(s: CtrlState, f: seq<int>, x1: int, y1: int, isPinch: bool, now: int, scr: Screen)
    requires |f| == 5
    ensures var o := EnabledActions(s, f, x1, y1, isPinch, now, scr);
      && DragTally(s, f, o) && PinchTally(s, isPinch, now, o) && KeepsBounds(s, o, scr)
      && o.st.controlEnabled == s.controlEnabled
  {
    var m := MoveIfPointing(s, f, x1, y1, scr);
    var r := FromStableClick(m.st, f, x1, y1, isPinch, now, scr);
    FromStableClickTally(m.st, f, x1, y1, isPinch, now, scr);
    QuietLayer(s, f, isPinch, now, scr, m.acts, m.st, r);
  }

  // ---------------------------------------------------------------------
  // Invariant of the loop

  /**
   * What holds at the end of every iteration: the button is never held while
   * control is disabled, the buffer never exceeds `StabThresh`, and the
   * remembered cursor stays on the screen.
   */
  predicate Inv(s: CtrlState, scr: Screen)
  {
    && (!s.controlEnabled ==> !s.hold)
    && |s.stabBuf| <= StabThresh
    && OnScreen(s.prev, scr)
  }

  lemma InitialInv(scr: Screen)
    requires ValidScreen(scr)
    ensures Inv(Initial, scr)
  {
  }

  /** The part of an iteration that sees a hand keeps the invariant. */
  lemma HandStepKeepsInv(s: CtrlState, lms: seq<Landmark>, now: int, scr: Screen)
    requires ValidScreen(scr) && Inv(s, scr) && |lms| >= HandLandmarkCount
    ensures Inv(HandStep(s, lms, now, scr).st, scr)
  {
    var f := Fingers(lms);
    var o1 := MasterToggle(s, f, now);
    if o1.st.controlEnabled {
      EnabledTally(o1.st, f, lms[8].x, lms[8].y, PinchState(lms, PinchRatio, PinchMinPx), now, scr);
    }
  }

  lemma StepKeepsInv(s: CtrlState, fr: Frame, scr: Screen)
    requires ValidScreen(scr) && Inv(s, scr) && FrameOk(fr)
    ensures Inv(Step(s, fr, scr).st, scr)
  {
    if |fr.landmarks| != 0 {
      HandStepKeepsInv(s, fr.landmarks, fr.now, scr);
    }
  }

  /** The invariant holds after every iteration of any run. */
  lemma {:induction false} SessionKeepsInv(s: CtrlState, frames: seq<Frame>, scr: Screen)
    requires ValidScreen(scr) && Inv(s, scr)
    requires forall i :: 0 <= i < |frames| ==> FrameOk(frames[i])
    ensures Inv(Session(s, frames, scr).st, scr)
    decreases |frames|
  {
    if frames != [] {
      StepKeepsInv(s, frames[0], scr);
      var r := Step(s, frames[0], scr);
      if !r.quit {
        SessionKeepsInv(r.st, frames[1..], scr);
      }
    }
  }

  // ---------------------------------------------------------------------
  // One iteration, counted

  /** The hand part of an iteration, split into the gesture toggle and what follows it. */
  lemma HandStepParts(s: CtrlState, lms: seq<Landmark>, now: int, scr: Screen)
    requires |lms| >= HandLandmarkCount
    ensures var f := Fingers(lms);
      var o1 := MasterToggle(s, f, now);
      var isPinch := PinchState(lms, PinchRatio, PinchMinPx);
      var o := HandStep(s, lms, now, scr);
      && (o1.st.controlEnabled ==>
            var e := EnabledActions(o1.st, f, lms[8].x, lms[8].y, isPinch, now, scr);
            && DragTally(s, f, o) && PinchTally(s, isPinch, now, o)
            && (forall a :: Count(o.acts, a) == Count(o1.acts, a) + Count(e.acts, a)))
      && (!o1.st.controlEnabled ==>
            && o.acts == o1.acts + (if o1.st.hold then [ButtonUp] else [])
            && o.st.pinchEngaged == s.pinchEngaged && o.st.pinchLastClick == s.pinchLastClick
            && ButtonAfter(s.hold, o.acts) == Some(o.st.hold))
      && ButtonAfter(s.hold, o1.acts) == Some(o1.st.hold)
  {
    var f := Fingers(lms);
    var o1 := MasterToggle(s, f, now);
    var isPinch := PinchState(lms, PinchRatio, PinchMinPx);
    if o1.acts != [] { ButtonAfterSingle(s.hold, ButtonUp); }
    if o1.st.controlEnabled {
      var e := EnabledActions(o1.st, f, lms[8].x, lms[8].y, isPinch, now, scr);
      EnabledTally(o1.st, f, lms[8].x, lms[8].y, isPinch, now, scr);
      QuietPrefix(s, f, o1.acts, o1.st, e);
      forall a ensures Count(o1.acts + e.acts, a) == Count(o1.acts, a) + Count(e.acts, a) {
        CountConcat(o1.acts, e.acts, a);
      }
    } else if o1.st.hold {
      ButtonAfterSingle(true, ButtonUp);
      ButtonAfterConcat(s.hold, o1.acts, true, [ButtonUp]);
    }
  }

  /**
   * The button presses and releases one iteration emits are consistent with
   * `hold` (never a press while pressed, never a release while released) and
   * leave the physical button exactly as the new `hold` says.
   */
  lemma StepTracksButton(s: CtrlState, fr: Frame, scr: Screen)
    requires FrameOk(fr)
    ensures ButtonAfter(s.hold, Step(s, fr, scr).acts) == Some(Step(s, fr, scr).st.hold)
  {
    var o := if |fr.landmarks| != 0 then HandStep(s, fr.landmarks, fr.now, scr) else Out(s, []);
    if |fr.landmarks| != 0 {
      HandTracksButton(s, fr.landmarks, fr.now, scr);
    }
    var k := KeyByte(fr.rawKey);
    var o' := if k == KeyG then KeyToggle(o.st, fr.keyNow) else Out(o.st, []);
    if k == KeyG {
      KeyTracksButton(o.st, fr.keyNow);
    }
    ButtonAfterConcat(s.hold, o.acts, o.st.hold, o'.acts);
  }

  /** The part of an iteration that sees a hand leaves the button as `hold` says. */
  lemma HandTracksButton(s: CtrlState, lms: seq<Landmark>, now: int, scr: Screen)
    requires |lms| >= HandLandmarkCount
    ensures ButtonAfter(s.hold, HandStep(s, lms, now, scr).acts) == Some(HandStep(s, lms, now, scr).st.hold)
  {
    HandStepParts(s, lms, now, scr);
  }

  /** The 'g' key leaves the button as `hold` says. */
  lemma KeyTracksButton(s: CtrlState, keyNow: int)
    ensures ButtonAfter(s.hold, KeyToggle(s, keyNow).acts) == Some(KeyToggle(s, keyNow).st.hold)
  {
    if KeyToggle(s, keyNow).acts != [] {
      ButtonAfterSingle(s.hold, ButtonUp);
    }
  }

  /**
   * Counting the calls of one iteration that are not releases: none come from
   * the key handling, and none from a frame without a hand.
   */
  lemma StepCount(s: CtrlState, fr: Frame, scr: Screen, a: Action)
    requires FrameOk(fr) && a != ButtonUp
    ensures Count(Step(s, fr, scr).acts, a) ==
      if |fr.landmarks| == 0 then 0 else Count(HandStep(s, fr.landmarks, fr.now, scr).acts, a)
  {
    var o := if |fr.landmarks| != 0 then HandStep(s, fr.landmarks, fr.now, scr) else Out(s, []);
    var k := KeyByte(fr.rawKey);
    var o' := if k == KeyG then KeyToggle(o.st, fr.keyNow) else Out(o.st, []);
    CountInIff(o'.acts, a);
    CountConcat(o.acts, o'.acts, a);
  }

  /** Number of pinch clicks among `acts`. */
  function PinchClicks(acts: seq<Action>): nat
  {
    Count(acts, Click(Pinch))
  }

  /** The pinch latch over the part of an iteration that sees a hand. */
  lemma HandPinchLatch(s: CtrlState, lms: seq<Landmark>, now: int, scr: Screen)
    requires |lms| >= HandLandmarkCount
    ensures var o := HandStep(s, lms, now, scr);
      var isPinch := PinchState(lms, PinchRatio, PinchMinPx);
      && PinchClicks(o.acts) == (if MasterToggle(s, Fingers(lms), now).st.controlEnabled
                                    && PinchFires(s, isPinch, now) then 1 else 0)
      && o.st.pinchLastClick == (if PinchClicks(o.acts) == 1 then now else s.pinchLastClick)
      && (PinchClicks(o.acts) == 1 ==> o.st.pinchEngaged)
      && (s.pinchEngaged && !o.st.pinchEngaged ==> !isPinch)
  {
    var o1 := MasterToggle(s, Fingers(lms), now);
    HandStepParts(s, lms, now, scr);
    CountInIff(o1.acts, Click(Pinch));
    if !o1.st.controlEnabled {
      CountInIff(HandStep(s, lms, now, scr).acts, Click(Pinch));
    }
  }

  /**
   * One iteration makes at most one pinch click; it makes one exactly on a
   * frame that sees a pinching hand with control enabled, the latch open and
   * the cooldown passed, and then closes the latch and restarts the cooldown.
   * The latch reopens only on a frame that sees a hand that is not pinching.
   */
  lemma StepPinchLatch(s: CtrlState, fr: Frame, scr: Screen)
    requires FrameOk(fr)
    ensures var r := Step(s, fr, scr);
      && PinchClicks(r.acts) == (if |fr.landmarks| != 0
                                    && MasterToggle(s, Fingers(fr.landmarks), fr.now).st.controlEnabled
                                    && PinchFires(s, PinchState(fr.landmarks, PinchRatio, PinchMinPx), fr.now)
                                 then 1 else 0)
      && r.st.pinchLastClick == (if PinchClicks(r.acts) == 1 then fr.now else s.pinchLastClick)
      && (PinchClicks(r.acts) == 1 ==> r.st.pinchEngaged)
      && (s.pinchEngaged && !r.st.pinchEngaged ==>
            |fr.landmarks| != 0 && !PinchState(fr.landmarks, PinchRatio, PinchMinPx))
  {
    StepCount(s, fr, scr, Click(Pinch));
    if |fr.landmarks| != 0 {
      HandPinchLatch(s, fr.landmarks, fr.now, scr);
    }
  }

  /** Every frame is well formed, and every frame that sees a hand sees it pinching. */
  predicate PinchHeld(frames: seq<Frame>)
  {
    forall i :: 0 <= i < |frames| ==>
      FrameOk(frames[i]) &&
      (|frames[i].landmarks| != 0 ==> PinchState(frames[i].landmarks, PinchRatio, PinchMinPx))
  }

  /**
   * At most one pinch click per continuous pinch: over frames that all pinch
   * (or see no hand), a run makes at most one pinch click, none if the latch
   * was already closed, and the latch is closed afterwards once it was.
   */
  lemma {:induction false} OneClickPerPinch(s: CtrlState, frames: seq<Frame>, scr: Screen)
    requires PinchHeld(frames)
    ensures var o := Session(s, frames, scr);
      && PinchClicks(o.acts) + (if s.pinchEngaged then 1 else 0) <= 1
      && (s.pinchEngaged || PinchClicks(o.acts) == 1 ==> o.st.pinchEngaged)
    decreases |frames|
  {
    if frames != [] {
      var r := Step(s, frames[0], scr);
      StepPinchLatch(s, frames[0], scr);
      if !r.quit {
        assert PinchHeld(frames[1..]) by {
          forall i | 0 <= i < |frames[1..]|
            ensures FrameOk(frames[1..][i]) &&
              (|frames[1..][i].landmarks| != 0 ==> PinchState(frames[1..][i].landmarks, PinchRatio, PinchMinPx))
          {
            assert frames[1..][i] == frames[i + 1];
          }
        }
        OneClickPerPinch(r.st, frames[1..], scr);
        var rest := Session(r.st, frames[1..], scr);
        CountConcat(r.acts, rest.acts, Click(Pinch));
      }
    }
  }

  /**
   * One iteration scrolls down once exactly when it sees all fingers up with
   * control enabled, and up once exactly when it sees all fingers down; never
   * both.
   */
  lemma StepScrollCounts(s: CtrlState, fr: Frame, scr: Screen)
    requires FrameOk(fr)
    ensures var acts := Step(s, fr, scr).acts;
      var on := |fr.landmarks| != 0 && MasterToggle(s, Fingers(fr.landmarks), fr.now).st.controlEnabled;
      && Count(acts, Scroll(ScrollDownSpeed)) == (if on && AllAre(Fingers(fr.landmarks), 1) then 1 else 0)
      && Count(acts, Scroll(ScrollUpSpeed)) == (if on && AllAre(Fingers(fr.landmarks), 0) then 1 else 0)
      && !(Scroll(ScrollDownSpeed) in acts && Scroll(ScrollUpSpeed) in acts)
  {
    var acts := Step(s, fr, scr).acts;
    var down, up := Scroll(ScrollDownSpeed), Scroll(ScrollUpSpeed);
    StepCount(s, fr, scr, down);
    StepCount(s, fr, scr, up);
    CountInIff(acts, down);
    CountInIff(acts, up);
    if |fr.landmarks| != 0 {
      var lms := fr.landmarks;
      var f := Fingers(lms);
      var o1 := MasterToggle(s, f, fr.now);
      AllRaisedAllLoweredExclusive(f);
      HandStepParts(s, lms, fr.now, scr);
      if !o1.st.controlEnabled {
        CountInIff(HandStep(s, lms, fr.now, scr).acts, down);
        CountInIff(HandStep(s, lms, fr.now, scr).acts, up);
      }
    }
  }

  /**
   * The button is pressed only under enabled control: one iteration presses it
   * once exactly when it sees the drag gesture while control is enabled after
   * the gesture toggle and the button is not already held, and otherwise not.
   */
  lemma StepPressCount(s: CtrlState, fr: Frame, scr: Screen)
    requires FrameOk(fr)
    ensures Count(Step(s, fr, scr).acts, ButtonDown) ==
      if && |fr.landmarks| != 0
         && MasterToggle(s, Fingers(fr.landmarks), fr.now).st.controlEnabled
         && IsDrag(Fingers(fr.landmarks))
         && !s.hold
      then 1 else 0
  {
    StepCount(s, fr, scr, ButtonDown);
    if |fr.landmarks| != 0 {
      var lms := fr.landmarks;
      var f := Fingers(lms);
      var o1 := MasterToggle(s, f, fr.now);
      HandStepParts(s, lms, fr.now, scr);
      CountInIff(o1.acts, ButtonDown);
      if !o1.st.controlEnabled {
        CountInIff(HandStep(s, lms, fr.now, scr).acts, ButtonDown);
      }
    }
  }
}
