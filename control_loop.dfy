/**
 * The loop of `main` in handgesturetest.py as an object whose fields are the
 * loop's variables, updated in place frame by frame.  Every method is proved
 * to do what the matching function of `GestureControl` says, so the lemmas
 * proved there about `Step` and `Session` hold of the running loop.
 */
module ControlLoop {
  import opened Wrappers
  import opened HandLandmarks
  import opened GestureControl

  /** Concatenation regrouped to the right, as the enabled branch's phases nest. */
  lemma Regroup(a: seq<Action>, b: seq<Action>, c: seq<Action>, d: seq<Action>, e: seq<Action>)
    ensures a + b + c + d + e == a + (b + (c + (d + e)))
  {
  }

  lemma Assoc(a: seq<Action>, b: seq<Action>, c: seq<Action>)
    ensures a + (b + c) == a + b + c
  {
  }

  class MouseController {
    /** The screen size read once before the loop. */
    const screen: Screen

    var controlEnabled: bool
    var tagFinger: bool
    var ctrlLastToggle: int
    var ctrlHoldStarted: Option<int>
    var pinchEngaged: bool
    var pinchLastClick: int
    var hold: bool
    var prevX: real
    var prevY: real
    var stabBuf: seq<Point>

    /** The loop variables as a value. */
    function State(): CtrlState
      reads this
    {
      CtrlState(controlEnabled, tagFinger, ctrlLastToggle, ctrlHoldStarted,
                pinchEngaged, pinchLastClick, hold, Point(prevX, prevY), stabBuf)
    }

    /** The variables as `main` sets them before its loop. */
    constructor(scr: Screen)
      ensures screen == scr && State() == Initial
    {
      screen := scr;
      controlEnabled := true;
      tagFinger := true;
      ctrlLastToggle := 0;
      ctrlHoldStarted := None;
      pinchEngaged := false;
      pinchLastClick := 0;
      hold := false;
      prevX, prevY := 0.0, 0.0;
      stabBuf := [];
    }

    /** Move the cursor a smoothing step toward the mapped index tip, and buffer the new position. */
    method MoveTo(x1: int, y1: int) returns (acts: seq<Action>)
      modifies this
      ensures Out(State(), acts) == MoveCursor(old(State()), x1, y1, screen)
    {
      var x3 := Interp(x1, FrameR, FrameW - FrameR, screen.w);
      var y3 := Interp(y1, FrameR, FrameH - FrameR, screen.h);
      var currX := prevX + (x3 - prevX) / Smooth;
      var currY := prevY + (y3 - prevY) / Smooth;
      assert Point(currX, currY) == SmoothedCursor(Point(prevX, prevY), x1, y1, screen);
      ghost var buf := stabBuf;
      acts := [MouseMove(screen.w - currX, currY)];
      prevX, prevY := currX, currY;
      stabBuf := stabBuf + [Point(currX, currY)];
      if |stabBuf| > StabThresh {
        stabBuf := stabBuf[1..];
      }
      assert stabBuf == PushStab(buf, Point(currX, currY));
    }

    /** The buffer is full and every position in it is near the oldest one. */
    method BufferSteady() returns (steady: bool)
      ensures steady <==> |stabBuf| == StabThresh && AllNearFirst(stabBuf)
    {
      if |stabBuf| != StabThresh {
        return false;
      }
      steady := true;
      var i := 0;
      while i < |stabBuf| && steady
        invariant 0 <= i <= |stabBuf|
        invariant steady <==> forall j :: 0 <= j < i ==> Near(stabBuf[j], stabBuf[0])
        invariant !steady ==> !AllNearFirst(stabBuf)
      {
        steady := Near(stabBuf[i], stabBuf[0]);
        i := i + 1;
      }
    }

    /** The stabilised click on index and pinky up. */
    method TryStableClick(f: seq<int>) returns (acts: seq<Action>)
      requires |f| == 5
      modifies this
      ensures Out(State(), acts) == StableClick(old(State()), f)
    {
      acts := [];
      if f[1] == 1 && f[4] == 1 {
        var steady := BufferSteady();
        if steady {
          acts := [Click(Stabilised)];
          stabBuf := [];
        }
      }
    }

    /** The latched pinch click. */
    method TryPinchClick(isPinch: bool, now: int) returns (acts: seq<Action>)
      modifies this
      ensures Out(State(), acts) == PinchClick(old(State()), isPinch, now)
    {
      acts := [];
      if isPinch && !pinchEngaged && now - pinchLastClick >= PinchClickCooldownMs {
        acts := [Click(Pinch)];
        pinchEngaged := true;
        pinchLastClick := now;
      } else if !isPinch {
        pinchEngaged := false;
      }
    }

    /** Press, drag and release on the thumb-down gesture. */
    method Drag(f: seq<int>, x1: int, y1: int) returns (acts: seq<Action>)
      requires |f| == 5
      modifies this
      ensures Out(State(), acts) == HoldDrag(old(State()), f, x1, y1, screen)
    {
      acts := [];
      if f[0] == 0 && AllAre(f[1..], 1) {
        if !hold {
          acts := [ButtonDown];
          hold := true;
        }
        var moved := MoveTo(x1, y1);
        acts := acts + moved;
      } else if hold {
        acts := [ButtonUp];
        hold := false;
      }
    }

    /** Everything done while control is enabled, in the loop's order. */
    method Gestures(f: seq<int>, x1: int, y1: int, isPinch: bool, now: int) returns (acts: seq<Action>)
      requires |f| == 5
      modifies this
      ensures Out(State(), acts) == EnabledActions(old(State()), f, x1, y1, isPinch, now, screen)
    {
      var moved := [];
      if f[1] == 1 && f[2] == 0 {
        moved := MoveTo(x1, y1);
      }
      ghost var s1 := State();
      var clicked := TryStableClick(f);
      ghost var s2 := State();
      var pinched := TryPinchClick(isPinch, now);
      ghost var s3 := State();
      var dragged := Drag(f, x1, y1);
      var scrolled := Scrolls(f);
      assert Out(State(), dragged + scrolled) == FromHoldDrag(s3, f, x1, y1, screen);
      assert Out(State(), pinched + (dragged + scrolled)) == FromPinchClick(s2, f, x1, y1, isPinch, now, screen);
      assert Out(State(), clicked + (pinched + (dragged + scrolled))) == FromStableClick(s1, f, x1, y1, isPinch, now, screen);
      acts := moved + clicked + pinched + dragged + scrolled;
      Regroup(moved, clicked, pinched, dragged, scrolled);
    }

    /** The long-press master toggle. */
    method GestureToggle(f: seq<int>, now: int) returns (acts: seq<Action>)
      modifies this
      ensures Out(State(), acts) == MasterToggle(old(State()), f, now)
    {
      acts := [];
      if IsMiddle(f) && tagFinger {
        if ctrlHoldStarted.None? {
          ctrlHoldStarted := Some(now);
        } else if now - ctrlHoldStarted.value >= CtrlToggleHoldMs && now - ctrlLastToggle >= CtrlCooldownMs {
          controlEnabled := false;
          tagFinger := false;
          ctrlLastToggle := now;
          ctrlHoldStarted := None;
          if !controlEnabled && hold {
            acts := [ButtonUp];
            hold := false;
          }
        }
      } else if IsShaka(f) && !tagFinger {
        if ctrlHoldStarted.None? {
          ctrlHoldStarted := Some(now);
        } else if now - ctrlHoldStarted.value >= CtrlToggleHoldMs && now - ctrlLastToggle >= CtrlCooldownMs {
          controlEnabled := true;
          tagFinger := true;
          ctrlLastToggle := now;
          ctrlHoldStarted := None;
        }
      } else {
        ctrlHoldStarted := None;
      }
    }

    /** The 'g' key: flip control outside the debounce, releasing a held button when disabling. */
    method KeyPressG(keyNow: int) returns (acts: seq<Action>)
      modifies this
      ensures Out(State(), acts) == KeyToggle(old(State()), keyNow)
    {
      acts := [];
      if keyNow - ctrlLastToggle >= KeyDebounceMs {
        controlEnabled := !controlEnabled;
        ctrlLastToggle := keyNow;
        if !controlEnabled && hold {
          acts := [ButtonUp];
          hold := false;
        }
      }
    }

    /** One iteration of the loop on one frame: the calls it makes, and whether 'q' ends the loop. */
    method OnFrame(fr: Frame) returns (acts: seq<Action>, quit: bool)
      requires FrameOk(fr)
      modifies this
      ensures StepResult(State(), acts, quit) == Step(old(State()), fr, screen)
    {
      acts := [];
      if |fr.landmarks| != 0 {
        var lms := fr.landmarks;
        var x1, y1 := lms[8].x, lms[8].y;
        var fingers := Fingers(lms);
        var toggled := GestureToggle(fingers, fr.now);
        var isPinch := PinchState(lms, PinchRatio, PinchMinPx);
        if controlEnabled {
          var done := Gestures(fingers, x1, y1, isPinch, fr.now);
          acts := toggled + done;
        } else {
          acts := toggled;
          if hold {
            acts := acts + [ButtonUp];
            hold := false;
          }
        }
      }
      var k := KeyByte(fr.rawKey);
      if k == KeyG {
        var released := KeyPressG(fr.keyNow);
        acts := acts + released;
      }
      quit := k == KeyQ;
    }

    /**
     * The whole loop: runs frame after frame until a 'q' or the end of the
     * camera's frames, and keeps the loop invariant.
     */
    method Run(frames: seq<Frame>) returns (acts: seq<Action>)
      requires forall i :: 0 <= i < |frames| ==> FrameOk(frames[i])
      requires ValidScreen(screen) && Inv(State(), screen)
      modifies this
      ensures Out(State(), acts) == Session(old(State()), frames, screen)
      ensures Inv(State(), screen)
    {
      acts := [];
      var i := 0;
      var quit := false;
      while i < |frames| && !quit
        invariant 0 <= i <= |frames|
        invariant Inv(State(), screen)
        invariant quit ==> Out(State(), acts) == Session(old(State()), frames, screen)
        invariant !quit ==>
          var rest := Session(State(), frames[i..], screen);
          Session(old(State()), frames, screen) == Out(rest.st, acts + rest.acts)
        decreases |frames| - i, if quit then 0 else 1
      {
        ghost var before := State();
        ghost var rest := Session(before, frames[i..], screen);
        assert frames[i..][0] == frames[i] && frames[i..][1..] == frames[i + 1..];
        StepKeepsInv(before, frames[i], screen);
        var stepActs;
        stepActs, quit := OnFrame(frames[i]);
        if !quit {
          ghost var next := Session(State(), frames[i + 1..], screen);
          assert rest == Out(next.st, stepActs + next.acts);
          Assoc(acts, stepActs, next.acts);
        }
        acts := acts + stepActs;
        i := i + 1;
      }
      if !quit {
        assert frames[i..] == [];
      }
    }
  }
}
