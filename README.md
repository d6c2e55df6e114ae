# Hand-gesture mouse and globe viewport, modelled in Dafny

This project models two pieces of one repository.

1. **The gesture-to-mouse controller** in `handgesturetest.py`.
   - `GestureRecognizer` turns a tracked hand into a pixel landmark list and a bounding box (`getPositions`).
   - `fingersRaised` turns that list into five finger flags.
   - `is_middle` and `is_shaka` are the toggle gestures; `pinch_state` is the pinch test.
   - The body of `main`'s loop is a per-frame state machine over `control_enabled`, `tagFinger`, the long-press start and the last toggle time, the pinch latch and its cooldown, the held-button flag `hold`, the smoothed cursor and the stabilisation buffer `stab_buf`. It ends with the keyboard handling for 'g' and 'q'.

   Module `HandLandmarks` (hand_landmarks.dfy) holds the landmark logic and the `GestureRecognizer` class. Module `GestureControl` (gesture_control.dfy) states one loop iteration as the function `Step` from the loop's variables (`CtrlState`) and one camera frame to the new variables and the mouse and scroll calls made, in order (`Action`). `Session` folds `Step` over a run of frames. Module `ControlLoop` (control_loop.dfy) is the loop itself: the class `MouseController` whose fields are the loop's variables, updated in place. Its `OnFrame` is proved equal to `Step` and its `Run` to `Session`, so every lemma about `Step` and `Session` holds of the running loop. Time is in integer milliseconds: 0.8 s is 800, 1.0 s is 1000, and both 0.2 s constants are 200.

2. **The viewport and mount/teardown protocol** of the `Globe` component in `synapse/src/app/components/globe.tsx`.
   - The initial size falls back to 1280 x 640.
   - `onResize` ignores a zero width or height.
   - `animate` reassigns `rafId` on every frame.
   - The cleanup closure cancels, detaches, disposes and removes in a fixed order.

   Module `Globe` (globe.dfy) keeps the calls the component makes on the renderer, the DOM and the browser as a log of `Event`s. Replaying the log gives a `Registry`: the canvas is attached or not, the observer and the window listener are registered or not, one frame is pending or none, and each resource is live or disposed. The class `GlobeView` has the effect (`Mount`), the animation callback (`AnimateFrame`), `onResize` (`OnResize`) and the cleanup closure (`Cleanup`) as methods over `width`, `height`, the camera aspect, the renderer size, `rafId` and the log.

   The cleanup disposes only the controls, the six earth textures and the renderer (globe.tsx:182-189). The moon textures (61-62) and the geometries and materials (70-79, 122-127, 140-145) are never disposed. `Globe.CleanupRegistry` and `Globe.LeakedAfterCleanup` state exactly what is released and what stays live.

## Model

| member | source | states |
|---|---|---|
| HandLandmarks.Trunc | handgesturetest.py:38 | Python's `int()` on a float truncates toward zero: the result is the integer part, below the value for positives and above it for negatives, off by less than 1 |
| HandLandmarks.MinOf | handgesturetest.py:45-46 | `min` of a non-empty list is an element of it and no larger than any element |
| HandLandmarks.MaxOf | handgesturetest.py:45-46 | `max` of a non-empty list is an element of it and no smaller than any element |
| HandLandmarks.BoundingBoxIsTight | handgesturetest.py:45-47 | every landmark's x lies in [xMin, xMax] and its y in [yMin, yMax], and each of the four sides is reached by some landmark |
| HandLandmarks.GestureRecognizer.GetPositions | handgesturetest.py:30-53 | with no hand it returns an empty list and no box; otherwise entry k is `[k, int(x*width), int(y*height)]` of landmark k of hand 0, one per landmark, the returned list is the stored `landmarkList`, and the box is the min/max box of that list |
| HandLandmarks.GestureRecognizer.FingersRaised | handgesturetest.py:55-69 | five flags, each 0 or 1; flag 0 is 1 iff landmark 4's x exceeds landmark 3's; flag i (1..4) is 1 iff tip `fingerTipIndices[i]` has a smaller y than landmark tip-2; needs 21 landmarks |
| HandLandmarks.MiddleShakaExclusive | handgesturetest.py:107-110 | `is_middle` and `is_shaka` are never both true |
| HandLandmarks.AllRaisedAllLoweredExclusive | handgesturetest.py:238-244 | the "all 1" scroll-down test and the "all 0" scroll-up test never both hold on a non-empty flag list |
| HandLandmarks.MaxR | handgesturetest.py:118 | `max` is at least both arguments and equal to one of them |
| HandLandmarks.DistSq | handgesturetest.py:116-117 | the squared distance between two landmarks is non-negative |
| HandLandmarks.PinchStateIsNormTest | handgesturetest.py:112-119 | the pinch verdict, computed on squared integer distances, is exactly `norm(thumb - index) <= max(min_px, ratio * norm(mcp5 - mcp17))`; the threshold is never below `min_px` |
| GestureControl.KeyByte | handgesturetest.py:272 | `k & 0xFF` lies in 0..255 and differs from the raw code by a multiple of 256, so it is the low byte (the key itself for codes in range, 255 for "no key", -1) |
| GestureControl.Interp | handgesturetest.py:179-180 | `np.interp` onto [0, screen size] clamps: 0 at or below the low end, the screen size at or above the high end, and always within [0, screen size] |
| GestureControl.SmoothedCursor | handgesturetest.py:179-183 | a smoothing step from an on-screen cursor stays on the screen |
| GestureControl.PushStab | handgesturetest.py:189-192 | append then trim: a buffer below `stab_thresh` grows by one, a full one stays at `stab_thresh` |
| GestureControl.PushStabNewest | handgesturetest.py:189-192 | one append/trim on a buffer within bounds leaves the newest `stab_thresh` positions, oldest first |
| GestureControl.PushAllNewest | handgesturetest.py:189-192 | after any number of appends/trims the buffer holds the newest `stab_thresh` of all positions seen, oldest first (so never more than `stab_thresh`) |
| GestureControl.MoveCursor | handgesturetest.py:178-192 | a move changes only the remembered cursor and the buffer, appends the new cursor to the buffer, makes the single call `move(scr_w - curr_x, curr_y)`, and keeps the cursor on screen |
| GestureControl.MoveIfPointing | handgesturetest.py:178-192 | with the index up and the middle down it is exactly the move of `MoveCursor` (one move call, cursor and buffer updated); otherwise it changes nothing and makes no call; the buffer and the cursor stay within bounds |
| GestureControl.StableClick | handgesturetest.py:194-202 | a click happens iff index and pinky are up, the buffer holds exactly `stab_thresh` positions and all lie within `stab_rad` of the oldest; it clears the buffer and changes nothing else; otherwise nothing changes |
| GestureControl.PinchClick | handgesturetest.py:204-213 | a pinch click happens iff pinching, the latch is open and the cooldown has passed; it closes the latch and records the time; without a click the time is kept; the latch changes only toward the pinch verdict; nothing else changes |
| GestureControl.HoldDrag | handgesturetest.py:215-236 | `hold` becomes exactly "thumb down, four fingers up"; a press is made only when starting the drag and a release only when ending it; while dragging the cursor and buffer move as `MoveCursor` says and the one move call is made, otherwise they are kept; nothing but `hold`, the cursor and the buffer changes; buffer and cursor stay in bounds |
| GestureControl.Scrolls | handgesturetest.py:238-244 | at most one scroll call, and only of -60 or 60; scroll down (-60) iff all flags are 1, scroll up (60) iff all are 0 |
| GestureControl.MasterToggle | handgesturetest.py:137-164 | the held gesture toggles if and only if a press start is recorded, `now - start >= 800` and `now - last toggle >= 1000`; a press too short or inside the cooldown keeps its start and changes nothing; a toggle clears the start, records the time and sets `control_enabled` and `tagFinger` to the same value; the middle gesture only disables (while `tagFinger`), shaka only enables (while not); the first frame only records the start; any other gesture resets it; without a toggle nothing else changes; a held button is released exactly when disabling, whatever `control_enabled` was before |
| GestureControl.KeyToggle | handgesturetest.py:272-280 | 'g' flips `control_enabled` iff 200 ms passed since the shared last toggle, then records the time; inside the debounce nothing changes; it changes nothing else except releasing a held button, which it does exactly when it disables |
| GestureControl.HoldDragCounts | handgesturetest.py:215-236 | the drag phase presses once exactly when starting a drag without the button held, makes no click or scroll, and its presses and releases leave the button as the new `hold` |
| GestureControl.ScrollsCounts | handgesturetest.py:238-244 | the scroll phase scrolls down once iff all flags are 1, up once iff all are 0, and never presses, releases or clicks |
| GestureControl.FromHoldDragTally | handgesturetest.py:215-244 | drag then scrolls: counted scrolls and presses, button replay equal to `hold`, no pinch click, latch and enable flag untouched, bounds kept |
| GestureControl.FromPinchClickTally | handgesturetest.py:204-244 | from the pinch click on: the pinch click count, latch and cooldown as the pinch rule says, plus the drag/scroll tallies and bounds |
| GestureControl.FromStableClickTally | handgesturetest.py:194-244 | from the stabilised click on: the same tallies, since that click only empties the buffer |
| GestureControl.EnabledTally | handgesturetest.py:176-244 | the whole enabled branch: scrolls, presses and pinch clicks counted as above, button replay equal to `hold`, enable flag untouched, buffer within `stab_thresh`, cursor on screen |
| GestureControl.InitialInv | handgesturetest.py:76-105 | the variables before the loop satisfy the loop invariant |
| GestureControl.HandStepKeepsInv | handgesturetest.py:129-250 | the hand part of an iteration keeps the invariant: not `control_enabled` implies not `hold`, the buffer within `stab_thresh`, the cursor on screen |
| GestureControl.StepKeepsInv | handgesturetest.py:129-282 | one whole iteration, key handling included, keeps the invariant |
| GestureControl.SessionKeepsInv | handgesturetest.py:121-282 | the invariant holds after any run of the loop |
| GestureControl.HandStepParts | handgesturetest.py:129-250 | the hand part is the gesture toggle then either the enabled branch (with its tallies) or, when disabled, the release of a held button; button replay equals `hold` |
| GestureControl.HandTracksButton | handgesturetest.py:129-250 | the presses and releases of the hand part never press while pressed or release while released, and leave the button as `hold` says |
| GestureControl.KeyTracksButton | handgesturetest.py:273-280 | the same for the 'g' key handling |
| GestureControl.StepTracksButton | handgesturetest.py:129-282 | the same for a whole iteration |
| GestureControl.StepCount | handgesturetest.py:129-282 | apart from releases, every call of an iteration comes from the hand part, and a frame without a hand makes none |
| GestureControl.HandPinchLatch | handgesturetest.py:166-213 | the hand part makes one pinch click exactly when control is enabled after the toggle and the pinch fires; the click closes the latch and records the time; the latch opens only on a non-pinch frame |
| GestureControl.StepPinchLatch | handgesturetest.py:166-213 | one iteration makes at most one pinch click, exactly on a frame with a pinching hand, control enabled, the latch open and the cooldown passed; the latch reopens only on a frame that sees a non-pinching hand |
| GestureControl.OneClickPerPinch | handgesturetest.py:204-213 | over a run whose every hand is pinching there is at most one pinch click, none if the latch was already closed, and the latch stays closed once closed |
| GestureControl.StepScrollCounts | handgesturetest.py:238-244 | one iteration scrolls down once iff it sees all fingers up with control enabled, up once iff all down, never both |
| GestureControl.StepPressCount | handgesturetest.py:215-219 | the button is pressed only under enabled control: once exactly on a drag gesture with control enabled and the button not held |
| ControlLoop.MouseController.constructor | handgesturetest.py:76-111 | the loop variables start as `main` sets them |
| ControlLoop.MouseController.MoveTo | handgesturetest.py:179-192 | the imperative move and buffer update equals `MoveCursor` |
| ControlLoop.MouseController.BufferSteady | handgesturetest.py:196-199 | the loop over the buffer answers true iff it is full and every position is within `stab_rad` of the oldest |
| ControlLoop.MouseController.TryStableClick | handgesturetest.py:194-202 | equals `StableClick` |
| ControlLoop.MouseController.TryPinchClick | handgesturetest.py:204-213 | equals `PinchClick` |
| ControlLoop.MouseController.Drag | handgesturetest.py:215-236 | equals `HoldDrag` |
| ControlLoop.MouseController.Gestures | handgesturetest.py:176-244 | the enabled branch, in the source's order, equals `EnabledActions` |
| ControlLoop.MouseController.GestureToggle | handgesturetest.py:137-164 | equals `MasterToggle` |
| ControlLoop.MouseController.KeyPressG | handgesturetest.py:272-280 | equals `KeyToggle` |
| ControlLoop.MouseController.OnFrame | handgesturetest.py:129-282 | one iteration on the fields equals `Step`, including the 'q' verdict |
| ControlLoop.MouseController.Run | handgesturetest.py:121-282 | the loop until 'q' or the last frame equals `Session` and keeps the invariant |
| Globe.SceneIsEverything | synapse/src/app/components/globe.tsx:40-145 | the renderer plus the scene's list (controls, eight textures, geometries, materials) is every disposable resource the effect creates |
| Globe.ReleasedListed | synapse/src/app/components/globe.tsx:182-189 | the cleanup's dispose list is exactly the released resources: controls, the six earth textures, the renderer |
| Globe.AttachSteps | synapse/src/app/components/globe.tsx:40-46 | creating and sizing the renderer and appending its canvas makes the renderer live and the canvas attached |
| Globe.StartSteps | synapse/src/app/components/globe.tsx:152-175 | the first `animate` and the two registrations leave that frame pending, the observer and the listener registered |
| Globe.MountLog | synapse/src/app/components/globe.tsx:26-175 | the mount calls, for any scene list, attach the canvas, make renderer and list live, leave the first frame pending and register both resize hooks |
| Globe.MountRegistry | synapse/src/app/components/globe.tsx:26-175 | after mounting every resource is live, nothing is disposed, the canvas is attached, both hooks are registered and the first frame is pending |
| Globe.FrameRegistry | synapse/src/app/components/globe.tsx:152-160 | each frame replaces the pending frame with the one it schedules and changes nothing else |
| Globe.ResizeRegistry | synapse/src/app/components/globe.tsx:171 | resizing the renderer changes no registration or resource |
| Globe.UnhookSteps | synapse/src/app/components/globe.tsx:179-181 | cancelling, disconnecting and removing the listener clear the frame (if it is the pending one) and both hooks |
| Globe.CleanupLog | synapse/src/app/components/globe.tsx:178-191 | the cleanup calls, for any dispose list, clear the hooks and the canvas and move exactly the listed resources from live to disposed |
| Globe.CleanupRegistry | synapse/src/app/components/globe.tsx:178-191 | cleaning up a mounted component whose latest frame is `rafId` leaves no pending frame, no hook, no canvas, and exactly the released resources disposed |
| Globe.StaleCancelLeavesFrame | synapse/src/app/components/globe.tsx:152-179 | cancelling any frame id other than the latest would leave the latest frame scheduled after teardown, which is why `rafId` is reassigned every frame |
| Globe.LeakedAfterCleanup | synapse/src/app/components/globe.tsx:55-191 | after the cleanup the moon textures and all geometries and materials are still live, the renderer and controls are not, and the only live textures are the two moon ones |
| Globe.InitialSize | synapse/src/app/components/globe.tsx:30-31 | the client size, or the fallback when it is 0 |
| Globe.SizedConsistent | synapse/src/app/components/globe.tsx:37-42 | a positive size gives a camera aspect of width/height and a renderer of that size |
| Globe.ResizeEffect | synapse/src/app/components/globe.tsx:163-172 | a zero width or height changes nothing; otherwise size, aspect and renderer follow the container |
| Globe.ResizeIdempotent | synapse/src/app/components/globe.tsx:163-172 | resizing twice to the same size is resizing once |
| Globe.ResizeKeepsConsistent | synapse/src/app/components/globe.tsx:163-172 | a resize keeps the camera and renderer in agreement with the size |
| Globe.MountedLive | synapse/src/app/components/globe.tsx:26-175 | the mount calls on a positive size leave a mounted component with a consistent viewport |
| Globe.GlobeView.Mount | synapse/src/app/components/globe.tsx:26-175 | without a container nothing is done; otherwise the size is the client size or 1280 x 640, the calls are exactly the mount calls, `rafId` is the first frame and the component is live and mounted |
| Globe.GlobeView.AnimateFrame | synapse/src/app/components/globe.tsx:153-160 | a frame renders, schedules the next frame and stores its id in `rafId`; the size is untouched and the component stays mounted with that frame pending |
| Globe.GlobeView.OnResize | synapse/src/app/components/globe.tsx:163-172 | the viewport becomes `Resized` of the old one; the renderer is resized only for a non-zero size; the component stays mounted |
| Globe.GlobeView.Cleanup | synapse/src/app/components/globe.tsx:178-191 | the calls are cancel(latest `rafId`), disconnect, remove listener, dispose controls, six textures, renderer, remove canvas, in that order, leaving the torn-down registry |

## Left out

- Camera capture, MediaPipe detection, OpenCV drawing, the working-frame rectangle, the HUD text, the FPS counter and the long-press progress bar (handgesturetest.py:85-91, 122-127, 135, 171-173, 186, 200, 210, 226, 252-269, 284-285) are I/O. A camera frame arrives as its landmark list and clock values.
- `autopy` and `pyautogui` calls become `Action` values in order. `autopy.screen.size()` is the `screen` parameter. Both click branches call the same left click; `Click(cause)` records which branch made it, only so it can be counted.
- `time.time()` is an integer millisecond parameter. Line 138 is the frame's `now`. The two reads at lines 275 and 277 are merged into one `keyNow`, since nothing between them can observe the difference.
- GestureControl.Step: requires `FrameOk`, a frame whose landmark list is empty or has at least 21 entries; so do `Session`, `ControlLoop.MouseController.OnFrame` and `ControlLoop.MouseController.Run`. On a hand with 1 to 20 landmarks the source raises an `IndexError` (handgesturetest.py:58-64, 131). The hand tracker always reports 21 landmarks per hand, and exceptions are not modelled.
- The end of the camera stream (lines 122-124) ends `Run` when the frames run out.
- The release at handgesturetest.py:160-162 is unreachable, because `control_enabled` was set true just before it. `MasterToggle` omits it.
- `getPositions` always takes hand index 0 (the default argument), and `handIndex` is not modelled.
- HandLandmarks.GestureRecognizer.GetPositions: requires the first detected hand to have at least one landmark. On an empty landmark list Python's `min` raises, and the model does not model exceptions.
- HandLandmarks.PinchStateIsNormTest: the norms are compared on squares. `PinchState` itself needs no square root; the lemma connects it to the source's norm test for any true norms.
- The stabilisation radius test compares squared distances (`Near`), which is equivalent for the non-negative norm.
- Floating-point rounding is not modelled: the cursor, `np.interp` and the smoothing use exact reals.
- GestureControl.PushStab: its own contract states only the length. The contents, the newest `stab_thresh` positions oldest first, are stated by `PushStabNewest` and `PushAllNewest`.
- All three.js scene building, the shaders, the per-frame rotations, `controls.update()`, `camera.updateProjectionMatrix()` and `setPixelRatio` (globe.tsx:33-35, 38, 41, 43-44, 49-52, 64-69, 75-78, 80-121, 128-139, 146-150, 154, 157-159, 170) are left out. They are rendering-library calls and float maths. The camera aspect (37), the renderer's creation, size and canvas (40, 42, 46), and the construction of each disposable resource (48, 55-62, 70-71, 79, 122, 140) are modelled.
- The browser callbacks (`requestAnimationFrame`, `ResizeObserver`, the window `resize` event) are modelled as calls of `AnimateFrame` and `OnResize`, and the ids the browser returns are parameters.
- Globe.GlobeView.Mount: the camera aspect is only defined for a positive height. The fallback makes the initial height positive, and `onResize` never stores a zero height.
- synapse/src/app/page.tsx is not part of this model. It is UI glue, and `Globe` takes no props.
- globe.tsx contains no Saturn, ring, atmosphere or mode-switch code and no FPS output, so none is modelled.
