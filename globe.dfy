/**
 * The size and mount/teardown protocol of the `Globe` component
 * (synapse/src/app/components/globe.tsx).  The three.js objects, the DOM and
 * the browser's frame scheduler are abstracted to a log of the calls the
 * component makes on them; replaying the log gives what is attached,
 * registered, scheduled and alive.
 */
module Globe {
  import opened Wrappers

  /** Fallback size when the container reports 0. */
  const DefaultWidth: nat := 1280
  const DefaultHeight: nat := 640

  datatype Texture = EarthMap | EarthBump | EarthSpec | EarthLights | EarthClouds | EarthCloudsAlpha | MoonBump | MoonMap

  /** Everything the effect creates that has a `dispose`. */
  datatype Resource =
    | Renderer
    | Controls
    | Tex(t: Texture)
    | WireGeometry
    | WireMaterial
    | PointsGeometry
    | EarthPointsMaterial
    | MoonPointsMaterial

  /** The calls the component makes on the renderer, the DOM and the browser. */
  datatype Event =
    | Create(r: Resource)
    | Dispose(r: Resource)
    | SetSize(w: nat, h: nat)       // renderer.setSize
    | AppendCanvas                  // container.appendChild(renderer.domElement)
    | RemoveCanvas                  // container.removeChild(renderer.domElement)
    | Render                        // renderer.render
    | RequestFrame(id: int)         // requestAnimationFrame, answered with `id`
    | CancelFrame(id: int)          // cancelAnimationFrame(id)
    | Observe                       // ro.observe(container)
    | Disconnect                    // ro.disconnect()
    | AddResizeListener             // window.addEventListener('resize', onResize)
    | RemoveResizeListener          // window.removeEventListener('resize', onResize)

  /** What a log leaves behind. */
  datatype Registry = Registry(
    canvasAttached: bool,
    observing: bool,
    listening: bool,
    pendingFrame: Option<int>,
    live: set<Resource>,
    disposed: set<Resource>)

  const Blank := Registry(false, false, false, None, {}, {})

  /** The pending frame after cancelling `id`: cleared only if `id` is the one pending. */
  function AfterCancel(pending: Option<int>, id: int): Option<int>
  {
    if pending == Some(id) then None else pending
  }

  /**
   * The effect of one call.  A requested frame replaces the pending one (the
   * previous frame has just run); cancelling an id that is not the pending
   * frame does nothing.
   */
  function Apply(r: Registry, e: Event): Registry
  {
    match e
    case Create(x) => r.(live := r.live + {x})
    case Dispose(x) => r.(live := r.live - {x}, disposed := r.disposed + {x})
    case SetSize(_, _) => r
    case AppendCanvas => r.(canvasAttached := true)
    case RemoveCanvas => r.(canvasAttached := false)
    case Render => r
    case RequestFrame(id) => r.(pendingFrame := Some(id))
    case CancelFrame(id) => r.(pendingFrame := AfterCancel(r.pendingFrame, id))
    case Observe => r.(observing := true)
    case Disconnect => r.(observing := false)
    case AddResizeListener => r.(listening := true)
    case RemoveResizeListener => r.(listening := false)
  }

  function Replay(r: Registry, log: seq<Event>): Registry
    decreases |log|
  {
    if log == [] then r else Replay(Apply(r, log[0]), log[1..])
  }

  lemma {:induction false} ReplayConcat(r: Registry, a: seq<Event>, b: seq<Event>)
    ensures Replay(r, a + b) == Replay(Replay(r, a), b)
    decreases |a|
  {
    if a == [] {
      assert a + b == b;
    } else {
      assert (a + b)[1..] == a[1..] + b;
      ReplayConcat(Apply(r, a[0]), a[1..], b);
    }
  }

  lemma Replay3(r: Registry, a: seq<Event>, b: seq<Event>, c: seq<Event>)
    ensures Replay(r, a + b + c) == Replay(Replay(Replay(r, a), b), c)
  {
    ReplayConcat(r, a + b, c);
    ReplayConcat(r, a, b);
  }

  lemma ReplayCons(r: Registry, e: Event, rest: seq<Event>)
    ensures Replay(r, [e] + rest) == Replay(Apply(r, e), rest)
  {
    assert ([e] + rest)[1..] == rest;
  }

  lemma ReplayOne(r: Registry, e: Event)
    ensures Replay(r, [e]) == Apply(r, e)
  {
    ReplayCons(r, e, []);
    assert [e] + [] == [e];
  }

  /** One creation per resource, in order. */
  function Creates(rs: seq<Resource>): seq<Event>
  {
    seq(|rs|, i requires 0 <= i < |rs| => Create(rs[i]))
  }

  /** One disposal per resource, in order. */
  function Disposes(rs: seq<Resource>): seq<Event>
  {
    seq(|rs|, i requires 0 <= i < |rs| => Dispose(rs[i]))
  }

  /** The resources listed in `rs`. */
  function Elems(rs: seq<Resource>): set<Resource>
  {
    set x | x in rs
  }

  lemma {:induction false} ReplayCreates(r: Registry, rs: seq<Resource>)
    ensures Replay(r, Creates(rs)) == r.(live := r.live + Elems(rs))
    decreases |rs|
  {
    if rs == [] {
      assert Elems(rs) == {};
    } else {
      assert Creates(rs) == [Create(rs[0])] + Creates(rs[1..]);
      assert Elems(rs) == {rs[0]} + Elems(rs[1..]);
      ReplayCons(r, Create(rs[0]), Creates(rs[1..]));
      ReplayCreates(Apply(r, Create(rs[0])), rs[1..]);
    }
  }

  lemma {:induction false} ReplayDisposes(r: Registry, rs: seq<Resource>)
    ensures Replay(r, Disposes(rs)) == r.(live := r.live - Elems(rs), disposed := r.disposed + Elems(rs))
    decreases |rs|
  {
    if rs == [] {
      assert Elems(rs) == {};
    } else {
      assert Disposes(rs) == [Dispose(rs[0])] + Disposes(rs[1..]);
      assert Elems(rs) == {rs[0]} + Elems(rs[1..]);
      ReplayCons(r, Dispose(rs[0]), Disposes(rs[1..]));
      ReplayDisposes(Apply(r, Dispose(rs[0])), rs[1..]);
    }
  }

  // ---------------------------------------------------------------------
  // The protocol

  /** Created after the renderer, in the effect's order: controls, the eight textures, geometries and materials. */
  const SceneResources: seq<Resource> := [
    Controls,
    Tex(EarthMap), Tex(EarthBump), Tex(EarthSpec), Tex(EarthLights),
    Tex(EarthClouds), Tex(EarthCloudsAlpha), Tex(MoonBump), Tex(MoonMap),
    WireGeometry, WireMaterial, PointsGeometry, EarthPointsMaterial, MoonPointsMaterial]

  /** Disposed by the cleanup, in its order: controls, the six earth textures, the renderer. */
  const ReleasedResources: seq<Resource> := [
    Controls,
    Tex(EarthMap), Tex(EarthBump), Tex(EarthSpec), Tex(EarthLights),
    Tex(EarthClouds), Tex(EarthCloudsAlpha),
    Renderer]

  /** Create and size the renderer, then attach its canvas to the container. */
  function AttachEvents(w: nat, h: nat): seq<Event>
  {
    [Create(Renderer), SetSize(w, h), AppendCanvas]
  }

  /** Build the scene: the controls, the textures, the geometries and materials. */
  function SceneEvents(): seq<Event>
  {
    Creates(SceneResources)
  }

  /** The first run of `animate`, then the observer and the window listener. */
  function StartEvents(firstId: int): seq<Event>
  {
    [Render, RequestFrame(firstId), Observe, AddResizeListener]
  }

  /** The effect's calls on a container of size (w, h). */
  function MountEvents(w: nat, h: nat, firstId: int): seq<Event>
  {
    AttachEvents(w, h) + SceneEvents() + StartEvents(firstId)
  }

  /** The cleanup's calls, in order, with `rafId` holding `id`. */
  function CleanupEvents(id: int): seq<Event>
  {
    [CancelFrame(id), Disconnect, RemoveResizeListener]
      + Disposes(ReleasedResources)
      + [RemoveCanvas]
  }

  /** The calls of one run of `animate` that schedules frame `id`. */
  function FrameEvents(id: int): seq<Event>
  {
    [Render, RequestFrame(id)]
  }

  /**
   * Disposed by the cleanup: the renderer, the controls and the six earth
   * textures.  The two moon textures and every geometry and material are not.
   */
  predicate Released(x: Resource)
  {
    match x
    case Renderer => true
    case Controls => true
    case Tex(t) => t != MoonBump && t != MoonMap
    case _ => false
  }

  /**
   * While mounted: the canvas is attached, both resize hooks are registered,
   * frame `id` is the one pending, every resource is live and none disposed.
   */
  ghost predicate IsMounted(r: Registry, id: int)
  {
    && r.canvasAttached && r.observing && r.listening
    && r.pendingFrame == Some(id)
    && (forall x :: x in r.live)
    && r.disposed == {}
  }

  /**
   * After the cleanup: the canvas is detached, neither resize hook is
   * registered, no frame is pending, and exactly the released resources are
   * disposed while the rest stay live.
   */
  ghost predicate IsTornDown(r: Registry)
  {
    && !r.canvasAttached && !r.observing && !r.listening
    && r.pendingFrame == None
    && (forall x :: x in r.disposed <==> Released(x))
    && (forall x :: x in r.live <==> !Released(x))
  }

  /** The renderer and the scene resources are every resource there is. */
  lemma SceneIsEverything(x: Resource)
    ensures x == Renderer || x in SceneResources
  {
    match x
    case Renderer =>
    case Controls => assert SceneResources[0] == x;
    case Tex(t) =>
      if t == EarthMap { assert SceneResources[1] == x; }
      else if t == EarthBump { assert SceneResources[2] == x; }
      else if t == EarthSpec { assert SceneResources[3] == x; }
      else if t == EarthLights { assert SceneResources[4] == x; }
      else if t == EarthClouds { assert SceneResources[5] == x; }
      else if t == EarthCloudsAlpha { assert SceneResources[6] == x; }
      else if t == MoonBump { assert SceneResources[7] == x; }
      else { assert SceneResources[8] == x; }
    case WireGeometry => assert SceneResources[9] == x;
    case WireMaterial => assert SceneResources[10] == x;
    case PointsGeometry => assert SceneResources[11] == x;
    case EarthPointsMaterial => assert SceneResources[12] == x;
    case MoonPointsMaterial => assert SceneResources[13] == x;
  }

  /** The cleanup's list is exactly the released resources. */
  lemma ReleasedListed(x: Resource)
    ensures x in ReleasedResources <==> Released(x)
  {
    if Released(x) {
      match x
      case Renderer => assert ReleasedResources[7] == x;
      case Controls => assert ReleasedResources[0] == x;
      case Tex(t) =>
        if t == EarthMap { assert ReleasedResources[1] == x; }
        else if t == EarthBump { assert ReleasedResources[2] == x; }
        else if t == EarthSpec { assert ReleasedResources[3] == x; }
        else if t == EarthLights { assert ReleasedResources[4] == x; }
        else if t == EarthClouds { assert ReleasedResources[5] == x; }
        else { assert ReleasedResources[6] == x; }
    } else {
      forall i | 0 <= i < |ReleasedResources| ensures ReleasedResources[i] != x {
        assert Released(ReleasedResources[i]);
      }
    }
  }

  /** The renderer's three calls before the scene is built. */
  lemma AttachSteps(r: Registry, w: nat, h: nat)
    ensures Replay(r, [Create(Renderer), SetSize(w, h), AppendCanvas]) ==
      r.(live := r.live + {Renderer}, canvasAttached := true)
  {
    ReplayCons(r, Create(Renderer), [SetSize(w, h), AppendCanvas]);
    var r1 := Apply(r, Create(Renderer));
    ReplayCons(r1, SetSize(w, h), [AppendCanvas]);
    ReplayOne(r1, AppendCanvas);
  }

  /** The first frame and the two resize hooks. */
  lemma StartSteps(r: Registry, firstId: int)
    ensures Replay(r, [Render, RequestFrame(firstId), Observe, AddResizeListener]) ==
      r.(pendingFrame := Some(firstId), observing := true, listening := true)
  {
    ReplayCons(r, Render, [RequestFrame(firstId), Observe, AddResizeListener]);
    ReplayCons(r, RequestFrame(firstId), [Observe, AddResizeListener]);
    var r1 := Apply(r, RequestFrame(firstId));
    ReplayCons(r1, Observe, [AddResizeListener]);
    ReplayOne(Apply(r1, Observe), AddResizeListener);
  }

  /** The mount calls with any list `rs` of scene resources. */
  lemma MountLog(r: Registry, w: nat, h: nat, firstId: int, rs: seq<Resource>)
    ensures Replay(r, [Create(Renderer), SetSize(w, h), AppendCanvas] + Creates(rs)
                      + [Render, RequestFrame(firstId), Observe, AddResizeListener]) ==
      r.(live := r.live + {Renderer} + Elems(rs), canvasAttached := true,
         pendingFrame := Some(firstId), observing := true, listening := true)
  {
    var head := [Create(Renderer), SetSize(w, h), AppendCanvas];
    var c := Creates(rs);
    var tail := [Render, RequestFrame(firstId), Observe, AddResizeListener];
    ReplayConcat(r, head + c, tail);
    ReplayConcat(r, head, c);
    AttachSteps(r, w, h);
    var r1 := Replay(r, head);
    ReplayCreates(r1, rs);
    StartSteps(Replay(r1, c), firstId);
  }

  /**
   * Mounting attaches the canvas, registers the observer and the window
   * listener, leaves exactly the first frame pending, and makes every
   * resource live; it disposes nothing.
   */
  lemma MountRegistry(r: Registry, w: nat, h: nat, firstId: int)
    ensures var m := Replay(r, MountEvents(w, h, firstId));
      && m.canvasAttached && m.observing && m.listening
      && m.pendingFrame == Some(firstId)
      && (forall x :: x in m.live)
      && m.disposed == r.disposed
  {
    MountLog(r, w, h, firstId, SceneResources);
    forall x ensures x == Renderer || x in Elems(SceneResources) {
      SceneIsEverything(x);
    }
  }

  /** A frame moves the pending frame to the one it schedules and changes nothing else. */
  lemma FrameRegistry(r: Registry, next: int)
    ensures Replay(r, FrameEvents(next)) == r.(pendingFrame := Some(next))
  {
    ReplayCons(r, Render, [RequestFrame(next)]);
    ReplayOne(r, RequestFrame(next));
  }

  /** Resizing the renderer changes nothing in the registry. */
  lemma ResizeRegistry(r: Registry, w: nat, h: nat)
    ensures Replay(r, [SetSize(w, h)]) == r
  {
    ReplayOne(r, SetSize(w, h));
  }

  /** The three calls that stop the frames and both resize hooks. */
  lemma UnhookSteps(r: Registry, id: int)
    ensures Replay(r, [CancelFrame(id), Disconnect, RemoveResizeListener]) ==
      r.(pendingFrame := AfterCancel(r.pendingFrame, id), observing := false, listening := false)
  {
    ReplayCons(r, CancelFrame(id), [Disconnect, RemoveResizeListener]);
    var r1 := Apply(r, CancelFrame(id));
    ReplayCons(r1, Disconnect, [RemoveResizeListener]);
    ReplayOne(Apply(r1, Disconnect), RemoveResizeListener);
  }

  /** The cleanup's calls with any list `rs` of disposals. */
  lemma CleanupLog(r: Registry, id: int, rs: seq<Resource>)
    ensures Replay(r, [CancelFrame(id), Disconnect, RemoveResizeListener] + Disposes(rs) + [RemoveCanvas]) ==
      r.(pendingFrame := AfterCancel(r.pendingFrame, id), observing := false, listening := false,
         canvasAttached := false, live := r.live - Elems(rs), disposed := r.disposed + Elems(rs))
  {
    var head := [CancelFrame(id), Disconnect, RemoveResizeListener];
    Replay3(r, head, Disposes(rs), [RemoveCanvas]);
    UnhookSteps(r, id);
    var r2 := Replay(r, head);
    ReplayDisposes(r2, rs);
    ReplayOne(Replay(r2, Disposes(rs)), RemoveCanvas);
  }

  /**
   * The cleanup of a component whose latest scheduled frame is `id` cancels
   * that frame, undoes both resize registrations, detaches the canvas, and
   * disposes exactly the released resources.
   */
  lemma CleanupRegistry(r: Registry, id: int)
    requires IsMounted(r, id)
    ensures IsTornDown(Replay(r, CleanupEvents(id)))
  {
    CleanupLog(r, id, ReleasedResources);
    forall x ensures x in Elems(ReleasedResources) <==> Released(x) {
      ReleasedListed(x);
    }
  }

  /**
   * Why `rafId` is reassigned on every frame: had the cleanup cancelled an
   * earlier frame id instead of the latest, the latest frame would stay
   * scheduled after teardown.
   */
  lemma StaleCancelLeavesFrame(r: Registry, stale: int, latest: int)
    requires IsMounted(r, latest) && stale != latest
    ensures Replay(r, CleanupEvents(stale)).pendingFrame == Some(latest)
  {
    CleanupLog(r, stale, ReleasedResources);
  }

  /**
   * What stays live after the cleanup: the two moon textures and every
   * geometry and material; nothing else.
   */
  lemma LeakedAfterCleanup(r: Registry)
    requires IsTornDown(r)
    ensures Tex(MoonBump) in r.live && Tex(MoonMap) in r.live
    ensures WireGeometry in r.live && WireMaterial in r.live && PointsGeometry in r.live
    ensures EarthPointsMaterial in r.live && MoonPointsMaterial in r.live
    ensures Renderer !in r.live && Controls !in r.live
    ensures forall t :: Tex(t) in r.live <==> t == MoonBump || t == MoonMap
  {
    assert !Released(Tex(MoonBump)) && !Released(Tex(MoonMap));
    assert !Released(WireGeometry) && !Released(WireMaterial) && !Released(PointsGeometry);
    assert !Released(EarthPointsMaterial) && !Released(MoonPointsMaterial);
    assert Released(Renderer) && Released(Controls);
    forall t ensures Tex(t) in r.live <==> t == MoonBump || t == MoonMap {
      assert Tex(t) in r.live <==> !Released(Tex(t));
    }
  }

  // ---------------------------------------------------------------------
  // Sizes

  /** `clientSize || fallback`: the client size unless it is 0. */
  function InitialSize(client: nat, fallback: nat): (n: nat)
    ensures client != 0 ==> n == client
    ensures client == 0 ==> n == fallback
  {
    if client != 0 then client else fallback
  }

  /** The size variables, the camera's aspect ratio and the renderer's size. */
  datatype Viewport = Viewport(width: nat, height: nat, aspect: real, rendererWidth: nat, rendererHeight: nat)

  /** The camera and the renderer agree with a positive `width` and `height`. */
  predicate Consistent(v: Viewport)
  {
    && v.width > 0 && v.height > 0
    && v.aspect == v.width as real / v.height as real
    && v.rendererWidth == v.width && v.rendererHeight == v.height
  }

  /** Size (w, h), with the camera's aspect and the renderer's size following it. */
  function Sized(w: nat, h: nat): Viewport
    requires h > 0
  {
    Viewport(w, h, w as real / h as real, w, h)
  }

  /** A positive size makes a consistent viewport. */
  lemma SizedConsistent(w: nat, h: nat)
    requires w > 0 && h > 0
    ensures Consistent(Sized(w, h))
  {
  }

  /** `onResize` on a container of size (cw, ch). */
  function Resized(v: Viewport, cw: nat, ch: nat): Viewport
  {
    if cw == 0 || ch == 0 then v else Sized(cw, ch)
  }

  /**
   * A zero width or height leaves everything unchanged; otherwise the size
   * becomes the container's and the camera and renderer follow it.
   */
  lemma ResizeEffect(v: Viewport, cw: nat, ch: nat)
    ensures cw == 0 || ch == 0 ==> Resized(v, cw, ch) == v
    ensures cw != 0 && ch != 0 ==>
      var r := Resized(v, cw, ch);
      Consistent(r) && r.width == cw && r.height == ch
  {
  }

  /** Resizing twice to the same container size is resizing once. */
  lemma ResizeIdempotent(v: Viewport, cw: nat, ch: nat)
    ensures Resized(Resized(v, cw, ch), cw, ch) == Resized(v, cw, ch)
  {
  }

  /** Resizing keeps the camera and the renderer in agreement with the size. */
  lemma ResizeKeepsConsistent(v: Viewport, cw: nat, ch: nat)
    requires Consistent(v)
    ensures Consistent(Resized(v, cw, ch))
  {
  }

  // ---------------------------------------------------------------------
  // The component

  /** While live: the log leaves frame `id` pending and everything mounted, and the size is consistent. */
  ghost predicate LiveState(log: seq<Event>, id: int, v: Viewport)
  {
    IsMounted(Replay(Blank, log), id) && Consistent(v)
  }

  /** The mount calls on a positive size leave a live component. */
  lemma MountedLive(w: nat, h: nat, firstId: int)
    requires w > 0 && h > 0
    ensures LiveState(MountEvents(w, h, firstId), firstId, Sized(w, h))
  {
    MountRegistry(Blank, w, h, firstId);
    SizedConsistent(w, h);
  }

  datatype Phase = Fresh | NoContainer | Live | Cleaned

  class GlobeView {
    var phase: Phase
    var width: nat
    var height: nat
    var cameraAspect: real
    var rendererWidth: nat
    var rendererHeight: nat
    var rafId: int
    /** Every call made so far on the renderer, the DOM and the browser. */
    var log: seq<Event>

    function View(): Viewport
      reads this
    {
      Viewport(width, height, cameraAspect, rendererWidth, rendererHeight)
    }

    /**
     * Before mounting, or without a container, nothing has been done; while
     * live, the log leaves the latest frame `rafId` pending and everything
     * mounted, and the size is consistent; after the cleanup, the log leaves
     * the torn-down registry.
     */
    ghost predicate Valid()
      reads this
    {
      && (phase == Fresh || phase == NoContainer ==> log == [])
      && (phase == Live ==> LiveState(log, rafId, View()))
      && (phase == Cleaned ==> IsTornDown(Replay(Blank, log)))
    }

    constructor()
      ensures Valid() && phase == Fresh
    {
      phase := Fresh;
      width, height := DefaultWidth, DefaultHeight;
      cameraAspect := 2.0;
      rendererWidth, rendererHeight := DefaultWidth, DefaultHeight;
      rafId := 0;
      log := [];
    }

    /**
     * The effect.  Without a container it returns before doing anything;
     * otherwise it sizes everything from the container (or the fallback size),
     * makes the mount calls and schedules the first frame.
     */
    method Mount(hasContainer: bool, clientWidth: nat, clientHeight: nat, firstId: int)
      requires Valid() && phase == Fresh
      modifies this
      ensures Valid()
      ensures !hasContainer ==> phase == NoContainer && log == []
      ensures hasContainer ==>
        && phase == Live
        && width == InitialSize(clientWidth, DefaultWidth)
        && height == InitialSize(clientHeight, DefaultHeight)
        && rafId == firstId
        && log == MountEvents(width, height, firstId)
    {
      if !hasContainer {
        phase := NoContainer;
        return;
      }
      width := InitialSize(clientWidth, DefaultWidth);
      height := InitialSize(clientHeight, DefaultHeight);
      var v := Sized(width, height);
      cameraAspect := v.aspect;
      rendererWidth, rendererHeight := width, height;
      var calls := AttachEvents(width, height);
      calls := calls + SceneEvents();
      rafId := firstId;
      calls := calls + StartEvents(firstId);
      log := calls;
      phase := Live;
      MountedLive(width, height, firstId);
    }

    /** One run of `animate` scheduled by the browser; the frame it requests is answered with `id`. */
    method AnimateFrame(id: int)
      requires Valid() && phase == Live
      modifies this
      ensures Valid() && phase == Live
      ensures rafId == id && log == old(log) + FrameEvents(id) && View() == old(View())
    {
      log := log + [Render];
      rafId := id;
      log := log + [RequestFrame(id)];
      assert log == old(log) + FrameEvents(id);
      ReplayConcat(Blank, old(log), FrameEvents(id));
      FrameRegistry(Replay(Blank, old(log)), id);
    }

    /** `onResize`, called by the observer or the window listener with the container's size. */
    method OnResize(clientWidth: nat, clientHeight: nat)
      requires Valid() && phase == Live
      modifies this
      ensures Valid() && phase == Live && rafId == old(rafId)
      ensures View() == Resized(old(View()), clientWidth, clientHeight)
      ensures log == old(log) + if clientWidth == 0 || clientHeight == 0 then [] else [SetSize(clientWidth, clientHeight)]
    {
      var w, h := clientWidth, clientHeight;
      if w == 0 || h == 0 {
        assert log == old(log) + [];
        return;
      }
      width := w;
      height := h;
      cameraAspect := width as real / height as real;
      rendererWidth, rendererHeight := width, height;
      log := log + [SetSize(width, height)];
      ReplayConcat(Blank, old(log), [SetSize(w, h)]);
      ResizeRegistry(Replay(Blank, old(log)), w, h);
    }

    /** The cleanup closure. */
    method Cleanup()
      requires Valid() && phase == Live
      modifies this
      ensures Valid() && phase == Cleaned
      ensures log == old(log) + CleanupEvents(old(rafId))
    {
      log := log + [CancelFrame(rafId)];
      log := log + [Disconnect];
      log := log + [RemoveResizeListener];
      log := log + Disposes(ReleasedResources);
      log := log + [RemoveCanvas];
      phase := Cleaned;
      assert log == old(log) + CleanupEvents(rafId);
      ReplayConcat(Blank, old(log), CleanupEvents(rafId));
      CleanupRegistry(Replay(Blank, old(log)), rafId);
      assert IsTornDown(Replay(Blank, log));
    }
  }
}
