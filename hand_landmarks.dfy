/**
 * The landmark logic of the hand-gesture mouse (handgesturetest.py):
 * turning a tracked hand into a pixel landmark list and a bounding box,
 * reading which fingers are raised, and the gesture predicates built on
 * those flags.  Camera capture, hand detection and drawing are outside
 * the model: a detected hand arrives as its normalised landmarks.
 */
module HandLandmarks {
  import opened Wrappers

  /** A landmark as the hand tracker reports it: x and y are fractions of the frame size. */
  datatype NormPoint = NormPoint(x: real, y: real)

  /** One entry `[idx, x, y]` of `landmarkList`: the landmark's index and its pixel coordinates. */
  datatype Landmark = Landmark(idx: int, x: int, y: int)

  /** The bounding box tuple `(xMin, yMin, xMax, yMax)`. */
  datatype Box = Box(xMin: int, yMin: int, xMax: int, yMax: int)

  /** `fingerTipIndices`: thumb, index, middle, ring and pinky tips. */
  const TipIndices: seq<int> := [4, 8, 12, 16, 20]

  /** Number of landmarks a hand must have for `fingersRaised` to index tip 20. */
  const HandLandmarkCount := 21

  /** Python's `int()` on a float: truncation toward zero. */
  function Trunc(r: real): (n: int)
    ensures 0.0 <= r ==> 0 <= n && n as real <= r < n as real + 1.0
    ensures r < 0.0 ==> n <= 0 && n as real - 1.0 < r <= n as real
  {
    if r >= 0.0 then r.Floor else -((-r).Floor)
  }

  /** The landmark list entry for landmark `k` of a frame of `width` x `height` pixels. */
  function Pixel(k: int, p: NormPoint, width: nat, height: nat): Landmark
  {
    Landmark(k, Trunc(p.x * width as real), Trunc(p.y * height as real))
  }

  /** Python's `min` over a non-empty list. */
  function MinOf(s: seq<int>): (m: int)
    requires |s| > 0
    ensures m in s
    ensures forall v :: v in s ==> m <= v
  {
    if |s| == 1 then s[0]
    else
      var rest := MinOf(s[1..]);
      assert forall v :: v in s ==> v == s[0] || v in s[1..];
      if s[0] <= rest then s[0] else rest
  }

  /** Python's `max` over a non-empty list. */
  function MaxOf(s: seq<int>): (m: int)
    requires |s| > 0
    ensures m in s
    ensures forall v :: v in s ==> v <= m
  {
    if |s| == 1 then s[0]
    else
      var rest := MaxOf(s[1..]);
      assert forall v :: v in s ==> v == s[0] || v in s[1..];
      if s[0] >= rest then s[0] else rest
  }

  /** `coordXList` and `coordYList`: the x and the y column of a landmark list. */
  function Xs(lms: seq<Landmark>): seq<int>
  {
    seq(|lms|, k requires 0 <= k < |lms| => lms[k].x)
  }

  function Ys(lms: seq<Landmark>): seq<int>
  {
    seq(|lms|, k requires 0 <= k < |lms| => lms[k].y)
  }

  /** The bounding box `getPositions` reports for a non-empty landmark list. */
  function BoundingBox(lms: seq<Landmark>): Box
    requires |lms| > 0
  {
    Box(MinOf(Xs(lms)), MinOf(Ys(lms)), MaxOf(Xs(lms)), MaxOf(Ys(lms)))
  }

  /** Every landmark lies inside the bounding box, and each side of the box touches a landmark. */
  lemma BoundingBoxIsTight(lms: seq<Landmark>)
    requires |lms| > 0
    ensures forall k :: 0 <= k < |lms| ==>
      BoundingBox(lms).xMin <= lms[k].x <= BoundingBox(lms).xMax &&
      BoundingBox(lms).yMin <= lms[k].y <= BoundingBox(lms).yMax
    ensures exists k :: 0 <= k < |lms| && lms[k].x == BoundingBox(lms).xMin
    ensures exists k :: 0 <= k < |lms| && lms[k].x == BoundingBox(lms).xMax
    ensures exists k :: 0 <= k < |lms| && lms[k].y == BoundingBox(lms).yMin
    ensures exists k :: 0 <= k < |lms| && lms[k].y == BoundingBox(lms).yMax
  {
    var b := BoundingBox(lms);
    forall k | 0 <= k < |lms|
      ensures b.xMin <= lms[k].x <= b.xMax && b.yMin <= lms[k].y <= b.yMax
    {
      assert Xs(lms)[k] == lms[k].x && lms[k].x in Xs(lms);
      assert Ys(lms)[k] == lms[k].y && lms[k].y in Ys(lms);
    }
    var i :| 0 <= i < |Xs(lms)| && Xs(lms)[i] == b.xMin;
    assert lms[i].x == b.xMin;
    var j :| 0 <= j < |Xs(lms)| && Xs(lms)[j] == b.xMax;
    assert lms[j].x == b.xMax;
    var p :| 0 <= p < |Ys(lms)| && Ys(lms)[p] == b.yMin;
    assert lms[p].y == b.yMin;
    var q :| 0 <= q < |Ys(lms)| && Ys(lms)[q] == b.yMax;
    assert lms[q].y == b.yMax;
  }

  /** Flag of a non-thumb finger: 1 when its tip is above (smaller y than) the joint two landmarks below it. */
  function RaisedFlag(lms: seq<Landmark>, tip: int): int
    requires 2 <= tip < |lms|
  {
    if lms[tip].y < lms[tip - 2].y then 1 else 0
  }

  /** Flag of the thumb: 1 when its tip lies to the right of the joint below it. */
  function ThumbFlag(lms: seq<Landmark>): int
    requires |lms| >= HandLandmarkCount
  {
    if lms[4].x > lms[3].x then 1 else 0
  }

  /** The five flags `fingersRaised` computes, thumb first. */
  function Fingers(lms: seq<Landmark>): (f: seq<int>)
    requires |lms| >= HandLandmarkCount
    ensures |f| == 5
  {
    [ThumbFlag(lms), RaisedFlag(lms, 8), RaisedFlag(lms, 12), RaisedFlag(lms, 16), RaisedFlag(lms, 20)]
  }

  /** `is_middle`: only the middle finger raised. */
  predicate IsMiddle(f: seq<int>)
  {
    |f| >= 5 && f[0] == 0 && f[1] == 0 && f[2] == 1 && f[3] == 0 && f[4] == 0
  }

  /** `is_shaka`: only the thumb and the pinky raised. */
  predicate IsShaka(f: seq<int>)
  {
    |f| >= 5 && f[0] == 1 && f[1] == 0 && f[2] == 0 && f[3] == 0 && f[4] == 1
  }

  /** Python's `all(x == v for x in f)`. */
  predicate AllAre(f: seq<int>, v: int)
  {
    forall i :: 0 <= i < |f| ==> f[i] == v
  }

  /** The disable gesture and the enable gesture never match the same flags. */
  lemma MiddleShakaExclusive(f: seq<int>)
    ensures !(IsMiddle(f) && IsShaka(f))
  {
  }

  /** On a non-empty flag list "all raised" and "all lowered" exclude each other. */
  lemma AllRaisedAllLoweredExclusive(f: seq<int>)
    requires |f| > 0
    ensures !(AllAre(f, 1) && AllAre(f, 0))
  {
    if AllAre(f, 1) {
      assert f[0] == 1;
    }
  }

  function MaxR(a: real, b: real): (m: real)
    ensures m >= a && m >= b && (m == a || m == b)
  {
    if a >= b then a else b
  }

  /** Squared Euclidean distance between two landmarks. */
  function DistSq(a: Landmark, b: Landmark): (d: int)
    ensures d >= 0
  {
    (a.x - b.x) * (a.x - b.x) + (a.y - b.y) * (a.y - b.y)
  }

  /**
   * `pinch_state`'s verdict: thumb tip (4) to index tip (8) no farther than
   * `max(minPx, ratio * span)`, where span is the index-MCP (5) to pinky-MCP (17)
   * distance.  Compared on squares, so no square root is needed.
   */
  function PinchState(lms: seq<Landmark>, ratio: real, minPx: nat): bool
    requires |lms| >= HandLandmarkCount
  {
    (DistSq(lms[4], lms[8]) as real)
      <= MaxR((minPx * minPx) as real, ratio * ratio * (DistSq(lms[5], lms[17]) as real))
  }

  /** Squaring is strictly increasing on the non-negative reals. */
  lemma StrictSquare(b: real, a: real)
    requires 0.0 <= b < a
    ensures b * b < a * a
  {
    var d := a - b;
    assert d * d > 0.0;
    assert b * d >= 0.0;
    calc {
      a * a;
      == (b + d) * (b + d);
      == b * b + 2.0 * (b * d) + d * d;
      > b * b;
    }
  }

  /** For non-negative reals, comparing values is comparing their squares. */
  lemma SquaresMonotone(a: real, b: real)
    requires a >= 0.0 && b >= 0.0
    ensures a <= b <==> a * a <= b * b
  {
    if a <= b {
      assert a * a <= a * b <= b * b;
    } else {
      StrictSquare(b, a);
    }
  }

  /** The square of a maximum of non-negative reals is the maximum of the squares. */
  lemma MaxSquares(m: real, x: real)
    requires m >= 0.0 && x >= 0.0
    ensures MaxR(m, x) * MaxR(m, x) == MaxR(m * m, x * x)
  {
    SquaresMonotone(m, x);
  }

  lemma ScaledSquare(ratio: real, span: real)
    ensures ratio * ratio * (span * span) == (ratio * span) * (ratio * span)
  {
  }

  /**
   * `PinchState` agrees with the source's test on true distances:
   * whenever `dist` and `span` are the Euclidean norms of the two landmark
   * differences, the verdict is `dist <= max(minPx, ratio * span)`, and that
   * threshold is never below `minPx`.
   */
  lemma PinchStateIsNormTest(lms: seq<Landmark>, ratio: real, minPx: nat, dist: real, span: real)
    requires |lms| >= HandLandmarkCount
    requires ratio >= 0.0 && dist >= 0.0 && span >= 0.0
    requires dist * dist == DistSq(lms[4], lms[8]) as real
    requires span * span == DistSq(lms[5], lms[17]) as real
    ensures PinchState(lms, ratio, minPx) <==> dist <= MaxR(minPx as real, ratio * span)
    ensures MaxR(minPx as real, ratio * span) >= minPx as real
  {
    var m := minPx as real;
    var rs := ratio * span;
    assert rs >= 0.0;
    assert (minPx * minPx) as real == m * m;
    assert PinchState(lms, ratio, minPx) <==> dist * dist <= MaxR(m * m, ratio * ratio * (span * span));
    ScaledSquare(ratio, span);
    MaxSquares(m, rs);
    SquaresMonotone(dist, MaxR(m, rs));
  }

  /** The hand detector's state that `getPositions` and `fingersRaised` share. */
  class GestureRecognizer {
    var landmarkList: seq<Landmark>

    constructor ()
      ensures landmarkList == []
    {
      landmarkList := [];
    }

    /**
     * `getPositions` for hand 0: rebuilds `landmarkList` with one pixel entry per
     * landmark and returns it with the bounding box; with no hand detected both the
     * list and the box are empty.
     */
    method GetPositions(hands: seq<seq<NormPoint>>, frameWidth: nat, frameHeight: nat)
      returns (lmList: seq<Landmark>, box: Option<Box>)
      requires hands != [] ==> hands[0] != []
      modifies this
      ensures lmList == landmarkList
      ensures hands == [] ==> lmList == [] && box == None
      ensures hands != [] ==> |lmList| == |hands[0]|
      ensures hands != [] ==> forall k :: 0 <= k < |lmList| ==>
        lmList[k] == Pixel(k, hands[0][k], frameWidth, frameHeight)
      ensures hands != [] ==> box == Some(BoundingBox(lmList))
    {
      var coordXList: seq<int> := [];
      var coordYList: seq<int> := [];
      box := None;
      landmarkList := [];
      if hands != [] {
        var selectedHand := hands[0];
        var idx := 0;
        while idx < |selectedHand|
          invariant 0 <= idx <= |selectedHand|
          invariant |landmarkList| == |coordXList| == |coordYList| == idx
          invariant forall k :: 0 <= k < idx ==> landmarkList[k] == Pixel(k, selectedHand[k], frameWidth, frameHeight)
          invariant forall k :: 0 <= k < idx ==> coordXList[k] == landmarkList[k].x && coordYList[k] == landmarkList[k].y
        {
          var entry := Pixel(idx, selectedHand[idx], frameWidth, frameHeight);
          coordXList := coordXList + [entry.x];
          coordYList := coordYList + [entry.y];
          landmarkList := landmarkList + [entry];
          idx := idx + 1;
        }
        assert coordXList == Xs(landmarkList);
        assert coordYList == Ys(landmarkList);
        box := Some(Box(MinOf(coordXList), MinOf(coordYList), MaxOf(coordXList), MaxOf(coordYList)));
      }
      lmList := landmarkList;
    }

    /**
     * `fingersRaised`: five flags, each 0 or 1.  The thumb's is 1 exactly when
     * landmark 4 lies right of landmark 3; finger i's (i = 1..4) is 1 exactly when
     * tip `TipIndices[i]` lies above landmark `TipIndices[i] - 2`.
     */
    method FingersRaised() returns (fingers: seq<int>)
      requires |landmarkList| >= HandLandmarkCount
      ensures |fingers| == 5
      ensures forall i :: 0 <= i < 5 ==> fingers[i] == 0 || fingers[i] == 1
      ensures fingers[0] == 1 <==> landmarkList[TipIndices[0]].x > landmarkList[TipIndices[0] - 1].x
      ensures forall i :: 1 <= i < 5 ==>
        (fingers[i] == 1 <==> landmarkList[TipIndices[i]].y < landmarkList[TipIndices[i] - 2].y)
      ensures fingers == Fingers(landmarkList)
    {
      fingers := [];
      if landmarkList[TipIndices[0]].x > landmarkList[TipIndices[0] - 1].x {
        fingers := fingers + [1];
      } else {
        fingers := fingers + [0];
      }
      for i := 1 to 5
        invariant |fingers| == i
        invariant fingers[0] == ThumbFlag(landmarkList)
        invariant forall j :: 1 <= j < i ==> fingers[j] == RaisedFlag(landmarkList, TipIndices[j])
      {
        if landmarkList[TipIndices[i]].y < landmarkList[TipIndices[i] - 2].y {
          fingers := fingers + [1];
        } else {
          fingers := fingers + [0];
        }
      }
    }
  }
}
