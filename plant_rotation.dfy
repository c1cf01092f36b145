/**
 * The rotation controller of the plant-density page: one automatic full turn of
 * the point cloud, after which the cloud turns only while the mouse is dragged.
 * The manual angle is folded into [0, 2*pi) and cut into ten equal angular
 * segments; entering a new segment activates that segment's pair of text
 * containers (one above, one below the canvas) and deactivates all others.
 *
 * Angles are exact reals. `2 * Math.PI` is taken as 6.283185307179586, the
 * shortest decimal that reads back as that double, as an exact rational; the
 * double itself is 6.28318530717958623..., and rounding of the accumulated float
 * angle is not modelled.
 */
module PlantRotation {

  const TwoPi: real := 6.283185307179586
  const RotationSpeed: real := 0.01
  const DragSensitivity: real := 0.01
  const TotalSegments: int := 10
  const SegmentAngle: real := TwoPi / 10.0

  // ---------------------------------------------------------------------------
  // Angle arithmetic
  // ---------------------------------------------------------------------------

  /** Rounding toward zero, as the quotient JavaScript's `%` uses. */
  function Trunc(x: real): (q: int)
    ensures 0.0 <= x ==> q as real <= x < q as real + 1.0
    ensures x < 0.0 ==> q as real - 1.0 < x <= q as real
  {
    if x >= 0.0 then x.Floor else -((-x).Floor)
  }

  /** A real that is a whole number. */
  predicate Whole(x: real) {
    x.Floor as real == x
  }

  /** From the quotient's bounds to the dividend's, for a positive divisor. */
  lemma ScaleBounds(a: real, b: real, lo: real, hi: real)
    requires b > 0.0 && lo <= a / b < hi
    ensures b * lo <= a < b * hi
  {
    assert a == b * (a / b);
  }

  /** The same, with the strictness on the other side. */
  lemma ScaleBoundsBelow(a: real, b: real, lo: real, hi: real)
    requires b > 0.0 && lo < a / b <= hi
    ensures b * lo < a <= b * hi
  {
    assert a == b * (a / b);
  }

  /** Taking one more turn off an angle takes one off its count of turns. */
  lemma OneTurnLess(u: real)
    requires Whole(u / TwoPi)
    ensures Whole((u - TwoPi) / TwoPi)
  {
    assert (u - TwoPi) / TwoPi == u / TwoPi - 1.0;
    assert (u / TwoPi - 1.0).Floor == (u / TwoPi).Floor - 1;
  }

  /** The remainder left by the truncated quotient q of a by b. */
  lemma RemainderFacts(a: real, b: real, q: int)
    requires b > 0.0 && q == Trunc(a / b)
    ensures 0.0 <= a ==> 0.0 <= a - b * q as real < b
    ensures a < 0.0 ==> -b < a - b * q as real <= 0.0
    ensures (a - (a - b * q as real)) / b == q as real
  {
    assert a == b * (a / b);
    if a >= 0.0 {
      ScaleBounds(a, b, q as real, q as real + 1.0);
    } else {
      ScaleBoundsBelow(a, b, q as real - 1.0, q as real);
    }
  }

  /** JavaScript's `a % b` on numbers for a positive divisor: the remainder keeps the sign of `a`. */
  function FMod(a: real, b: real): (r: real)
    requires b > 0.0
    ensures 0.0 <= a ==> 0.0 <= r < b
    ensures a < 0.0 ==> -b < r <= 0.0
    ensures Whole((a - r) / b)
  {
    var q := Trunc(a / b);
    RemainderFacts(a, b, q);
    a - b * q as real
  }

  /** `manualRotationAngle % (2 * Math.PI)`, shifted up by a full turn when negative. */
  function Normalize(m: real): (r: real)
    ensures 0.0 <= r < TwoPi
    ensures Whole((m - r) / TwoPi)
  {
    var n := FMod(m, TwoPi);
    if n < 0.0 then
      OneTurnLess(m - n);
      assert m - (n + TwoPi) == (m - n) - TwoPi;
      n + TwoPi
    else n
  }

  /** Two angles in [0, 2*pi) that differ by whole turns are equal. */
  lemma SameTurn(r1: real, r2: real)
    requires 0.0 <= r1 < TwoPi && 0.0 <= r2 < TwoPi
    requires Whole((r1 - r2) / TwoPi)
    ensures r1 == r2
  {
    var d := (r1 - r2) / TwoPi;
    assert -1.0 < d < 1.0;
    assert d == 0.0;
  }

  /** Normalising an angle already in [0, 2*pi) leaves it alone. */
  lemma NormalizeInRange(m: real)
    requires 0.0 <= m < TwoPi
    ensures Normalize(m) == m
  {
    var r := Normalize(m);
    assert (r - m) / TwoPi == -((m - r) / TwoPi);
    assert Whole((r - m) / TwoPi);
    SameTurn(r, m);
  }

  /** Turning by whole turns does not change the normalised angle. */
  lemma NormalizePeriodic(m: real, k: int)
    ensures Normalize(m + k as real * TwoPi) == Normalize(m)
  {
    var r1, r2 := Normalize(m + k as real * TwoPi), Normalize(m);
    var w1, w2 := (m + k as real * TwoPi - r1) / TwoPi, (m - r2) / TwoPi;
    assert (r1 - r2) / TwoPi == w2 - w1 + k as real;
    assert Whole(w2 - w1 + k as real) by {
      assert w2 - w1 + k as real == (w2.Floor - w1.Floor + k) as real;
    }
    SameTurn(r1, r2);
  }

  /** `Math.floor(normalizedAngle / segmentAngle) % totalSegments`. */
  function SegmentOf(m: real): (s: int)
    ensures 0 <= s < TotalSegments
    ensures s as real * SegmentAngle <= Normalize(m) < (s + 1) as real * SegmentAngle
  {
    var n := Normalize(m);
    var f := (n / SegmentAngle).Floor;
    assert f < TotalSegments by {
      assert n / SegmentAngle < 10.0;
    }
    ScaleBounds(n, SegmentAngle, f as real, f as real + 1.0);
    f % TotalSegments
  }

  // ---------------------------------------------------------------------------
  // The page state
  // ---------------------------------------------------------------------------

  class Viewer {
    var autoRotate: bool
    var rotationAngle: real
    var rotationComplete: bool
    var isDragging: bool
    var lastMouseX: real
    var manualRotationAngle: real
    var currentSegment: int
    var previousSegment: int
    /** `container-<k+1>-top` and `container-<k+1>-bottom` carry the `active` class. */
    const topActive: array<bool>
    const bottomActive: array<bool>
    /** Frames drawn during the automatic turn. */
    ghost var autoFrames: nat

    /** Ten containers in each row, in two distinct rows. */
    ghost predicate Rows()
      reads this
    {
      topActive.Length == TotalSegments && bottomActive.Length == TotalSegments && topActive != bottomActive
    }

    /** Exactly segment s's two containers are active. */
    ghost predicate OnlyActive(s: int)
      reads this, topActive, bottomActive
      requires Rows()
    {
      forall k :: 0 <= k < TotalSegments ==> topActive[k] == (k == s) && bottomActive[k] == (k == s)
    }

    ghost predicate Valid()
      reads this, topActive, bottomActive
    {
      && Rows()
      && autoRotate == !rotationComplete
      && (!rotationComplete ==>
            && !isDragging
            && manualRotationAngle == 0.0
            && currentSegment == 0 && previousSegment == -1
            && rotationAngle == autoFrames as real * RotationSpeed
            && rotationAngle < TwoPi
            && OnlyActive(-1))
      && (rotationComplete ==>
            && rotationAngle == 0.0
            && currentSegment == previousSegment == SegmentOf(manualRotationAngle)
            && OnlyActive(currentSegment))
    }

    /** The page's initial globals, with every container inactive. */
    constructor ()
      ensures Valid() && !rotationComplete && autoFrames == 0 && !isDragging
      ensures lastMouseX == 0.0
      ensures fresh(topActive) && fresh(bottomActive)
    {
      autoRotate, rotationAngle, rotationComplete, isDragging := true, 0.0, false, false;
      lastMouseX, manualRotationAngle := 0.0, 0.0;
      currentSegment, previousSegment := 0, -1;
      topActive := new bool[TotalSegments](_ => false);
      bottomActive := new bool[TotalSegments](_ => false);
      autoFrames := 0;
    }

    /** `updateContainers(segment)`: deactivate every container, then activate the pair of `segment` if it exists. */
    method UpdateContainers(segment: int)
      requires Rows()
      modifies topActive, bottomActive
      ensures OnlyActive(segment)
    {
      for i := 0 to TotalSegments
        invariant forall k :: 0 <= k < i ==> !topActive[k] && !bottomActive[k]
      {
        topActive[i] := false;
        bottomActive[i] := false;
      }
      if 0 <= segment < TotalSegments {
        topActive[segment] := true;
        bottomActive[segment] := true;
      }
    }

    /** The rotation part of `draw()` for one frame, with the mouse at `mouseX`. */
    method Draw(mouseX: real)
      requires Valid()
      modifies this, topActive, bottomActive
      ensures Valid()
      // The automatic turn: one step per frame, ending on frame 629 with segment 0 shown.
      ensures old(!rotationComplete) ==>
        && (rotationComplete <==> old(autoFrames) == 628)
        && (!rotationComplete ==> rotationAngle == old(rotationAngle) + RotationSpeed && autoFrames == old(autoFrames) + 1)
        && (rotationComplete ==> rotationAngle == 0.0 && manualRotationAngle == 0.0 && currentSegment == 0)
        && lastMouseX == old(lastMouseX)
      // After it: the drag turns the cloud; the mouse position is always recorded.
      ensures old(rotationComplete) ==>
        && rotationComplete
        && lastMouseX == mouseX
        && autoFrames == old(autoFrames)
        && manualRotationAngle ==
             (if old(isDragging) then old(manualRotationAngle) + (mouseX - old(lastMouseX)) * DragSensitivity
              else old(manualRotationAngle))
      // Containers change only when a new segment is entered.
      ensures old(rotationComplete) && currentSegment == old(currentSegment) ==> unchanged(topActive, bottomActive)
      ensures old(!rotationComplete) && !rotationComplete ==> unchanged(topActive, bottomActive)
      ensures isDragging == old(isDragging)
    {
      if autoRotate && !rotationComplete {
        rotationAngle := rotationAngle + RotationSpeed;
        autoFrames := autoFrames + 1;
        if rotationAngle >= TwoPi {
          rotationAngle := 0.0;
          rotationComplete := true;
          autoRotate := false;
          manualRotationAngle := 0.0;
          currentSegment := 0;
          UpdateContainers(currentSegment);
          previousSegment := currentSegment;
        }
      } else if rotationComplete {
        if isDragging {
          var deltaX := mouseX - lastMouseX;
          manualRotationAngle := manualRotationAngle + deltaX * DragSensitivity;
          var normalizedAngle := FMod(manualRotationAngle, TwoPi);
          if normalizedAngle < 0.0 {
            normalizedAngle := normalizedAngle + TwoPi;
          }
          assert normalizedAngle == Normalize(manualRotationAngle);
          currentSegment := (normalizedAngle / SegmentAngle).Floor % TotalSegments;
          if currentSegment != previousSegment {
            UpdateContainers(currentSegment);
            previousSegment := currentSegment;
          }
        }
        lastMouseX := mouseX;
      }
    }

    /** `mousePressed()`: a drag can start only once the automatic turn is over. */
    method MousePressed(mouseX: real)
      requires Valid()
      modifies this
      ensures Valid()
      ensures isDragging == old(rotationComplete)
      ensures lastMouseX == (if old(rotationComplete) then mouseX else old(lastMouseX))
      ensures rotationComplete == old(rotationComplete) && manualRotationAngle == old(manualRotationAngle)
      ensures currentSegment == old(currentSegment) && autoFrames == old(autoFrames)
    {
      if rotationComplete {
        isDragging := true;
        lastMouseX := mouseX;
      }
    }

    /** `mouseReleased()`. */
    method MouseReleased()
      requires Valid()
      modifies this
      ensures Valid() && !isDragging
      ensures rotationComplete == old(rotationComplete) && manualRotationAngle == old(manualRotationAngle)
      ensures lastMouseX == old(lastMouseX) && currentSegment == old(currentSegment) && autoFrames == old(autoFrames)
    {
      isDragging := false;
    }
  }

  /**
   * The page from load through its first 629 frames, the mouse never pressed:
   * the automatic turn is then over, the cloud stands at segment 0 and exactly
   * that segment's containers are active.
   */
  method AutoTurnFromLoad(mouseXs: seq<real>) returns (v: Viewer)
    requires |mouseXs| == 629
    ensures v.Valid() && v.rotationComplete && !v.autoRotate && !v.isDragging
    ensures v.rotationAngle == 0.0 && v.manualRotationAngle == 0.0 && v.currentSegment == 0
    ensures v.OnlyActive(0)
  {
    v := new Viewer();
    for k := 0 to 629
      invariant v.Valid() && fresh(v.topActive) && fresh(v.bottomActive) && !v.isDragging
      invariant v.rotationComplete <==> k == 629
      invariant !v.rotationComplete ==> v.autoFrames == k
      invariant v.rotationComplete ==> v.manualRotationAngle == 0.0 && v.currentSegment == 0
    {
      v.Draw(mouseXs[k]);
    }
  }
}
