/**
 * Geometry primitives: polar coordinates around the chart centre, the
 * annular-sector path, the guide arc that skill labels follow, and the equal
 * angular partition of the circle among categories.
 *
 * Cosine, sine and pi are not interpreted: a `Trig` value carries them, and
 * the only fact assumed of it is `pi > 0`.
 */
module Geometry {

  /** Side of the square canvas, and its centre. */
  const Size: real := 720.0
  const Cx: real := Size / 2.0
  const Cy: real := Size / 2.0

  /** Angular gap left between neighbouring sectors (none). */
  const PadAngle: real := 0.0

  /** The trigonometry of the host, left uninterpreted. */
  datatype Trig = Trig(pi: real, cos: real -> real, sin: real -> real)

  predicate ValidTrig(t: Trig) {
    t.pi > 0.0
  }

  datatype Point = Point(x: real, y: real)

  /** `polar`: the point at radius `r` and angle `a` around the centre. */
  function Polar(t: Trig, r: real, a: real): Point {
    Point(Cx + r * t.cos(a), Cy + r * t.sin(a))
  }

  /**
   * Points at one angle lie on a ray from the centre: radius 0 is the centre,
   * and the offset from the centre grows in proportion to the radius.
   */
  lemma PolarAlongRay(t: Trig, r: real, a: real)
    ensures Polar(t, 0.0, a) == Point(Cx, Cy)
    ensures Polar(t, r, a).x - Cx == r * (Polar(t, 1.0, a).x - Cx)
    ensures Polar(t, r, a).y - Cy == r * (Polar(t, 1.0, a).y - Cy)
  {
  }

  /** The SVG path commands the chart uses; flags are 0 or 1. */
  datatype PathCmd =
    | MoveTo(p: Point)
    | LineTo(p: Point)
    | ArcTo(rx: real, ry: real, rotation: real, largeArc: nat, sweep: nat, p: Point)
    | ClosePath

  /** The large-arc flag: 1 exactly when the arc spans more than half a turn. */
  function LargeArcFlag(t: Trig, span: real): (f: nat)
    ensures f <= 1
    ensures f == 1 <==> span > t.pi
  {
    if span > t.pi then 1 else 0
  }

  /**
   * `arcPath`: the closed annular wedge between two radii and two angles,
   * traced inner-start, outer-start, along the outer arc, inner-end, and back
   * along the inner arc.
   */
  function ArcPath(t: Trig, innerR: real, outerR: real, startAngle: real, endAngle: real): (path: seq<PathCmd>)
    ensures |path| == 6
    ensures path[0] == MoveTo(Polar(t, innerR, startAngle)) && path[5] == ClosePath
    // both straight edges are radial: they join the two radii at one angle
    ensures path[1] == LineTo(Polar(t, outerR, startAngle))
    ensures path[3] == LineTo(Polar(t, innerR, endAngle))
    // the outer arc runs one way to the end angle, the inner arc the other way back to the start
    ensures path[2].ArcTo? && path[2].rx == path[2].ry == outerR && path[2].p == Polar(t, outerR, endAngle)
    ensures path[4].ArcTo? && path[4].rx == path[4].ry == innerR && path[4].p == path[0].p
    ensures path[2].sweep == 1 && path[4].sweep == 0
    ensures path[2].largeArc == path[4].largeArc
    ensures path[2].largeArc == 1 <==> endAngle - startAngle > t.pi
  {
    var p0 := Polar(t, innerR, startAngle);
    var p1 := Polar(t, outerR, startAngle);
    var p2 := Polar(t, outerR, endAngle);
    var p3 := Polar(t, innerR, endAngle);
    var largeArc := LargeArcFlag(t, endAngle - startAngle);
    [ MoveTo(p0),
      LineTo(p1),
      ArcTo(outerR, outerR, 0.0, largeArc, 1, p2),
      LineTo(p3),
      ArcTo(innerR, innerR, 0.0, largeArc, 0, p0),
      ClosePath ]
  }

  /** Exactly half a turn is drawn with the small-arc flag. */
  lemma HalfTurnIsSmallArc(t: Trig, innerR: real, outerR: real, startAngle: real)
    ensures ArcPath(t, innerR, outerR, startAngle, startAngle + t.pi)[2].largeArc == 0
  {
  }

  /** `angleStep`: the equal share of the full turn, the count floored to 1. */
  function AngleStep(t: Trig, n: nat): (step: real)
    ensures step * (if n == 0 then 1.0 else n as real) == 2.0 * t.pi
    ensures ValidTrig(t) ==> step > 0.0
  {
    (2.0 * t.pi) / (if n == 0 then 1.0 else n as real)
  }

  function SectorStart(t: Trig, n: nat, i: nat): real {
    (i as real) * AngleStep(t, n) + PadAngle / 2.0
  }

  function SectorEnd(t: Trig, n: nat, i: nat): real {
    ((i + 1) as real) * AngleStep(t, n) - PadAngle / 2.0
  }

  function SectorMid(t: Trig, n: nat, i: nat): real {
    (SectorStart(t, n, i) + SectorEnd(t, n, i)) / 2.0
  }

  /**
   * The sectors tile the circle: the first starts at angle 0, each spans one
   * angle step, each ends where the next begins, and the last ends at 2 pi.
   */
  lemma {:induction false} SectorsTile(t: Trig, n: nat, i: nat)
    ensures SectorStart(t, n, 0) == 0.0
    ensures SectorEnd(t, n, i) - SectorStart(t, n, i) == AngleStep(t, n)
    ensures SectorEnd(t, n, i) == SectorStart(t, n, i + 1)
    ensures SectorStart(t, n, i) <= SectorMid(t, n, i) <= SectorEnd(t, n, i) || !ValidTrig(t)
    ensures n > 0 ==> SectorEnd(t, n, n - 1) == 2.0 * t.pi
  {
    var step := AngleStep(t, n);
    assert SectorEnd(t, n, i) == (i as real) * step + step;
    if n > 0 {
      assert SectorEnd(t, n, n - 1) == (n as real) * step;
    }
  }

  /** A positive share of a whole split in at least two is at most half of it. */
  lemma StepAtMostHalf(step: real, m: real, whole: real)
    requires m >= 2.0 && step > 0.0 && step * m == whole
    ensures 2.0 * step <= whole
  {
    assert step * m - 2.0 * step == step * (m - 2.0);
  }

  /** A sector is drawn with the large-arc flag exactly when there is at most one category. */
  lemma SectorLargeArc(t: Trig, n: nat, i: nat, innerR: real, outerR: real)
    requires ValidTrig(t)
    ensures var path := ArcPath(t, innerR, outerR, SectorStart(t, n, i), SectorEnd(t, n, i));
      path[2].largeArc == 1 <==> n <= 1
  {
    var step := AngleStep(t, n);
    SectorsTile(t, n, i);
    var m := if n == 0 then 1.0 else n as real;
    assert step * m == 2.0 * t.pi;
    if n >= 2 {
      StepAtMostHalf(step, m, 2.0 * t.pi);
    } else {
      assert m == 1.0;
      assert step == 2.0 * t.pi;
    }
  }

  /** The rotational direction in which item labels flow along their rows. */
  datatype Flow = Clockwise | CounterClockwise

  /** Every item label in the chart flows clockwise. */
  const SkillTextFlow: Flow := Clockwise

  /**
   * The invisible guide arc an item label follows, from one angular edge of
   * its row to the other in the given direction.
   */
  function GuideArc(t: Trig, flow: Flow, rText: real, aStart: real, aEnd: real): (path: seq<PathCmd>)
    ensures |path| == 2 && path[0].MoveTo? && path[1].ArcTo?
    ensures path[1].rx == path[1].ry == rText
    ensures flow == Clockwise ==>
      path[0].p == Polar(t, rText, aEnd) && path[1].p == Polar(t, rText, aStart) && path[1].sweep == 0
    ensures flow == CounterClockwise ==>
      path[0].p == Polar(t, rText, aStart) && path[1].p == Polar(t, rText, aEnd) && path[1].sweep == 1
    ensures path[1].largeArc == 1 <==> aEnd - aStart > t.pi || aStart - aEnd > t.pi
  {
    var from := if flow == Clockwise then aEnd else aStart;
    var to := if flow == Clockwise then aStart else aEnd;
    var sweep := if flow == Clockwise then 0 else 1;
    var span := if to - from >= 0.0 then to - from else from - to;
    [ MoveTo(Polar(t, rText, from)),
      ArcTo(rText, rText, 0.0, LargeArcFlag(t, span), sweep, Polar(t, rText, to)) ]
  }

  /**
   * The two directions trace the same arc reversed: endpoints swap, the sweep
   * flag flips, and the large-arc flag does not depend on the direction.
   */
  lemma GuideReversed(t: Trig, rText: real, aStart: real, aEnd: real)
    ensures var cw := GuideArc(t, Clockwise, rText, aStart, aEnd);
      var ccw := GuideArc(t, CounterClockwise, rText, aStart, aEnd);
      && cw[0].p == ccw[1].p && cw[1].p == ccw[0].p
      && cw[1].largeArc == ccw[1].largeArc
      && cw[1].sweep + ccw[1].sweep == 1
  {
  }
}
