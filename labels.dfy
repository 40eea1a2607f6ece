/**
 * The category name: the radius it is hung from, just outside the
 * category's rings, and the label itself, which extends horizontally away
 * from the chart and is cut with an ellipsis to the room left before the
 * canvas edge.
 */
module Labels {
  import opened Chart
  import opened Allocator
  import Geometry
  import TextMetrics

  /** The smallest gap kept between the rings and the label radius. */
  const MinMargin: real := 16.0
  /** Distance kept from the canvas edge, by the radius and by the text. */
  const EdgeInset: real := 4.0
  /** Horizontal gap between the anchor point and the text. */
  const Offset: real := 8.0
  /** Estimated character width per unit of font size. */
  const CharFactor: real := 0.6
  /** Room kept free at the end of the text. */
  const TailRoom: real := 2.0

  /** `outerMargin`: a row, two font sizes, or 16, whichever is largest. */
  function OuterMargin(unit: real, chartFs: int): (m: real)
    ensures m >= unit && m >= 2.0 * chartFs as real && m >= MinMargin
    ensures m == unit || m == 2.0 * chartFs as real || m == MinMargin
  {
    var twice := chartFs as real * 2.0;
    var m := if unit > twice then unit else twice;
    if m > MinMargin then m else MinMargin
  }

  /** `labelRadius`: the category's outer radius plus the margin, but never past 4 inside the canvas edge. */
  function LabelRadius(c: Category, unit: real, chartFs: int): (r: real)
    ensures r <= Geometry.Size / 2.0 - EdgeInset
    ensures r <= CatOuterR(c, unit) + OuterMargin(unit, chartFs)
    ensures r == CatOuterR(c, unit) + OuterMargin(unit, chartFs) || r == Geometry.Size / 2.0 - EdgeInset
  {
    var wanted := CatOuterR(c, unit) + OuterMargin(unit, chartFs);
    var limit := Geometry.Size / 2.0 - EdgeInset;
    if wanted < limit then wanted else limit
  }

  /**
   * The category name hangs clear of every ring of its category: at least a
   * margin outside the last band, unless it is pulled in to the canvas
   * limit.
   */
  lemma LabelClearsRings(c: Category, unit: real, chartFs: int)
    requires unit > 0.0
    ensures var bs := Bands(c, unit);
      var r := LabelRadius(c, unit, chartFs);
      r == Geometry.Size / 2.0 - EdgeInset ||
        forall j :: 0 <= j < |bs| ==> bs[j].outer + OuterMargin(unit, chartFs) <= r
  {
    var bs := Bands(c, unit);
    BandsLayout(c, unit);
    if |bs| > 0 {
      forall j | 0 <= j < |bs|
        ensures bs[j].outer <= CatOuterR(c, unit)
      {
        BandsBelowLast(c, unit, bs, j);
      }
    }
  }

  /** In a contiguous run of bands, each ends no further out than the last. */
  lemma {:induction false} BandsBelowLast(c: Category, unit: real, bs: seq<Band>, j: nat)
    requires unit > 0.0 && j < |bs|
    requires forall k :: 0 <= k < |bs| ==> WellFormedBand(c, unit, bs[k])
    requires forall k :: 0 < k < |bs| ==> bs[k].inner == bs[k - 1].outer
    ensures bs[j].outer <= bs[|bs| - 1].outer
    decreases |bs| - j
  {
    if j < |bs| - 1 {
      BandsBelowLast(c, unit, bs, j + 1);
      var next := bs[j + 1];
      SpanSign(next.count, unit);
      SpanSign(SpacerRows(next.tier, next.count), unit);
    }
  }

  /** The side of the anchor the text extends to: away from the chart. */
  datatype Side = Right | Left

  /** A category label: where its text is anchored, on which side it extends, and the text shown. */
  datatype Label = Label(x: real, y: real, side: Side, display: string)

  /** Room between the anchor and the canvas bound on the text's side, never negative. */
  function Available(side: Side, x: real, cx: real, canvasSize: real): (a: real)
    ensures a >= 0.0
    ensures side == Right ==> a >= (cx + canvasSize / 2.0 - EdgeInset) - x
    ensures side == Left ==> a >= x - (cx - canvasSize / 2.0 + EdgeInset)
    ensures a > 0.0 ==> a == (if side == Right then (cx + canvasSize / 2.0 - EdgeInset) - x else x - (cx - canvasSize / 2.0 + EdgeInset))
  {
    var leftBound := cx - canvasSize / 2.0 + EdgeInset;
    var rightBound := cx + canvasSize / 2.0 - EdgeInset;
    var room := if side == Right then rightBound - x else x - leftBound;
    if room > 0.0 then room else 0.0
  }

  /** `estCharW`, floored at one pixel. */
  function CharW(fontSize: real): (w: real)
    ensures w >= 1.0 && w >= fontSize * CharFactor
    ensures w == 1.0 || w == fontSize * CharFactor
  {
    var est := fontSize * CharFactor;
    if est > 1.0 then est else 1.0
  }

  /** How many estimated characters fit in the room, before the floor of one. */
  function RawChars(available: real, fontSize: real): int {
    ((available - TailRoom) / CharW(fontSize)).Floor
  }

  /** `maxChars`: at least one. */
  function MaxChars(available: real, fontSize: real): (k: int)
    ensures k >= 1 && k >= RawChars(available, fontSize)
    ensures RawChars(available, fontSize) >= 1 ==> k == RawChars(available, fontSize)
    ensures RawChars(available, fontSize) < 1 ==> k == 1
  {
    var raw := RawChars(available, fontSize);
    if raw > 1 then raw else 1
  }

  /**
   * The text shown for at most `maxChars` characters: the whole text when it
   * is short enough, otherwise its longest prefix leaving room for the
   * ellipsis, but never less than one character.
   */
  function Shorten(text: string, maxChars: int): (d: string)
    requires maxChars >= 1
    ensures |text| <= maxChars ==> d == text
    ensures |text| > maxChars ==>
      && |d| == (if maxChars > 2 then maxChars else 2) <= |text|
      && d[|d| - 1] == TextMetrics.Ellipsis
      && d[..|d| - 1] == text[..|d| - 1]
  {
    if |text| > maxChars then
      var keep := if maxChars - 1 > 1 then maxChars - 1 else 1;
      text[..keep] + [TextMetrics.Ellipsis]
    else text
  }

  /** `CategoryLabel`: the label for `text` hung at `radius` and `angle` around (cx, cy). */
  function CategoryLabel(t: Geometry.Trig, cx: real, cy: real, radius: real, angle: real, text: string,
                         canvasSize: real, fontSize: real): (l: Label)
    ensures l.side == Right <==> t.cos(angle) >= 0.0
  {
    var baseX := cx + radius * t.cos(angle);
    var baseY := cy + radius * t.sin(angle);
    var side := if t.cos(angle) >= 0.0 then Right else Left;
    var x := baseX + (if side == Right then Offset else -Offset);
    var available := Available(side, x, cx, canvasSize);
    Label(x, baseY, side, Shorten(text, MaxChars(available, fontSize)))
  }

  /** `k` estimated characters fit in the room left after the tail when `k` is at most the raw count. */
  lemma CharsFit(available: real, fontSize: real, k: int)
    requires 0 <= k <= RawChars(available, fontSize)
    ensures k as real * CharW(fontSize) <= available - TailRoom
  {
    var w := CharW(fontSize);
    var q := (available - TailRoom) / w;
    assert k as real <= q;
    MulMono(k as real, q, w);
    DivMul(available - TailRoom, w);
  }

  /**
   * When at least two characters fit, the label stays inside the canvas by
   * its estimated width: it ends at least `TailRoom` before the bound on its
   * side. Its text is the whole name or a prefix of it ended by an
   * ellipsis, and never longer than the name.
   */
  lemma LabelInsideCanvas(t: Geometry.Trig, cx: real, cy: real, radius: real, angle: real, text: string,
                          canvasSize: real, fontSize: real)
    ensures var l := CategoryLabel(t, cx, cy, radius, angle, text, canvasSize, fontSize);
      && |l.display| <= |text|
      && (l.display == text || (l.display[|l.display| - 1] == TextMetrics.Ellipsis
                                && l.display[..|l.display| - 1] == text[..|l.display| - 1]))
    ensures var l := CategoryLabel(t, cx, cy, radius, angle, text, canvasSize, fontSize);
      var w := |l.display| as real * CharW(fontSize);
      RawChars(Available(l.side, l.x, cx, canvasSize), fontSize) >= 2 ==>
        && (l.side == Right ==> l.x + w <= cx + canvasSize / 2.0 - EdgeInset - TailRoom)
        && (l.side == Left ==> l.x - w >= cx - canvasSize / 2.0 + EdgeInset + TailRoom)
  {
    var l := CategoryLabel(t, cx, cy, radius, angle, text, canvasSize, fontSize);
    var available := Available(l.side, l.x, cx, canvasSize);
    var raw := RawChars(available, fontSize);
    if raw >= 2 {
      var k := MaxChars(available, fontSize);
      assert |l.display| <= k;
      CharsFit(available, fontSize, |l.display|);
      assert available > 0.0;
    }
  }

  /**
   * With room for fewer than two characters, a long name is still shown as
   * one character and the ellipsis, which the estimate says overflows.
   */
  lemma NarrowLabelKeepsTwo(t: Geometry.Trig, cx: real, cy: real, radius: real, angle: real, text: string,
                            canvasSize: real, fontSize: real)
    requires |text| >= 2
    requires RawChars(Available(CategoryLabel(t, cx, cy, radius, angle, text, canvasSize, fontSize).side,
                                CategoryLabel(t, cx, cy, radius, angle, text, canvasSize, fontSize).x,
                                cx, canvasSize), fontSize) <= 1
    ensures CategoryLabel(t, cx, cy, radius, angle, text, canvasSize, fontSize).display == [text[0], TextMetrics.Ellipsis]
  {
  }
}
