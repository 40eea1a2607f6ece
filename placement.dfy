/**
 * Skill labels: each skill's name is drawn along a guide arc through the
 * middle of its own row of its tier's band, inset from the sector's edges,
 * at the chart's font size (capped by the row height) and fitted to the
 * arc length left after a safety margin.
 */
module Placement {
  import opened Chart
  import opened Allocator
  import opened TextMetrics
  import Geometry
  import Rows

  /** Angular inset at each end of a row, in pixels of arc. */
  const PadPx: real := 6.0
  /** Arc length kept clear of text, in pixels. */
  const SafePx: real := 8.0
  /** Tolerance of the row-overflow guard. */
  const Slack: real := 0.000001

  /** A placed skill label: which skill, the text drawn, its font size, and its guide arc's radius and angles. */
  datatype SkillLabel = SkillLabel(index: nat, text: string, fs: int, rText: real, aStart: real, aEnd: real)

  /** The invisible path the label's text follows. */
  function Guide(t: Geometry.Trig, l: SkillLabel): seq<Geometry.PathCmd> {
    Geometry.GuideArc(t, Geometry.SkillTextFlow, l.rText, l.aStart, l.aEnd)
  }

  /** Rows skipped before the first label: the spacer rows, when the band has a spacer. */
  function RowOffset(b: Band): nat {
    if b.spacer > 0.0 then SpacerRows(b.tier, b.count) else 0
  }

  function RowInner(b: Band, unit: real, s: nat): real {
    b.inner + Span(s + RowOffset(b), unit)
  }

  /** The row of skill `s` would end beyond the band. */
  predicate Overflows(b: Band, unit: real, s: nat) {
    RowInner(b, unit, s) + unit > b.outer + Slack
  }

  /** The largest font size a row of height `rowH` allows, never below 7. */
  function MaxFsByRow(rowH: real): (fs: int)
    ensures fs >= 7
    ensures rowH >= 9.0 ==> fs as real <= rowH - 2.0
    ensures rowH - 2.0 >= 7.0 ==> fs as real > rowH - 3.0
    ensures rowH - 2.0 < 8.0 ==> fs == 7
  {
    var f := (rowH - 2.0).Floor;
    if f > 7 then f else 7
  }

  /** The radius of a row's guide arc: halfway across the row. */
  function TextRadius(rowInner: real, rowOuter: real): real {
    (rowInner + rowOuter) / 2.0
  }

  /** The angle that spans `PadPx` pixels of arc at radius `rText`. */
  function Inset(rText: real): (theta: real)
    requires rText > 0.0
    ensures theta > 0.0 && theta * rText == PadPx
  {
    PadPx / rText
  }

  /** Arc length at radius `rText` between two angles. */
  function ArcLength(aStart: real, aEnd: real, rText: real): real {
    (aEnd - aStart) * rText
  }

  /** The label font size: the chart's, capped by what the row height allows. */
  function LabelFontSize(chartFs: int, rowH: real): (fs: int)
    ensures fs <= chartFs && fs <= MaxFsByRow(rowH)
    ensures fs == chartFs || fs == MaxFsByRow(rowH)
  {
    var maxFs := MaxFsByRow(rowH);
    if chartFs < maxFs then chartFs else maxFs
  }

  /** The width text may take on an arc of length `usablePx`: the safety margin off, never negative. */
  function Budget(usablePx: real): (w: real)
    ensures w >= 0.0 && w >= usablePx - SafePx
    ensures usablePx > SafePx ==> w == usablePx - SafePx
    ensures usablePx <= SafePx ==> w == 0.0
  {
    if usablePx - SafePx > 0.0 then usablePx - SafePx else 0.0
  }

  /** What the placement loop does with skill `s`: stop, skip it, or place a label. */
  datatype Step = Stop | Skip | Place(item: SkillLabel)

  function StepAt(b: Band, skills: seq<string>, unit: real, chartFs: int, start: real, end: real, s: nat): Step
    requires unit > 0.0 && b.inner >= 0.0 && s < |skills|
  {
    if Overflows(b, unit, s) then Stop
    else
      SpanSign(s + RowOffset(b), unit);
      var rText := TextRadius(RowInner(b, unit, s), RowInner(b, unit, s) + unit);
      RowLabel(s, skills[s], LabelFontSize(chartFs, unit), rText, start, end)
  }

  /**
   * What a row with room does with skill `s`, named `raw`, at radius `rText`:
   * skip it when the inset arc is empty or the fitted text is, and otherwise
   * place the label.
   */
  function RowLabel(s: nat, raw: string, fs: int, rText: real, start: real, end: real): Step
    requires rText > 0.0
  {
    var aStart := start + Inset(rText);
    var aEnd := end - Inset(rText);
    if aEnd <= aStart then Skip
    else
      var text := Fit(raw, fs as real, Budget(ArcLength(aStart, aEnd, rText)));
      if text == [] then Skip else Place(SkillLabel(s, text, fs, rText, aStart, aEnd))
  }

  /** The loop's decision for every skill of the band, in order. */
  function Steps(b: Band, skills: seq<string>, unit: real, chartFs: int, start: real, end: real): (steps: seq<Step>)
    requires unit > 0.0 && b.inner >= 0.0
    ensures |steps| == |skills|
  {
    seq(|skills|, s requires 0 <= s < |skills| => StepAt(b, skills, unit, chartFs, start, end, s))
  }

  lemma StepsAt(b: Band, skills: seq<string>, unit: real, chartFs: int, start: real, end: real, s: nat)
    requires unit > 0.0 && b.inner >= 0.0 && s < |skills|
    ensures Steps(b, skills, unit, chartFs, start, end)[s] == StepAt(b, skills, unit, chartFs, start, end, s)
  {
  }

  /** The labels the decisions from `i` onward place: every `Place` up to the first `Stop`. */
  function Collect(steps: seq<Step>, i: nat): seq<SkillLabel>
    requires i <= |steps|
    decreases |steps| - i
  {
    if i == |steps| then []
    else
      match steps[i]
      case Stop => []
      case Skip => Collect(steps, i + 1)
      case Place(l) => [l] + Collect(steps, i + 1)
  }

  /** The labels placed for one band. */
  function Placed(b: Band, skills: seq<string>, unit: real, chartFs: int, start: real, end: real): seq<SkillLabel>
    requires unit > 0.0 && b.inner >= 0.0
  {
    Collect(Steps(b, skills, unit, chartFs, start, end), 0)
  }

  /** One decision other than `Stop` contributes its label, if any, ahead of the rest. */
  lemma CollectNext(steps: seq<Step>, i: nat)
    requires i < |steps| && !steps[i].Stop?
    ensures Collect(steps, i) == (if steps[i].Place? then [steps[i].item] else []) + Collect(steps, i + 1)
  {
  }

  /**
   * The label loop of a band: its skills innermost first, each row deciding
   * by `StepAt`, until a row falls outside the band.
   */
  method PlaceSkillLabels(b: Band, skills: seq<string>, unit: real, chartFs: int, start: real, end: real)
    returns (placed: seq<SkillLabel>)
    requires unit > 0.0 && b.inner >= 0.0
    ensures placed == Placed(b, skills, unit, chartFs, start, end)
  {
    placed := [];
    if |skills| == 0 {
      return;
    }
    ghost var steps := Steps(b, skills, unit, chartFs, start, end);
    var sIdx := 0;
    while sIdx < |skills|
      invariant sIdx <= |steps| && placed + Collect(steps, sIdx) == Collect(steps, 0)
    {
      var step := StepAt(b, skills, unit, chartFs, start, end, sIdx);
      StepsAt(b, skills, unit, chartFs, start, end, sIdx);
      if step.Stop? {
        break;
      }
      CollectNext(steps, sIdx);
      if step.Place? {
        placed := placed + [step.item];
      }
      sIdx := sIdx + 1;
    }
  }

  /** In a drawn band every skill's row lies inside the band, so the loop never stops early. */
  lemma NoOverflowInBand(c: Category, b: Band, unit: real, s: nat)
    requires unit > 0.0 && WellFormedBand(c, unit, b) && s < b.count
    ensures !Overflows(b, unit, s)
    ensures RowInner(b, unit, s) == b.inner + b.spacer + Span(s, unit)
  {
    var sr := SpacerRows(b.tier, b.count);
    SpanSign(sr, unit);
    assert RowOffset(b) == sr;
    SpanAdd(sr, s, unit);
    SpanAdd(s + sr + 1, b.count - s - 1, unit);
    SpanSign(b.count - s - 1, unit);
    SpanAdd(sr, b.count, unit);
    assert Span(s + sr + 1, unit) == Span(s + sr, unit) + unit;
  }

  /**
   * A placed label sits on its skill's own row: its text radius lies strictly
   * inside the fill of row `s`, halfway across it.
   */
  lemma LabelOnItsRow(c: Category, b: Band, skills: seq<string>, unit: real, chartFs: int, start: real, end: real, s: nat, active: bool)
    requires unit > 0.0 && b.inner >= 0.0 && WellFormedBand(c, unit, b)
    requires skills == c.skills.Get(b.tier) && s < |skills|
    requires StepAt(b, skills, unit, chartFs, start, end, s).Place?
    ensures var l := StepAt(b, skills, unit, chartFs, start, end, s).item;
      var f := Rows.RowFill(b, unit, active, s);
      && f.inner < l.rText < f.outer
      && l.rText == (f.inner + f.outer) / 2.0
  {
    NoOverflowInBand(c, b, unit, s);
  }

  /**
   * Where a placed label goes: it is for skill `s`, at the chart's font size
   * capped by the row height, and its arc runs strictly inside the sector,
   * inset at each end by the angle spanning `PadPx` pixels at its radius.
   */
  lemma PlacedLabelShape(b: Band, skills: seq<string>, unit: real, chartFs: int, start: real, end: real, s: nat)
    requires unit > 0.0 && b.inner >= 0.0 && s < |skills|
    requires StepAt(b, skills, unit, chartFs, start, end, s).Place?
    ensures var l := StepAt(b, skills, unit, chartFs, start, end, s).item;
      && l.index == s
      && l.fs == LabelFontSize(chartFs, unit)
      && l.rText > 0.0
      && l.aStart == start + Inset(l.rText) && l.aEnd == end - Inset(l.rText)
      && start < l.aStart < l.aEnd < end
  {
    SpanSign(s + RowOffset(b), unit);
  }

  /**
   * What a placed label's text promises: it is the skill's name fitted to the
   * arc length between the inset ends less the safety margin, it is not
   * empty, and its estimated width stays within that length.
   */
  lemma PlacedLabelFits(b: Band, skills: seq<string>, unit: real, chartFs: int, start: real, end: real, s: nat)
    requires unit > 0.0 && b.inner >= 0.0 && s < |skills| && chartFs >= 0
    requires StepAt(b, skills, unit, chartFs, start, end, s).Place?
    ensures var l := StepAt(b, skills, unit, chartFs, start, end, s).item;
      && l.text != []
      && ArcLength(l.aStart, l.aEnd, l.rText) > SafePx
      && l.text == Fit(skills[s], l.fs as real, ArcLength(l.aStart, l.aEnd, l.rText) - SafePx)
      && Width(l.text, l.fs as real) <= ArcLength(l.aStart, l.aEnd, l.rText) - SafePx
  {
    var l := StepAt(b, skills, unit, chartFs, start, end, s).item;
    SpanSign(s + RowOffset(b), unit);
    var used := Budget(ArcLength(l.aStart, l.aEnd, l.rText));
    assert l.fs >= 0;
    assert l.text == Fit(skills[s], l.fs as real, used);
    FitWidthBound(skills[s], l.fs as real, used);
  }

  /** At the chart's own font size, which never exceeds the row cap, labels keep that size. */
  lemma ChartSizeKept(unit: real)
    ensures ChartFontSize(unit) <= MaxFsByRow(unit)
    ensures LabelFontSize(ChartFontSize(unit), unit) == ChartFontSize(unit)
  {
  }

  /** Every decision to place a label is a label for that very skill. */
  predicate Indexed(steps: seq<Step>) {
    forall k :: 0 <= k < |steps| && steps[k].Place? ==> steps[k].item.index == k
  }

  /** The labels collected from `i` onward are for distinct skills, in increasing order, each one placed by its own decision. */
  lemma {:induction false} CollectInOrder(steps: seq<Step>, i: nat)
    requires i <= |steps| && Indexed(steps)
    ensures var ls := Collect(steps, i);
      && |ls| <= |steps| - i
      && (forall j :: 0 <= j < |ls| ==> i <= ls[j].index < |steps| && steps[ls[j].index] == Place(ls[j]))
      && (forall j, k :: 0 <= j < k < |ls| ==> ls[j].index < ls[k].index)
    decreases |steps| - i
  {
    if i < |steps| {
      CollectInOrder(steps, i + 1);
    }
  }

  /** Without a `Stop`, every decision to place a label from `i` onward is kept. */
  lemma {:induction false} CollectKeepsAll(steps: seq<Step>, i: nat)
    requires i <= |steps|
    requires forall k :: i <= k < |steps| ==> !steps[k].Stop?
    ensures forall k :: i <= k < |steps| && steps[k].Place? ==> steps[k].item in Collect(steps, i)
    decreases |steps| - i
  {
    if i < |steps| {
      CollectKeepsAll(steps, i + 1);
    }
  }

  /**
   * The labels of a band are for distinct skills of it, innermost first, each
   * the label its own row would get; in a drawn band the loop never stops, so
   * every skill whose row has room gets its label.
   */
  lemma PlacedLabels(c: Category, b: Band, skills: seq<string>, unit: real, chartFs: int, start: real, end: real)
    requires unit > 0.0 && b.inner >= 0.0
    ensures var ls := Placed(b, skills, unit, chartFs, start, end);
      && (forall j :: 0 <= j < |ls| ==> ls[j].index < |skills| && StepAt(b, skills, unit, chartFs, start, end, ls[j].index) == Place(ls[j]))
      && (forall j, k :: 0 <= j < k < |ls| ==> ls[j].index < ls[k].index)
    ensures WellFormedBand(c, unit, b) && skills == c.skills.Get(b.tier) ==>
      forall s :: 0 <= s < |skills| && StepAt(b, skills, unit, chartFs, start, end, s).Place? ==>
        StepAt(b, skills, unit, chartFs, start, end, s).item in Placed(b, skills, unit, chartFs, start, end)
  {
    var steps := Steps(b, skills, unit, chartFs, start, end);
    forall k | 0 <= k < |steps|
      ensures steps[k] == StepAt(b, skills, unit, chartFs, start, end, k)
      ensures steps[k].Place? ==> steps[k].item.index == k
    {
      StepsAt(b, skills, unit, chartFs, start, end, k);
      if steps[k].Place? {
        PlacedLabelShape(b, skills, unit, chartFs, start, end, k);
      }
    }
    CollectInOrder(steps, 0);
    if WellFormedBand(c, unit, b) && skills == c.skills.Get(b.tier) {
      forall k | 0 <= k < |steps|
        ensures !steps[k].Stop?
      {
        NoOverflowInBand(c, b, unit, k);
      }
      CollectKeepsAll(steps, 0);
    }
  }
}
