/**
 * The fills drawn inside one band: for a non-empty Comfortable tier a solid
 * spacer fill covering its spacer rows, then one row per skill, each one
 * unit thick, fading outward.
 */
module Rows {
  import opened Chart
  import opened Allocator
  import Geometry

  /** Opacity lost per row outward, and the floor it stops at. */
  const DecayStep: real := 0.2
  const MinOpacity: real := 0.3
  /** Opacity factor of a band that is not the highlighted one. */
  const Dimmed: real := 0.9

  function Emphasis(active: bool): real {
    if active then 1.0 else Dimmed
  }

  /** Opacity of skill row `r`: one less a fifth per row, floored at 0.3, dimmed unless highlighted. */
  function Opacity(r: nat, active: bool): (o: real)
    ensures 0.27 <= o <= 1.0
    ensures r == 0 ==> o == Emphasis(active)
    ensures r >= 4 ==> o == MinOpacity * Emphasis(active)
    ensures r < 4 ==> o == (1.0 - DecayStep * r as real) * Emphasis(active)
  {
    var faded := 1.0 - r as real * DecayStep;
    var base := if faded > MinOpacity then faded else MinOpacity;
    base * Emphasis(active)
  }

  /** Rows further out are never more opaque. */
  lemma OpacityFades(r1: nat, r2: nat, active: bool)
    requires r1 <= r2
    ensures Opacity(r2, active) <= Opacity(r1, active)
  {
  }

  datatype FillKind = SpacerFill | SkillRow(row: nat)

  /**
   * One drawn annular piece of a band: its radii and opacity. Its outline is
   * the annular wedge `Outline` between those radii over the band's sector.
   */
  datatype Fill = Fill(kind: FillKind, inner: real, outer: real, opacity: real)

  function Outline(t: Geometry.Trig, f: Fill, start: real, end: real): seq<Geometry.PathCmd> {
    Geometry.ArcPath(t, f.inner, f.outer, start, end)
  }

  /** The spacer fill, present for a Comfortable band with spacer rows; it takes row 0's opacity. */
  function SpacerFills(b: Band, active: bool): seq<Fill> {
    if b.tier == Comfortable && b.spacer > 0.0 then
      [Fill(SpacerFill, b.inner, b.inner + b.spacer, Emphasis(active))]
    else []
  }

  /** Skill row `r`: one unit thick, `r` units past the spacer. */
  function RowFill(b: Band, unit: real, active: bool, r: nat): Fill {
    var rowInner := b.inner + b.spacer + Span(r, unit);
    Fill(SkillRow(r), rowInner, rowInner + unit, Opacity(r, active))
  }

  /** Skill rows 0 .. n-1, innermost first. */
  function SkillRows(b: Band, unit: real, active: bool, n: nat): (rs: seq<Fill>)
    ensures |rs| == n
  {
    if n == 0 then [] else SkillRows(b, unit, active, n - 1) + [RowFill(b, unit, active, n - 1)]
  }

  lemma {:induction false} SkillRowsAt(b: Band, unit: real, active: bool, n: nat)
    ensures var rs := SkillRows(b, unit, active, n);
      |rs| == n && forall j :: 0 <= j < n ==> rs[j] == RowFill(b, unit, active, j)
  {
    if n > 0 {
      SkillRowsAt(b, unit, active, n - 1);
    }
  }

  /** Everything drawn for band `b`, innermost first. */
  function Fills(b: Band, unit: real, active: bool): seq<Fill> {
    SpacerFills(b, active) + SkillRows(b, unit, active, b.count)
  }

  /** The rows loop of a band, pushing the spacer fill and then one fill per row. */
  method BandFills(b: Band, unit: real, active: bool)
    returns (rows: seq<Fill>)
    ensures rows == Fills(b, unit, active)
  {
    rows := [];
    var baseStart := b.inner + b.spacer;
    if b.tier == Comfortable && b.spacer > 0.0 {
      var firstOpacity := 1.0 * (if active then 1.0 else 0.9);
      rows := rows + [Fill(SpacerFill, b.inner, b.inner + b.spacer, firstOpacity)];
    }
    var skillRows := [];
    var r := 0;
    while r < b.count
      invariant 0 <= r <= b.count
      invariant skillRows == SkillRows(b, unit, active, r)
    {
      var rowInnerR := baseStart + Span(r, unit);
      var rowOuterR := rowInnerR + unit;
      var baseOpacity := if 1.0 - r as real * DecayStep > MinOpacity then 1.0 - r as real * DecayStep else MinOpacity;
      var opacity := baseOpacity * (if active then 1.0 else 0.9);
      var fill := Fill(SkillRow(r), rowInnerR, rowOuterR, opacity);
      assert fill == RowFill(b, unit, active, r);
      skillRows := skillRows + [fill];
      r := r + 1;
    }
    rows := rows + skillRows;
  }

  /** The fills `fs` cover [lo, hi] without gaps or overlaps, in order. */
  predicate Tiles(fs: seq<Fill>, lo: real, hi: real) {
    && |fs| > 0
    && fs[0].inner == lo
    && (forall j :: 0 < j < |fs| ==> fs[j].inner == fs[j - 1].outer)
    && fs[|fs| - 1].outer == hi
  }

  lemma RowsTile(b: Band, unit: real, active: bool, n: nat)
    requires n > 0
    ensures Tiles(SkillRows(b, unit, active, n), b.inner + b.spacer, b.inner + b.spacer + Span(n, unit))
  {
    var rs := SkillRows(b, unit, active, n);
    SkillRowsAt(b, unit, active, n);
    forall j | 0 < j < n
      ensures rs[j].inner == rs[j - 1].outer
    {
      assert rs[j] == RowFill(b, unit, active, j);
      assert rs[j - 1] == RowFill(b, unit, active, j - 1);
      assert Span(j, unit) == Span(j - 1, unit) + unit;
    }
    assert rs[0] == RowFill(b, unit, active, 0);
    assert rs[n - 1] == RowFill(b, unit, active, n - 1);
    assert Span(n, unit) == Span(n - 1, unit) + unit;
  }

  /** A drawn band has a spacer fill exactly when its tier is Comfortable. */
  lemma SpacerFillPresent(c: Category, b: Band, unit: real, active: bool)
    requires unit > 0.0 && WellFormedBand(c, unit, b)
    ensures |SpacerFills(b, active)| == (if b.tier == Comfortable then 1 else 0)
    ensures b.tier != Comfortable ==> b.spacer == 0.0
  {
    SpanSign(SpacerRows(b.tier, b.count), unit);
  }

  /**
   * The fills of a drawn band cover it exactly, from its inner to its outer
   * radius, in order and without gaps: the spacer fill (exactly for a
   * Comfortable band) and then one row per skill.
   */
  lemma FillsTile(c: Category, b: Band, unit: real, active: bool)
    requires unit > 0.0 && WellFormedBand(c, unit, b)
    ensures var fs := Fills(b, unit, active);
      && Tiles(fs, b.inner, b.outer)
      && |fs| == b.count + (if b.tier == Comfortable then 1 else 0)
      && (fs[0].kind == SpacerFill <==> b.tier == Comfortable)
  {
    var sp := SpacerFills(b, active);
    var rs := SkillRows(b, unit, active, b.count);
    var fs := Fills(b, unit, active);
    RowsTile(b, unit, active, b.count);
    SkillRowsAt(b, unit, active, b.count);
    SpacerFillPresent(c, b, unit, active);
    assert rs[0].kind == SkillRow(0);
    if b.tier == Comfortable {
      assert fs == sp + rs;
      assert fs[1] == rs[0];
      forall j | 1 < j < |fs|
        ensures fs[j].inner == fs[j - 1].outer
      {
        assert fs[j] == rs[j - 1] && fs[j - 1] == rs[j - 2];
      }
      assert fs[|fs| - 1] == rs[|rs| - 1];
    } else {
      assert fs == rs;
    }
  }

  /**
   * Every fill's opacity lies in [0.27, 1] and none is more opaque than the
   * fill inside it; the spacer fill has row 0's opacity.
   */
  lemma FillsFade(b: Band, unit: real, active: bool)
    ensures var fs := Fills(b, unit, active);
      && (forall j :: 0 <= j < |fs| ==> 0.27 <= fs[j].opacity <= 1.0)
      && (forall j :: 0 < j < |fs| ==> fs[j].opacity <= fs[j - 1].opacity)
      && (b.tier == Comfortable && b.spacer > 0.0 && b.count > 0 ==>
            && fs[0].kind == SpacerFill && fs[1].kind == SkillRow(0)
            && fs[0].opacity == fs[1].opacity == Opacity(0, active))
  {
    var sp := SpacerFills(b, active);
    var rs := SkillRows(b, unit, active, b.count);
    var fs := Fills(b, unit, active);
    SkillRowsAt(b, unit, active, b.count);
    assert fs == sp + rs;
    forall j | 0 <= j < |fs|
      ensures 0.27 <= fs[j].opacity <= 1.0
    {
      if j >= |sp| {
        assert fs[j] == rs[j - |sp|];
      }
    }
    forall j | 0 < j < |fs|
      ensures fs[j].opacity <= fs[j - 1].opacity
    {
      if j > |sp| {
        assert fs[j] == rs[j - |sp|] && fs[j - 1] == rs[j - 1 - |sp|];
        OpacityFades(j - 1 - |sp|, j - |sp|, active);
      } else {
        assert |sp| == 1 && fs[j] == rs[0];
      }
    }
  }

  /** Skill row `r` of a band is one unit thick and starts `r` units past its spacer. */
  lemma RowPlacement(b: Band, unit: real, active: bool, j: nat)
    requires j < b.count
    ensures var rs := SkillRows(b, unit, active, b.count);
      && rs[j].kind == SkillRow(j)
      && rs[j].inner == b.inner + b.spacer + Span(j, unit)
      && rs[j].outer == rs[j].inner + unit
  {
    SkillRowsAt(b, unit, active, b.count);
  }
}
