/**
 * The radial layout allocator: per-category totals with spacer rows, the
 * padding reserved for category labels, the single unit thickness shared by
 * every row of the chart, the chart-wide font size, and the band walk that
 * turns a category's tiers into contiguous radial bands.
 *
 * The spacer constants of the original disagree and are kept as written:
 * the totals reserve 3 base rows for a category with skills but no
 * Comfortable skill, while the band walk and the category-label radius
 * shift such a category out by only 1 row.
 */
module Allocator {
  import opened Chart
  import TextMetrics
  import Geometry

  /** Radius of the always-empty hub. */
  const InnerCore: real := 20.0
  /** Font size and horizontal offset of the outward category labels. */
  const LabelFontSize: real := 14.0
  const LabelOffset: real := 8.0
  /** The smallest unit thickness the chart uses. */
  const MinUnit: real := 6.0
  /** Spacer rows before a non-empty Comfortable band. */
  const ComfortSpacerRows: nat := 3
  /** Base spacer rows reserved by the totals when Comfortable is empty. */
  const BaseSpacerRowsReserved: nat := 3
  /** Base spacer rows the band walk and the label radius actually shift by. */
  const BaseSpacerRowsDrawn: nat := 1

  // Arithmetic facts kept out of the larger proofs.

  lemma MulMono(a: real, b: real, u: real)
    requires a <= b && u >= 0.0
    ensures a * u <= b * u
  {
  }

  lemma DivMul(x: real, m: real)
    requires m > 0.0
    ensures m * (x / m) == x
  {
  }

  lemma ShareFacts(room: real, m: real)
    requires m > 0.0
    ensures m * (room / m) == room
    ensures room / m <= MinUnit ==> m * MinUnit >= room
  {
    DivMul(room, m);
    if room / m <= MinUnit {
      MulMono(room / m, MinUnit, m);
    }
  }

  function ComfyCount(c: Category): nat {
    |c.skills.comfortable|
  }

  /** Number of skills in all four tiers. */
  function RawTotal(c: Category): nat {
    |c.skills.comfortable| + |c.skills.challenging| + |c.skills.near| + |c.skills.far|
  }

  /** A category with skills but an empty Comfortable tier is shifted outward. */
  predicate NeedsBaseSpacer(c: Category) {
    ComfyCount(c) == 0 && RawTotal(c) > 0
  }

  /**
   * `perCatTotals`: the rows a category is allowed for, spacers included.
   * Both spacer branches reserve three rows, so the total is the raw count
   * plus three whenever the category has any skill.
   */
  function PerCatTotal(c: Category): (total: nat)
    ensures RawTotal(c) == 0 ==> total == 0
    ensures RawTotal(c) > 0 ==> total == RawTotal(c) + 3
  {
    var comfySpacerRows := if ComfyCount(c) > 0 then ComfortSpacerRows else 0;
    var baseSpacerRows := if NeedsBaseSpacer(c) then BaseSpacerRowsReserved else 0;
    RawTotal(c) + comfySpacerRows + baseSpacerRows
  }

  /** `maxTotal`: the largest per-category total, and at least 1. */
  function MaxTotal(cats: seq<Category>): (m: nat)
    ensures m >= 1
    ensures forall i :: 0 <= i < |cats| ==> PerCatTotal(cats[i]) <= m
    ensures m == 1 || exists i :: 0 <= i < |cats| && PerCatTotal(cats[i]) == m
    decreases |cats|
  {
    if cats == [] then 1
    else
      var rest := MaxTotal(cats[..|cats| - 1]);
      var last := PerCatTotal(cats[|cats| - 1]);
      if last > rest then last else rest
  }

  /** `maxLabelWidth`: the widest estimated category name, and at least 1. */
  function MaxLabelWidth(cats: seq<Category>): (w: real)
    ensures w >= 1.0
    ensures forall i :: 0 <= i < |cats| ==> TextMetrics.Width(cats[i].name, LabelFontSize) <= w
    ensures w == 1.0 || exists i :: 0 <= i < |cats| && TextMetrics.Width(cats[i].name, LabelFontSize) == w
    decreases |cats|
  {
    if cats == [] then 1.0
    else
      var rest := MaxLabelWidth(cats[..|cats| - 1]);
      var last := TextMetrics.Width(cats[|cats| - 1].name, LabelFontSize);
      if last > rest then last else rest
  }

  /** `Math.ceil` on reals. */
  function Ceil(x: real): (c: int)
    ensures x <= c as real < x + 1.0
  {
    -((-x).Floor)
  }

  /** `outerPadding`: room kept outside the chart for the widest category label. */
  function OuterPadding(cats: seq<Category>): (p: real)
    ensures p >= 28.0
    ensures forall i :: 0 <= i < |cats| ==>
      LabelOffset + TextMetrics.Width(cats[i].name, LabelFontSize) + 8.0 <= p
    ensures p >= LabelOffset + Ceil(MaxLabelWidth(cats)) as real + 8.0
    ensures p == 28.0 || p == LabelOffset + Ceil(MaxLabelWidth(cats)) as real + 8.0
  {
    var reserved := LabelOffset + Ceil(MaxLabelWidth(cats)) as real + 8.0;
    if reserved > 28.0 then reserved else 28.0
  }

  /** `maxRad`: the largest radius the chart may use. */
  function MaxRad(cats: seq<Category>): real {
    Geometry.Size / 2.0 - OuterPadding(cats)
  }

  /**
   * The maximum radius leaves at least 28 pixels to the canvas edge, and
   * room there for every category's name: the label offset, the name's
   * estimated width and an 8-pixel margin.
   */
  lemma MaxRadLeavesLabelRoom(cats: seq<Category>)
    ensures MaxRad(cats) <= Geometry.Size / 2.0 - 28.0
    ensures forall i :: 0 <= i < |cats| ==>
      MaxRad(cats) + LabelOffset + TextMetrics.Width(cats[i].name, LabelFontSize) + 8.0 <= Geometry.Size / 2.0
  {
  }

  /**
   * `UNIT_PER_SKILL`: one radial thickness for every row of every category,
   * the room between hub and maximum radius shared by the largest total,
   * but never thinner than 6. The largest total is at least 1.
   */
  function UnitPerSkill(maxRad: real, maxTotal: nat): (u: real)
    requires maxTotal >= 1
    ensures u >= MinUnit
    ensures (maxTotal as real) * u >= maxRad - InnerCore
    ensures u > MinUnit ==> (maxTotal as real) * u == maxRad - InnerCore
  {
    var room := maxRad - InnerCore;
    var m := maxTotal as real;
    var share := room / m;
    ShareFacts(room, m);
    if share > MinUnit then share else MinUnit
  }

  /** The unit the chart of `cats` is drawn with. */
  function ChartUnit(cats: seq<Category>): real {
    UnitPerSkill(MaxRad(cats), MaxTotal(cats))
  }

  /** `chartFontSize`: the row thickness less 2, rounded down and clamped to [7, 12]. */
  function ChartFontSize(unit: real): (fs: int)
    ensures 7 <= fs <= 12
    ensures unit >= 9.0 ==> fs as real <= unit - 2.0
    ensures unit - 2.0 >= 12.0 ==> fs == 12
    ensures unit - 2.0 < 8.0 ==> fs == 7
    ensures 7.0 <= unit - 2.0 < 13.0 ==> fs as real <= unit - 2.0 < fs as real + 1.0
  {
    var f := (unit - 2.0).Floor;
    if f < 7 then 7 else if f > 12 then 12 else f
  }

  // ---------------------------------------------------------------------
  // The band walk

  /**
   * The radial span of `n` rows of thickness `unit`, that is `n * unit`,
   * written as repeated addition so that the band proofs stay linear;
   * `SpanIsProduct` states the product.
   */
  function Span(n: nat, unit: real): real
    decreases n
  {
    if n == 0 then 0.0 else Span(n - 1, unit) + unit
  }

  lemma MulSucc(m: nat, u: real)
    ensures (m + 1) as real * u == m as real * u + u
  {
  }

  lemma {:induction false} SpanIsProduct(n: nat, unit: real)
    ensures Span(n, unit) == n as real * unit
    decreases n
  {
    if n > 0 {
      SpanIsProduct(n - 1, unit);
      MulSucc(n - 1, unit);
    }
  }

  lemma {:induction false} SpanAdd(a: nat, b: nat, unit: real)
    ensures Span(a + b, unit) == Span(a, unit) + Span(b, unit)
    decreases b
  {
    if b > 0 {
      SpanAdd(a, b - 1, unit);
    }
  }

  /** For a positive unit, rows have a non-negative span, positive exactly when there are any. */
  lemma {:induction false} SpanSign(n: nat, unit: real)
    requires unit > 0.0
    ensures Span(n, unit) >= 0.0
    ensures Span(n, unit) > 0.0 <==> n > 0
    decreases n
  {
    if n > 0 {
      SpanSign(n - 1, unit);
    }
  }

  /** Spacer rows drawn inside a tier's band: three before a non-empty Comfortable tier. */
  function SpacerRows(t: Tier, count: nat): nat {
    if t == Comfortable && count > 0 then ComfortSpacerRows else 0
  }

  /** Radial thickness of a tier's spacer rows. */
  function SpacerWidth(t: Tier, count: nat, unit: real): real {
    Span(SpacerRows(t, count), unit)
  }

  /** Radial thickness of a tier's band: its skills plus its spacer rows. */
  function Thick(c: Category, unit: real, t: Tier): real {
    var count := |c.skills.Get(t)|;
    Span(count, unit) + SpacerWidth(t, count, unit)
  }

  /** Rows a tier occupies, its spacer rows included. */
  function TierRows(c: Category, t: Tier): nat {
    |c.skills.Get(t)| + SpacerRows(t, |c.skills.Get(t)|)
  }

  /** Radial extent a tier adds to the walk: its thickness, or nothing when it is skipped. */
  function Drawn(c: Category, unit: real, t: Tier): real {
    if Thick(c, unit, t) <= 0.0 then 0.0 else Thick(c, unit, t)
  }

  /** Radial extent of the bands drawn for tiers `ts`. */
  function Extent(c: Category, unit: real, ts: seq<Tier>): real
    decreases |ts|
  {
    if ts == [] then 0.0 else Drawn(c, unit, ts[0]) + Extent(c, unit, ts[1..])
  }

  /** The tiers of `ts` that hold at least one skill, in order. */
  function NonEmptyTiers(c: Category, ts: seq<Tier>): seq<Tier>
    decreases |ts|
  {
    if ts == [] then []
    else if |c.skills.Get(ts[0])| > 0 then [ts[0]] + NonEmptyTiers(c, ts[1..])
    else NonEmptyTiers(c, ts[1..])
  }

  /** One drawn band: its tier, radii, the spacer thickness inside it, and its skill count. */
  datatype Band = Band(tier: Tier, inner: real, outer: real, spacer: real, count: nat)

  /** Where the cursor of the band walk starts: the hub, plus one row if shifted. */
  function WalkStart(c: Category, unit: real): real {
    InnerCore + (if NeedsBaseSpacer(c) then Span(BaseSpacerRowsDrawn, unit) else 0.0)
  }

  /** The bands the walk emits over tiers `ts` from cursor radius `cursor`; empty tiers are skipped. */
  function BandsFrom(c: Category, unit: real, ts: seq<Tier>, cursor: real): seq<Band>
    decreases |ts|
  {
    if ts == [] then []
    else
      var count := |c.skills.Get(ts[0])|;
      var thickness := Thick(c, unit, ts[0]);
      if thickness <= 0.0 then BandsFrom(c, unit, ts[1..], cursor)
      else
        [Band(ts[0], cursor, cursor + thickness, SpacerWidth(ts[0], count, unit), count)]
        + BandsFrom(c, unit, ts[1..], cursor + thickness)
  }

  function Bands(c: Category, unit: real): seq<Band> {
    BandsFrom(c, unit, Tiers, WalkStart(c, unit))
  }

  /** The rows counted for the category-label radius: one base row, not three. */
  function LabelTotal(c: Category): nat {
    RawTotal(c) + (if ComfyCount(c) > 0 then ComfortSpacerRows else 0)
      + (if NeedsBaseSpacer(c) then BaseSpacerRowsDrawn else 0)
  }

  /** `catOuterR`: the category's outer radius as the label placement computes it. */
  function CatOuterR(c: Category, unit: real): real {
    InnerCore + Span(LabelTotal(c), unit)
  }

  /** The totals reserve two rows more than are drawn for a shifted category. */
  lemma SpacerDisagreement(c: Category)
    ensures PerCatTotal(c) == LabelTotal(c) + (if NeedsBaseSpacer(c) then 2 else 0)
    ensures PerCatTotal(c) >= LabelTotal(c)
  {
  }

  /** A tier's thickness is the span of its rows, and positive exactly when it holds a skill. */
  lemma ThickRows(c: Category, unit: real, t: Tier)
    requires unit > 0.0
    ensures Thick(c, unit, t) == Span(TierRows(c, t), unit)
    ensures Thick(c, unit, t) <= 0.0 <==> |c.skills.Get(t)| == 0
  {
    var count := |c.skills.Get(t)|;
    SpanAdd(count, SpacerRows(t, count), unit);
    SpanSign(count + SpacerRows(t, count), unit);
  }

  /** A tier adds the span of its rows to the walk, whether drawn or skipped. */
  lemma DrawnRows(c: Category, unit: real, t: Tier)
    requires unit > 0.0
    ensures Drawn(c, unit, t) == Span(TierRows(c, t), unit)
  {
    ThickRows(c, unit, t);
  }

  /** Walking the four tiers from the start radius ends where the category label is placed from. */
  lemma WalkEnd(c: Category, unit: real)
    requires unit > 0.0
    ensures WalkStart(c, unit) + Extent(c, unit, Tiers) == CatOuterR(c, unit)
  {
    var extra := if NeedsBaseSpacer(c) then BaseSpacerRowsDrawn else 0;
    assert WalkStart(c, unit) == InnerCore + Span(extra, unit);
    assert Tiers[1..][1..][1..][1..] == [];
    assert Extent(c, unit, Tiers) == Drawn(c, unit, Comfortable) + Drawn(c, unit, Challenging)
      + Drawn(c, unit, Near) + Drawn(c, unit, Far);
    DrawnRows(c, unit, Comfortable);
    DrawnRows(c, unit, Challenging);
    DrawnRows(c, unit, Near);
    DrawnRows(c, unit, Far);
    var r1, r2, r3, r4 := TierRows(c, Comfortable), TierRows(c, Challenging), TierRows(c, Near), TierRows(c, Far);
    assert LabelTotal(c) == r1 + r2 + r3 + r4 + extra;
    SpanAdd(r1, r2, unit);
    SpanAdd(r1 + r2, r3, unit);
    SpanAdd(r1 + r2 + r3, r4, unit);
    SpanAdd(r1 + r2 + r3 + r4, extra, unit);
  }

  lemma BandsFromStep(c: Category, unit: real, ts: seq<Tier>, cursor: real)
    requires ts != []
    ensures var count := |c.skills.Get(ts[0])|;
      var thickness := Thick(c, unit, ts[0]);
      BandsFrom(c, unit, ts, cursor)
      == if thickness <= 0.0 then BandsFrom(c, unit, ts[1..], cursor)
         else [Band(ts[0], cursor, cursor + thickness, SpacerWidth(ts[0], count, unit), count)]
              + BandsFrom(c, unit, ts[1..], cursor + thickness)
  {
  }

  /** A drawn band holds the skills of its tier, then its spacer rows, one unit per row. */
  predicate WellFormedBand(c: Category, unit: real, b: Band) {
    && b.count == |c.skills.Get(b.tier)| > 0
    && b.spacer == SpacerWidth(b.tier, b.count, unit)
    && b.outer == b.inner + b.spacer + Span(b.count, unit)
  }

  lemma {:induction false} BandsWellFormed(c: Category, unit: real, ts: seq<Tier>, cursor: real)
    requires unit > 0.0
    ensures var bs := BandsFrom(c, unit, ts, cursor);
      forall j :: 0 <= j < |bs| ==> WellFormedBand(c, unit, bs[j])
    decreases |ts|
  {
    if ts != [] {
      var thickness := Thick(c, unit, ts[0]);
      BandsFromStep(c, unit, ts, cursor);
      ThickRows(c, unit, ts[0]);
      if thickness <= 0.0 {
        BandsWellFormed(c, unit, ts[1..], cursor);
      } else {
        BandsWellFormed(c, unit, ts[1..], cursor + thickness);
      }
    }
  }

  lemma {:induction false} BandsContiguous(c: Category, unit: real, ts: seq<Tier>, cursor: real)
    ensures var bs := BandsFrom(c, unit, ts, cursor);
      && (forall j :: 0 < j < |bs| ==> bs[j].inner == bs[j - 1].outer)
      && (|bs| > 0 ==> bs[0].inner == cursor)
    decreases |ts|
  {
    if ts != [] {
      var thickness := Thick(c, unit, ts[0]);
      if thickness <= 0.0 {
        BandsFromStep(c, unit, ts, cursor);
        BandsContiguous(c, unit, ts[1..], cursor);
      } else {
        var outer := cursor + thickness;
        BandsFromStep(c, unit, ts, cursor);
        BandsContiguous(c, unit, ts[1..], outer);
        var bs := BandsFrom(c, unit, ts, cursor);
        var rest := BandsFrom(c, unit, ts[1..], outer);
        assert bs[0].outer == outer;
        forall j | 0 < j < |bs|
          ensures bs[j].inner == bs[j - 1].outer
        {
          assert bs[j] == rest[j - 1];
        }
      }
    }
  }

  lemma EndOfCons(b: Band, rest: seq<Band>)
    ensures var bs := [b] + rest;
      bs[|bs| - 1].outer == (if |rest| > 0 then rest[|rest| - 1].outer else b.outer)
  {
  }

  lemma {:induction false} BandsEnd(c: Category, unit: real, ts: seq<Tier>, cursor: real)
    ensures var bs := BandsFrom(c, unit, ts, cursor);
      (if |bs| > 0 then bs[|bs| - 1].outer else cursor) == cursor + Extent(c, unit, ts)
    decreases |ts|
  {
    if ts != [] {
      var count := |c.skills.Get(ts[0])|;
      var thickness := Thick(c, unit, ts[0]);
      BandsFromStep(c, unit, ts, cursor);
      if thickness <= 0.0 {
        BandsEnd(c, unit, ts[1..], cursor);
      } else {
        BandsEnd(c, unit, ts[1..], cursor + thickness);
        var rest := BandsFrom(c, unit, ts[1..], cursor + thickness);
        EndOfCons(Band(ts[0], cursor, cursor + thickness, SpacerWidth(ts[0], count, unit), count), rest);
      }
    }
  }

  lemma {:induction false} BandsTiers(c: Category, unit: real, ts: seq<Tier>, cursor: real)
    requires unit > 0.0
    ensures var bs := BandsFrom(c, unit, ts, cursor);
      seq(|bs|, j requires 0 <= j < |bs| => bs[j].tier) == NonEmptyTiers(c, ts)
    decreases |ts|
  {
    if ts != [] {
      var thickness := Thick(c, unit, ts[0]);
      BandsFromStep(c, unit, ts, cursor);
      ThickRows(c, unit, ts[0]);
      if thickness <= 0.0 {
        BandsTiers(c, unit, ts[1..], cursor);
      } else {
        BandsTiers(c, unit, ts[1..], cursor + thickness);
        var bs := BandsFrom(c, unit, ts, cursor);
        var rest := BandsFrom(c, unit, ts[1..], cursor + thickness);
        var restTiers := seq(|rest|, j requires 0 <= j < |rest| => rest[j].tier);
        assert seq(|bs|, j requires 0 <= j < |bs| => bs[j].tier) == [ts[0]] + restTiers;
      }
    }
  }

  /**
   * The band walk of one category, for a positive unit: bands are contiguous,
   * each is as thick as its skills plus its spacer rows, exactly the non-empty
   * tiers are drawn in tier order, and the last band ends at the radius the
   * category label is placed from.
   */
  lemma BandsLayout(c: Category, unit: real)
    requires unit > 0.0
    ensures var bs := Bands(c, unit);
      && (forall j :: 0 <= j < |bs| ==> WellFormedBand(c, unit, bs[j]))
      && (forall j :: 0 < j < |bs| ==> bs[j].inner == bs[j - 1].outer)
      && (|bs| > 0 ==> bs[0].inner == WalkStart(c, unit) >= InnerCore)
      && (|bs| > 0 ==> bs[|bs| - 1].outer == CatOuterR(c, unit))
      && (|bs| == 0 <==> RawTotal(c) == 0)
      && seq(|bs|, j requires 0 <= j < |bs| => bs[j].tier) == NonEmptyTiers(c, Tiers)
  {
    var start := WalkStart(c, unit);
    BandsWellFormed(c, unit, Tiers, start);
    BandsContiguous(c, unit, Tiers, start);
    BandsEnd(c, unit, Tiers, start);
    BandsTiers(c, unit, Tiers, start);
    WalkEnd(c, unit);
    assert Tiers[1..][1..][1..][1..] == [];
    if NeedsBaseSpacer(c) {
      SpanSign(BaseSpacerRowsDrawn, unit);
    }
  }

  /**
   * When the unit is not clamped to its minimum, a category whose total is
   * within the largest total stays within the maximum radius, both by its
   * reserved rows and by the radius its label is placed from.
   */
  lemma RowsFit(c: Category, maxRad: real, maxTotal: nat)
    requires 1 <= maxTotal && PerCatTotal(c) <= maxTotal
    requires UnitPerSkill(maxRad, maxTotal) > MinUnit
    ensures InnerCore + PerCatTotal(c) as real * UnitPerSkill(maxRad, maxTotal) <= maxRad
    ensures CatOuterR(c, UnitPerSkill(maxRad, maxTotal)) <= maxRad
  {
    var u := UnitPerSkill(maxRad, maxTotal);
    SpacerDisagreement(c);
    MulMono(PerCatTotal(c) as real, maxTotal as real, u);
    MulMono(LabelTotal(c) as real, maxTotal as real, u);
    SpanIsProduct(LabelTotal(c), u);
  }

  /**
   * With the unit clamped to 6 the chart can pass the maximum radius: one
   * category of 100 Comfortable skills and an empty name reaches 638 while
   * the maximum radius is 332.
   */
  lemma ClampedUnitCanOverflow()
    ensures var cats := [Category("", Skills(seq(100, _ => "s"), [], [], []))];
      && ChartUnit(cats) == MinUnit
      && MaxRad(cats) == 332.0
      && CatOuterR(cats[0], ChartUnit(cats)) == 638.0
  {
    var cats := [Category("", Skills(seq(100, _ => "s"), [], [], []))];
    assert TextMetrics.Width(cats[0].name, LabelFontSize) == 0.0;
    assert MaxLabelWidth(cats[..0]) == 1.0;
    assert MaxLabelWidth(cats) == 1.0;
    assert OuterPadding(cats) == 28.0;
    assert MaxTotal(cats[..0]) == 1;
    assert MaxTotal(cats) == 103;
    assert ChartUnit(cats) == MinUnit;
    assert LabelTotal(cats[0]) == 103;
    SpanIsProduct(103, MinUnit);
  }

  /**
   * A lone category "Go" with Comfortable skills "A" and "B": three spacer
   * rows are reserved before them, so its total and the largest total are 5,
   * and the unit is a fifth of the room between hub and maximum radius.
   */
  lemma LoneComfortableScenario()
    ensures var cats := [Category("Go", Skills(["A", "B"], [], [], []))];
      && PerCatTotal(cats[0]) == 5
      && MaxTotal(cats) == 5
      && MaxRad(cats) == 328.0
      && ChartUnit(cats) == (MaxRad(cats) - InnerCore) / 5.0
  {
    var cats := [Category("Go", Skills(["A", "B"], [], [], []))];
    assert TextMetrics.Classify('G') == TextMetrics.Latin && TextMetrics.Classify('o') == TextMetrics.Latin;
    assert TextMetrics.Width("Go", LabelFontSize) == 15.68 by {
      assert "Go"[..1] == "G";
      TextMetrics.WidthSingle('G', LabelFontSize);
    }
    assert MaxLabelWidth(cats[..0]) == 1.0;
    assert MaxLabelWidth(cats) == 15.68;
    assert OuterPadding(cats) == 32.0;
    assert MaxTotal(cats[..0]) == 1;
  }

  /** One step of the band walk keeps the walk's two invariants, whether the tier is drawn or skipped. */
  lemma WalkStep(c: Category, unit: real, rest: seq<Tier>, bands: seq<Band>, cursor: real)
    requires rest != [] && unit > 0.0
    requires bands + BandsFrom(c, unit, rest, cursor) == Bands(c, unit)
    requires cursor + Extent(c, unit, rest) == CatOuterR(c, unit)
    ensures var t := rest[0];
      var count := |c.skills.Get(t)|;
      var thickness := Thick(c, unit, t);
      if thickness <= 0.0 then
        && bands + BandsFrom(c, unit, rest[1..], cursor) == Bands(c, unit)
        && cursor + Extent(c, unit, rest[1..]) == CatOuterR(c, unit)
      else
        var band := Band(t, cursor, cursor + thickness, SpacerWidth(t, count, unit), count);
        && (bands + [band]) + BandsFrom(c, unit, rest[1..], cursor + thickness) == Bands(c, unit)
        && cursor + thickness + Extent(c, unit, rest[1..]) == CatOuterR(c, unit)
  {
    var thickness := Thick(c, unit, rest[0]);
    if thickness <= 0.0 {
      BandsFromStep(c, unit, rest, cursor);
    } else {
      var count := |c.skills.Get(rest[0])|;
      var band := Band(rest[0], cursor, cursor + thickness, SpacerWidth(rest[0], count, unit), count);
      BandsFromStep(c, unit, rest, cursor);
      assert bands + [band] + BandsFrom(c, unit, rest[1..], cursor + thickness)
        == bands + ([band] + BandsFrom(c, unit, rest[1..], cursor + thickness));
    }
  }

  /** The band walk as the original runs it, advancing the cursor `currInner` tier by tier. */
  method BandWalk(c: Category, unit: real) returns (bands: seq<Band>, currInner: real)
    requires unit >= MinUnit
    ensures bands == Bands(c, unit)
    ensures currInner == CatOuterR(c, unit)
  {
    var totalRaw := RawTotal(c);
    var comfyCount := ComfyCount(c);
    var needsBaseSpacer := comfyCount == 0 && totalRaw > 0;
    currInner := InnerCore + (if needsBaseSpacer then unit else 0.0);
    assert Span(BaseSpacerRowsDrawn, unit) == unit;
    assert currInner == WalkStart(c, unit);
    WalkEnd(c, unit);
    bands := [];
    var rest := Tiers;
    assert bands + BandsFrom(c, unit, rest, currInner) == BandsFrom(c, unit, rest, currInner);
    while rest != []
      invariant bands + BandsFrom(c, unit, rest, currInner) == Bands(c, unit)
      invariant currInner + Extent(c, unit, rest) == CatOuterR(c, unit)
      decreases |rest|
    {
      var lv := rest[0];
      var count := |c.skills.Get(lv)|;
      var spacer := SpacerWidth(lv, count, unit);
      var thickness := Span(count, unit) + spacer;
      assert thickness == Thick(c, unit, lv);
      WalkStep(c, unit, rest, bands, currInner);
      rest := rest[1..];
      if thickness <= 0.0 {
        continue;
      }
      var innerR := currInner;
      var outerR := innerR + thickness;
      currInner := outerR;
      bands := bands + [Band(lv, innerR, outerR, spacer, count)];
    }
  }
}
