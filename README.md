# Capability-concentric chart: layout, text fitting and edit commands

A model, in Dafny, of the deterministic core of the capability-concentric
chart component (`src/App.tsx`). The component draws a data snapshot of named
categories, each holding four ordered lists of skills (Comfortable,
Challenging, Near-Incapable, Far-Incapable, innermost to outermost), as a
concentric radial chart: one equal angular sector per category, one radial
band per non-empty tier, one unit-thick row per skill with the skill's name
drawn along the row's arc, and the category name hung outside the rings.

The model covers:

- **Text metrics and fitting** (`text.dfy`, module `TextMetrics`): the
  four-bucket width estimator, the ellipsis fitter, and the loops that compute
  them, proved equal to their specification functions.
- **Geometry** (`geometry.dfy`, module `Geometry`): `polar`, the annular
  sector path `arcPath` with its large-arc flag, the equal angular partition
  and the guide arc that item labels follow. Cosine, sine and pi are carried
  uninterpreted in a `Trig` value; the only fact used of them is `pi > 0`.
- **Radial layout allocator** (`allocator.dfy`, module `Allocator`): the
  per-category totals with spacer rows, `maxTotal`, `outerPadding`, `maxRad`,
  the shared `UNIT_PER_SKILL`, `chartFontSize`, and the band walk with its
  running `currInner` cursor (a method proved against the function `Bands`).
- **Rows** (`rows.dfy`, module `Rows`): the spacer fill and skill-row fills of
  one band, their radii and opacities.
- **Skill labels** (`placement.dfy`, module `Placement`): the label loop of a
  band: row radius, angular inset, arc-length budget, font size, fitted text.
- **Category labels** (`labels.dfy`, module `Labels`): the label radius and
  the `CategoryLabel` side choice and per-character truncation.
- **Edit commands** (`editing.dfy`, module `Editing`): `reorder` (an in-place
  splice on an array copy), `moveSkill`, add/rename/remove category, add/remove
  skill and the highlight toggle, each from an old snapshot to a new one.
- **Data model** (`chart.dfy`, module `Chart`).

Lengths are exact `real`s. Strings are sequences of `char`: the original's
estimator iterates by code point while its fitter indexes UTF-16 code units;
both are modelled over one sequence of characters, which agrees with the
original for text without characters outside the Basic Multilingual Plane.

The original's fitter tests every character but the last together with the
0.95·fs reserve for the ellipsis, so it can cut or drop a text that would fit
whole (`TextMetrics.FitDropsFittingText`); the model keeps that behaviour.

The original's spacer constants disagree, and the model keeps them as
written: the totals reserve 3 base rows for a category with skills but an
empty Comfortable tier (src/App.tsx:429), while the band walk
(src/App.tsx:859) and the category-label radius (src/App.tsx:1016) shift such
a category out by only 1 row (`Allocator.SpacerDisagreement`). The comment on
the unit computation (src/App.tsx:372) says the unit adapts to the fullest
category so that the whole chart does not overflow the canvas; the code clamps
the unit at 6, and with the clamp the rings can pass the maximum radius
(`Allocator.ClampedUnitCanOverflow`). The model follows the code.

## Model

| member | source | states |
|---|---|---|
| `TextMetrics.Classify` | src/App.tsx:385-394 | whitespace wins first, then the CJK/fullwidth ranges, then the emoji/symbol ranges; everything else is Latin |
| `TextMetrics.CharWidth` | src/App.tsx:378-394 | every character costs one of 0.35, 0.56, 0.95 or 1.2 times the font size, between 0.35 and 1.2 times it for a non-negative size |
| `TextMetrics.CharWidthByClass` | src/App.tsx:385-394 | whitespace costs 0.35, CJK/fullwidth (when not whitespace) 0.95, emoji (when neither) 1.2, and everything else 0.56 times the font size |
| `TextMetrics.WidthAppend` | src/App.tsx:383-397 | the estimated width is additive over concatenation |
| `TextMetrics.WidthLower` | src/App.tsx:383-397 | a string of n characters is at least 0.35·fs·n wide |
| `TextMetrics.WidthUpper` | src/App.tsx:383-397 | a string of n characters is at most 1.2·fs·n wide |
| `TextMetrics.WidthPrefixMonotone` | src/App.tsx:383-397 | for fs ≥ 0 a longer prefix is never narrower |
| `TextMetrics.EstimateTextWidth` | src/App.tsx:377-398 | the accumulating loop returns the estimated width of the whole string |
| `TextMetrics.FirstMiss` | src/App.tsx:405-416 | the index where the fitting loop stops: every earlier character has room in the remaining budget and that one has not |
| `TextMetrics.Fit` | src/App.tsx:401-419 | nothing when the budget is at most 0.7·fs; otherwise the whole text or a prefix followed by the ellipsis, never longer than the text |
| `TextMetrics.FitOutcomes` | src/App.tsx:401-419 | the three outcomes: the whole text when every character passes, and then it fits; nothing when the first character plus the ellipsis reserve has no room, even if the whole text would fit; otherwise a non-empty prefix plus ellipsis that leaves 0.95·fs room, and one more character would not |
| `TextMetrics.FitDropsFittingText` | src/App.tsx:410-416 | the reserve is tested even when the whole text would fit: "ab" (11.2 wide at size 10) comes back empty in a budget of 12, and "abc" (16.8 wide) is cut to "a…" in a budget of 17 |
| `TextMetrics.FitWidthBound` | src/App.tsx:401-419 | the fitted text's estimated width, ellipsis included, never exceeds the budget |
| `TextMetrics.FitTextToWidth` | src/App.tsx:401-419 | the early-returning loop computes `Fit` |
| `TextMetrics.LastFits` | src/App.tsx:411-418 | when the last character has room, the whole string fits the budget |
| `TextMetrics.CutFits` | src/App.tsx:411-416 | the prefix kept at a cut plus the ellipsis reserve fits, and one more character would not |
| `Geometry.PolarAlongRay` | src/App.tsx:156 | `polar` puts radius 0 at the centre and moves a point along its angle's ray in proportion to the radius, over the uninterpreted cosine and sine |
| `Geometry.LargeArcFlag` | src/App.tsx:170 | the flag is 1 exactly when the span exceeds pi |
| `Geometry.ArcPath` | src/App.tsx:159-180 | six commands M, L, A(outer, sweep 1), L, A(inner, sweep 0), Z joining the four corners; both arcs carry the same large-arc flag, 1 iff end − start > pi |
| `Geometry.HalfTurnIsSmallArc` | src/App.tsx:170 | a span of exactly pi is drawn with flag 0 |
| `Geometry.AngleStep` | src/App.tsx:370 | the step times the category count floored to 1 is 2·pi, and it is positive; zero categories need no division by zero |
| `Geometry.SectorsTile` | src/App.tsx:848-850 | sector 0 starts at 0, each sector spans one step and ends where the next begins, the midpoint lies between, and the last ends at 2·pi |
| `Geometry.SectorLargeArc` | src/App.tsx:848-850 | a sector is drawn with the large-arc flag exactly when there is at most one category |
| `Geometry.GuideArc` | src/App.tsx:978-989 | the clockwise guide runs from the end angle back to the start with sweep 0, the counter-clockwise one the other way with sweep 1; large-arc iff the span exceeds pi |
| `Geometry.GuideReversed` | src/App.tsx:978-989 | the two directions trace the same arc reversed with the same large-arc flag and opposite sweeps |
| `Allocator.PerCatTotal` | src/App.tsx:423-432 | a category's total is 0 when it has no skill and otherwise its skill count plus 3, with or without Comfortable skills |
| `Allocator.MaxTotal` | src/App.tsx:433 | at least 1, at least every category's total, and equal to one of them unless it is 1 |
| `Allocator.MaxLabelWidth` | src/App.tsx:399 | at least 1, at least every category name's estimated width, and equal to one of them unless it is 1 |
| `Allocator.Ceil` | src/App.tsx:421 | `Math.ceil`: the least integer not below the value |
| `Allocator.OuterPadding` | src/App.tsx:421 | the larger of 28 and the offset plus the widest name's width rounded up plus 8, so at least every name's room |
| `Allocator.MaxRadLeavesLabelRoom` | src/App.tsx:421-436 | the maximum radius lies at least 28 inside the canvas edge, and every category name, set at the label offset beyond it, ends at least 8 inside the edge |
| `Allocator.UnitPerSkill` | src/App.tsx:437 | the unit is at least 6, the largest total times the unit covers the room between hub and maximum radius, exactly when not clamped |
| `Allocator.ChartFontSize` | src/App.tsx:439 | the chart font size lies in [7, 12], is at most unit − 2 once the unit is at least 9, is 12 for thick rows, 7 while unit − 2 is below 8, and otherwise unit − 2 rounded down |
| `Allocator.LoneComfortableScenario` | src/App.tsx:423-437 | a lone category with Comfortable skills "A" and "B" has total 5 and the unit is a fifth of the room |
| `Allocator.SpanIsProduct` | src/App.tsx:861-866 | n rows span n times the unit |
| `Allocator.SpacerDisagreement` | src/App.tsx:1013-1018 | the totals reserve exactly 2 rows more than the label radius counts for a category shifted by the base spacer, and never fewer |
| `Allocator.ThickRows` | src/App.tsx:861-866 | a band is as thick as its skills plus its spacer rows, and is skipped exactly when the tier is empty |
| `Allocator.WalkEnd` | src/App.tsx:855-869 | walking all four tiers from the start radius ends at `catOuterR` |
| `Allocator.BandsWellFormed` | src/App.tsx:860-869 | every drawn band holds its tier's skills then its spacer rows, one unit each |
| `Allocator.BandsContiguous` | src/App.tsx:865-868 | each band's inner radius is the previous band's outer radius, and the first starts at the cursor |
| `Allocator.BandsEnd` | src/App.tsx:855-869 | the last band ends where the cursor has advanced to |
| `Allocator.BandsTiers` | src/App.tsx:860-864 | exactly the non-empty tiers are drawn, in tier order |
| `Allocator.BandsLayout` | src/App.tsx:855-869 | the band walk of a category: contiguous well-formed bands of exactly the non-empty tiers, from at least the hub to `catOuterR`, none for a category without skills |
| `Allocator.RowsFit` | src/App.tsx:433-437 | when the unit is not clamped, a category's reserved rows, and so its `catOuterR`, stay within the maximum radius |
| `Allocator.ClampedUnitCanOverflow` | src/App.tsx:437 | with the unit clamped to 6 a category of 100 skills reaches radius 638 against a maximum radius of 332 |
| `Allocator.WalkStep` | src/App.tsx:860-869 | one tier of the walk keeps the loop's invariants, drawn or skipped |
| `Allocator.BandWalk` | src/App.tsx:855-869 | the loop advancing `currInner` emits exactly `Bands` and ends at `catOuterR` |
| `Rows.Opacity` | src/App.tsx:902-903 | row opacity lies in [0.27, 1], is the emphasis less a fifth of it per row for rows 0 to 3 and the floor 0.3 times it from row 4 |
| `Rows.OpacityFades` | src/App.tsx:902-903 | rows further out are never more opaque |
| `Rows.SkillRowsAt` | src/App.tsx:899-900 | row j of a band is the row fill for index j |
| `Rows.BandFills` | src/App.tsx:877-903 | the rows loop pushes the spacer fill, then one fill per skill, exactly `Fills` |
| `Rows.RowsTile` | src/App.tsx:899-900 | the skill rows cover [baseStart, baseStart + count·unit] without gaps |
| `Rows.SpacerFillPresent` | src/App.tsx:881-892 | a drawn band has the spacer fill exactly when its tier is Comfortable |
| `Rows.FillsTile` | src/App.tsx:877-903 | the fills of a drawn band cover it exactly from inner to outer radius, in order |
| `Rows.FillsFade` | src/App.tsx:885-903 | every fill's opacity lies in [0.27, 1] and fades outward; in a Comfortable band the spacer fill comes first, then row 0, and both have row 0's opacity |
| `Rows.RowPlacement` | src/App.tsx:899-900 | row r sits at [baseStart + r·unit, baseStart + (r+1)·unit] |
| `Placement.MaxFsByRow` | src/App.tsx:954 | at least 7, at most the row height less 2 once that is at least 7, and exactly 7 when the row height less 2 is below 8 |
| `Placement.Inset` | src/App.tsx:958 | the angle that spans 6 px of arc at the text radius |
| `Placement.LabelFontSize` | src/App.tsx:968 | the chart font size capped by the row allowance |
| `Placement.Budget` | src/App.tsx:971 | never negative, the arc length less the 8 px margin when that is positive, and 0 when the arc is at most 8 px |
| `Placement.PlaceSkillLabels` | src/App.tsx:938-1003 | the loop, breaking at the first row beyond the band and skipping rows without room, places exactly the labels `Placed` collects |
| `Placement.NoOverflowInBand` | src/App.tsx:946-951 | in a drawn band no skill's row passes the band, so the break never fires |
| `Placement.LabelOnItsRow` | src/App.tsx:955 | a label's text radius is the midline of its skill's own row fill |
| `Placement.PlacedLabelShape` | src/App.tsx:955-968 | a placed label is for its own skill, at the capped font size, with its arc inset strictly inside the sector |
| `Placement.PlacedLabelFits` | src/App.tsx:963-975 | a placed label is non-empty, is the name fitted to the arc length less 8, and its width stays within that |
| `Placement.ChartSizeKept` | src/App.tsx:954-968 | the chart font size never exceeds the row cap, so labels keep it |
| `Placement.CollectInOrder` | src/App.tsx:947-1002 | collected labels are for distinct skills in increasing order |
| `Placement.CollectKeepsAll` | src/App.tsx:947-1002 | without a stop every placed decision is collected |
| `Placement.PlacedLabels` | src/App.tsx:938-1003 | a band's labels are its skills' own, innermost first, and in a drawn band every skill that gets a label is placed |
| `Labels.OuterMargin` | src/App.tsx:1019 | the margin is the largest of a unit, two font sizes and 16 |
| `Labels.LabelRadius` | src/App.tsx:1020 | the label radius is `catOuterR` plus the margin, pulled in to at most size/2 − 4 |
| `Labels.LabelClearsRings` | src/App.tsx:1013-1020 | the label radius is a margin outside every band of its category unless pulled in to the canvas limit |
| `Labels.BandsBelowLast` | src/App.tsx:865-868 | in a contiguous run of bands each ends no further out than the last |
| `Labels.Available` | src/App.tsx:1159-1161 | room to the canvas bound on the text's side less 4, never negative |
| `Labels.CharW` | src/App.tsx:1164-1165 | at least 1; 0.6 times the font size when that is at least 1, and exactly 1 otherwise |
| `Labels.MaxChars` | src/App.tsx:1165 | at least 1, the floor of (available − 2) over the character estimate when that is at least 1, and exactly 1 when it is below 1 |
| `Labels.Shorten` | src/App.tsx:1166 | the text when it fits in maxChars, otherwise its first max(1, maxChars − 1) characters and the ellipsis |
| `Labels.CategoryLabel` | src/App.tsx:1150-1166 | the text extends rightward exactly when the cosine of the angle is non-negative |
| `Labels.CharsFit` | src/App.tsx:1165 | k estimated characters fit when k is at most the raw count |
| `Labels.LabelInsideCanvas` | src/App.tsx:1150-1166 | the display is the name or a prefix ended by the ellipsis, and with room for two characters it ends 2 px before the bound |
| `Labels.NarrowLabelKeepsTwo` | src/App.tsx:1165-1166 | with room for fewer than two characters a long name still shows one character and the ellipsis |
| `Editing.TrimStart` | src/App.tsx:540 | leading whitespace removed: a suffix not starting with whitespace |
| `Editing.TrimEnd` | src/App.tsx:540 | trailing whitespace removed: a prefix not ending with whitespace |
| `Editing.TrimDropsSpaces` | src/App.tsx:540 | everything `trim` drops is whitespace |
| `Editing.TrimEnds` | src/App.tsx:540 | the trimmed name neither starts nor ends with whitespace |
| `Editing.TrimPiece` | src/App.tsx:540 | the trimmed name is a contiguous slice of the name |
| `Editing.TrimBlank` | src/App.tsx:540 | a name trims to nothing exactly when it is blank |
| `Editing.TrimIdempotent` | src/App.tsx:540 | trimming twice is trimming once |
| `Editing.SafeTo` | src/App.tsx:506 | the target index clamped to [0, length]: `to` itself inside the range, 0 below it and the length above it |
| `Editing.Without` | src/App.tsx:505 | `splice(from, 1)`: one element taken out, the others shifted down |
| `Editing.Insert` | src/App.tsx:507 | `splice(k, 0, x)`: x put in at k, the others shifted up |
| `Editing.TakeOut` | src/App.tsx:505 | the in-place shift leaves the array without the element |
| `Editing.PutIn` | src/App.tsx:507 | the in-place shift puts the element in at the index |
| `Editing.Reorder` | src/App.tsx:502-509 | `reorder` on an array copy computes `Moved` |
| `Editing.MovedPermutes` | src/App.tsx:502-509 | the result has the same length and is a permutation of the input |
| `Editing.MovedPlacesItem` | src/App.tsx:506-507 | the moved item lands at min(max(to, 0), length − 1) |
| `Editing.MovedKeepsOthers` | src/App.tsx:502-509 | the other elements keep their order, and moving an item to its own place changes nothing |
| `Editing.MovedRoundTrip` | src/App.tsx:502-509 | moving the item back from where it landed restores the original |
| `Editing.WithTier` | src/App.tsx:513-519 | only the list of the targeted tier of the targeted category changes |
| `Editing.MoveSkillLocal` | src/App.tsx:511-521 | moving a skill changes only the targeted tier of the targeted category, and that tier keeps its skills |
| `Editing.AddCategoryOutcomes` | src/App.tsx:542-556 | blank names do nothing, duplicates warn and do nothing, otherwise the snapshot becomes the old categories followed by one category with the trimmed name and four empty tiers, silently; names stay distinct |
| `Editing.AddThenRemoveCategory` | src/App.tsx:542-560 | removing the category just added restores the snapshot |
| `Editing.RemoveCategoryKeeps` | src/App.tsx:558-560 | removing drops exactly the indexed category and keeps the others in order |
| `Editing.RenameLocal` | src/App.tsx:562-568 | renaming changes only the name at the index, to the trimmed name; a blank name changes nothing |
| `Editing.RenameCanDuplicate` | src/App.tsx:562-568 | renaming, unlike adding, can give two categories the same name |
| `Editing.AddSkillOutcomes` | src/App.tsx:570-591 | blank names do nothing silently, a name already in the tier warns and changes nothing, any change is the trimmed name appended to that tier (the change itself is `Editing.AddSkillAppends`); tiers stay free of repeats |
| `Editing.AddSkillAppends` | src/App.tsx:570-591 | a new non-blank name at an existing category becomes the snapshot with that tier extended by the trimmed name, silently, and nothing else changed; at a missing category nothing changes |
| `Editing.AddThenRemoveSkill` | src/App.tsx:570-602 | removing the skill just added restores the snapshot |
| `Editing.RemoveSkillKeeps` | src/App.tsx:593-602 | removing drops exactly the indexed skill and leaves everything else unchanged |
| `Editing.ToggleFlips` | src/App.tsx:925-928 | a click flips the clicked band's highlight, leaves no other band highlighted, and two clicks, starting from no highlight or from that band, restore the start |
| `Chart.Skills.With` | src/App.tsx:518 | replacing one tier's list keeps the other three |

## Left out

- React state, hooks, `useMemo` caching and the resize observer: framework lifecycle, not logic.
- Persistence in local storage and the JSON import/export editor: I/O and a foreign parser.
- The toast display and its timers, and the drag-and-drop and hover handlers: UI plumbing; only the `reorder`/`moveSkill` arithmetic they call is modelled.
- The composite SVG/PNG exporter and its legend: DOM calls, serialisation and asynchronous image decoding.
- Real trigonometry: `cos`, `sin` and `pi` are uninterpreted, so the cartesian coordinates of `polar` are not computed; floating-point rounding is not modelled (lengths are exact reals, and the 1e-6 overflow guard is kept as an exact constant).
- JSX rendering, colours, class names and the static help text: presentation only.
- Editing.MoveSkill: requires a `fromIndex` inside the tier, which the drag handlers always supply; an out-of-range index, which would insert `undefined` in the original, is not modelled.
- Editing.Reorder: requires `from` inside the array, as every caller supplies.
- Characters outside the Basic Multilingual Plane: the estimator, the fitter and `Labels.CategoryLabel`'s `text.length`/`slice` truncation (src/App.tsx:1166) are modelled over one sequence of characters, so the original's mixing of code points and UTF-16 units, and a slice that splits a surrogate pair, are not modelled.
- Allocator.BandWalk: takes the unit as a parameter at least 6, as `UNIT_PER_SKILL` always is, rather than recomputing it.
