# Spectrum visualizer of the Eq mixing assistant, in Dafny

The Eq application places colloquial mixing terms ("muddy", "boxy", "air")
on a logarithmic 20 Hz to 20 kHz axis. It draws an EQ-style curve for the
selected or hovered term and lays out term buttons and background bands on
the same axis. This project models that visualizer and the static catalog it
draws from, and proves the laws the drawing relies on.

Files and modules:

- `types.dfy`, module `Types`: the `Zone` and `Band` enumerations and the
  `FrequencyTerm` and `FrequencyBandDef` records. The source's field `label`
  is a reserved word in Dafny. It is called `name` on a term and `band` on a
  band.
- `constants.dfy`, module `Constants`: `FreqMin`, `FreqMax`, `Bands` and
  `FrequencyTerms` as literal data. It also holds the `ValidCatalog`
  predicate and the lemma `CatalogIsValid` that the literal data meet it.
- `log_scale.dfy`, module `LogScale`: `Math.log10` and `Math.pow(10, .)`.
  Dafny has no logarithm over `real`. So the pair is a value `LogPair` that
  every mapping takes as a parameter `L`.
  - `Lawful(L)` states the laws used: 10^x is positive, the two functions are
    mutual inverses, and log10 is strictly increasing on positive reals.
  - `Decimal(L)` adds log10(10) = 1 and the product law. Only the lemmas that
    compute particular positions need it.
  - The real log10/10^x pair satisfies both, so every result holds for the
    real functions.
- `visualizer.dfy`, module `FrequencyVisualizer`, covers
  `components/FrequencyVisualizer.tsx`:
  - the axis mapper (`LogPosition`, `FreqFromPosition`) and the hover clamp;
  - the curve, as a datatype of SVG control points rather than a path string;
  - the selection rule (`FindTerm`, `Visualize`, `Dim`);
  - the lanes, and the widths of term buttons and band strips.
- `wrappers.dfy`, module `Wrappers`: `Option`, which stands for the source's
  `string | null` and `T | undefined`.

Points worth knowing:

- For "muddy" (200-400 Hz) the code's formula gives these positions:
  - 200 Hz is at exactly 100/3, which `DecadePositions` proves;
  - 400 Hz is strictly between 43.3 and 44.5, which `MuddyCurve` proves.
- The curve is drawn with height 200, so the baseline is at y = 100.
  - The too-much and too-little amplitudes are 80% of the whole height,
    that is 160 units. Their peaks therefore land at y = -60 and y = 260,
    outside the 200-unit drawing area.
  - Only the balanced peak (y = 40) stays inside.
  - `PeakAgainstDrawingArea` and `MuddyCurve` state this. The model keeps
    the source's behaviour.
- `getLogPosition` clamps only below `FreqMin`. Above `FreqMax` the position
  exceeds 100, as `LogPosition`'s contract states.
- `dim` uses JavaScript truthiness: an empty selected id dims nothing.
  `Dim` models this.
- The curve's svg has no `viewBox`, so the path's coordinates are pixels.
  `getCurvePath` writes the 0-100 positions into the path unscaled, while
  the buttons, bands and grid lines use the same numbers as percentages.
  The model states the numbers each computes; see "Left out".

## Model

| member | source | states |
|---|---|---|
| `FrequencyVisualizer.LogSpan` | components/FrequencyVisualizer.tsx:13-16 | The divisor log10(FREQ_MAX) - log10(FREQ_MIN) is positive, so the division never fails. |
| `FrequencyVisualizer.LogPosition` | components/FrequencyVisualizer.tsx:12-17 | The position is never negative. Every frequency at or below FREQ_MIN maps to 0 (the clamp). FREQ_MAX maps to 100, anything up to FREQ_MAX to at most 100, and anything above FREQ_MAX to more than 100 (no upper clamp). |
| `FrequencyVisualizer.FreqFromPosition` | components/FrequencyVisualizer.tsx:20-25 | The frequency is positive. 0 maps to FREQ_MIN and 100 to FREQ_MAX. [0,100] lands in [FREQ_MIN, FREQ_MAX], below 0 lands below FREQ_MIN, and above 100 lands above FREQ_MAX. |
| `FrequencyVisualizer.PositionRoundTrip` | components/FrequencyVisualizer.tsx:12-25 | getLogPosition(getFreqFromPosition(p)) is p for every p >= 0, and 0 for negative p. |
| `FrequencyVisualizer.FrequencyRoundTrip` | components/FrequencyVisualizer.tsx:12-25 | getFreqFromPosition(getLogPosition(f)) is f for every f >= FREQ_MIN, and FREQ_MIN below it. |
| `FrequencyVisualizer.LogPositionStrictlyIncreasing` | components/FrequencyVisualizer.tsx:15-16 | From FREQ_MIN up, a higher frequency has a strictly greater position. |
| `FrequencyVisualizer.LogPositionMonotone` | components/FrequencyVisualizer.tsx:15-16 | The position never decreases with frequency, including across the clamp. |
| `FrequencyVisualizer.FreqFromPositionStrictlyIncreasing` | components/FrequencyVisualizer.tsx:23-24 | A greater position gives a strictly higher frequency. |
| `FrequencyVisualizer.DecadePositions` | components/FrequencyVisualizer.tsx:12-17 | The display spans three decades. getLogPosition(200) is exactly 100/3 and getLogPosition(2000) is 200/3. |
| `FrequencyVisualizer.GridLinesSpanDisplay` | components/FrequencyVisualizer.tsx:76-120 | The grid lines run strictly left to right, from position 0 (20 Hz) to position 100 (20 kHz). |
| `FrequencyVisualizer.HoverPercentage` | components/FrequencyVisualizer.tsx:41-44 | The hover percentage lies in [0,100]. It is 0 left of the container and 100 right of it. Inside, it is the cursor's share of the width. |
| `FrequencyVisualizer.HoverFrequency` | components/FrequencyVisualizer.tsx:44-45 | The hover frequency always lies in [FREQ_MIN, FREQ_MAX]. Its ruler (getLogPosition(hoverFreq), line 178) sits exactly at the hover percentage. |
| `FrequencyVisualizer.Amplitude` | components/FrequencyVisualizer.tsx:60-63 | For a positive height the deflection is non-zero. It is upward (negative y) exactly for too much and balanced, and downward for too little. |
| `FrequencyVisualizer.BoostMirrorsCut` | components/FrequencyVisualizer.tsx:61-62 | The too-much boost is the exact negation of the too-little cut. |
| `FrequencyVisualizer.GetCurvePath` | components/FrequencyVisualizer.tsx:53-74 | The path starts at (getLogPosition(minHz), height/2) and ends at (getLogPosition(maxHz), height/2). The peak is at the midpoint, displaced by the zone's amplitude. The first and last control points sit on the baseline a quarter-width inside each end. The control point before the peak is level with the peak. |
| `FrequencyVisualizer.CurveIsSymmetricLobe` | components/FrequencyVisualizer.tsx:66-73 | The falling `S` segment, with its reflected control point, mirrors the rising `C` segment about the vertical through the peak. The tangent at the peak is horizontal. |
| `FrequencyVisualizer.CurveWithinTermSpan` | components/FrequencyVisualizer.tsx:54-57 | For a well-formed range from FREQ_MIN up, the curve's points are ordered left to right from a non-negative start. It ends at most at 100 when maxHz <= FREQ_MAX. |
| `FrequencyVisualizer.CurveDirection` | components/FrequencyVisualizer.tsx:60-68 | For a positive height the peak is above the baseline exactly when the zone is not too little, and below it exactly when it is. |
| `FrequencyVisualizer.BalancedCurveIsGentler` | components/FrequencyVisualizer.tsx:61-63 | At equal height a balanced curve deflects strictly less than a too-much or too-little curve. |
| `FrequencyVisualizer.PeakAgainstDrawingArea` | components/FrequencyVisualizer.tsx:60-68 | Boost peaks lie above the drawing area [0, height] and cut peaks below it. Balanced peaks lie inside its upper half. |
| `FrequencyVisualizer.MuddyCurve` | components/FrequencyVisualizer.tsx:135-138 | The path computed for muddy at height 200 starts at (100/3, 100). Its end has y = 100 and an x strictly between 43.3 and 44.5. Its peak has y = -60. |
| `FrequencyVisualizer.FindTerm` | components/FrequencyVisualizer.tsx:32-33 | `find` returns a term exactly when the id is non-null and some term carries it. The term returned is the first one with that id. |
| `FrequencyVisualizer.FindByOwnId` | components/FrequencyVisualizer.tsx:32-33 | With distinct ids, looking up a term's own id finds exactly that term. |
| `FrequencyVisualizer.Visualize` | components/FrequencyVisualizer.tsx:32-37 | The active term is shown, and is not a preview, whenever one is found. Otherwise the hovered term is shown. `isPreview` holds iff no term is active and a term is hovered. Nothing is shown iff neither is found. |
| `FrequencyVisualizer.SelectionOverridesHover` | components/FrequencyVisualizer.tsx:35-37 | Selecting any catalog term shows that term, not as a preview, whatever is hovered. |
| `FrequencyVisualizer.HoverShowsPreview` | components/FrequencyVisualizer.tsx:33-37 | With nothing selected, hovering a catalog term shows that term as a preview. |
| `FrequencyVisualizer.IsSelected` | components/FrequencyVisualizer.tsx:209 | A button is marked selected only when the selected id is present and equal to its id. A null selection marks nothing. A button with a non-empty id is selected only under a truthy selection. |
| `FrequencyVisualizer.Dim` | components/FrequencyVisualizer.tsx:213 | A button is dimmed exactly when the selection is truthy (present and non-empty) and the button is not the selected one. |
| `FrequencyVisualizer.DimExcludesSelected` | components/FrequencyVisualizer.tsx:209-213 | A dimmed button is never the selected one. With no selection nothing is dimmed. |
| `FrequencyVisualizer.OnlySelectedTermUndimmed` | components/FrequencyVisualizer.tsx:205-214 | Once a catalog term is selected, every other term's button is dimmed and its own is not. Its own is the only one marked selected. |
| `FrequencyVisualizer.Lane` | components/FrequencyVisualizer.tsx:205 | The lane holds exactly the terms of its zone: every member is in the catalog with that zone, and every catalog term of that zone is in it. Each term occurs in the lane as often as in the catalog if it has the zone, and not at all otherwise. |
| `FrequencyVisualizer.LaneConcat` | components/FrequencyVisualizer.tsx:205 | The lane of a + b is the lane of a followed by the lane of b. So a lane keeps catalog order, which decides which of two overlapping buttons is drawn on top. |
| `FrequencyVisualizer.LaneSingleton` | components/FrequencyVisualizer.tsx:205 | A one-term sequence passes the filter exactly when the term has the zone. |
| `FrequencyVisualizer.LanesPartitionTerms` | components/FrequencyVisualizer.tsx:201-250 | The three lanes together hold as many buttons as there are terms, so each term is drawn in exactly one lane. |
| `FrequencyVisualizer.CatalogLanesNonEmpty` | components/FrequencyVisualizer.tsx:239 | Each of the catalog's three lanes has at least one term. |
| `FrequencyVisualizer.TermButtonBox` | components/FrequencyVisualizer.tsx:280-281 | left + width equals getLogPosition(maxHz). left is never negative. The width is positive for a well-formed range. The button ends inside the display for an in-display term. |
| `FrequencyVisualizer.ButtonUnderCurve` | components/FrequencyVisualizer.tsx:280-281 | The button's left edge equals the path's start x, and left + width equals the path's end x, as numbers. |
| `FrequencyVisualizer.BandWidth` | components/FrequencyVisualizer.tsx:195 | A band strip's width is never negative for an ordered range, and positive for a well-formed range from FREQ_MIN up. |
| `FrequencyVisualizer.WidthsTelescope` | components/FrequencyVisualizer.tsx:191-198 | The widths of contiguous bands laid side by side sum to getLogPosition(last maxHz) - getLogPosition(first minHz). |
| `FrequencyVisualizer.FlexOffsetMatchesPosition` | components/FrequencyVisualizer.tsx:254-262 | For contiguous bands, the k-th strip of the offset-free flex row starts where the k-th footer label is placed absolutely, relative to the first band. |
| `FrequencyVisualizer.BandsFillDisplay` | components/FrequencyVisualizer.tsx:191-198 | The catalog's band strips together are exactly 100% wide. |
| `FrequencyVisualizer.CatalogBandOffsets` | components/FrequencyVisualizer.tsx:191-262 | Each catalog band strip starts exactly at getLogPosition(minHz), where its footer label is placed. |
| `Constants.CatalogIsValid` | constants.ts:3-49 | The literal catalog meets `ValidCatalog`. 0 < FREQ_MIN < FREQ_MAX. The bands tile [FREQ_MIN, FREQ_MAX] contiguously with distinct labels. Every term range satisfies FREQ_MIN <= minHz < maxHz <= FREQ_MAX. Ids are non-empty and pairwise distinct. Every zone has a term. |
| `Constants.BandsAreValid` | constants.ts:6-13 | The first band starts at FREQ_MIN and the last ends at FREQ_MAX. Every band has minHz < maxHz, each maxHz equals the next minHz, and labels differ. |
| `Constants.TermRangesAreValid` | constants.ts:15-49 | Every term satisfies FREQ_MIN <= minHz < maxHz <= FREQ_MAX. |
| `Constants.TermIdsDistinct` | constants.ts:15-49 | Term ids are pairwise distinct and non-empty. |

## Left out

- `components/AssistantPanel.tsx`, `services/geminiService.ts` and `App.tsx` are not part of this model. They hold the chat panel, the call to the external language-model client, and page layout with the `useState` of the selected term.
- React state and events are parameters, not state. This covers the `hoverFreq` and `hoveredTermId` state, `handleMouseLeave`, `useRef`, the `containerRef.current` null guard, `getBoundingClientRect` and the button handlers. The ids and the cursor coordinates are inputs of `Visualize`, `Dim` and `HoverFrequency`.
- HoverPercentage: requires a positive container width. The source divides by `rect.width`, and the container has a minimum width of 800 pixels (line 109), so a zero width does not arise.
- PositionRoundTrip, FrequencyRoundTrip: exact on reals. IEEE rounding in `Math.log10` and `Math.pow` is not modelled, so nothing is claimed bit-exact.
- The SVG path string is not modelled, only its control points.
- GetCurvePath, ButtonUnderCurve, MuddyCurve: the svg at line 136 has no `viewBox`, so the path's 0-100 x values are drawn as pixels of a container at least 800 pixels wide. The buttons (lines 294-295), band strips and grid lines (line 123) use the same numbers as percentages. The model states the computed numbers and does not claim the curve is drawn over its button.
- The area-fill path of line 149 is not modelled. It appends `%` to its coordinates, which path data does not allow.
- Colours, gradients, opacity (the preview's dimmer stroke), blur, scaling, CSS classes, grid-line label text and `Math.round` of the ruler label are not modelled.
- The `color` of a band and the `name` and `description` of a term are carried as data. Nothing is proved about them.
