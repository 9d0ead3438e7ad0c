/**
  The spectrum visualizer: the logarithmic axis mapper, the EQ-curve
  geometry, the selection/preview rule, and the layout arithmetic of the
  term buttons, the band strips and the grid lines.

  Every mapping takes the log10/10^x pair `L` as a parameter (see module
  LogScale); nothing here depends on which lawful pair it is.
 */
module FrequencyVisualizer {
  import opened Wrappers
  import opened Types
  import opened LogScale
  import opened Constants

  /** `Math.max` and `Math.min` on reals. */
  function Max(a: real, b: real): real { if a >= b then a else b }
  function Min(a: real, b: real): real { if a <= b then a else b }

  function Abs(a: real): real { if a < 0.0 then -a else a }

  // ---------------------------------------------------------------------------
  // Percentage scaling
  // ---------------------------------------------------------------------------

  /** `(a / span) * 100`: a length as a percentage of a span. */
  function ToPercent(a: real, span: real): real
    requires span > 0.0
  {
    (a / span) * 100.0
  }

  /** `(p / 100) * span`: a percentage of a span as a length. */
  function FromPercent(p: real, span: real): real {
    (p / 100.0) * span
  }

  /** Against a positive span, a percentage keeps the sign of the length and compares with 100 as the length does with the span. */
  lemma ToPercentBounds(a: real, span: real)
    requires span > 0.0
    ensures ToPercent(a, span) >= 0.0 <==> a >= 0.0
    ensures a == 0.0 ==> ToPercent(a, span) == 0.0
    ensures a <= span ==> ToPercent(a, span) <= 100.0
    ensures a == span ==> ToPercent(a, span) == 100.0
    ensures a > span ==> ToPercent(a, span) > 100.0
  {
    var q := a / span;
    assert q * span == a;
    if a > span {
      assert q > 1.0;
    }
  }

  /** Percentages grow with the length. */
  lemma ToPercentIncreasing(a: real, b: real, span: real)
    requires span > 0.0 && a < b
    ensures ToPercent(a, span) < ToPercent(b, span)
  {
  }

  /** A length from a percentage compares with 0 and the span as the percentage does with 0 and 100. */
  lemma FromPercentBounds(p: real, span: real)
    requires span > 0.0
    ensures p < 0.0 ==> FromPercent(p, span) < 0.0
    ensures p == 0.0 ==> FromPercent(p, span) == 0.0
    ensures 0.0 <= p ==> 0.0 <= FromPercent(p, span)
    ensures p <= 100.0 ==> FromPercent(p, span) <= span
    ensures p == 100.0 ==> FromPercent(p, span) == span
    ensures p > 100.0 ==> FromPercent(p, span) > span
  {
  }

  /** Lengths from percentages grow with the percentage. */
  lemma FromPercentIncreasing(p: real, q: real, span: real)
    requires span > 0.0 && p < q
    ensures FromPercent(p, span) < FromPercent(q, span)
  {
  }

  /** The two conversions are inverse. */
  lemma PercentRoundTrip(p: real, a: real, span: real)
    requires span > 0.0
    ensures ToPercent(FromPercent(p, span), span) == p
    ensures FromPercent(ToPercent(a, span), span) == a
  {
  }

  // ---------------------------------------------------------------------------
  // Axis mapper
  // ---------------------------------------------------------------------------

  /** log10(FreqMax) - log10(FreqMin), the logarithmic width of the display. */
  function LogSpan(L: LogPair): (d: real)
    requires Lawful(L)
    ensures d > 0.0
  {
    L.log10(FreqMax) - L.log10(FreqMin)
  }

  /**
    `getLogPosition`: a frequency as a percentage of the display width on a
    log10 scale. Frequencies below FreqMin are clamped to it; there is no
    clamp above FreqMax.
   */
  function LogPosition(L: LogPair, freq: real): (r: real)
    requires Lawful(L)
    ensures r >= 0.0
    ensures freq <= FreqMin ==> r == 0.0
    ensures freq <= FreqMax ==> r <= 100.0
    ensures freq == FreqMax ==> r == 100.0
    ensures freq > FreqMax ==> r > 100.0
  {
    var minLog := L.log10(FreqMin);
    var maxLog := L.log10(FreqMax);
    var freqLog := L.log10(Max(freq, FreqMin));
    Log10Order(L, FreqMin, Max(freq, FreqMin));
    Log10Order(L, Max(freq, FreqMin), FreqMax);
    ToPercentBounds(freqLog - minLog, maxLog - minLog);
    ToPercent(freqLog - minLog, maxLog - minLog)
  }

  /**
    `getFreqFromPosition`: the frequency at a percentage of the display
    width. Defined for every position; [0, 100] maps onto [FreqMin, FreqMax].
   */
  function FreqFromPosition(L: LogPair, pos: real): (f: real)
    requires Lawful(L)
    ensures f > 0.0
    ensures pos == 0.0 ==> f == FreqMin
    ensures pos == 100.0 ==> f == FreqMax
    ensures 0.0 <= pos <= 100.0 ==> FreqMin <= f <= FreqMax
    ensures pos < 0.0 ==> f < FreqMin
    ensures pos > 100.0 ==> f > FreqMax
  {
    var minLog := L.log10(FreqMin);
    var maxLog := L.log10(FreqMax);
    var logFreq := FromPercent(pos, maxLog - minLog) + minLog;
    FromPercentBounds(pos, maxLog - minLog);
    Pow10Order(L, minLog, logFreq);
    Pow10Order(L, logFreq, minLog);
    Pow10Order(L, logFreq, maxLog);
    Pow10Order(L, maxLog, logFreq);
    L.pow10(logFreq)
  }

  /** Positions survive the trip through a frequency; negative ones come back as 0. */
  lemma PositionRoundTrip(L: LogPair, p: real)
    requires Lawful(L)
    ensures LogPosition(L, FreqFromPosition(L, p)) == Max(p, 0.0)
  {
    var d := LogSpan(L);
    var f := FreqFromPosition(L, p);
    if p >= 0.0 {
      assert L.log10(f) == FromPercent(p, d) + L.log10(FreqMin);
      PercentRoundTrip(p, 0.0, d);
    }
  }

  /** Frequencies from FreqMin up survive the trip through a position; lower ones come back as FreqMin. */
  lemma FrequencyRoundTrip(L: LogPair, f: real)
    requires Lawful(L)
    ensures FreqFromPosition(L, LogPosition(L, f)) == Max(f, FreqMin)
  {
    var g := Max(f, FreqMin);
    PercentRoundTrip(0.0, L.log10(g) - L.log10(FreqMin), LogSpan(L));
  }

  /** `getLogPosition` is strictly increasing from FreqMin up. */
  lemma LogPositionStrictlyIncreasing(L: LogPair, f: real, g: real)
    requires Lawful(L)
    requires FreqMin <= f < g
    ensures LogPosition(L, f) < LogPosition(L, g)
  {
    var m := L.log10(FreqMin);
    assert Max(f, FreqMin) == f && Max(g, FreqMin) == g;
    Log10Order(L, f, g);
    ToPercentIncreasing(L.log10(f) - m, L.log10(g) - m, LogSpan(L));
  }

  /** `getLogPosition` never decreases, including across the clamp at FreqMin, and increases from FreqMin up. */
  lemma LogPositionMonotone(L: LogPair, f: real, g: real)
    requires Lawful(L)
    requires f <= g
    ensures LogPosition(L, f) <= LogPosition(L, g)
    ensures FreqMin <= f < g ==> LogPosition(L, f) < LogPosition(L, g)
  {
    if FreqMin <= f && f < g {
      LogPositionStrictlyIncreasing(L, f, g);
    } else if f < FreqMin && FreqMin < g {
      LogPositionStrictlyIncreasing(L, FreqMin, g);
    }
  }

  /** `getFreqFromPosition` is strictly increasing. */
  lemma FreqFromPositionStrictlyIncreasing(L: LogPair, p: real, q: real)
    requires Lawful(L)
    requires p < q
    ensures FreqFromPosition(L, p) < FreqFromPosition(L, q)
  {
    var d := LogSpan(L);
    var m := L.log10(FreqMin);
    FromPercentIncreasing(p, q, d);
    Pow10Order(L, FromPercent(p, d) + m, FromPercent(q, d) + m);
  }

  /** The display spans exactly three decades, so 200 Hz and 2 kHz sit at one and two thirds. */
  lemma DecadePositions(L: LogPair)
    requires Lawful(L) && Decimal(L)
    ensures LogSpan(L) == 3.0
    ensures LogPosition(L, 200.0) == 100.0 / 3.0
    ensures LogPosition(L, 2000.0) == 200.0 / 3.0
  {
    assert ProductLaw(L, 10.0, 10.0);
    assert ProductLaw(L, 10.0, 100.0);
    assert ProductLaw(L, 20.0, 1000.0);
    assert ProductLaw(L, 20.0, 10.0);
    assert ProductLaw(L, 20.0, 100.0);
    assert L.log10(20000.0) == L.log10(20.0) + 3.0;
    assert L.log10(200.0) == L.log10(20.0) + 1.0;
    assert L.log10(2000.0) == L.log10(20.0) + 2.0;
  }

  /** The grid line frequencies drawn behind the curve. */
  const GridLines: seq<real> := [20.0, 50.0, 100.0, 200.0, 500.0, 1000.0, 2000.0, 5000.0, 10000.0, 20000.0]

  /** The grid lines run strictly left to right from the left edge to the right edge. */
  lemma GridLinesSpanDisplay(L: LogPair)
    requires Lawful(L)
    ensures LogPosition(L, GridLines[0]) == 0.0
    ensures LogPosition(L, GridLines[|GridLines| - 1]) == 100.0
    ensures forall i :: 0 < i < |GridLines| ==> LogPosition(L, GridLines[i - 1]) < LogPosition(L, GridLines[i])
  {
    forall i | 0 < i < |GridLines|
      ensures LogPosition(L, GridLines[i - 1]) < LogPosition(L, GridLines[i])
    {
      LogPositionStrictlyIncreasing(L, GridLines[i - 1], GridLines[i]);
    }
  }

  // ---------------------------------------------------------------------------
  // Hover
  // ---------------------------------------------------------------------------

  /**
    The cursor's horizontal position inside the container, as a percentage
    clamped to [0, 100]. `rectWidth` is the container's rendered width,
    which has a minimum of 800 pixels.
   */
  function HoverPercentage(clientX: real, rectLeft: real, rectWidth: real): (p: real)
    requires rectWidth > 0.0
    ensures 0.0 <= p <= 100.0
    ensures clientX <= rectLeft ==> p == 0.0
    ensures rectLeft + rectWidth <= clientX ==> p == 100.0
    ensures rectLeft <= clientX <= rectLeft + rectWidth ==> p * rectWidth == (clientX - rectLeft) * 100.0
  {
    var x := clientX - rectLeft;
    ToPercentBounds(x, rectWidth);
    Max(0.0, Min(100.0, ToPercent(x, rectWidth)))
  }

  /** The hover frequency set by `handleMouseMove`: always on the display, and the ruler drawn for it sits under the cursor. */
  function HoverFrequency(L: LogPair, clientX: real, rectLeft: real, rectWidth: real): (f: real)
    requires Lawful(L)
    requires rectWidth > 0.0
    ensures FreqMin <= f <= FreqMax
    ensures LogPosition(L, f) == HoverPercentage(clientX, rectLeft, rectWidth)
  {
    var p := HoverPercentage(clientX, rectLeft, rectWidth);
    PositionRoundTrip(L, p);
    FreqFromPosition(L, p)
  }

  // ---------------------------------------------------------------------------
  // Curve geometry
  // ---------------------------------------------------------------------------

  /**
    A point in SVG user space. The svg element has no viewBox, so one user
    unit is one CSS pixel on both axes; y grows downward.
   */
  datatype Point = Point(x: real, y: real)

  /**
    The EQ curve `M start C control1 control2 peak S control3 end`: a cubic
    segment rising to the peak, then a smooth cubic segment back to the
    baseline.
   */
  datatype CurvePath = CurvePath(
    start: Point,
    control1: Point,
    control2: Point,
    peak: Point,
    control3: Point,
    end: Point)

  /**
    The vertical deflection of a zone's curve: negative is upward on screen.
    Too much is a large boost, too little an equally large cut, balanced a
    gentle boost.
   */
  function Amplitude(zone: Zone, height: real): (a: real)
    ensures height > 0.0 ==> (a < 0.0 <==> zone != TooLittle) && a != 0.0
  {
    if zone == TooMuch then -height * 0.8
    else if zone == TooLittle then height * 0.8
    else -height * 0.3
  }

  /** The boost of "too much" and the cut of "too little" are mirror images. */
  lemma BoostMirrorsCut(height: real)
    ensures Amplitude(TooMuch, height) == -Amplitude(TooLittle, height)
  {
  }

  /** `getCurvePath`: the control points of the curve drawn for a term at a given height. */
  function GetCurvePath(L: LogPair, term: FrequencyTerm, height: real): (c: CurvePath)
    requires Lawful(L)
    ensures c.start == Point(LogPosition(L, term.minHz), height / 2.0)
    ensures c.end == Point(LogPosition(L, term.maxHz), height / 2.0)
    ensures c.peak == Point((c.start.x + c.end.x) / 2.0, c.start.y + Amplitude(term.zone, height))
    ensures c.control1 == Point(c.start.x + (c.end.x - c.start.x) / 4.0, c.start.y)
    ensures c.control2 == Point(c.peak.x - (c.end.x - c.start.x) / 4.0, c.peak.y)
    ensures c.control3 == Point(c.end.x - (c.end.x - c.start.x) / 4.0, c.end.y)
  {
    var startX := LogPosition(L, term.minHz);
    var endX := LogPosition(L, term.maxHz);
    var width := endX - startX;
    var centerX := startX + width / 2.0;
    var amplitude := Amplitude(term.zone, height);
    var zeroY := height / 2.0;
    var peakY := zeroY + amplitude;
    CurvePath(
      Point(startX, zeroY),
      Point(startX + width * 0.25, zeroY),
      Point(centerX - width * 0.25, peakY),
      Point(centerX, peakY),
      Point(endX - width * 0.25, zeroY),
      Point(endX, zeroY))
  }

  /** The first control point of the `S` segment: the reflection of control2 about the peak. */
  function SmoothControl(c: CurvePath): Point {
    Point(2.0 * c.peak.x - c.control2.x, 2.0 * c.peak.y - c.control2.y)
  }

  /**
    The curve is a single symmetric lobe: the falling segment is the mirror
    image of the rising one about the vertical through the peak, and the
    tangent at the peak is horizontal.
   */
  lemma CurveIsSymmetricLobe(L: LogPair, term: FrequencyTerm, height: real)
    requires Lawful(L)
    ensures var c := GetCurvePath(L, term, height);
      var s := SmoothControl(c);
      && c.start.x + c.end.x == 2.0 * c.peak.x
      && c.control1.x + c.control3.x == 2.0 * c.peak.x
      && c.control2.x + s.x == 2.0 * c.peak.x
      && c.start.y == c.end.y
      && c.control1.y == c.control3.y
      && c.control2.y == c.peak.y == s.y
  {
  }

  /**
    For a term with a well-formed range from FreqMin up, the curve's points
    are ordered left to right inside the term's span, and the span lies on
    the display when the term does.
   */
  lemma CurveWithinTermSpan(L: LogPair, term: FrequencyTerm, height: real)
    requires Lawful(L)
    requires FreqMin <= term.minHz < term.maxHz
    ensures var c := GetCurvePath(L, term, height);
      var s := SmoothControl(c);
      && 0.0 <= c.start.x < c.control1.x
      && c.control1.x == c.control2.x < c.peak.x < s.x
      && s.x == c.control3.x < c.end.x
      && (term.maxHz <= FreqMax ==> c.end.x <= 100.0)
  {
    LogPositionStrictlyIncreasing(L, term.minHz, term.maxHz);
  }

  /** For a positive height the peak is above the baseline exactly when the zone is not "too little". */
  lemma CurveDirection(L: LogPair, term: FrequencyTerm, height: real)
    requires Lawful(L)
    requires height > 0.0
    ensures var c := GetCurvePath(L, term, height);
      && (c.peak.y < c.start.y <==> term.zone != TooLittle)
      && (c.peak.y > c.start.y <==> term.zone == TooLittle)
  {
  }

  /** At equal height a balanced curve deflects strictly less than a too-much or too-little one. */
  lemma BalancedCurveIsGentler(L: LogPair, gentle: FrequencyTerm, strong: FrequencyTerm, height: real)
    requires Lawful(L)
    requires height > 0.0
    requires gentle.zone == Balanced && strong.zone != Balanced
    ensures var g := GetCurvePath(L, gentle, height);
      var s := GetCurvePath(L, strong, height);
      Abs(g.peak.y - g.start.y) < Abs(s.peak.y - s.start.y)
  {
  }

  /**
    The boost and cut peaks leave the drawing area [0, height]: the
    amplitude is 80% of the whole height but the baseline sits at half of
    it. Only the balanced peak stays inside, in the upper half.
   */
  lemma PeakAgainstDrawingArea(L: LogPair, term: FrequencyTerm, height: real)
    requires Lawful(L)
    requires height > 0.0
    ensures var c := GetCurvePath(L, term, height);
      && (term.zone == TooMuch ==> c.peak.y < 0.0)
      && (term.zone == TooLittle ==> c.peak.y > height)
      && (term.zone == Balanced ==> 0.0 < c.peak.y < height / 2.0)
  {
  }

  /**
    The path computed for the "muddy" term (200-400 Hz, too much) at the
    rendered height of 200: its start x is exactly 100/3, its end x lies
    strictly between 43.3 and 44.5, both ends have y = 100 and the peak has
    y = -60, above the top of the 200-unit drawing area.
   */
  lemma MuddyCurve(L: LogPair)
    requires Lawful(L) && Decimal(L)
    ensures FrequencyTerms[2].id == "muddy"
    ensures var c := GetCurvePath(L, FrequencyTerms[2], 200.0);
      && c.start == Point(100.0 / 3.0, 100.0)
      && 43.3 < c.end.x < 44.5
      && c.end.y == 100.0
      && c.peak.y == -60.0
  {
    DecadePositions(L);
    Log400(L);
    Log2Bounds(L);
    var l2 := L.log10(2.0);
    assert LogPosition(L, 400.0) == ((1.0 + l2) / 3.0) * 100.0;
  }

  /** log10(400) - log10(20) = log10(20) = 1 + log10(2). */
  lemma Log400(L: LogPair)
    requires Lawful(L) && Decimal(L)
    ensures L.log10(400.0) - L.log10(20.0) == 1.0 + L.log10(2.0)
  {
    assert ProductLaw(L, 2.0, 10.0);
    assert ProductLaw(L, 20.0, 20.0);
  }

  /** 2^3 < 10 and 2^10 > 10^3 bound log10(2) between 0.3 and 1/3. */
  lemma Log2Bounds(L: LogPair)
    requires Lawful(L) && Decimal(L)
    ensures 0.3 < L.log10(2.0) < 1.0 / 3.0
  {
    var l2 := L.log10(2.0);
    assert ProductLaw(L, 2.0, 2.0);
    assert ProductLaw(L, 4.0, 2.0);
    assert ProductLaw(L, 4.0, 4.0);
    assert ProductLaw(L, 2.0, 16.0);
    assert ProductLaw(L, 32.0, 32.0);
    assert ProductLaw(L, 10.0, 100.0);
    assert ProductLaw(L, 10.0, 10.0);
    assert L.log10(8.0) == 3.0 * l2;
    assert L.log10(1024.0) == 10.0 * l2;
    Log10Order(L, 8.0, 10.0);
    Log10Order(L, 1000.0, 1024.0);
  }

  // ---------------------------------------------------------------------------
  // Selection
  // ---------------------------------------------------------------------------

  /** `FREQUENCY_TERMS.find(t => t.id === id)`: the first term with that id; a null id matches nothing. */
  function FindTerm(terms: seq<FrequencyTerm>, id: Option<string>): (r: Option<FrequencyTerm>)
    ensures r.Some? <==> id.Some? && exists i :: 0 <= i < |terms| && terms[i].id == id.value
    ensures r.Some? ==> exists i :: (0 <= i < |terms| && terms[i] == r.value && r.value.id == id.value
      && forall j :: 0 <= j < i ==> terms[j].id != id.value)
    decreases |terms|
  {
    if id.None? || |terms| == 0 then None
    else if terms[0].id == id.value then Some(terms[0])
    else
      var r := FindTerm(terms[1..], id);
      assert forall i :: 0 <= i < |terms| - 1 ==> terms[1..][i] == terms[i + 1];
      r
  }

  /** With distinct ids, looking a term up by its own id finds exactly that term. */
  lemma FindByOwnId(terms: seq<FrequencyTerm>, k: nat)
    requires DistinctIds(terms)
    requires k < |terms|
    ensures FindTerm(terms, Some(terms[k].id)) == Some(terms[k])
  {
    var r := FindTerm(terms, Some(terms[k].id));
    var i :| 0 <= i < |terms| && terms[i] == r.value && r.value.id == terms[k].id
      && forall j :: 0 <= j < i ==> terms[j].id != terms[k].id;
    assert i == k;
  }

  /** What the curve area shows: a term, and whether it is only a hover preview. */
  datatype View = View(shown: Option<FrequencyTerm>, isPreview: bool)

  /**
    `visualizedTerm = activeTerm || previewTerm` and
    `isPreview = !activeTerm && !!previewTerm`.
   */
  function Visualize(terms: seq<FrequencyTerm>, selectedId: Option<string>, hoveredId: Option<string>): (v: View)
    ensures FindTerm(terms, selectedId).Some? ==> v.shown == FindTerm(terms, selectedId) && !v.isPreview
    ensures FindTerm(terms, selectedId).None? ==> v.shown == FindTerm(terms, hoveredId)
    ensures v.isPreview <==> FindTerm(terms, selectedId).None? && FindTerm(terms, hoveredId).Some?
    ensures v.shown.None? <==> FindTerm(terms, selectedId).None? && FindTerm(terms, hoveredId).None?
  {
    var activeTerm := FindTerm(terms, selectedId);
    var previewTerm := FindTerm(terms, hoveredId);
    View(if activeTerm.Some? then activeTerm else previewTerm, activeTerm.None? && previewTerm.Some?)
  }

  /** A selected catalog term is shown as authoritative whatever is hovered. */
  lemma SelectionOverridesHover(k: nat, hoveredId: Option<string>)
    requires k < |FrequencyTerms|
    ensures Visualize(FrequencyTerms, Some(FrequencyTerms[k].id), hoveredId) == View(Some(FrequencyTerms[k]), false)
  {
    CatalogIsValid();
    FindByOwnId(FrequencyTerms, k);
  }

  /** With nothing selected, a hovered catalog term is shown as a preview. */
  lemma HoverShowsPreview(k: nat)
    requires k < |FrequencyTerms|
    ensures Visualize(FrequencyTerms, None, Some(FrequencyTerms[k].id)) == View(Some(FrequencyTerms[k]), true)
  {
    CatalogIsValid();
    FindByOwnId(FrequencyTerms, k);
  }

  /** JavaScript truthiness of `string | null`: null and the empty string are false. */
  predicate Truthy(s: Option<string>) {
    s.Some? && s.value != ""
  }

  /** `isSelected = selectedTermId === term.id`: strict equality, so null matches no term. */
  predicate IsSelected(selectedId: Option<string>, termId: string)
    ensures IsSelected(selectedId, termId) ==> selectedId.Some? && selectedId.value == termId
    ensures selectedId.None? ==> !IsSelected(selectedId, termId)
    ensures termId != "" && IsSelected(selectedId, termId) ==> Truthy(selectedId)
  {
    selectedId == Some(termId)
  }

  /**
    `dim = !!selectedTermId && selectedTermId !== term.id`: a button is dimmed
    exactly when some non-empty id is selected and it is not this button's.
   */
  predicate Dim(selectedId: Option<string>, termId: string)
    ensures Dim(selectedId, termId) <==> Truthy(selectedId) && !IsSelected(selectedId, termId)
  {
    Truthy(selectedId) && selectedId.value != termId
  }

  /** A button is never both selected and dimmed; with nothing selected nothing is dimmed. */
  lemma DimExcludesSelected(selectedId: Option<string>, termId: string)
    ensures Dim(selectedId, termId) ==> !IsSelected(selectedId, termId)
    ensures selectedId.None? ==> !Dim(selectedId, termId)
  {
  }

  /** Once a catalog term is selected, every other term's button is dimmed and its own is not. */
  lemma OnlySelectedTermUndimmed(k: nat, j: nat)
    requires k < |FrequencyTerms| && j < |FrequencyTerms|
    ensures Dim(Some(FrequencyTerms[k].id), FrequencyTerms[j].id) <==> j != k
    ensures IsSelected(Some(FrequencyTerms[k].id), FrequencyTerms[j].id) <==> j == k
  {
    TermIdsDistinct();
    if j < k {
      assert FrequencyTerms[j].id != FrequencyTerms[k].id;
    } else if k < j {
      assert FrequencyTerms[k].id != FrequencyTerms[j].id;
    }
  }

  // ---------------------------------------------------------------------------
  // Lanes and layout
  // ---------------------------------------------------------------------------

  /** `FREQUENCY_TERMS.filter(t => t.zone === zone)`: the terms of one lane, in catalog order. */
  function Lane(terms: seq<FrequencyTerm>, zone: Zone): (r: seq<FrequencyTerm>)
    ensures |r| <= |terms|
    ensures forall i :: 0 <= i < |r| ==> r[i].zone == zone && r[i] in terms
    ensures forall i :: 0 <= i < |terms| && terms[i].zone == zone ==> terms[i] in r
    ensures forall t :: multiset(r)[t] == (if t.zone == zone then multiset(terms)[t] else 0)
    decreases |terms|
  {
    if |terms| == 0 then []
    else
      var rest := Lane(terms[1..], zone);
      assert forall i :: 0 < i < |terms| ==> terms[i] == terms[1..][i - 1];
      assert terms == [terms[0]] + terms[1..];
      if terms[0].zone == zone then [terms[0]] + rest else rest
  }

  /**
    Filtering distributes over concatenation: the lane of `a + b` is the lane
    of `a` followed by the lane of `b`, so each lane keeps the catalog's
    order and, with the one-term case, is exactly the filtered sequence.
   */
  lemma {:induction false} LaneConcat(a: seq<FrequencyTerm>, b: seq<FrequencyTerm>, zone: Zone)
    ensures Lane(a + b, zone) == Lane(a, zone) + Lane(b, zone)
    decreases |a|
  {
    if |a| == 0 {
      assert a + b == b;
    } else {
      assert (a + b)[1..] == a[1..] + b;
      LaneConcat(a[1..], b, zone);
    }
  }

  /** The lane of a single term is that term when it belongs to the zone, and empty otherwise. */
  lemma LaneSingleton(t: FrequencyTerm, zone: Zone)
    ensures Lane([t], zone) == (if t.zone == zone then [t] else [])
  {
    assert [t][1..] == [];
  }

  /** Every term is drawn in exactly one of the three lanes. */
  lemma {:induction false} LanesPartitionTerms(terms: seq<FrequencyTerm>)
    ensures |Lane(terms, TooMuch)| + |Lane(terms, Balanced)| + |Lane(terms, TooLittle)| == |terms|
    decreases |terms|
  {
    if |terms| > 0 {
      LanesPartitionTerms(terms[1..]);
    }
  }

  /** None of the catalog's three lanes is empty. */
  lemma CatalogLanesNonEmpty(zone: Zone)
    ensures |Lane(FrequencyTerms, zone)| > 0
  {
    CatalogIsValid();
    assert HasZone(FrequencyTerms, zone);
    var i :| 0 <= i < |FrequencyTerms| && FrequencyTerms[i].zone == zone;
    assert FrequencyTerms[i] in Lane(FrequencyTerms, zone);
  }

  /** A term button's horizontal placement, in percent of the width. */
  datatype ButtonBox = ButtonBox(left: real, width: real)

  /** `TermButton`: the button starts at the term's minimum and ends at its maximum. */
  function TermButtonBox(L: LogPair, term: FrequencyTerm): (b: ButtonBox)
    requires Lawful(L)
    ensures b.left + b.width == LogPosition(L, term.maxHz)
    ensures b.left >= 0.0
    ensures FreqMin <= term.minHz < term.maxHz ==> b.width > 0.0
    ensures TermInDisplay(term) ==> b.left + b.width <= 100.0
  {
    var left := LogPosition(L, term.minHz);
    var width := LogPosition(L, term.maxHz) - left;
    LogPositionMonotone(L, Min(term.minHz, term.maxHz), term.maxHz);
    ButtonBox(left, width)
  }

  /**
    The button's left and right edges, as numbers, equal the x coordinates of
    the curve's start and end. The button applies them as CSS percentages and
    the path as SVG user units (see README, "Left out").
   */
  lemma ButtonUnderCurve(L: LogPair, term: FrequencyTerm, height: real)
    requires Lawful(L)
    ensures var b := TermButtonBox(L, term);
      var c := GetCurvePath(L, term, height);
      b.left == c.start.x && b.left + b.width == c.end.x
  {
  }

  /** The rendered width of a band strip or band label, in percent. */
  function BandWidth(L: LogPair, band: FrequencyBandDef): (w: real)
    requires Lawful(L)
    ensures band.minHz <= band.maxHz ==> w >= 0.0
    ensures FreqMin <= band.minHz < band.maxHz ==> w > 0.0
  {
    LogPositionMonotone(L, Min(band.minHz, band.maxHz), band.maxHz);
    LogPosition(L, band.maxHz) - LogPosition(L, band.minHz)
  }

  /** The total width of band strips laid side by side, as the flex row does. */
  function TotalWidth(L: LogPair, bands: seq<FrequencyBandDef>): real
    requires Lawful(L)
    decreases |bands|
  {
    if |bands| == 0 then 0.0 else BandWidth(L, bands[0]) + TotalWidth(L, bands[1..])
  }

  /** The widths of contiguous bands telescope to the span from the first minimum to the last maximum. */
  lemma {:induction false} WidthsTelescope(L: LogPair, bands: seq<FrequencyBandDef>)
    requires Lawful(L)
    requires |bands| > 0 && Contiguous(bands)
    ensures TotalWidth(L, bands) == LogPosition(L, bands[|bands| - 1].maxHz) - LogPosition(L, bands[0].minHz)
    decreases |bands|
  {
    if |bands| > 1 {
      var rest := bands[1..];
      assert forall i :: 0 < i < |rest| ==> rest[i - 1] == bands[i] && rest[i] == bands[i + 1];
      WidthsTelescope(L, rest);
      assert bands[0].maxHz == rest[0].minHz;
    }
  }

  /** Side by side, the band strips of contiguous bands start where the band labels are placed absolutely. */
  lemma FlexOffsetMatchesPosition(L: LogPair, bands: seq<FrequencyBandDef>, k: nat)
    requires Lawful(L)
    requires Contiguous(bands) && k < |bands|
    ensures TotalWidth(L, bands[..k]) == LogPosition(L, bands[k].minHz) - LogPosition(L, bands[0].minHz)
  {
    if k > 0 {
      var prefix := bands[..k];
      assert forall i :: 0 <= i < |prefix| ==> prefix[i] == bands[i];
      WidthsTelescope(L, prefix);
      assert prefix[k - 1].maxHz == bands[k].minHz;
    }
  }

  /** The catalog's band strips fill the display exactly. */
  lemma BandsFillDisplay(L: LogPair)
    requires Lawful(L)
    ensures TotalWidth(L, Bands) == 100.0
  {
    BandsAreValid();
    WidthsTelescope(L, Bands);
  }

  /** Each catalog band strip starts exactly at its band label's absolute position. */
  lemma CatalogBandOffsets(L: LogPair, k: nat)
    requires Lawful(L)
    requires k < |Bands|
    ensures TotalWidth(L, Bands[..k]) == LogPosition(L, Bands[k].minHz)
  {
    BandsAreValid();
    FlexOffsetMatchesPosition(L, Bands, k);
  }
}
