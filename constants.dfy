/**
  The static catalog drawn by the visualizer: the display bounds, the
  background bands and the mixing terms, with the validity predicate the
  visualizer relies on.
 */
module Constants {
  import opened Types

  /** The display bounds of the logarithmic axis, in Hz. */
  const FreqMin: real := 20.0
  const FreqMax: real := 20000.0

  const Bands: seq<FrequencyBandDef> := [
    FrequencyBandDef(SubBass, 20.0, 60.0, "bg-cyan-500"),
    FrequencyBandDef(Bass, 60.0, 250.0, "bg-cyan-400"),
    FrequencyBandDef(LowMids, 250.0, 500.0, "bg-cyan-300"),
    FrequencyBandDef(Mids, 500.0, 2000.0, "bg-cyan-200"),
    FrequencyBandDef(UpperMids, 2000.0, 4000.0, "bg-cyan-100"),
    FrequencyBandDef(Highs, 4000.0, 20000.0, "bg-cyan-50")
  ]

  const FrequencyTerms: seq<FrequencyTerm> := [
    FrequencyTerm("rumble", "Rumble", TooMuch, 20.0, 60.0, "Low frequency noise, often from HVAC or handling noise."),
    FrequencyTerm("boomy", "Boomy", TooMuch, 80.0, 200.0, "Overwhelming low-end resonance that lacks definition."),
    FrequencyTerm("muddy", "Muddy", TooMuch, 200.0, 400.0, "Lack of clarity due to congestion in the low-mids."),
    FrequencyTerm("boxy", "Boxy", TooMuch, 300.0, 600.0, "Sounds like the audio is trapped in a small cardboard box."),
    FrequencyTerm("honky", "Honky/Nasaly", TooMuch, 600.0, 1200.0, "Resonant, nasal quality often found in vocals or cheap microphones."),
    FrequencyTerm("tinny", "Tinny", TooMuch, 1000.0, 2000.0, "Thin, metallic sound lacking body."),
    FrequencyTerm("too_much_char", "Too Much Character", TooMuch, 1500.0, 3000.0, "Over-aggressive midrange presence."),
    FrequencyTerm("harsh", "Harsh", TooMuch, 2000.0, 5000.0, "Painful, grating frequencies that cause ear fatigue."),
    FrequencyTerm("sibilance", "Sibilance", TooMuch, 4000.0, 8000.0, "Sharp \"S\" and \"T\" sounds in vocals."),
    FrequencyTerm("too_far_forward", "Too Far Forward", TooMuch, 3000.0, 6000.0, "The sound sits uncomfortably close to the listener."),
    FrequencyTerm("piercing", "Piercing", TooMuch, 8000.0, 12000.0, "Sharp high frequencies that hurt the ears."),
    FrequencyTerm("brittle", "Brittle", TooMuch, 10000.0, 20000.0, "Fragile, breaking-glass quality in the high end."),
    FrequencyTerm("bottom", "Bottom", Balanced, 20.0, 100.0, "Solid foundation and weight in the low end."),
    FrequencyTerm("punch", "Punch", Balanced, 100.0, 200.0, "Impact and physical feeling of the sound."),
    FrequencyTerm("warm", "Warm", Balanced, 200.0, 500.0, "Pleasant richness and fullness."),
    FrequencyTerm("clear", "Clear", Balanced, 250.0, 600.0, "Lack of mud, allowing the sound to be heard distinctly."),
    FrequencyTerm("full", "Full", Balanced, 400.0, 800.0, "Complete representation of the sound's body."),
    FrequencyTerm("edge", "Edge", Balanced, 1500.0, 3000.0, "Attitude and bite that helps cut through a mix."),
    FrequencyTerm("definition", "Definition", Balanced, 2000.0, 5000.0, "The ability to distinguish the specific character of a sound."),
    FrequencyTerm("present", "Present", Balanced, 3000.0, 6000.0, "Closeness and intimacy."),
    FrequencyTerm("bright", "Bright", Balanced, 6000.0, 16000.0, "Lively high-end energy."),
    FrequencyTerm("air", "Air", Balanced, 10000.0, 20000.0, "Openness and space at the very top of the spectrum."),
    FrequencyTerm("weak", "Weak", TooLittle, 20.0, 80.0, "Lacking power and foundation."),
    FrequencyTerm("thin", "Thin", TooLittle, 80.0, 300.0, "Lacking body and weight."),
    FrequencyTerm("hollow", "Hollow", TooLittle, 300.0, 1000.0, "Empty sounding, like a scooped midrange."),
    FrequencyTerm("distant", "Distant", TooLittle, 2000.0, 5000.0, "Sounds far away or veiled."),
    FrequencyTerm("not_enough_char", "Not Enough Character", TooLittle, 3000.0, 6000.0, "Bland and uninteresting."),
    FrequencyTerm("dark", "Dark", TooLittle, 6000.0, 15000.0, "Muffled, lacking high-end frequencies."),
    FrequencyTerm("dull", "Dull", TooLittle, 10000.0, 20000.0, "Lifeless and flat.")
  ]

  /** Each band's maximum is the next band's minimum: no gap and no overlap. */
  predicate Contiguous(bands: seq<FrequencyBandDef>) {
    forall i :: 0 < i < |bands| ==> bands[i - 1].maxHz == bands[i].minHz
  }

  /** The bands are non-empty, ordered and contiguous, and cover exactly [FreqMin, FreqMax]. */
  predicate BandsTileDisplay(bands: seq<FrequencyBandDef>) {
    && |bands| > 0
    && bands[0].minHz == FreqMin
    && bands[|bands| - 1].maxHz == FreqMax
    && (forall i :: 0 <= i < |bands| ==> bands[i].minHz < bands[i].maxHz)
    && Contiguous(bands)
  }

  /** Band labels serve as the rendering keys of the band strips, so they must differ. */
  predicate DistinctBandLabels(bands: seq<FrequencyBandDef>) {
    forall i, j :: 0 <= i < j < |bands| ==> bands[i].band != bands[j].band
  }

  /** A term's range is well formed and lies inside the display bounds. */
  predicate TermInDisplay(t: FrequencyTerm) {
    FreqMin <= t.minHz < t.maxHz <= FreqMax
  }

  /** Term ids are the lookup keys of the selection, so they must differ. */
  predicate DistinctIds(terms: seq<FrequencyTerm>) {
    forall i, j :: 0 <= i < j < |terms| ==> terms[i].id != terms[j].id
  }

  /** Some term of the catalog belongs to zone `z`, so that zone's lane is not empty. */
  predicate HasZone(terms: seq<FrequencyTerm>, z: Zone) {
    exists i :: 0 <= i < |terms| && terms[i].zone == z
  }

  /** Everything the visualizer assumes about the catalog it draws. */
  predicate ValidCatalog(bands: seq<FrequencyBandDef>, terms: seq<FrequencyTerm>) {
    && 0.0 < FreqMin < FreqMax
    && BandsTileDisplay(bands)
    && DistinctBandLabels(bands)
    && (forall i :: 0 <= i < |terms| ==> TermInDisplay(terms[i]) && terms[i].id != "")
    && DistinctIds(terms)
    && HasZone(terms, TooMuch) && HasZone(terms, Balanced) && HasZone(terms, TooLittle)
  }

  /** Length, first and last character of a non-empty id: a cheap fingerprint for telling ids apart. */
  function IdFingerprint(id: string): (int, char, char)
    requires |id| > 0
  {
    (|id|, id[0], id[|id| - 1])
  }

  /** No two catalog terms share an id, and no id is empty. */
  lemma TermIdsDistinct()
    ensures DistinctIds(FrequencyTerms)
    ensures forall i :: 0 <= i < |FrequencyTerms| ==> FrequencyTerms[i].id != ""
  {
    assert forall i :: 0 <= i < |FrequencyTerms| ==> |FrequencyTerms[i].id| > 0;
    assert forall i, j :: 0 <= i < j < |FrequencyTerms| ==>
      IdFingerprint(FrequencyTerms[i].id) != IdFingerprint(FrequencyTerms[j].id);
  }

  /** The six bands tile [20 Hz, 20 kHz] without gaps, and their labels differ. */
  lemma BandsAreValid()
    ensures BandsTileDisplay(Bands) && DistinctBandLabels(Bands)
  {
  }

  /** Every term range is well formed and inside the display bounds. */
  lemma TermRangesAreValid()
    ensures forall i :: 0 <= i < |FrequencyTerms| ==> TermInDisplay(FrequencyTerms[i])
  {
  }

  /** The literal catalog satisfies the validity predicate. */
  lemma CatalogIsValid()
    ensures ValidCatalog(Bands, FrequencyTerms)
  {
    BandsAreValid();
    TermRangesAreValid();
    TermIdsDistinct();
    assert FrequencyTerms[0].zone == TooMuch;
    assert FrequencyTerms[12].zone == Balanced;
    assert FrequencyTerms[22].zone == TooLittle;
  }
}
