/** The catalog's record types: a mixing term and a background band. */
module Types {

  /** The qualitative zone of a term: too much of a range, balanced, or too little. */
  datatype Zone = TooMuch | Balanced | TooLittle

  /** The coarse spectrum bands drawn behind the lanes. */
  datatype Band = SubBass | Bass | LowMids | Mids | UpperMids | Highs

  /** A colloquial mixing term tied to the frequency range [minHz, maxHz]. */
  datatype FrequencyTerm = FrequencyTerm(
    id: string,
    name: string,        // the source's `label` (a reserved word in Dafny)
    zone: Zone,
    minHz: real,
    maxHz: real,
    description: string)

  /** A labelled band covering [minHz, maxHz]; `color` is a style class name. */
  datatype FrequencyBandDef = FrequencyBandDef(
    band: Band,          // the source's `label`
    minHz: real,
    maxHz: real,
    color: string)
}
