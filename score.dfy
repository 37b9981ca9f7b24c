/**
 * The score JSON the formatters read, as the JavaScript formatters see it.
 * A JSON number the code tests with `Number.isInteger` is an `Option<int>`:
 * `Some(k)` for an integer `k`, `None` for anything else (absent, `null`,
 * fractional, not a number). Flags are their truthiness. Absent arrays are
 * empty, absent strings are empty.
 */
module Score {
  import opened Wrappers

  datatype Note = Note(
    stringIndex: Option<int>,
    fret: Option<int>,
    rest: bool,
    tie: bool,
    hp: bool,
    ghostNote: bool,
    dead: bool)

  /**
   * A beat. `duration` is `None` when the field is absent, else the array's
   * entries; `dots` is `beat.dots ?? 0`; `tuplet` is `None` when absent, kept
   * apart from an explicit 0 because the fingerprint copies the field as is.
   */
  datatype Beat = Beat(
    notes: seq<Note>,
    duration: Option<seq<Option<int>>>,
    dots: int,
    rest: bool,
    tuplet: Option<int>,
    tupletStart: bool,
    tupletStop: bool,
    palmMute: bool,
    letRing: bool)

  datatype Voice = Voice(rest: bool, beats: seq<Beat>)

  /** A measure; `markerText` is `measure.marker?.text ?? ''`. */
  datatype Measure = Measure(
    signature: Option<(Option<int>, Option<int>)>,
    voices: seq<Voice>,
    markerText: string)

  /**
   * An entry of `automations.tempo`. `position` is `None` when absent or
   * `null`, `Some(None)` for a value that is not an integer. `bpm` is the
   * printed form of a finite number, `None` for anything else.
   */
  datatype TempoEntry = TempoEntry(
    isObject: bool,
    measure: Option<int>,
    position: Option<Option<int>>,
    bpm: Option<string>)

  /** The whole score; `measures` is `None` when the field is not an array. */
  datatype Score = Score(
    name: string,
    instrument: string,
    tuning: Option<seq<Option<int>>>,
    tempo: Option<seq<TempoEntry>>,
    measures: Option<seq<Measure>>)

  /** `beat.tuplet` where the code tests its truthiness: absent and 0 both read as no tuplet. */
  function TupletOf(b: Beat): int
  {
    if b.tuplet.Some? then b.tuplet.value else 0
  }

  /** `{ rest: true, duration: [1, den] }`. */
  function RestBeat(den: int): (b: Beat)
    ensures b.rest && b.duration == Some([Some(1), Some(den)]) && b.notes == []
  {
    Beat([], Some([Some(1), Some(den)]), 0, true, None, false, false, false, false)
  }
}
