/**
 * The score JSON as the Ruby scripts (json_to_alphatex.rb,
 * json_to_ascii_tab.rb, tab_from_json.rb) read it: hashes looked up by key,
 * every integer field taken through `to_i`. An absent or null key is `None`,
 * except for a note's `fret`, whose two are told apart.
 */
module RubyScore {
  import opened Wrappers

  /**
   * A note's `fret` entry: no key at all, a key holding `null`, or an
   * integer. `note['fret']` reads the first two alike, `fetch` does not.
   */
  datatype FretEntry = NoFret | NullFret | FretNumber(number: int)
  {
    /** `note['fret']`: `nil` for a missing key and for `null` alike. */
    function Lookup(): (r: Option<int>)
      ensures r.Some? <==> FretNumber?
      ensures r.Some? ==> r.value == number
    {
      if FretNumber? then Some(number) else None
    }
  }

  /** A note: `string`, `fret`, `rest`, `tie`, `hp`, `slide`, `ghost`, `dead`. */
  datatype RNote = RNote(
    stringNum: Option<int>,
    fret: FretEntry,
    rest: bool,
    tie: bool,
    hp: bool,
    slide: Option<string>,
    ghostNote: bool,
    dead: bool)

  /** A beat: `notes`, `type`, `duration`, `dots`, `rest`, `tuplet`, `tupletStart`, `tupletStop`, `palmMute`, `letRing`. */
  datatype RBeat = RBeat(
    notes: seq<RNote>,
    durType: Option<int>,
    duration: Option<seq<int>>,
    dots: int,
    rest: bool,
    tuplet: Option<int>,
    tupletStart: bool,
    tupletStop: bool,
    palmMute: bool,
    letRing: bool)

  datatype RVoice = RVoice(rest: bool, beats: seq<RBeat>)

  /** A measure: `signature` (an array, when present), `voices` and `marker.text`. */
  datatype RMeasure = RMeasure(signature: Option<seq<int>>, voices: seq<RVoice>, marker: Option<string>)

  /** An entry of `automations.tempo`. */
  datatype RTempo = RTempo(measure: Option<int>, position: Option<int>, bpm: Option<int>)

  /**
   * The top-level hash: `name`, `instrument`, `tuning` (entries that are
   * not numbers are `None`), `measures` (absent reads as empty) and the
   * tempo automations.
   */
  datatype RScore = RScore(
    name: Option<string>,
    instrument: Option<string>,
    tuning: Option<seq<Option<int>>>,
    measures: seq<RMeasure>,
    tempo: seq<RTempo>)

  /** The first voice of a measure, or none. */
  function FirstVoice(m: RMeasure): Option<RVoice>
  {
    if |m.voices| > 0 then Some(m.voices[0]) else None
  }

  /** The beats of the first voice (`voice['beats'] || []`). */
  function FirstVoiceBeats(m: RMeasure): seq<RBeat>
  {
    if |m.voices| > 0 then m.voices[0].beats else []
  }
}
