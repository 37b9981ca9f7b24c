/**
 * Text helpers shared by the three JavaScript alphaTex formatters
 * (docs/jsonToAlphaText.js, jsonToAlphaText.ts, public/jsonToAlphaText.js):
 * string escaping, tuning names, the tempo map and signature validation.
 */
module AlphaText {
  import opened Wrappers
  import opened Text
  import opened Score

  // ---------------------------------------------------------------------------
  // escapeText

  /** `value.replace(/c/g, r)`: every occurrence of `c` replaced by `r`. */
  function ReplaceAll(s: string, c: char, r: string): string
  {
    if s == [] then [] else (if s[0] == c then r else [s[0]]) + ReplaceAll(s[1..], c, r)
  }

  /** `escapeText`: backslashes are doubled first, then quotes are escaped. */
  function EscapeText(s: string): string
  {
    ReplaceAll(ReplaceAll(s, '\\', "\\\\"), '"', "\\\"")
  }

  /** The escape of one character on its own. */
  function EscapeChar(c: char): string
  {
    if c == '\\' then "\\\\" else if c == '"' then "\\\"" else [c]
  }

  /** Escaping character by character, in one pass. */
  function EscapeEach(s: string): string
  {
    if s == [] then [] else EscapeChar(s[0]) + EscapeEach(s[1..])
  }

  /** Reading an escaped string back: a backslash takes the next character literally. */
  function Unescape(s: string): string
  {
    if s == [] then []
    else if s[0] == '\\' && |s| >= 2 then [s[1]] + Unescape(s[2..])
    else [s[0]] + Unescape(s[1..])
  }

  lemma {:induction false} ReplaceAllAppend(a: string, b: string, c: char, r: string)
    ensures ReplaceAll(a + b, c, r) == ReplaceAll(a, c, r) + ReplaceAll(b, c, r)
  {
    if a == [] {
      assert a + b == b;
    } else {
      assert (a + b)[1..] == a[1..] + b;
      ReplaceAllAppend(a[1..], b, c, r);
    }
  }

  /**
   * The two passes of `escapeText` escape each character exactly once: the
   * backslashes added by the second pass are never doubled.
   */
  lemma {:induction false} EscapeTextIsOnePass(s: string)
    ensures EscapeText(s) == EscapeEach(s)
  {
    if s != [] {
      EscapeTextIsOnePass(s[1..]);
      var first := ReplaceAll([s[0]], '\\', "\\\\");
      assert [s[0]] + s[1..] == s;
      ReplaceAllAppend([s[0]], s[1..], '\\', "\\\\");
      ReplaceAllAppend(first, ReplaceAll(s[1..], '\\', "\\\\"), '"', "\\\"");
      assert ReplaceAll([s[0]], '\\', "\\\\") == (if s[0] == '\\' then "\\\\" else [s[0]]);
      if s[0] == '\\' {
        assert ReplaceAll("\\\\", '"', "\\\"") == "\\\\";
      } else {
        assert ReplaceAll([s[0]], '"', "\\\"") == EscapeChar(s[0]);
      }
    }
  }

  /** An escaped string reads back as the original. */
  lemma {:induction false} EscapeTextRoundTrip(s: string)
    ensures Unescape(EscapeText(s)) == s
  {
    EscapeTextIsOnePass(s);
    UnescapeEscapeEach(s);
  }

  lemma {:induction false} UnescapeEscapeEach(s: string)
    ensures Unescape(EscapeEach(s)) == s
  {
    if s != [] {
      UnescapeEscapeEach(s[1..]);
      var e := EscapeEach(s);
      assert e == EscapeChar(s[0]) + EscapeEach(s[1..]);
      if s[0] == '\\' || s[0] == '"' {
        assert e[2..] == EscapeEach(s[1..]);
      } else {
        assert e[1..] == EscapeEach(s[1..]);
      }
    }
  }

  /** No quote of the output is bare: each one is preceded by a backslash. */
  lemma {:induction false} EscapedQuotesArePrefixed(s: string, i: nat)
    requires i < |EscapeEach(s)| && EscapeEach(s)[i] == '"'
    ensures i > 0 && EscapeEach(s)[i - 1] == '\\'
  {
    var e := EscapeEach(s);
    var head := EscapeChar(s[0]);
    assert e == head + EscapeEach(s[1..]);
    if i >= |head| {
      EscapedQuotesArePrefixed(s[1..], i - |head|);
      if i - |head| > 0 {
        assert e[i - 1] == EscapeEach(s[1..])[i - |head| - 1];
      } else {
        assert false;
      }
    }
  }

  // ---------------------------------------------------------------------------
  // midiToNote and formatTuning

  /** The note names, indexed by pitch class. */
  const Names: seq<string> := ["C", "C#", "D", "D#", "E", "F", "F#", "G", "G#", "A", "A#", "B"]

  /** JavaScript's `%`: the remainder takes the sign of the dividend. */
  function JsRem(a: int, b: int): (r: int)
    requires b > 0
    ensures -b < r < b
    ensures a >= 0 ==> r == a % b
  {
    if a >= 0 then a % b else -((-a) % b)
  }

  /**
   * `midiToNote`: the name at `midi % 12` (JavaScript remainder, so a
   * negative pitch that is not a multiple of 12 reads `undefined`) followed
   * by the octave `floor(midi / 12) - 1`.
   */
  function MidiToNote(midi: Option<int>): (r: Result<string>)
    ensures r.Err? <==> midi.None?
  {
    if midi.None? then Err("Invalid MIDI value in tuning")
    else
      var m := midi.value;
      var rem := JsRem(m, 12);
      var name := if rem >= 0 then Names[rem] else "undefined";
      Ok(name + IntToString(m / 12 - 1))
  }

  /** The pitch class of a note name. */
  function PitchClass(name: string): Option<int>
  {
    if name == "C" then Some(0) else if name == "C#" then Some(1) else if name == "D" then Some(2)
    else if name == "D#" then Some(3) else if name == "E" then Some(4) else if name == "F" then Some(5)
    else if name == "F#" then Some(6) else if name == "G" then Some(7) else if name == "G#" then Some(8)
    else if name == "A" then Some(9) else if name == "A#" then Some(10) else if name == "B" then Some(11)
    else None
  }

  /** Reading a note such as `E4` or `C#-1` back as a MIDI pitch. */
  function NoteToMidi(s: string): Option<int>
  {
    var nameLen := if |s| >= 2 && s[1] == '#' then 2 else 1;
    if |s| < nameLen then None
    else
      match (PitchClass(s[..nameLen]), ParseInt(s[nameLen..]))
        case (Some(p), Some(octave)) => Some(12 * (octave + 1) + p)
        case _ => None
  }

  /** The names read back as their pitch classes; the sharps are exactly the two-character names. */
  lemma NamesReadBack(k: int)
    requires 0 <= k < 12
    ensures PitchClass(Names[k]) == Some(k)
    ensures 1 <= |Names[k]| <= 2 && Names[k][0] != '#' && (|Names[k]| == 2 ==> Names[k][1] == '#')
  {
    var n := Names[k];
    if k == 0 { assert n == "C"; }
    else if k == 1 { assert n == "C#"; }
    else if k == 2 { assert n == "D"; }
    else if k == 3 { assert n == "D#"; }
    else if k == 4 { assert n == "E"; }
    else if k == 5 { assert n == "F"; }
    else if k == 6 { assert n == "F#"; }
    else if k == 7 { assert n == "G"; }
    else if k == 8 { assert n == "G#"; }
    else if k == 9 { assert n == "A"; }
    else if k == 10 { assert n == "A#"; }
    else { assert n == "B"; }
  }

  /** The octave never starts with `#`, so a name and an octave split apart again. */
  lemma SplitNote(name: string, octave: int)
    requires 1 <= |name| <= 2 && name[0] != '#' && (|name| == 2 ==> name[1] == '#')
    ensures var s := name + IntToString(octave);
      var nameLen := if |s| >= 2 && s[1] == '#' then 2 else 1;
      nameLen == |name| && s[..nameLen] == name && s[nameLen..] == IntToString(octave)
  {
    var t := IntToString(octave);
    var s := name + t;
    assert t[0] != '#' by {
      if octave >= 0 {
        assert t == NatToString(octave);
        assert IsDigit(t[0]);
      }
    }
    if |name| == 1 {
      assert s[1] == t[0];
    }
  }

  /** A name followed by an octave reads back as that pitch. */
  lemma NoteToMidiOf(pc: int, octave: int)
    requires 0 <= pc < 12
    ensures NoteToMidi(Names[pc] + IntToString(octave)) == Some(12 * (octave + 1) + pc)
  {
    NamesReadBack(pc);
    SplitNote(Names[pc], octave);
    IntToStringRoundTrip(octave);
  }

  /** Every pitch that names a real note reads back as itself. */
  lemma MidiToNoteRoundTrip(m: int)
    requires m >= 0 || m % 12 == 0
    ensures NoteToMidi(MidiToNote(Some(m)).value) == Some(m)
  {
    MidiToNoteName(m);
    NoteToMidiOf(m % 12, m / 12 - 1);
    assert 12 * (m / 12 - 1 + 1) + m % 12 == m;
  }

  /**
   * The name is that of pitch class `midi mod 12`, except that a negative
   * pitch off the octave grid gets the name `undefined`, as JavaScript reads
   * `names[-k]`.
   */
  lemma MidiToNoteName(m: int)
    ensures m >= 0 || m % 12 == 0 ==> MidiToNote(Some(m)).value == Names[m % 12] + IntToString(m / 12 - 1)
    ensures m < 0 && m % 12 != 0 ==> MidiToNote(Some(m)).value == "undefined" + IntToString(m / 12 - 1)
  {
    if m < 0 {
      NegativeRemainder(m);
    }
  }

  lemma NegativeRemainder(m: int)
    requires m < 0
    ensures (m % 12 == 0) <==> ((-m) % 12 == 0)
  {
    var q, r := (-m) / 12, (-m) % 12;
    assert -m == 12 * q + r;
    if r == 0 {
      assert m == 12 * (-q) + 0;
    } else {
      assert m == 12 * (-q - 1) + (12 - r);
    }
  }

  /** `DEFAULT_TUNING`: standard guitar tuning, high string first. */
  const DefaultTuning: seq<Option<int>> := [Some(64), Some(59), Some(55), Some(50), Some(45), Some(40)]

  /** `resolved.map(midiToNote)`: the first failure, or all names. */
  function NoteNames(ms: seq<Option<int>>): (r: Result<seq<string>>)
    ensures r.Ok? <==> forall i :: 0 <= i < |ms| ==> ms[i].Some?
    ensures r.Ok? ==> |r.value| == |ms| && forall i :: 0 <= i < |ms| ==> r.value[i] == MidiToNote(ms[i]).value
  {
    if ms == [] then Ok([])
    else
      match MidiToNote(ms[0])
        case Err(e) => Err(e)
        case Ok(name) =>
          match NoteNames(ms[1..])
            case Err(e) => Err(e)
            case Ok(rest) =>
              assert forall i :: 0 < i < |ms| ==> ms[i] == ms[1..][i - 1];
              Ok([name] + rest)
  }

  /** `formatTuning`: a six-entry array is used as given, anything else falls back to the default tuning. */
  function FormatTuning(tuning: Option<seq<Option<int>>>): (r: Result<string>)
    ensures tuning.None? || |tuning.value| != 6 ==> r.Ok?
    ensures tuning.Some? && |tuning.value| == 6 ==>
      (r.Ok? <==> forall i :: 0 <= i < 6 ==> tuning.value[i].Some?)
  {
    var resolved := if tuning.Some? && |tuning.value| == 6 then tuning.value else DefaultTuning;
    match NoteNames(resolved)
      case Err(e) => Err(e)
      case Ok(names) => Ok(Join(names, " "))
  }

  // ---------------------------------------------------------------------------
  // buildTempoMap

  /** An entry `buildTempoMap` takes: an object with an integer measure, position 0 or absent, a finite bpm. */
  predicate Eligible(e: TempoEntry)
  {
    e.isObject && e.measure.Some? && (e.position.None? || e.position == Some(Some(0))) && e.bpm.Some?
  }

  /** The map after the first `|es|` entries: each measure keeps the bpm of its first eligible entry. */
  function TempoMapOf(es: seq<TempoEntry>): map<int, string>
  {
    if es == [] then map[]
    else
      var m := TempoMapOf(es[..|es| - 1]);
      var e := es[|es| - 1];
      if Eligible(e) && e.measure.value !in m then m[e.measure.value := e.bpm.value] else m
  }

  /** `buildTempoMap`. */
  method BuildTempoMap(tempo: Option<seq<TempoEntry>>) returns (m: map<int, string>)
    ensures tempo.None? ==> m == map[]
    ensures tempo.Some? ==> m == TempoMapOf(tempo.value)
  {
    m := map[];
    if tempo.None? {
      return;
    }
    var es := tempo.value;
    for i := 0 to |es|
      invariant m == TempoMapOf(es[..i])
    {
      assert es[..i + 1][..i] == es[..i];
      var e := es[i];
      if !e.isObject || e.measure.None? {
        continue;
      }
      if !(e.position.None? || e.position == Some(Some(0))) {
        continue;
      }
      if e.bpm.None? {
        continue;
      }
      if e.measure.value !in m {
        m := m[e.measure.value := e.bpm.value];
      }
    }
    assert es[..|es|] == es;
  }

  /**
   * A measure is in the tempo map exactly when some entry for it is
   * eligible, and its bpm is that of the first such entry.
   */
  lemma {:induction false} TempoMapFirstWins(es: seq<TempoEntry>, k: int)
    ensures k in TempoMapOf(es) <==> exists i :: 0 <= i < |es| && Eligible(es[i]) && es[i].measure.value == k
    ensures k in TempoMapOf(es) ==>
      exists i :: 0 <= i < |es| && Eligible(es[i]) && es[i].measure.value == k && TempoMapOf(es)[k] == es[i].bpm.value
        && forall j :: 0 <= j < i ==> !(Eligible(es[j]) && es[j].measure.value == k)
  {
    if es != [] {
      var init := es[..|es| - 1];
      TempoMapFirstWins(init, k);
      assert forall i :: 0 <= i < |init| ==> init[i] == es[i];
      var e := es[|es| - 1];
      if k in TempoMapOf(init) {
        var i :| 0 <= i < |init| && Eligible(init[i]) && init[i].measure.value == k && TempoMapOf(init)[k] == init[i].bpm.value
          && forall j :: 0 <= j < i ==> !(Eligible(init[j]) && init[j].measure.value == k);
        assert es[i] == init[i];
      } else if Eligible(e) && e.measure.value == k {
        assert TempoMapOf(es)[k] == e.bpm.value;
      }
    }
  }

  // ---------------------------------------------------------------------------
  // validateSignature

  /** `validateSignature`: two positive integers, else an error naming the measure. */
  function ValidateSignature(sig: (Option<int>, Option<int>)): (r: Result<(nat, nat)>)
    ensures r.Ok? <==> sig.0.Some? && sig.1.Some? && sig.0.value > 0 && sig.1.value > 0
    ensures r.Ok? ==> r.value.0 == sig.0.value && r.value.1 == sig.1.value && r.value.0 > 0 && r.value.1 > 0
  {
    if sig.0.Some? && sig.1.Some? && sig.0.value > 0 && sig.1.value > 0 then Ok((sig.0.value, sig.1.value))
    else Err("Invalid time signature")
  }
}
