/**
 * json_to_alphatex.rb: the Ruby converter from the score JSON to AlphaTex.
 * It folds repeated measures with the greedy detector of `RubyRepeats`,
 * merges tied single-note beats, writes a duration token only when the
 * duration changes, and carries the time signature and tempo marks on each
 * measure line.
 */
module RubyAlphaTex {
  import opened Wrappers
  import opened Text
  import opened Fractions
  import opened RubyScore
  import RubyRepeats
  import Windows
  import AlphaText

  // ---------------------------------------------------------------------------
  // AlphaTexUtil

  /**
   * `midi_to_note_name`: the name at `m % 12` and the octave `m / 12 - 1`,
   * both floored as Ruby does, so every integer pitch reads back as itself.
   */
  function MidiToNoteName(m: int): (r: string)
    ensures AlphaText.NoteToMidi(r) == Some(m)
  {
    AlphaText.NoteToMidiOf(m % 12, m / 12 - 1);
    assert 12 * (m / 12 - 1 + 1) + m % 12 == m;
    AlphaText.Names[m % 12] + IntToString(m / 12 - 1)
  }

  /** `escape`: every `"` becomes `\"`; nothing else changes (backslashes included). */
  function Escape(s: string): (r: string)
    ensures |r| > 0 ==> r[0] != '"'
    ensures UnescapeQuotes(r) == s
  {
    if s == [] then []
    else
      var rest := Escape(s[1..]);
      if s[0] == '"' then
        assert ("\\\"" + rest)[2..] == rest;
        "\\\"" + rest
      else
        assert ([s[0]] + rest)[1..] == rest;
        [s[0]] + rest
  }

  /** Reading `\"` as `"` and every other character as itself. */
  function UnescapeQuotes(s: string): string
  {
    if |s| >= 2 && s[0] == '\\' && s[1] == '"' then "\"" + UnescapeQuotes(s[2..])
    else if s == [] then []
    else [s[0]] + UnescapeQuotes(s[1..])
  }

  /**
   * `rational_from_fraction`: 0 for a missing or empty array, otherwise
   * `Rational(arr[0], arr[1])`, a missing second entry reading as 0.
   */
  function RationalFromFraction(arr: Option<seq<int>>): (r: Result<Frac>)
    ensures r.Ok? <==> arr.None? || arr.value == [] || (|arr.value| >= 2 && arr.value[1] != 0)
    ensures r.Ok? ==> r.value.d > 0
    ensures r.Ok? && arr.Some? && arr.value != [] ==> SameValue(r.value, Frac(arr.value[0], arr.value[1]))
    ensures r.Ok? && (arr.None? || arr.value == []) ==> r.value == Frac(0, 1)
  {
    if arr.None? || arr.value == [] then Ok(Frac(0, 1))
    else RubyRational(arr.value[0], if |arr.value| >= 2 then arr.value[1] else 0)
  }

  /** Ruby's integer `/`: rounds toward negative infinity. */
  function FloorDiv(a: int, b: int): (q: int)
    requires b != 0
    ensures b > 0 ==> b * q <= a < b * q + b
    ensures b < 0 ==> b * q >= a > b * q + b
  {
    if b > 0 then a / b else (-a) / (-b)
  }

  /**
   * `duration_denominator`: `type` when present; otherwise `den / num` of a
   * two-entry duration with a non-zero numerator (floored); otherwise none.
   */
  function DurationDenominator(b: RBeat): (r: Option<int>)
    ensures b.durType.Some? ==> r == b.durType
    ensures b.durType.None? ==> (r.Some? <==> b.duration.Some? && |b.duration.value| == 2 && b.duration.value[0] != 0)
    ensures b.durType.None? && r.Some? && b.duration.value[0] > 0 ==>
      b.duration.value[0] * r.value <= b.duration.value[1] < b.duration.value[0] * (r.value + 1)
  {
    if b.durType.Some? then b.durType
    else if b.duration.Some? && |b.duration.value| == 2 && b.duration.value[0] != 0 then
      Some(FloorDiv(b.duration.value[1], b.duration.value[0]))
    else None
  }

  /** A duration `[1, d]` with `d > 0` and no `type` prints as `d`: the note value of a plain `1/d` duration. */
  lemma UnitFractionDenominator(b: RBeat, d: int)
    requires b.durType.None? && d > 0 && b.duration == Some([1, d])
    ensures DurationDenominator(b) == Some(d)
  {
  }

  // ---------------------------------------------------------------------------
  // Notes

  /** The string number as printed: `string + 1`. */
  function StringText(n: RNote): Option<string>
  {
    if n.stringNum.Some? then Some(IntToString(n.stringNum.value + 1)) else None
  }

  /** The note's value before the string: `x` when dead, else the fret, else `0`. */
  function NoteValueText(n: RNote): string
  {
    if n.dead then "x" else if n.fret.FretNumber? then IntToString(n.fret.number) else "0"
  }

  /** The note's value and string, `value.string` or `value` alone. */
  function NoteBase(n: RNote): string
  {
    var v := NoteValueText(n);
    if StringText(n).Some? then v + "." + StringText(n).value else v
  }

  /** `[name]` when the flag is set, else nothing. */
  function Flag(on: bool, name: string): seq<string>
  {
    if on then [name] else []
  }

  /** The property tokens of a note, in the order the source appends them. */
  function NoteProps(n: RNote, palmMute: bool, letRing: bool): seq<string>
  {
    Flag(n.ghostNote, "g") + Flag(n.dead, "x") + Flag(n.tie, "t") + Flag(n.hp, "h")
    + Flag(n.slide == Some("shift"), "ss") + Flag(palmMute, "pm") + Flag(letRing, "lr")
  }

  /** `base` or `base { props }`. */
  function WithProps(base: string, props: seq<string>): string
  {
    if props == [] then base else base + " { " + Join(props, " ") + " }"
  }

  /** `format_note`: none for a rest; `-` or `-.s` for a tie; otherwise the base and its properties. */
  function FormatNote(n: RNote, palmMute: bool, letRing: bool): (r: Option<string>)
    ensures r.None? <==> n.rest
  {
    if n.rest then None
    else if n.tie then Some(if StringText(n).Some? then "-." + StringText(n).value else "-")
    else Some(WithProps(NoteBase(n), NoteProps(n, palmMute, letRing)))
  }

  /** What a note base stands for: a dead note or a fret. */
  datatype NoteValue = DeadNote | FretValue(fret: int)

  /** Reading a note value back: `x` or a fret. */
  function ReadValue(v: string): Option<NoteValue>
  {
    if v == "x" then Some(DeadNote) else if ParseInt(v).Some? then Some(FretValue(ParseInt(v).value)) else None
  }

  /** Reading a note base back: the part before the first `.` is the value; the part after it, less one, the string. */
  function ReadNoteBase(s: string): Option<(NoteValue, Option<int>)>
  {
    var dot := FirstDot(s, 0);
    var value := ReadValue(s[..dot]);
    if value.None? then None
    else if dot == |s| then Some((value.value, None))
    else match ParseInt(s[dot + 1..])
      case Some(k) => Some((value.value, Some(k - 1)))
      case None => None
  }

  /** The index of the first `.` at or after `i`, or `|s|`. */
  function FirstDot(s: string, i: nat): (r: nat)
    requires i <= |s|
    ensures i <= r <= |s| && (r < |s| ==> s[r] == '.')
    ensures forall k :: i <= k < r ==> s[k] != '.'
    decreases |s| - i
  {
    if i == |s| then i else if s[i] == '.' then i else FirstDot(s, i + 1)
  }

  /** A rendered integer holds no `.` and is not `x`. */
  lemma IntTextHasNoDot(k: int)
    ensures forall j :: 0 <= j < |IntToString(k)| ==> IntToString(k)[j] != '.'
    ensures IntToString(k) != "x"
  {
    var s := IntToString(k);
    if k < 0 {
      assert s == "-" + NatToString(-k);
      forall j | 1 <= j < |s| ensures s[j] != '.' {
        assert s[j] == NatToString(-k)[j - 1];
      }
    }
  }

  /** The first `.` of `v + "." + t`, when `v` has none, is right after `v`. */
  lemma FirstDotAfter(v: string, t: string)
    requires forall j :: 0 <= j < |v| ==> v[j] != '.'
    ensures FirstDot(v + "." + t, 0) == |v|
  {
    var s := v + "." + t;
    assert s[|v|] == '.';
    assert forall k :: 0 <= k < |v| ==> s[k] == v[k];
  }

  /**
   * A note base reads back as the note: dead or its fret (0 when the fret
   * is missing), and its string.
   */
  lemma NoteBaseReadsBack(n: RNote)
    ensures ReadNoteBase(NoteBase(n)) == Some((if n.dead then DeadNote else FretValue(if n.fret.FretNumber? then n.fret.number else 0), n.stringNum))
  {
    var v := NoteValueText(n);
    ValueTextReadsBack(n);
    if n.stringNum.Some? {
      var t := IntToString(n.stringNum.value + 1);
      FirstDotAfter(v, t);
      var s := v + "." + t;
      assert NoteBase(n) == s;
      assert s[..|v|] == v && s[|v| + 1..] == t;
      IntToStringRoundTrip(n.stringNum.value + 1);
    } else {
      assert NoteBase(n) == v;
      assert FirstDot(v, 0) == |v|;
      assert v[..|v|] == v;
    }
  }

  /** The value text holds no `.` and reads back as the value. */
  lemma ValueTextReadsBack(n: RNote)
    ensures forall j :: 0 <= j < |NoteValueText(n)| ==> NoteValueText(n)[j] != '.'
    ensures ReadValue(NoteValueText(n)) == Some(if n.dead then DeadNote else FretValue(if n.fret.FretNumber? then n.fret.number else 0))
  {
    if !n.dead {
      var f := if n.fret.FretNumber? then n.fret.number else 0;
      assert NoteValueText(n) == IntToString(f);
      IntTextHasNoDot(f);
      IntToStringRoundTrip(f);
    }
  }

  /** The names of the note properties are all different. */
  lemma NotePropNamesDistinct()
    ensures "g" != "x" && "g" != "t" && "g" != "h" && "g" != "ss" && "g" != "pm" && "g" != "lr"
    ensures "x" != "t" && "x" != "h" && "x" != "ss" && "x" != "pm" && "x" != "lr"
    ensures "t" != "h" && "t" != "ss" && "t" != "pm" && "t" != "lr"
    ensures "h" != "ss" && "h" != "pm" && "h" != "lr"
    ensures "ss" != "pm" && "ss" != "lr" && "pm" != "lr"
  {
    assert "g"[0] != "x"[0] && "g"[0] != "t"[0] && "g"[0] != "h"[0] && "g"[0] != "s"[0] && "g"[0] != "p"[0] && "g"[0] != "l"[0];
    assert "x"[0] != "t"[0] && "x"[0] != "h"[0] && "x"[0] != "s"[0] && "x"[0] != "p"[0] && "x"[0] != "l"[0];
    assert "t"[0] != "h"[0] && "t"[0] != "s"[0] && "t"[0] != "p"[0] && "t"[0] != "l"[0];
    assert "h"[0] != "s"[0] && "h"[0] != "p"[0] && "h"[0] != "l"[0];
    assert "s"[0] != "p"[0] && "s"[0] != "l"[0] && "p"[0] != "l"[0];
  }

  /**
   * Each property is present exactly when its flag is set, and a note that
   * gets properties at all is never a tie, so `t` is never written.
   */
  lemma NotePropsMeaning(n: RNote, palmMute: bool, letRing: bool)
    requires !n.tie
    ensures var p := NoteProps(n, palmMute, letRing);
      ("g" in p <==> n.ghostNote) && ("x" in p <==> n.dead) && "t" !in p && ("h" in p <==> n.hp)
      && ("ss" in p <==> n.slide == Some("shift")) && ("pm" in p <==> palmMute) && ("lr" in p <==> letRing)
  {
    NotePropNamesDistinct();
    PropsMembership("g", n, palmMute, letRing);
    PropsMembership("x", n, palmMute, letRing);
    PropsMembership("t", n, palmMute, letRing);
    PropsMembership("h", n, palmMute, letRing);
    PropsMembership("ss", n, palmMute, letRing);
    PropsMembership("pm", n, palmMute, letRing);
    PropsMembership("lr", n, palmMute, letRing);
  }

  /** A token is among the properties exactly when it is one of the flagged names. */
  lemma PropsMembership(x: string, n: RNote, palmMute: bool, letRing: bool)
    ensures x in NoteProps(n, palmMute, letRing) <==>
      (n.ghostNote && x == "g") || (n.dead && x == "x") || (n.tie && x == "t") || (n.hp && x == "h")
      || (n.slide == Some("shift") && x == "ss") || (palmMute && x == "pm") || (letRing && x == "lr")
  {
  }

  /** A tied note prints as a bare `-` (with its string), whatever its fret, flags or the beat's. */
  lemma TiedNoteIsDash(n: RNote, palmMute: bool, letRing: bool)
    requires !n.rest && n.tie
    ensures FormatNote(n, palmMute, letRing) == Some(if n.stringNum.Some? then "-." + IntToString(n.stringNum.value + 1) else "-")
  {
  }

  // ---------------------------------------------------------------------------
  // Beats

  /** The texts of the non-rest notes (`map` then `compact`). */
  function FormatNotes(ns: seq<RNote>, palmMute: bool, letRing: bool): seq<string>
  {
    if ns == [] then []
    else
      var rest := FormatNotes(ns[1..], palmMute, letRing);
      if ns[0].rest then rest else [FormatNote(ns[0], palmMute, letRing).value] + rest
  }

  /** The notes that are not rests, in order. */
  function NonRest(ns: seq<RNote>): seq<RNote>
  {
    if ns == [] then [] else (if ns[0].rest then [] else [ns[0]]) + NonRest(ns[1..])
  }

  /** The kept notes are notes of the beat, and none is a rest. */
  lemma {:induction false} NonRestMeaning(ns: seq<RNote>)
    ensures |NonRest(ns)| <= |ns|
    ensures forall k :: 0 <= k < |NonRest(ns)| ==> NonRest(ns)[k] in ns && !NonRest(ns)[k].rest
  {
    if ns != [] {
      NonRestMeaning(ns[1..]);
    }
  }

  /** Every note text starts with neither `:` nor whitespace. */
  lemma {:induction false} FormatNotesStart(ns: seq<RNote>, palmMute: bool, letRing: bool)
    ensures forall k :: 0 <= k < |FormatNotes(ns, palmMute, letRing)| ==> PlainStart(FormatNotes(ns, palmMute, letRing)[k])
  {
    if ns != [] {
      FormatNotesStart(ns[1..], palmMute, letRing);
      if !ns[0].rest {
        NoteTextStart(ns[0], palmMute, letRing);
      }
    }
  }

  /** The beat properties: `d` for one dot or more than two, `dd` for two, `tu t` when the tuplet is to be written. */
  function BeatProps(dots: int, emitTuplet: bool, tuplet: Option<int>): seq<string>
  {
    (if dots == 1 then ["d"] else []) + (if dots == 2 then ["dd"] else []) + (if dots > 2 then ["d"] else [])
    + (if emitTuplet && tuplet.Some? then ["tu " + IntToString(tuplet.value)] else [])
  }

  /** `format_beat`. */
  function FormatBeat(b: RBeat, emitTuplet: bool): string
  {
    if b.rest then "r"
    else
      var notes := FormatNotes(b.notes, b.palmMute, b.letRing);
      var ns := if notes == [] then ["r"] else notes;
      var content := if |ns| == 1 then ns[0] else "(" + Join(ns, " ") + ")";
      WithProps(content, BeatProps(b.dots, emitTuplet, b.tuplet))
  }

  /**
   * The dot marks follow the dot count (`d` for 1 and for more than 2,
   * `dd` for 2, nothing otherwise); `tu` is written exactly when asked for
   * and the beat has a tuplet; a rest beat is a bare `r`.
   */
  lemma BeatPropsMeaning(b: RBeat, emitTuplet: bool)
    ensures var p := BeatProps(b.dots, emitTuplet, b.tuplet);
      ("d" in p <==> b.dots == 1 || b.dots > 2) && ("dd" in p <==> b.dots == 2) && |p| <= 2
      && ((exists k :: 0 <= k < |p| && |p[k]| >= 2 && p[k][..2] == "tu") <==> emitTuplet && b.tuplet.Some?)
    ensures b.rest ==> FormatBeat(b, emitTuplet) == "r"
  {
    assert "d"[0] != "t"[0] && "dd"[0] != "t"[0] && "d" != "dd";
    var p := BeatProps(b.dots, emitTuplet, b.tuplet);
    if emitTuplet && b.tuplet.Some? {
      var tu := "tu " + IntToString(b.tuplet.value);
      assert p[|p| - 1] == tu && tu[..2] == "tu";
    }
  }

  /** `tuplet_emit?`: the beat has a tuplet, and it starts one or differs from the running tuplet. */
  predicate TupletEmit(b: RBeat, current: Option<int>)
  {
    b.tuplet.Some? && (b.tupletStart || current != b.tuplet)
  }

  /** The state `format_beats` carries from beat to beat. */
  datatype BeatsState = BeatsState(texts: seq<string>, curDenom: Option<int>, curTuplet: Option<int>)

  /** The tuplet mark carried by the duration token. */
  function TupletToken(b: RBeat, emit: bool): string
  {
    if emit && b.tuplet.Some? then " { tu " + IntToString(b.tuplet.value) + " }" else ""
  }

  /**
   * The text of one beat: the `:denom` token when the denominator changes,
   * carrying the tuplet mark when one is due, then the beat; otherwise the
   * beat, carrying the tuplet mark itself. (A due mark always has a tuplet,
   * so once the token carries it the beat does not.)
   */
  function BeatText(b: RBeat, curDenom: Option<int>, curTuplet: Option<int>): string
  {
    var denom := DurationDenominator(b);
    var emit := TupletEmit(b, curTuplet);
    if denom.Some? && denom != curDenom then
      ":" + IntToString(denom.value) + TupletToken(b, emit) + " " + FormatBeat(b, false)
    else FormatBeat(b, emit)
  }

  /** The running tuplet after a beat: the three branches of the source. */
  function NextTuplet(b: RBeat, current: Option<int>): Option<int>
  {
    if b.tupletStart then b.tuplet
    else if b.tuplet.Some? then b.tuplet
    else if b.tupletStop || b.tuplet.None? then None
    else current
  }

  /** One step of `format_beats`. */
  function BeatsStep(s: BeatsState, b: RBeat): BeatsState
  {
    var denom := DurationDenominator(b);
    BeatsState(
      s.texts + [BeatText(b, s.curDenom, s.curTuplet)],
      if denom.Some? && denom != s.curDenom then denom else s.curDenom,
      NextTuplet(b, s.curTuplet))
  }

  /** The state after the beats. */
  function BeatsRun(beats: seq<RBeat>): (s: BeatsState)
    ensures |s.texts| == |beats|
  {
    if beats == [] then BeatsState([], None, None)
    else BeatsStep(BeatsRun(beats[..|beats| - 1]), beats[|beats| - 1])
  }

  /** `format_beats`: the beat texts joined with spaces. */
  function FormatBeatsOf(beats: seq<RBeat>): string
  {
    Join(BeatsRun(beats).texts, " ")
  }

  /** `format_beats`. */
  method FormatBeats(beats: seq<RBeat>) returns (s: string)
    ensures s == FormatBeatsOf(beats)
  {
    var texts: seq<string> := [];
    var curDenom: Option<int> := None;
    var curTuplet: Option<int> := None;
    for i := 0 to |beats|
      invariant BeatsState(texts, curDenom, curTuplet) == BeatsRun(beats[..i])
    {
      assert beats[..i + 1][..i] == beats[..i];
      var b := beats[i];
      var denom := DurationDenominator(b);
      var emit := TupletEmit(b, curTuplet);
      var text: string;
      if denom.Some? && denom != curDenom {
        var token := ":" + IntToString(denom.value) + TupletToken(b, emit);
        emit := false;
        text := token + " " + FormatBeat(b, emit);
        curDenom := denom;
      } else {
        text := FormatBeat(b, emit);
      }
      if b.tupletStart {
        curTuplet := b.tuplet;
      } else if b.tuplet.Some? {
        curTuplet := b.tuplet;
      } else if b.tupletStop || b.tuplet.None? {
        curTuplet := None;
      }
      texts := texts + [text];
    }
    assert beats[..|beats|] == beats;
    s := Join(texts, " ");
  }

  /** The last denominator among the beats, if any has one. */
  function LastDenom(beats: seq<RBeat>): Option<int>
  {
    if beats == [] then None
    else if DurationDenominator(beats[|beats| - 1]).Some? then DurationDenominator(beats[|beats| - 1])
    else LastDenom(beats[..|beats| - 1])
  }

  /**
   * What `format_beats` carries: one text per beat; the running
   * denominator is the last one any beat had; and the running tuplet is
   * simply the last beat's tuplet, since the three-way update always ends
   * in `tu`.
   */
  lemma {:induction false} BeatsRunTracks(beats: seq<RBeat>)
    ensures |BeatsRun(beats).texts| == |beats|
    ensures BeatsRun(beats).curDenom == LastDenom(beats)
    ensures BeatsRun(beats).curTuplet == if beats == [] then None else beats[|beats| - 1].tuplet
  {
    if beats != [] {
      BeatsRunTracks(beats[..|beats| - 1]);
    }
  }

  /** The texts of a prefix of the beats are a prefix of the texts. */
  lemma {:induction false} BeatsRunTextsPrefix(beats: seq<RBeat>, j: nat)
    requires j <= |beats|
    ensures BeatsRun(beats[..j]).texts == BeatsRun(beats).texts[..j]
    decreases |beats|
  {
    BeatsRunTracks(beats);
    BeatsRunTracks(beats[..j]);
    if j < |beats| {
      var init := beats[..|beats| - 1];
      BeatsRunTextsPrefix(init, j);
      BeatsRunTracks(init);
      assert init[..j] == beats[..j];
      assert BeatsRun(beats).texts[..j] == BeatsRun(init).texts[..j];
    } else {
      assert beats[..j] == beats;
    }
  }

  /** Text that neither starts with `:` nor with whitespace. */
  predicate PlainStart(s: string)
  {
    |s| > 0 && s[0] != ':' && !IsRubySpace(s[0])
  }

  lemma IntTextStart(k: int)
    ensures PlainStart(IntToString(k))
  {
    if k >= 0 {
      assert IsDigit(NatToString(k)[0]);
    }
  }

  lemma NoteTextStart(n: RNote, palmMute: bool, letRing: bool)
    requires !n.rest
    ensures PlainStart(FormatNote(n, palmMute, letRing).value)
  {
    if !n.tie {
      var v := NoteValueText(n);
      if !n.dead && n.fret.FretNumber? {
        IntTextStart(n.fret.number);
      }
      assert PlainStart(v);
      assert NoteBase(n)[0] == v[0];
      assert WithProps(NoteBase(n), NoteProps(n, palmMute, letRing))[0] == NoteBase(n)[0];
    }
  }

  /** A beat never starts with `:` (only the duration token does) nor with whitespace. */
  lemma FormatBeatStart(b: RBeat, emit: bool)
    ensures PlainStart(FormatBeat(b, emit))
  {
    if !b.rest {
      var notes := FormatNotes(b.notes, b.palmMute, b.letRing);
      var ns := if notes == [] then ["r"] else notes;
      var content := if |ns| == 1 then ns[0] else "(" + Join(ns, " ") + ")";
      if |ns| == 1 && notes != [] {
        FormatNotesStart(b.notes, b.palmMute, b.letRing);
      }
      assert PlainStart(content);
      assert FormatBeat(b, emit)[0] == content[0];
    }
  }

  /** A beat's text starts with `:` exactly when it opens with a duration token. */
  lemma BeatTextStart(b: RBeat, curDenom: Option<int>, curTuplet: Option<int>)
    ensures var t := BeatText(b, curDenom, curTuplet);
      var d := DurationDenominator(b);
      |t| > 0 && ((t[0] == ':') <==> d.Some? && d != curDenom)
  {
    FormatBeatStart(b, TupletEmit(b, curTuplet));
  }

  /**
   * The `:d` token is written for beat `i` exactly when the beat has a
   * denominator and it differs from the last denominator of the beats
   * before it.
   */
  lemma DenomTokenOnChange(beats: seq<RBeat>, i: nat)
    requires i < |beats|
    ensures var t := BeatsRun(beats).texts[i];
      var d := DurationDenominator(beats[i]);
      |t| > 0 && ((t[0] == ':') <==> d.Some? && d != LastDenom(beats[..i]))
  {
    BeatsRunTextsPrefix(beats, i + 1);
    BeatsRunTracks(beats[..i]);
    assert beats[..i + 1][..i] == beats[..i];
    var s := BeatsRun(beats[..i]);
    assert BeatsRun(beats).texts[i] == BeatText(beats[i], s.curDenom, s.curTuplet);
    BeatTextStart(beats[i], s.curDenom, s.curTuplet);
  }

  /**
   * The tuplet is announced for beat `i` exactly when the beat has one and
   * starts it, or it differs from the previous beat's.
   */
  lemma TupletAnnouncedOnChange(beats: seq<RBeat>, i: nat)
    requires i < |beats|
    ensures TupletEmit(beats[i], BeatsRun(beats[..i]).curTuplet) <==>
      beats[i].tuplet.Some? && (beats[i].tupletStart || i == 0 || beats[i - 1].tuplet != beats[i].tuplet)
  {
    BeatsRunTracks(beats[..i]);
    if i > 0 {
      assert beats[..i][i - 1] == beats[i - 1];
    }
  }

  // ---------------------------------------------------------------------------
  // merge_tied_beats

  /** `single_note`: the only non-rest note of the beat, if there is exactly one. */
  function SingleNote(b: RBeat): Option<RNote>
  {
    if |NonRest(b.notes)| == 1 then Some(NonRest(b.notes)[0]) else None
  }

  /** No tuplet, no dots, no palm mute, no let ring. */
  predicate PlainBeat(b: RBeat)
  {
    b.tuplet.None? && b.dots <= 0 && !b.palmMute && !b.letRing
  }

  /** `can_merge_tie?`. */
  predicate CanMerge(prev: RBeat, cur: RBeat)
  {
    !cur.rest && !prev.rest
    && SingleNote(prev).Some? && SingleNote(cur).Some?
    && SingleNote(cur).value.tie
    && SingleNote(prev).value.stringNum == SingleNote(cur).value.stringNum
    && SingleNote(prev).value.fret.Lookup() == SingleNote(cur).value.fret.Lookup()
    && PlainBeat(prev) && PlainBeat(cur)
  }

  /** The sum of the two durations (raising on a zero denominator, the earlier beat's first). */
  function MergedDuration(prev: RBeat, cur: RBeat): Result<Frac>
  {
    var a :- RationalFromFraction(prev.duration);
    var b :- RationalFromFraction(cur.duration);
    Ok(RatAdd(a, b))
  }

  /** Whether a beat's duration reads as a rational. */
  predicate ValidDuration(b: RBeat)
  {
    RationalFromFraction(b.duration).Ok?
  }

  /** One step of the merge: fold `b` into the last merged beat, or append it. */
  function MergeStep(merged: seq<RBeat>, b: RBeat): (r: Result<seq<RBeat>>)
    ensures r.Ok? ==> 0 < |r.value| <= |merged| + 1
  {
    if merged != [] && CanMerge(merged[|merged| - 1], b) then
      var prev := merged[|merged| - 1];
      var sum :- MergedDuration(prev, b);
      Ok(merged[..|merged| - 1] + [prev.(duration := Some([sum.n, sum.d]))])
    else Ok(merged + [b])
  }

  /** The merged beats so far, or the error. */
  function MergeRun(beats: seq<RBeat>): (r: Result<seq<RBeat>>)
    ensures r.Ok? ==> |r.value| <= |beats| && (r.value == [] <==> beats == [])
  {
    if beats == [] then Ok([])
    else
      var merged :- MergeRun(beats[..|beats| - 1]);
      MergeStep(merged, beats[|beats| - 1])
  }

  /** `merge_tied_beats`. */
  method MergeTiedBeats(beats: seq<RBeat>) returns (r: Result<seq<RBeat>>)
    ensures r == MergeRun(beats)
  {
    var merged: seq<RBeat> := [];
    for i := 0 to |beats|
      invariant MergeRun(beats[..i]) == Ok(merged)
    {
      MergeRunSnoc(beats, i);
      var step := MergeBeat(merged, beats[i]);
      if step.Err? {
        MergeErrPersists(beats, i + 1);
        return Err(step.error);
      }
      merged := step.value;
    }
    assert beats[..|beats|] == beats;
    r := Ok(merged);
  }

  /** One pass of the loop in `merge_tied_beats`: fold `beat` into the last merged beat or append it. */
  method MergeBeat(merged: seq<RBeat>, beat: RBeat) returns (r: Result<seq<RBeat>>)
    ensures r == MergeStep(merged, beat)
  {
    if merged != [] && CanMerge(merged[|merged| - 1], beat) {
      var prev := merged[|merged| - 1];
      var prevDur := RationalFromFraction(prev.duration);
      if prevDur.Err? {
        return Err(prevDur.error);
      }
      var curDur := RationalFromFraction(beat.duration);
      if curDur.Err? {
        return Err(curDur.error);
      }
      var sum := RatAdd(prevDur.value, curDur.value);
      r := Ok(merged[..|merged| - 1] + [prev.(duration := Some([sum.n, sum.d]))]);
    } else {
      r := Ok(merged + [beat]);
    }
  }

  /** The merge of one more beat is one more step. */
  lemma MergeRunSnoc(beats: seq<RBeat>, i: nat)
    requires i < |beats|
    ensures MergeRun(beats[..i + 1]) == if MergeRun(beats[..i]).Err? then MergeRun(beats[..i]) else MergeStep(MergeRun(beats[..i]).value, beats[i])
  {
    assert beats[..i + 1][..i] == beats[..i];
  }

  /** Once merging fails it stays failed. */
  lemma {:induction false} MergeErrPersists(beats: seq<RBeat>, i: nat)
    requires i <= |beats| && MergeRun(beats[..i]).Err?
    ensures MergeRun(beats) == MergeRun(beats[..i])
    decreases |beats| - i
  {
    if i < |beats| {
      assert beats[..i + 1][..i] == beats[..i];
      MergeErrPersists(beats, i + 1);
    } else {
      assert beats[..i] == beats;
    }
  }

  /** Changing a duration does not change whether a beat merges. */
  lemma CanMergeIgnoresDuration(prev: RBeat, cur: RBeat, d: Option<seq<int>>)
    ensures CanMerge(prev.(duration := d), cur) == CanMerge(prev, cur)
  {
  }

  /** No two neighbours of the result could merge. */
  predicate NoMergeablePair(bs: seq<RBeat>)
  {
    forall k :: 0 <= k < |bs| - 1 ==> !CanMerge(bs[k], bs[k + 1])
  }

  /** After merging, no two neighbouring beats could be merged: the merge is greedy and complete. */
  lemma {:induction false} MergeLeavesNoPair(beats: seq<RBeat>)
    requires MergeRun(beats).Ok?
    ensures NoMergeablePair(MergeRun(beats).value)
  {
    if beats != [] {
      var init := beats[..|beats| - 1];
      MergeLeavesNoPair(init);
      var merged := MergeRun(init).value;
      var b := beats[|beats| - 1];
      var r := MergeRun(beats).value;
      if merged != [] && CanMerge(merged[|merged| - 1], b) {
        var prev := merged[|merged| - 1];
        var sum := MergedDuration(prev, b).value;
        var prev' := prev.(duration := Some([sum.n, sum.d]));
        assert r == merged[..|merged| - 1] + [prev'];
        forall k | 0 <= k < |r| - 1 ensures !CanMerge(r[k], r[k + 1]) {
          assert r[k] == merged[k];
          if k + 1 == |r| - 1 {
            CanMergeIgnoresDuration(r[k], prev, Some([sum.n, sum.d]));
            assert !CanMerge(merged[k], merged[k + 1]);
            assert r[k + 1] == prev' && merged[k + 1] == prev;
          } else {
            assert r[k + 1] == merged[k + 1];
          }
        }
      } else {
        assert r == merged + [b];
        forall k | 0 <= k < |r| - 1 ensures !CanMerge(r[k], r[k + 1]) {
          if k + 1 < |merged| {
            assert r[k] == merged[k] && r[k + 1] == merged[k + 1];
          }
        }
      }
    }
  }

  /** Beats none of whose neighbours could merge pass through unchanged. */
  lemma {:induction false} MergeKeepsUnmergeable(bs: seq<RBeat>)
    requires NoMergeablePair(bs)
    ensures MergeRun(bs) == Ok(bs)
  {
    if bs != [] {
      var init := bs[..|bs| - 1];
      assert NoMergeablePair(init) by {
        forall k | 0 <= k < |init| - 1 ensures !CanMerge(init[k], init[k + 1]) {
          assert init[k] == bs[k] && init[k + 1] == bs[k + 1];
        }
      }
      MergeKeepsUnmergeable(init);
      if init != [] {
        assert !CanMerge(bs[|bs| - 2], bs[|bs| - 1]);
      }
      assert init + [bs[|bs| - 1]] == bs;
    }
  }

  /** Merging is idempotent: merging the merged beats changes nothing. */
  lemma MergeIdempotent(beats: seq<RBeat>)
    requires MergeRun(beats).Ok?
    ensures MergeRun(MergeRun(beats).value) == MergeRun(beats)
  {
    MergeLeavesNoPair(beats);
    MergeKeepsUnmergeable(MergeRun(beats).value);
  }

  /** The value of a beat's duration. */
  function DurValue(b: RBeat): real
    requires ValidDuration(b)
  {
    Val(RationalFromFraction(b.duration).value)
  }

  /** Every beat's duration reads as a rational. */
  predicate AllValid(bs: seq<RBeat>)
  {
    forall k :: 0 <= k < |bs| ==> ValidDuration(bs[k])
  }

  /** The total duration of beats whose durations all read. */
  function TotalValue(bs: seq<RBeat>): real
    requires AllValid(bs)
  {
    if bs == [] then 0.0 else TotalValue(bs[..|bs| - 1]) + DurValue(bs[|bs| - 1])
  }

  lemma TotalValueAppend(bs: seq<RBeat>, b: RBeat)
    requires AllValid(bs) && ValidDuration(b)
    ensures AllValid(bs + [b])
    ensures TotalValue(bs + [b]) == TotalValue(bs) + DurValue(b)
  {
    assert (bs + [b])[..|bs|] == bs;
  }

  /** The total read from the front: the first beat's value plus the rest's. */
  lemma {:induction false} TotalValueFront(bs: seq<RBeat>)
    requires AllValid(bs) && bs != []
    ensures AllValid(bs[1..])
    ensures TotalValue(bs) == DurValue(bs[0]) + TotalValue(bs[1..])
  {
    if |bs| > 1 {
      var init := bs[..|bs| - 1];
      TotalValueFront(init);
      assert init[1..] == bs[1..][..|bs| - 2];
    }
  }

  /** A merged duration `[sum.n, sum.d]` reads back as the sum of the two. */
  lemma MergedDurationValue(prev: RBeat, cur: RBeat)
    requires ValidDuration(prev) && ValidDuration(cur)
    ensures MergedDuration(prev, cur).Ok?
    ensures var sum := MergedDuration(prev, cur).value;
      ValidDuration(prev.(duration := Some([sum.n, sum.d])))
      && DurValue(prev.(duration := Some([sum.n, sum.d]))) == DurValue(prev) + DurValue(cur)
  {
    var a := RationalFromFraction(prev.duration).value;
    var b := RationalFromFraction(cur.duration).value;
    var sum := MergedDuration(prev, cur).value;
    ValOfAdd(a, b);
    var back := RationalFromFraction(Some([sum.n, sum.d])).value;
    ValOfSameValue(back, Frac(sum.n, sum.d));
  }

  /**
   * When every duration reads, merging cannot fail and keeps the total
   * length of the voice: a merged beat lasts as long as the beats it
   * replaces.
   */
  lemma {:induction false} MergeKeepsTotal(beats: seq<RBeat>)
    requires AllValid(beats)
    ensures MergeRun(beats).Ok? && AllValid(MergeRun(beats).value)
    ensures TotalValue(MergeRun(beats).value) == TotalValue(beats)
  {
    if beats != [] {
      var init := beats[..|beats| - 1];
      var b := beats[|beats| - 1];
      assert AllValid(init);
      MergeKeepsTotal(init);
      assert beats == init + [b];
      TotalValueAppend(init, b);
      MergeStepTotal(MergeRun(init).value, b);
    }
  }

  /** One merge step adds the beat's duration to the total. */
  lemma MergeStepTotal(merged: seq<RBeat>, b: RBeat)
    requires AllValid(merged) && ValidDuration(b)
    ensures MergeStep(merged, b).Ok? && AllValid(MergeStep(merged, b).value)
    ensures TotalValue(MergeStep(merged, b).value) == TotalValue(merged) + DurValue(b)
  {
    if merged != [] && CanMerge(merged[|merged| - 1], b) {
      var prev := merged[|merged| - 1];
      var front := merged[..|merged| - 1];
      assert merged == front + [prev];
      assert AllValid(front);
      MergedDurationValue(prev, b);
      var sum := MergedDuration(prev, b).value;
      var prev' := prev.(duration := Some([sum.n, sum.d]));
      TotalValueAppend(front, prev);
      TotalValueAppend(front, prev');
    } else {
      TotalValueAppend(merged, b);
    }
  }

  // ---------------------------------------------------------------------------
  // Signatures, tempos and measure lines

  const DefaultSignature: seq<int> := [4, 4]

  /** `valid_signature?`: two positive entries. */
  predicate ValidSignature(sig: seq<int>)
  {
    |sig| == 2 && sig[0] > 0 && sig[1] > 0
  }

  /** The signature a unit prints under: its own, else the running one; an invalid one falls back to 4/4. */
  function UnitSignature(m: RMeasure, current: seq<int>): (sig: seq<int>)
    ensures ValidSignature(sig)
    ensures m.signature.Some? && ValidSignature(m.signature.value) ==> sig == m.signature.value
    ensures m.signature.None? && ValidSignature(current) ==> sig == current
  {
    var s := if m.signature.Some? then m.signature.value else current;
    if ValidSignature(s) then s else DefaultSignature
  }

  /** A tempo entry `collect_tempos` keeps: a measure, a position that is absent or zero, and a bpm. */
  predicate KeptTempo(t: RTempo)
  {
    t.measure.Some? && (t.position.None? || t.position.value == 0) && t.bpm.Some?
  }

  /** `collect_tempos`: the kept bpms by measure, in order. */
  function TemposOf(es: seq<RTempo>): map<int, seq<int>>
  {
    if es == [] then map[]
    else
      var m := TemposOf(es[..|es| - 1]);
      var t := es[|es| - 1];
      if KeptTempo(t) then m[t.measure.value := Lookup(m, t.measure.value) + [t.bpm.value]] else m
  }

  /** A hash with an empty-array default. */
  function Lookup(m: map<int, seq<int>>, k: int): seq<int>
  {
    if k in m then m[k] else []
  }

  /** `collect_tempos`. */
  method CollectTempos(es: seq<RTempo>) returns (tempos: map<int, seq<int>>)
    ensures tempos == TemposOf(es)
  {
    tempos := map[];
    for i := 0 to |es|
      invariant tempos == TemposOf(es[..i])
    {
      assert es[..i + 1][..i] == es[..i];
      var t := es[i];
      if t.measure.None? {
        continue;
      }
      if !(t.position.None? || t.position.value == 0) {
        continue;
      }
      if t.bpm.None? {
        continue;
      }
      tempos := tempos[t.measure.value := Lookup(tempos, t.measure.value) + [t.bpm.value]];
    }
    assert es[..|es|] == es;
  }

  /** The bpms of the kept entries for measure `k`, in order. */
  function BpmsFor(es: seq<RTempo>, k: int): seq<int>
  {
    if es == [] then []
    else (if KeptTempo(es[0]) && es[0].measure.value == k then [es[0].bpm.value] else []) + BpmsFor(es[1..], k)
  }

  lemma {:induction false} BpmsForAppend(es: seq<RTempo>, t: RTempo, k: int)
    ensures BpmsFor(es + [t], k) == BpmsFor(es, k) + (if KeptTempo(t) && t.measure.value == k then [t.bpm.value] else [])
  {
    if es != [] {
      assert (es + [t])[1..] == es[1..] + [t];
      BpmsForAppend(es[1..], t, k);
    }
  }

  /**
   * The tempos of a measure are the bpms of all kept entries naming it, in
   * their order in the file: nothing is lost and nothing is reordered.
   */
  lemma {:induction false} TemposOfMeaning(es: seq<RTempo>, k: int)
    ensures Lookup(TemposOf(es), k) == BpmsFor(es, k)
  {
    if es != [] {
      var init := es[..|es| - 1];
      TemposOfMeaning(init, k);
      assert es == init + [es[|es| - 1]];
      BpmsForAppend(init, es[|es| - 1], k);
    }
  }

  /** The tokens for a list of bpms. */
  function TempoLine(bpms: seq<int>): seq<string>
  {
    seq(|bpms|, k requires 0 <= k < |bpms| => "\\tempo " + IntToString(bpms[k]))
  }

  /** `\ro` for a unit that opens a repeat. */
  function RepeatOpen(u: RubyRepeats.Unit): seq<string>
  {
    if u.repeatStart then ["\\ro"] else []
  }

  /** `\rc count` for a unit that closes a repeat. */
  function RepeatClose(u: RubyRepeats.Unit): seq<string>
  {
    if u.repeatEnd.Some? then ["\\rc " + IntToString(u.repeatEnd.value.count)] else []
  }

  /** The section mark of a measure with a non-empty marker. */
  function SectionPart(m: RMeasure): seq<string>
  {
    if m.marker.Some? && m.marker.value != [] then [Quoted("\\section", m.marker.value)] else []
  }

  /** The meta tokens of a unit, in the source's order. */
  function Meta(u: RubyRepeats.Unit, m: RMeasure, sig: seq<int>, changed: bool, bpms: seq<int>): seq<string>
    requires |sig| == 2
  {
    RepeatOpen(u) + SectionPart(m) + (if changed then [TsToken(sig)] else []) + TempoLine(bpms) + RepeatClose(u)
  }

  function TsToken(sig: seq<int>): string
    requires |sig| == 2
  {
    "\\ts " + TsArgs(sig)
  }

  function TsArgs(sig: seq<int>): string
    requires |sig| == 2
  {
    IntToString(sig[0]) + " " + IntToString(sig[1])
  }

  /** Ruby's `strip` whitespace: null, tab, line feed, vertical tab, form feed, carriage return, space. */
  predicate IsRubySpace(c: char)
  {
    c == ' ' || c == '\t' || c == '\n' || c == '\r' || c == '\0' || c as int == 11 || c as int == 12
  }

  /** `strip`. */
  function Strip(s: string): (r: string)
    ensures |r| <= |s|
  {
    if s != [] && IsRubySpace(s[0]) then Strip(s[1..])
    else if s != [] && IsRubySpace(s[|s| - 1]) then Strip(s[..|s| - 1])
    else s
  }

  /** `build_measure_line`: none when the first voice has no beats, else the stripped line. */
  function MeasureLine(m: RMeasure, meta: seq<string>): Result<Option<string>>
  {
    var merged :- MergeRun(FirstVoiceBeats(m));
    var content := FormatBeatsOf(merged);
    if content == [] then Ok(None) else Ok(Some(Strip("  " + MetaPrefix(meta) + content + " |")))
  }

  /** The meta tokens and a space, or nothing. */
  function MetaPrefix(meta: seq<string>): string
  {
    if meta == [] then "" else Join(meta, " ") + " "
  }

  /** Non-empty text that does not start with whitespace. */
  predicate NoSpaceStart(s: string)
  {
    |s| > 0 && !IsRubySpace(s[0])
  }

  /** The joined beats are empty exactly when there are no beats, and never start with whitespace. */
  lemma FormatBeatsStart(beats: seq<RBeat>)
    ensures beats == [] ==> FormatBeatsOf(beats) == []
    ensures beats != [] ==> NoSpaceStart(FormatBeatsOf(beats))
  {
    BeatsRunTracks(beats);
    if beats != [] {
      var texts := BeatsRun(beats).texts;
      BeatsRunTextsPrefix(beats, 1);
      var one := beats[..1];
      assert one[..0] == [] && one[0] == beats[0];
      var t := BeatText(beats[0], None, None);
      assert BeatsRun(one) == BeatsStep(BeatsState([], None, None), beats[0]);
      assert texts[0] == BeatsRun(one).texts[0] == t;
      FormatBeatStart(beats[0], TupletEmit(beats[0], None));
      assert NoSpaceStart(t);
      if |texts| > 1 {
        assert FormatBeatsOf(beats) == t + " " + Join(texts[1..], " ");
      }
    }
  }

  lemma StripKeeps(x: string)
    requires NoSpaceStart(x)
    ensures Strip("  " + x + " |") == x + " |"
  {
    var t := x + " |";
    assert Strip(t) == t by {
      assert t[0] == x[0];
      assert t[|t| - 1] == '|';
    }
    var s1 := " " + t;
    assert s1[0] == ' ' && s1[1..] == t;
    var s := " " + s1;
    assert s[0] == ' ' && s[1..] == s1;
    assert "  " + x + " |" == s;
  }

  /**
   * The measure line is the meta tokens, a space, the beats and ` |`; the
   * `strip` only removes the two leading spaces. A measure whose first
   * voice has no beats gets no line at all, and loses its meta tokens.
   */
  lemma MeasureLineShape(m: RMeasure, meta: seq<string>)
    requires MergeRun(FirstVoiceBeats(m)).Ok?
    requires meta != [] ==> |meta[0]| > 0 && meta[0][0] == '\\'
    ensures var merged := MergeRun(FirstVoiceBeats(m)).value;
      MeasureLine(m, meta) == if FirstVoiceBeats(m) == [] then Ok(None)
        else Ok(Some(MetaPrefix(meta) + FormatBeatsOf(merged) + " |"))
  {
    var merged := MergeRun(FirstVoiceBeats(m)).value;
    FormatBeatsStart(merged);
    if merged != [] {
      PrefixedStart(meta, FormatBeatsOf(merged));
      StripKeeps(MetaPrefix(meta) + FormatBeatsOf(merged));
    }
  }

  /** The meta prefix and the beats start with neither whitespace nor nothing. */
  lemma PrefixedStart(meta: seq<string>, content: string)
    requires meta != [] ==> |meta[0]| > 0 && meta[0][0] == '\\'
    requires NoSpaceStart(content)
    ensures NoSpaceStart(MetaPrefix(meta) + content)
    ensures "  " + MetaPrefix(meta) + content + " |" == "  " + (MetaPrefix(meta) + content) + " |"
  {
    if meta != [] {
      var j := Join(meta, " ");
      assert j[0] == '\\' by {
        if |meta| > 1 {
          assert j == meta[0] + " " + Join(meta[1..], " ");
        }
      }
      assert (MetaPrefix(meta) + content)[0] == j[0];
    }
  }

  /** Every meta token starts with a backslash. */
  lemma MetaStartsWithBackslash(u: RubyRepeats.Unit, m: RMeasure, sig: seq<int>, changed: bool, bpms: seq<int>)
    requires |sig| == 2
    ensures forall k :: 0 <= k < |Meta(u, m, sig, changed, bpms)| ==>
      |Meta(u, m, sig, changed, bpms)[k]| > 0 && Meta(u, m, sig, changed, bpms)[k][0] == '\\'
  {
  }

  // ---------------------------------------------------------------------------
  // The canonical form used for repeat detection

  /** A beat as `canonical_measures` sees it: no `type` and no `dots`. */
  datatype CanonBeat = CanonBeat(
    duration: Option<seq<int>>,
    rest: bool,
    palmMute: bool,
    letRing: bool,
    tuplet: Option<int>,
    tupletStart: bool,
    tupletStop: bool,
    notes: seq<RNote>)

  /** A measure as `canonical_measures` sees it: the running signature, the first voice's rest flag and beats; no marker. */
  datatype CanonMeasure = CanonMeasure(signature: (int, int), voiceRest: bool, beats: seq<CanonBeat>)

  /** A note as `canonical_measures` copies it: `'fret' => n['fret']` turns a missing fret into `null`. */
  function CanonNoteOf(n: RNote): (c: RNote)
    ensures c.fret.Lookup() == n.fret.Lookup() && c.fret != NoFret
  {
    if n.fret.FretNumber? then n else n.(fret := NullFret)
  }

  function CanonBeatOf(b: RBeat): CanonBeat
  {
    CanonBeat(b.duration, b.rest, b.palmMute, b.letRing, b.tuplet, b.tupletStart, b.tupletStop,
      seq(|b.notes|, k requires 0 <= k < |b.notes| => CanonNoteOf(b.notes[k])))
  }

  /** The running signature of `canonical_measures`: any two-entry array replaces it, valid or not. */
  function CanonSignature(m: RMeasure, current: (int, int)): (int, int)
  {
    if m.signature.Some? && |m.signature.value| == 2 then (m.signature.value[0], m.signature.value[1]) else current
  }

  function CanonMeasureOf(m: RMeasure, sig: (int, int)): CanonMeasure
  {
    var v := FirstVoice(m);
    CanonMeasure(sig, v.Some? && v.value.rest, seq(|FirstVoiceBeats(m)|, k requires 0 <= k < |FirstVoiceBeats(m)| => CanonBeatOf(FirstVoiceBeats(m)[k])))
  }

  /** `canonical_measures`, from the running signature `sig` on. */
  function CanonicalFrom(ms: seq<RMeasure>, sig: (int, int)): (r: seq<CanonMeasure>)
    ensures |r| == |ms|
  {
    if ms == [] then []
    else
      var s := CanonSignature(ms[0], sig);
      [CanonMeasureOf(ms[0], s)] + CanonicalFrom(ms[1..], s)
  }

  function CanonicalMeasures(ms: seq<RMeasure>): seq<CanonMeasure>
  {
    CanonicalFrom(ms, (4, 4))
  }

  /**
   * Two beats that differ only in `type` and `dots` look the same to the
   * repeat detector, though a dotted beat prints differently from an
   * undotted one.
   */
  lemma CanonIgnoresDots(b: RBeat, dots: int, durType: Option<int>)
    ensures CanonBeatOf(b) == CanonBeatOf(b.(dots := dots, durType := durType))
    ensures !b.rest && b.dots <= 0 && dots >= 1 ==> FormatBeat(b, false) != FormatBeat(b.(dots := dots, durType := durType), false)
  {
    var b' := b.(dots := dots, durType := durType);
    if !b.rest && b.dots <= 0 && dots >= 1 {
      var notes := FormatNotes(b.notes, b.palmMute, b.letRing);
      var ns := if notes == [] then ["r"] else notes;
      var content := if |ns| == 1 then ns[0] else "(" + Join(ns, " ") + ")";
      assert BeatProps(b.dots, false, b.tuplet) == [];
      assert BeatProps(dots, false, b.tuplet) != [];
      assert FormatBeat(b, false) == content;
      assert FormatBeat(b', false) == WithProps(content, BeatProps(dots, false, b.tuplet));
    }
  }

  // ---------------------------------------------------------------------------
  // The header

  const DefaultTuning: seq<int> := [64, 59, 55, 50, 45, 40]

  /** Six numeric entries. */
  predicate SixNumbers(t: Option<seq<Option<int>>>)
  {
    t.Some? && |t.value| == 6 && forall k :: 0 <= k < 6 ==> t.value[k].Some?
  }

  /** `normalized_tuning`: the given pitches when there are six numbers, else the standard tuning. */
  function NormalizedTuning(t: Option<seq<Option<int>>>): (r: seq<int>)
    ensures |r| == 6
    ensures SixNumbers(t) ==> forall k :: 0 <= k < 6 ==> r[k] == t.value[k].value
    ensures !SixNumbers(t) ==> r == DefaultTuning
  {
    if SixNumbers(t) then seq(6, k requires 0 <= k < 6 => t.value[k].value) else DefaultTuning
  }

  /** `tuning_note_names`. */
  function TuningNames(t: Option<seq<Option<int>>>): (r: seq<string>)
    ensures |r| == 6
    ensures forall k :: 0 <= k < 6 ==> AlphaText.NoteToMidi(r[k]) == Some(NormalizedTuning(t)[k])
  {
    var pitches := NormalizedTuning(t);
    seq(6, k requires 0 <= k < 6 => MidiToNoteName(pitches[k]))
  }

  /** A tag and a quoted, escaped text. */
  function Quoted(tag: string, s: string): string
  {
    tag + " \"" + Escape(s) + "\""
  }

  /** The quoted text reads back as the original once the quotes are unescaped. */
  lemma QuotedReadsBack(tag: string, s: string)
    ensures var q := Quoted(tag, s);
      |q| >= |tag| + 3 && q[..|tag| + 2] == tag + " \"" && q[|q| - 1] == '"'
      && UnescapeQuotes(q[|tag| + 2..|q| - 1]) == s
  {
    var q := Quoted(tag, s);
    assert q == (tag + " \"") + Escape(s) + "\"";
    assert q[|tag| + 2..|q| - 1] == Escape(s);
  }

  /** The header: title, artist, subtitle, track, staff and tuning lines. */
  function HeaderLines(score: RScore, cliTitle: Option<string>): seq<string>
  {
    (if cliTitle.Some? then [Quoted("\\title", cliTitle.value)] else [])
    + (if score.name.Some? then [Quoted("\\artist", score.name.value)] else [])
    + (if score.instrument.Some? then [Quoted("\\subtitle", score.instrument.value)] else [])
    + [if score.instrument.Some? then Quoted("\\track", score.instrument.value) else "\\track"]
    + ["  \\staff {tabs}", "  \\tuning (" + Join(TuningNames(score.tuning), " ") + ")"]
  }

  /**
   * The header has one optional line each for the title, the name and the
   * instrument, then always the track, staff and tuning lines; the tuning
   * lists six note names.
   */
  lemma HeaderShape(score: RScore, cliTitle: Option<string>)
    ensures var h := HeaderLines(score, cliTitle);
      |h| == 3 + (if cliTitle.Some? then 1 else 0) + (if score.name.Some? then 1 else 0) + (if score.instrument.Some? then 1 else 0)
      && h[|h| - 2] == "  \\staff {tabs}"
      && h[|h| - 1] == "  \\tuning (" + Join(TuningNames(score.tuning), " ") + ")"
      && (cliTitle.Some? ==> h[0] == Quoted("\\title", cliTitle.value))
  {
  }

  // ---------------------------------------------------------------------------
  // The measure loop

  /** Which index the tempo lookup uses. */
  datatype TempoKeying = ByUnitIndex | ByMeasureIndex

  /** The key of the tempo lookup for the unit at `idx`. */
  function TempoKey(u: RubyRepeats.Unit, idx: nat, keying: TempoKeying): int
  {
    match keying
      case ByUnitIndex => idx
      case ByMeasureIndex => u.measure
  }

  /** The `// marker` comment line of a measure with a non-empty marker. */
  function MarkerComment(m: RMeasure): seq<string>
  {
    if m.marker.Some? && m.marker.value != [] then ["// " + m.marker.value] else []
  }

  /** A non-empty meta list whose first token starts with a backslash gives a prefix that does too. */
  lemma MetaPrefixHead(meta: seq<string>)
    requires meta != [] && |meta[0]| > 0 && meta[0][0] == '\\'
    ensures |MetaPrefix(meta)| > 0 && MetaPrefix(meta)[0] == '\\'
  {
    if |meta| > 1 {
      assert Join(meta, " ") == meta[0] + " " + Join(meta[1..], " ");
    }
  }

  /** The measure line of a unit whose beats merge: present iff there are beats, ending in ` |`, opening with a meta token when the signature is stated. */
  lemma UnitLineFacts(u: RubyRepeats.Unit, m: RMeasure, sig: seq<int>, changed: bool, bpms: seq<int>)
    requires |sig| == 2
    ensures MeasureLine(m, Meta(u, m, sig, changed, bpms)).Ok? <==> MergeRun(FirstVoiceBeats(m)).Ok?
    ensures var line := MeasureLine(m, Meta(u, m, sig, changed, bpms));
      line.Ok? ==> (line.value.Some? <==> FirstVoiceBeats(m) != [])
    ensures var line := MeasureLine(m, Meta(u, m, sig, changed, bpms));
      line.Ok? && line.value.Some? ==> var l := line.value.value;
        |l| >= 2 && l[|l| - 2..] == " |" && (changed ==> l[0] == '\\')
  {
    var meta := Meta(u, m, sig, changed, bpms);
    if MergeRun(FirstVoiceBeats(m)).Err? {
      return;
    }
    MetaStartsWithBackslash(u, m, sig, changed, bpms);
    MeasureLineShape(m, meta);
    if changed && FirstVoiceBeats(m) != [] {
      assert meta != [];
      MetaPrefixHead(meta);
    }
  }

  /**
   * `lines` are the comment lines, then (when `hasLine`) one measure line
   * ending in ` |`, which opens with a meta token when `opensMeta`.
   */
  predicate CommentThenMeasure(lines: seq<string>, comment: seq<string>, hasLine: bool, opensMeta: bool)
  {
    |lines| == |comment| + (if hasLine then 1 else 0)
    && lines[..|comment|] == comment
    && (hasLine ==> var l := lines[|comment|];
          |l| >= 2 && l[|l| - 2..] == " |" && (opensMeta ==> l[0] == '\\'))
  }

  /** The comment lines followed by the optional measure line have that shape. */
  lemma CommentThenLine(comment: seq<string>, line: Option<string>, opensMeta: bool)
    requires line.Some? ==> var l := line.value; |l| >= 2 && l[|l| - 2..] == " |" && (opensMeta ==> l[0] == '\\')
    ensures CommentThenMeasure(comment + (if line.Some? then [line.value] else []), comment, line.Some?, opensMeta)
  {
    var lines := comment + (if line.Some? then [line.value] else []);
    assert lines[..|comment|] == comment;
  }

  /**
   * The marker comment and the measure line of one unit, and the signature
   * it leaves current. Only merging the beats can fail; the signature left
   * current is valid; the lines are the marker comment and then, unless the
   * voice has no beats, one line ending in ` |`, which for the first unit
   * opens with a meta token (the first unit always states its signature).
   */
  function UnitOutput(m: RMeasure, u: RubyRepeats.Unit, idx: nat, current: seq<int>, bpms: seq<int>): (r: Result<(seq<string>, seq<int>)>)
    ensures r.Ok? <==> MergeRun(FirstVoiceBeats(m)).Ok?
    ensures r.Ok? ==> ValidSignature(r.value.1)
    ensures r.Ok? && m.signature.None? && ValidSignature(current) ==> r.value.1 == current
    ensures r.Ok? ==> CommentThenMeasure(r.value.0, MarkerComment(m), FirstVoiceBeats(m) != [], idx == 0)
  {
    var sig := UnitSignature(m, current);
    var changed := idx == 0 || sig != current;
    var meta := Meta(u, m, sig, changed, bpms);
    UnitLineFacts(u, m, sig, changed, bpms);
    match MeasureLine(m, meta)
      case Err(e) => Err(e)
      case Ok(line) =>
        CommentThenLine(MarkerComment(m), line, idx == 0);
        Ok((MarkerComment(m) + (if line.Some? then [line.value] else []), sig))
  }

  /** The lines of the units, in order, and the signature current after them. */
  function UnitsRun(ms: seq<RMeasure>, units: seq<RubyRepeats.Unit>, tempos: map<int, seq<int>>, keying: TempoKeying): Result<(seq<string>, seq<int>)>
    requires forall u :: u in units ==> u.measure < |ms|
  {
    if units == [] then Ok(([], DefaultSignature))
    else
      var idx := |units| - 1;
      var done :- UnitsRun(ms, units[..idx], tempos, keying);
      var u := units[idx];
      var more :- UnitOutput(ms[u.measure], u, idx, done.1, Lookup(tempos, TempoKey(u, idx, keying)));
      Ok((done.0 + more.0, more.1))
  }

  /** One more unit: its output appended to the lines so far. */
  lemma UnitsRunStep(ms: seq<RMeasure>, units: seq<RubyRepeats.Unit>, tempos: map<int, seq<int>>, keying: TempoKeying, i: nat, lines: seq<string>, current: seq<int>)
    requires forall u :: u in units ==> u.measure < |ms|
    requires i < |units| && UnitsRun(ms, units[..i], tempos, keying) == Ok((lines, current))
    ensures var u := units[i];
      var out := UnitOutput(ms[u.measure], u, i, current, Lookup(tempos, TempoKey(u, i, keying)));
      UnitsRun(ms, units[..i + 1], tempos, keying) == if out.Err? then Err(out.error) else Ok((lines + out.value.0, out.value.1))
  {
    assert units[..i + 1][..i] == units[..i];
  }

  lemma {:induction false} UnitsRunErrPersists(ms: seq<RMeasure>, units: seq<RubyRepeats.Unit>, tempos: map<int, seq<int>>, keying: TempoKeying, i: nat)
    requires forall u :: u in units ==> u.measure < |ms|
    requires i <= |units| && UnitsRun(ms, units[..i], tempos, keying).Err?
    ensures UnitsRun(ms, units, tempos, keying) == UnitsRun(ms, units[..i], tempos, keying)
    decreases |units| - i
  {
    if i < |units| {
      assert units[..i + 1][..i] == units[..i];
      UnitsRunErrPersists(ms, units, tempos, keying, i + 1);
    } else {
      assert units[..i] == units;
    }
  }

  /** The signature current after the units is always a valid one. */
  lemma {:induction false} UnitsRunSignatureValid(ms: seq<RMeasure>, units: seq<RubyRepeats.Unit>, tempos: map<int, seq<int>>, keying: TempoKeying)
    requires forall u :: u in units ==> u.measure < |ms|
    requires units != [] && UnitsRun(ms, units, tempos, keying).Ok?
    ensures ValidSignature(UnitsRun(ms, units, tempos, keying).value.1)
  {
  }

  /** The units of the measures, as `build_units` lays them out over the repeats `detect_repeats` finds. */
  function UnitsOf(ms: seq<RMeasure>, maxRepeatLen: int): (units: seq<RubyRepeats.Unit>)
    ensures forall u :: u in units ==> u.measure < |ms|
  {
    var canon := CanonicalMeasures(ms);
    var blocks := RubyRepeats.DetectFrom(canon, maxRepeatLen, RubyRepeats.BreakOnOverrun, 0);
    RubyRepeats.DetectIndexMatches(canon, maxRepeatLen, RubyRepeats.BreakOnOverrun);
    RubyRepeats.UnitsShape(canon, maxRepeatLen, RubyRepeats.BreakOnOverrun, RubyRepeats.BlockIndex(blocks), 0);
    RubyRepeats.UnitsFrom(|canon|, RubyRepeats.BlockIndex(blocks), 0)
  }

  /** The lines of the units alone. */
  function UnitLinesOf(ms: seq<RMeasure>, units: seq<RubyRepeats.Unit>, tempos: map<int, seq<int>>, keying: TempoKeying): Result<seq<string>>
    requires forall u :: u in units ==> u.measure < |ms|
  {
    var body :- UnitsRun(ms, units, tempos, keying);
    Ok(body.0)
  }

  /** `to_alphatex`: the header lines and the unit lines, joined with newlines. */
  function AlphaTexOf(score: RScore, cliTitle: Option<string>, maxRepeatLen: int, keying: TempoKeying): Result<string>
  {
    var body :- UnitLinesOf(score.measures, UnitsOf(score.measures, maxRepeatLen), TemposOf(score.tempo), keying);
    Ok(Join(HeaderLines(score, cliTitle) + body, "\n"))
  }

  /** `build_measure_line`. */
  method BuildMeasureLine(m: RMeasure, meta: seq<string>) returns (r: Result<Option<string>>)
    ensures r == MeasureLine(m, meta)
  {
    var merged := MergeTiedBeats(FirstVoiceBeats(m));
    if merged.Err? {
      return Err(merged.error);
    }
    var content := FormatBeats(merged.value);
    if content == [] {
      return Ok(None);
    }
    var prefix := "";
    if meta != [] {
      prefix := Join(meta, " ") + " ";
    }
    return Ok(Some(Strip("  " + prefix + content + " |")));
  }

  /** The canonical form, `detect_repeats` and `build_units`, as `to_alphatex` runs them. */
  method RepeatUnits(ms: seq<RMeasure>, maxRepeatLen: int) returns (units: seq<RubyRepeats.Unit>)
    ensures units == UnitsOf(ms, maxRepeatLen)
  {
    var canon := CanonicalMeasures(ms);
    var blocks := RubyRepeats.DetectRepeatsBreaking(canon, maxRepeatLen);
    RubyRepeats.DetectIndexMatches(canon, maxRepeatLen, RubyRepeats.BreakOnOverrun);
    units := RubyRepeats.BuildUnits(|ms|, blocks);
  }

  /**
   * The loop of `to_alphatex` over the units. As written (`ByUnitIndex`)
   * the tempo lookup is keyed by the unit's position; mended
   * (`ByMeasureIndex`) by the unit's own measure.
   */
  method UnitLines(ms: seq<RMeasure>, units: seq<RubyRepeats.Unit>, tempos: map<int, seq<int>>, keying: TempoKeying) returns (r: Result<seq<string>>)
    requires forall u :: u in units ==> u.measure < |ms|
    ensures r == UnitLinesOf(ms, units, tempos, keying)
  {
    var body: seq<string> := [];
    var current := DefaultSignature;
    for idx := 0 to |units|
      invariant UnitsRun(ms, units[..idx], tempos, keying) == Ok((body, current))
    {
      ghost var bodyBefore := body;
      var u := units[idx];
      var m := ms[u.measure];
      UnitsRunStep(ms, units, tempos, keying, idx, body, current);
      var sig := UnitSignature(m, current);
      var changed := idx == 0 || sig != current;
      var meta := Meta(u, m, sig, changed, Lookup(tempos, TempoKey(u, idx, keying)));
      var line := BuildMeasureLine(m, meta);
      if line.Err? {
        UnitsRunErrPersists(ms, units, tempos, keying, idx + 1);
        return Err(line.error);
      }
      var comment: seq<string> := [];
      if m.marker.Some? && m.marker.value != [] {
        comment := ["// " + m.marker.value];
      }
      var shown: seq<string> := [];
      if line.value.Some? {
        shown := [line.value.value];
      }
      assert comment == MarkerComment(m);
      assert line == MeasureLine(m, meta);
      assert UnitOutput(m, u, idx, current, Lookup(tempos, TempoKey(u, idx, keying))) == Ok((comment + shown, sig));
      body := body + (comment + shown);
      current := sig;
    }
    assert units[..|units|] == units;
    return Ok(body);
  }

  /** `to_alphatex`; `ByUnitIndex` is the tempo lookup as written. */
  method ToAlphaTex(score: RScore, cliTitle: Option<string>, maxRepeatLen: int, keying: TempoKeying) returns (r: Result<string>)
    ensures r == AlphaTexOf(score, cliTitle, maxRepeatLen, keying)
  {
    var tempos := CollectTempos(score.tempo);
    var units := RepeatUnits(score.measures, maxRepeatLen);
    var body := UnitLines(score.measures, units, tempos, keying);
    if body.Err? {
      return Err(body.error);
    }
    return Ok(Join(HeaderLines(score, cliTitle) + body.value, "\n"));
  }

  // ---------------------------------------------------------------------------
  // Which measure's tempos a unit prints

  /** The `\tempo` tokens of a meta list. */
  function TempoTokens(meta: seq<string>): seq<string>
  {
    if meta == [] then []
    else (if IsTempoToken(meta[0]) then [meta[0]] else []) + TempoTokens(meta[1..])
  }

  /** A token that begins with `\te`. */
  predicate IsTempoToken(t: string)
  {
    |t| >= 3 && t[0] == '\\' && t[1] == 't' && t[2] == 'e'
  }

  lemma {:induction false} TempoTokensAppend(a: seq<string>, b: seq<string>)
    ensures TempoTokens(a + b) == TempoTokens(a) + TempoTokens(b)
  {
    if a != [] {
      assert (a + b)[0] == a[0];
      assert (a + b)[1..] == a[1..] + b;
      TempoTokensAppend(a[1..], b);
    } else {
      assert a + b == b;
    }
  }

  lemma {:induction false} TempoLineTokens(bpms: seq<int>)
    ensures TempoTokens(TempoLine(bpms)) == TempoLine(bpms)
  {
    if bpms != [] {
      var t := TempoLine(bpms);
      assert t[1..] == TempoLine(bpms[1..]);
      assert IsTempoToken(t[0]);
      TempoLineTokens(bpms[1..]);
    }
  }

  /** The `\tempo` tokens of a unit's meta are exactly the bpms it is given, in order. */
  lemma MetaTempoTokens(u: RubyRepeats.Unit, m: RMeasure, sig: seq<int>, changed: bool, bpms: seq<int>)
    requires |sig| == 2
    ensures TempoTokens(Meta(u, m, sig, changed, bpms)) == TempoLine(bpms)
  {
    var ro, sec, rc := RepeatOpen(u), SectionPart(m), RepeatClose(u);
    var ts: seq<string> := if changed then [TsToken(sig)] else [];
    assert Meta(u, m, sig, changed, bpms) == ro + sec + ts + TempoLine(bpms) + rc;
    OtherPartsHaveNoTempo(u, m, sig, changed);
    var a := ro + sec;
    TempoTokensAppend(ro, sec);
    var b := a + ts;
    TempoTokensAppend(a, ts);
    var c := b + TempoLine(bpms);
    TempoTokensAppend(b, TempoLine(bpms));
    TempoLineTokens(bpms);
    assert TempoTokens(c) == TempoLine(bpms);
    TempoTokensAppend(c, rc);
  }

  /** A single token that is not a `\tempo` one. */
  lemma OtherToken(t: string)
    requires |t| >= 3 && (t[1] != 't' || t[2] != 'e')
    ensures TempoTokens([t]) == []
  {
    assert [t][1..] == [];
  }

  /** The `\ro`, `\section`, `\ts` and `\rc` parts hold no `\tempo` token. */
  lemma OtherPartsHaveNoTempo(u: RubyRepeats.Unit, m: RMeasure, sig: seq<int>, changed: bool)
    requires |sig| == 2
    ensures TempoTokens(RepeatOpen(u)) == [] && TempoTokens(SectionPart(m)) == [] && TempoTokens(RepeatClose(u)) == []
    ensures TempoTokens(if changed then [TsToken(sig)] else []) == []
  {
    if u.repeatStart {
      OtherToken("\\ro");
    }
    if SectionPart(m) != [] {
      SectionHasNoTempo(m.marker.value);
    }
    if changed {
      TsHasNoTempo(sig);
    }
    if u.repeatEnd.Some? {
      var t := "\\rc " + IntToString(u.repeatEnd.value.count);
      assert t[1] == 'r';
      OtherToken(t);
    }
  }

  lemma SectionHasNoTempo(text: string)
    ensures TempoTokens([Quoted("\\section", text)]) == []
  {
    var q := Quoted("\\section", text);
    assert q == "\\section" + (" \"" + Escape(text) + "\"");
    assert q[2] == 'e' && q[1] == 's';
    OtherToken(q);
  }

  lemma TsHasNoTempo(sig: seq<int>)
    requires |sig| == 2
    ensures TempoTokens([TsToken(sig)]) == []
  {
    var t := TsToken(sig);
    assert t[1] == 't' && t[2] == 's';
    OtherToken(t);
  }

  /**
   * Keyed by the unit's measure, each printed measure carries exactly the
   * tempo marks the file gives for that measure, in file order.
   */
  lemma TemposFollowMeasure(es: seq<RTempo>, u: RubyRepeats.Unit, idx: nat, m: RMeasure, sig: seq<int>, changed: bool)
    requires |sig| == 2
    ensures TempoTokens(Meta(u, m, sig, changed, Lookup(TemposOf(es), TempoKey(u, idx, ByMeasureIndex)))) == TempoLine(BpmsFor(es, u.measure))
  {
    TemposOfMeaning(es, u.measure);
    MetaTempoTokens(u, m, sig, changed, Lookup(TemposOf(es), u.measure));
  }

  /** A measure with one beat: a rest, or a single open note. */
  function ExampleMeasure(rest: bool): RMeasure
  {
    var note := RNote(Some(0), FretNumber(0), false, false, false, None, false, false);
    var beat := RBeat(if rest then [] else [note], Some(4), Some([1, 4]), 0, rest, None, false, false, false, false);
    RMeasure(None, [RVoice(false, [beat])], None)
  }

  /**
   * Keyed by the unit index, as the source does, the tempo change at the
   * third measure of `[A, A, B]` is lost once the two `A`s fold into one
   * repeated unit: the two units are looked up under 0 and 1, while the
   * tempo is filed under 2.
   */
  lemma TempoByUnitIndexIsLost()
    ensures var ms := [ExampleMeasure(true), ExampleMeasure(true), ExampleMeasure(false)];
      var es := [RTempo(Some(2), Some(0), Some(90))];
      var units := UnitsOf(ms, 1);
      |units| == 2 && units[1].measure == 2 && BpmsFor(es, 2) == [90]
      && (forall idx :: 0 <= idx < |units| ==> Lookup(TemposOf(es), TempoKey(units[idx], idx, ByUnitIndex)) == [])
      && Lookup(TemposOf(es), TempoKey(units[1], 1, ByMeasureIndex)) == [90]
  {
    var ms := [ExampleMeasure(true), ExampleMeasure(true), ExampleMeasure(false)];
    var es := [RTempo(Some(2), Some(0), Some(90))];
    var canon := CanonicalMeasures(ms);
    assert canon[0] == canon[1] != canon[2] by {
      assert canon[2].beats[0].rest != canon[0].beats[0].rest;
    }
    var b := RubyRepeats.Block(0, 1, 2);
    assert canon[1..2] == canon[0..1];
    assert Windows.Copies(canon, 0, 1) == 2 by {
      assert Windows.CopyAt(canon, 0, 1, 1);
      assert canon[2..3] != canon[0..1] by { assert canon[2..3][0] != canon[0..1][0]; }
      assert !Windows.CopyAt(canon, 0, 1, 2);
    }
    assert Windows.Copies(canon, 2, 1) == 1;
    var blocks := RubyRepeats.DetectFrom(canon, 1, RubyRepeats.BreakOnOverrun, 0);
    assert RubyRepeats.DetectFrom(canon, 1, RubyRepeats.BreakOnOverrun, 3) == [];
    assert RubyRepeats.DetectFrom(canon, 1, RubyRepeats.BreakOnOverrun, 2) == [];
    assert blocks == [b];
    var index := RubyRepeats.BlockIndex(blocks);
    assert index == map[0 := b];
    var units := RubyRepeats.UnitsFrom(3, index, 0);
    assert RubyRepeats.UnitsFrom(3, index, 3) == [];
    assert RubyRepeats.UnitsFrom(3, index, 2) == [RubyRepeats.Unit(2, false, None)];
    assert units == RubyRepeats.BlockUnits(b) + [RubyRepeats.Unit(2, false, None)];
    assert es[..|es| - 1] == [] && KeptTempo(es[0]);
    assert TemposOf(es[..|es| - 1]) == map[];
    var none: map<int, seq<int>> := map[];
    assert TemposOf(es) == none[2 := Lookup(none, 2) + [90]];
    assert Lookup(none, 2) + [90] == [90];
    assert TemposOf(es) == map[2 := [90]];
  }
}
