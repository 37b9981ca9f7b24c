/**
 * The older formatter of jsonToAlphaText.ts, copied line for line into
 * public/jsonToAlphaText.js: no repeat inference, and ties tracked by one
 * flag per string (`previousNotes`) instead of the frets themselves. An
 * effectively tied note prints `-`, the note properties include the beat's
 * palm mute and let ring, and the `\ts` of a changed signature is the first
 * token of its measure line. The header, the tempo map, the signature
 * check, the beat normalization, the fraction helpers and the duration
 * resolution are the same code as in docs/jsonToAlphaText.js and are
 * shared with that model.
 */
module AlphaLegacy {
  import opened Wrappers
  import opened Text
  import opened Score
  import opened Sorting
  import opened Durations
  import opened AlphaText
  import opened AlphaBeats
  import opened AlphaMeasures
  import Normalize
  import AlphaDocument

  /** `previousNotes`: whether each of the six strings sounded in the beat before. */
  type Played = seq<bool>

  /** `Array(6).fill(false)`. */
  const NonePlayed: Played := [false, false, false, false, false, false]

  /** The content of a beat and the flags it hands on. */
  datatype LegacyContent = LegacyContent(text: string, nextNotes: Played)

  // ---------------------------------------------------------------------------
  // One note

  /** `formatNoteValue`: `-` under an effective tie, `x` for a dead note, else the fret. */
  function NoteValue(note: Note, effectiveTie: bool): (r: Result<string>)
    ensures effectiveTie ==> r == Ok("-")
    ensures !effectiveTie && note.dead ==> r == Ok("x")
    ensures !effectiveTie && !note.dead ==> (r.Ok? <==> note.fret.Some? && note.fret.value >= 0)
    ensures !effectiveTie && !note.dead && r.Ok? ==> r.value == IntToString(note.fret.value)
  {
    if effectiveTie then Ok("-")
    else if note.dead then Ok("x")
    else if note.fret.None? || note.fret.value < 0 then Err("Note fret must be a non-negative integer")
    else Ok(IntToString(note.fret.value))
  }

  /** `formatNoteProps`: ghost, hammer/pull, then the beat's palm mute and let ring. */
  function NoteProps(note: Note, beat: Beat): seq<string>
  {
    (if note.ghostNote then ["g"] else [])
    + (if note.hp then ["h"] else [])
    + (if beat.palmMute then ["pm"] else [])
    + (if beat.letRing then ["lr"] else [])
  }

  /** The place of a note property in the order `g`, `h`, `pm`, `lr`. */
  function PropRank(p: string): int
  {
    if p == "g" then 0 else if p == "h" then 1 else if p == "pm" then 2 else 3
  }

  /** The token of one note on string `s` (0-based), given whether that string sounded in the beat before. */
  function NoteToken(s: int, note: Note, hasPrev: bool, beat: Beat): Result<string>
    requires 0 <= s
  {
    var effectiveTie := note.tie && hasPrev;
    if note.tie && !hasPrev && note.fret.None? then Err("Tie without a previous note")
    else
      match NoteValue(note, effectiveTie)
        case Err(e) => Err(e)
        case Ok(value) => Ok(value + "." + NatToString(s + 1) + PropsSuffix(NoteProps(note, beat)))
  }

  // ---------------------------------------------------------------------------
  // All notes of a beat

  /** The tokens of the sorted entries, in order; the first failure stops the map. */
  function RenderEntries(es: seq<Entry>, prev: Played, beat: Beat): Result<seq<string>>
    requires ValidEntries(es) && |prev| == 6
  {
    if es == [] then Ok([])
    else
      match RenderEntries(es[..|es| - 1], prev, beat)
        case Err(e) => Err(e)
        case Ok(ts) =>
          var (s, note) := es[|es| - 1];
          match NoteToken(s, note, prev[s], beat)
            case Err(e) => Err(e)
            case Ok(t) => Ok(ts + [t])
  }

  /** `nextNotes` after the entries: set on each entry's string. */
  function PlayedAfter(es: seq<Entry>): (r: Played)
    requires ValidEntries(es)
    ensures |r| == 6
  {
    if es == [] then NonePlayed
    else PlayedAfter(es[..|es| - 1])[es[|es| - 1].0 := true]
  }

  /** `formatBeatContent` of the older formatter. */
  function BeatContent(beat: Beat, previous: Played): (r: Result<LegacyContent>)
    requires |previous| == 6
    ensures r.Ok? ==> |r.value.nextNotes| == 6
  {
    if beat.rest then Ok(LegacyContent("r", NonePlayed))
    else
      var active := ActiveNotes(beat.notes);
      if active == [] then Ok(LegacyContent("r", NonePlayed))
      else
        match IndexByString(active)
          case Err(e) => Err(e)
          case Ok(es) =>
            var sorted := SortBy(es, EntryKey);
            SortedValid(es, sorted);
            match RenderEntries(sorted, previous, beat)
              case Err(e) => Err(e)
              case Ok(tokens) => Ok(LegacyContent(Group(tokens), PlayedAfter(sorted)))
  }

  /** The token map of `formatBeatContent`, setting `nextNotes` string by string. */
  method RenderNotes(sorted: seq<Entry>, prev: Played, beat: Beat) returns (r: Result<(seq<string>, Played)>)
    requires ValidEntries(sorted) && |prev| == 6
    ensures RenderEntries(sorted, prev, beat).Err? ==> r == Err(RenderEntries(sorted, prev, beat).error)
    ensures RenderEntries(sorted, prev, beat).Ok? ==> r == Ok((RenderEntries(sorted, prev, beat).value, PlayedAfter(sorted)))
  {
    var tokens: seq<string> := [];
    var nextNotes := NonePlayed;
    for k := 0 to |sorted|
      invariant RenderEntries(sorted[..k], prev, beat) == Ok(tokens)
      invariant nextNotes == PlayedAfter(sorted[..k])
    {
      RenderStep(sorted, prev, beat, k);
      var (s, note) := sorted[k];
      nextNotes := nextNotes[s := true];
      var token := NoteToken(s, note, prev[s], beat);
      if token.Err? {
        RenderEntriesErrPersists(sorted, prev, beat, k + 1);
        return Err(token.error);
      }
      tokens := tokens + [token.value];
    }
    assert sorted[..|sorted|] == sorted;
    return Ok((tokens, nextNotes));
  }

  lemma RenderStep(es: seq<Entry>, prev: Played, beat: Beat, k: nat)
    requires ValidEntries(es) && |prev| == 6 && k < |es| && RenderEntries(es[..k], prev, beat).Ok?
    ensures var t := NoteToken(es[k].0, es[k].1, prev[es[k].0], beat);
      RenderEntries(es[..k + 1], prev, beat) == if t.Err? then Err(t.error) else Ok(RenderEntries(es[..k], prev, beat).value + [t.value])
    ensures PlayedAfter(es[..k + 1]) == PlayedAfter(es[..k])[es[k].0 := true]
  {
    assert es[..k + 1][..k] == es[..k];
  }

  lemma {:induction false} RenderEntriesErrPersists(es: seq<Entry>, prev: Played, beat: Beat, k: nat)
    requires ValidEntries(es) && |prev| == 6 && k <= |es|
    requires RenderEntries(es[..k], prev, beat).Err?
    ensures RenderEntries(es, prev, beat) == RenderEntries(es[..k], prev, beat)
    decreases |es| - k
  {
    if k < |es| {
      assert es[..k + 1][..k] == es[..k];
      RenderEntriesErrPersists(es, prev, beat, k + 1);
    } else {
      assert es[..k] == es;
    }
  }

  /** `formatBeatContent`. */
  method FormatBeatContent(beat: Beat, previous: Played) returns (r: Result<LegacyContent>)
    requires |previous| == 6
    ensures r == BeatContent(beat, previous)
  {
    if beat.rest {
      return Ok(LegacyContent("r", NonePlayed));
    }
    var active := ActiveNotes(beat.notes);
    if |active| == 0 {
      return Ok(LegacyContent("r", NonePlayed));
    }
    var indexed := IndexNotes(active);
    if indexed.Err? {
      return Err(indexed.error);
    }
    var es := indexed.value;
    var sorted := SortBy(es, EntryKey);
    SortedValid(es, sorted);
    var rendered := RenderNotes(sorted, previous, beat);
    if rendered.Err? {
      return Err(rendered.error);
    }
    var (tokens, nextNotes) := rendered.value;
    return Ok(LegacyContent(Group(tokens), nextNotes));
  }

  // ---------------------------------------------------------------------------
  // Properties of formatBeatContent

  /** Each note property is present exactly when its flag is set. */
  lemma NotePropsFlags(note: Note, beat: Beat)
    ensures ("g" in NoteProps(note, beat)) <==> note.ghostNote
    ensures ("h" in NoteProps(note, beat)) <==> note.hp
    ensures ("pm" in NoteProps(note, beat)) <==> beat.palmMute
    ensures ("lr" in NoteProps(note, beat)) <==> beat.letRing
  {
    PropNamesDistinct();
  }

  /** The note properties come in the order `g`, `h`, `pm`, `lr`. */
  lemma NotePropsOrder(note: Note, beat: Beat)
    ensures RankedProps(NoteProps(note, beat))
  {
    PropRanks();
    var g := if note.ghostNote then ["g"] else [];
    var h := if note.hp then ["h"] else [];
    var pm := if beat.palmMute then ["pm"] else [];
    var lr := if beat.letRing then ["lr"] else [];
    AppendRanked(g, h, 1);
    assert RanksBelow(g + h, 2);
    AppendRanked(g + h, pm, 2);
    assert RanksBelow(g + h + pm, 3);
    AppendRanked(g + h + pm, lr, 3);
  }

  lemma PropRanks()
    ensures PropRank("g") == 0 && PropRank("h") == 1 && PropRank("pm") == 2 && PropRank("lr") == 3
  {
    PropNamesDistinct();
  }

  predicate RanksBelow(ps: seq<string>, r: int)
  {
    forall x :: x in ps ==> PropRank(x) < r
  }

  predicate RanksFrom(ps: seq<string>, r: int)
  {
    forall x :: x in ps ==> r <= PropRank(x)
  }

  lemma PropNamesDistinct()
    ensures "g" != "h" && "g" != "pm" && "g" != "lr" && "h" != "pm" && "h" != "lr" && "pm" != "lr"
  {
    assert "g"[0] != "h"[0];
    assert "pm"[0] != "lr"[0];
  }

  /** Properties in strictly increasing rank. */
  predicate RankedProps(ps: seq<string>)
  {
    forall i, j :: 0 <= i < j < |ps| ==> PropRank(ps[i]) < PropRank(ps[j])
  }

  lemma AppendRanked(a: seq<string>, b: seq<string>, r: int)
    requires RankedProps(a) && RankedProps(b) && RanksBelow(a, r) && RanksFrom(b, r)
    ensures RankedProps(a + b)
  {
    forall i, j | 0 <= i < j < |a + b| ensures PropRank((a + b)[i]) < PropRank((a + b)[j]) {
      if j < |a| {
        assert (a + b)[i] == a[i] && (a + b)[j] == a[j];
      } else if i >= |a| {
        assert (a + b)[i] == b[i - |a|] && (a + b)[j] == b[j - |a|];
      } else {
        assert (a + b)[i] == a[i] && (a + b)[j] == b[j - |a|];
      }
    }
  }

  /** An effectively tied note prints `-` whatever its fret; a tie on a string that was silent needs a fret of its own. */
  lemma TiedNoteToken(s: int, note: Note, hasPrev: bool, beat: Beat)
    requires 0 <= s && note.tie
    ensures hasPrev ==> NoteToken(s, note, hasPrev, beat) == Ok("-." + NatToString(s + 1) + PropsSuffix(NoteProps(note, beat)))
    ensures !hasPrev ==> (NoteToken(s, note, hasPrev, beat).Ok? <==> note.fret.Some? && (note.dead || note.fret.value >= 0))
  {
    if hasPrev {
      assert NoteValue(note, true) == Ok("-");
      assert "-" + "." + NatToString(s + 1) + PropsSuffix(NoteProps(note, beat)) == "-." + NatToString(s + 1) + PropsSuffix(NoteProps(note, beat));
    }
  }

  /** A string is flagged after the entries exactly when some entry names it. */
  lemma {:induction false} PlayedAfterMeaning(es: seq<Entry>, s: int)
    requires ValidEntries(es) && 0 <= s < 6
    ensures PlayedAfter(es)[s] <==> exists i :: 0 <= i < |es| && es[i].0 == s
  {
    if es != [] {
      var init := es[..|es| - 1];
      PlayedAfterMeaning(init, s);
      if exists i :: 0 <= i < |init| && init[i].0 == s {
        var i :| 0 <= i < |init| && init[i].0 == s;
        assert es[i].0 == s;
      }
      if exists i :: 0 <= i < |es| && es[i].0 == s {
        var i :| 0 <= i < |es| && es[i].0 == s;
        if i < |init| {
          assert init[i].0 == s;
        }
      }
    }
  }

  /**
   * After a beat with notes, `nextNotes` is true exactly on the strings of
   * its active notes, whatever the flags before it.
   */
  lemma BeatContentMarksPlayed(beat: Beat, previous: Played, s: int)
    requires |previous| == 6 && 0 <= s < 6
    requires BeatContent(beat, previous).Ok? && !beat.rest
    ensures BeatContent(beat, previous).value.nextNotes[s] <==> exists n :: n in beat.notes && !n.rest && n.stringIndex == Some(s)
  {
    var active := ActiveNotes(beat.notes);
    if active != [] {
      var es := IndexByString(active).value;
      var sorted := SortBy(es, EntryKey);
      SortedValid(es, sorted);
      PlayedAfterMeaning(sorted, s);
      SortedKeepsStrings(es, sorted, s);
      EntriesNameActiveStrings(active, s);
    } else {
      assert forall n :: n in beat.notes && !n.rest ==> n in active;
    }
  }

  /** The indexed entries name exactly the strings of the active notes. */
  lemma EntriesNameActiveStrings(active: seq<Note>, s: int)
    requires IndexByString(active).Ok?
    ensures var es := IndexByString(active).value;
      (exists i :: 0 <= i < |es| && es[i].0 == s) <==> exists n :: n in active && n.stringIndex == Some(s)
  {
    var es := IndexByString(active).value;
    IndexByStringMeaning(active);
    if exists n :: n in active && n.stringIndex == Some(s) {
      var n :| n in active && n.stringIndex == Some(s);
      var i :| 0 <= i < |active| && active[i] == n;
      assert es[i].0 == s;
    }
  }

  /** Sorting the entries keeps the set of strings they name. */
  lemma SortedKeepsStrings(es: seq<Entry>, sorted: seq<Entry>, s: int)
    requires multiset(sorted) == multiset(es)
    ensures (exists i :: 0 <= i < |sorted| && sorted[i].0 == s) <==> (exists i :: 0 <= i < |es| && es[i].0 == s)
  {
    if exists i :: 0 <= i < |sorted| && sorted[i].0 == s {
      var i :| 0 <= i < |sorted| && sorted[i].0 == s;
      assert sorted[i] in multiset(es);
      var k :| 0 <= k < |es| && es[k] == sorted[i];
    }
    if exists i :: 0 <= i < |es| && es[i].0 == s {
      var i :| 0 <= i < |es| && es[i].0 == s;
      assert es[i] in multiset(sorted);
      var k :| 0 <= k < |sorted| && sorted[k] == es[i];
    }
  }

  /** A rest beat or a beat without active notes clears every flag; a bad or shared string fails the beat. */
  lemma BeatContentEdges(beat: Beat, previous: Played)
    requires |previous| == 6
    ensures beat.rest ==> BeatContent(beat, previous) == Ok(LegacyContent("r", NonePlayed))
    ensures !beat.rest && (forall n :: n in beat.notes ==> n.rest) ==> BeatContent(beat, previous) == Ok(LegacyContent("r", NonePlayed))
    ensures !beat.rest && !DistinctValidStrings(ActiveNotes(beat.notes)) ==> BeatContent(beat, previous).Err?
  {
    IndexByStringMeaning(ActiveNotes(beat.notes));
  }

  // ---------------------------------------------------------------------------
  // The whole beat

  /** A beat's token and the flags it hands on. */
  datatype LegacyToken = LegacyToken(token: string, nextNotes: Played)

  /** The beat properties of the older `formatBeat`: tempo, dots, tuplet (palm mute is a note property here). */
  function BeatProps(tempo: Option<string>, dots: int, tuplet: int): seq<string>
  {
    (if tempo.Some? then ["tempo " + tempo.value] else [])
    + (if dots >= 2 then ["dd"] else if dots == 1 then ["d"] else [])
    + (if tuplet != 0 then ["tu " + IntToString(tuplet)] else [])
  }

  /** `formatBeat`: the duration is resolved before the notes are formatted, so its error comes first. */
  function BeatTokenOf(beat: Beat, previous: Played, tempo: Option<string>): (r: Result<LegacyToken>)
    requires |previous| == 6
    ensures r.Ok? ==> |r.value.nextNotes| == 6
  {
    match ResolveDuration(beat)
      case Err(e) => Err(e)
      case Ok(info) =>
        match BeatContent(beat, previous)
          case Err(e) => Err(e)
          case Ok(c) =>
            Ok(LegacyToken(c.text + "." + IntToString(info.duration) + BeatPropsSuffix(BeatProps(tempo, beat.dots, info.tuplet)), c.nextNotes))
  }

  /** `formatBeat`. */
  method FormatBeat(beat: Beat, previous: Played, tempo: Option<string>) returns (r: Result<LegacyToken>)
    requires |previous| == 6
    ensures r == BeatTokenOf(beat, previous, tempo)
  {
    var durationInfo := ResolveDuration(beat);
    if durationInfo.Err? {
      return Err(durationInfo.error);
    }
    var content := FormatBeatContent(beat, previous);
    if content.Err? {
      return Err(content.error);
    }
    var props := BeatProps(tempo, beat.dots, durationInfo.value.tuplet);
    var beatToken := content.value.text + "." + IntToString(durationInfo.value.duration);
    return Ok(LegacyToken(beatToken + BeatPropsSuffix(props), content.value.nextNotes));
  }

  /** The beat properties never mention palm mute, and carry the tempo iff given and one dot mark per dot count. */
  lemma BeatPropsMeaning(tempo: Option<string>, dots: int, tuplet: int)
    ensures "pm" !in BeatProps(tempo, dots, tuplet)
    ensures ("dd" in BeatProps(tempo, dots, tuplet)) <==> dots >= 2
    ensures ("d" in BeatProps(tempo, dots, tuplet)) <==> dots == 1
    ensures BeatProps(tempo, dots, tuplet) == [] <==> tempo.None? && dots != 1 && dots < 2 && tuplet == 0
  {
    var t := if tempo.Some? then ["tempo " + tempo.value] else [];
    var d := if dots >= 2 then ["dd"] else if dots == 1 then ["d"] else [];
    var u := if tuplet != 0 then ["tu " + IntToString(tuplet)] else [];
    if tempo.Some? {
      TempoPropNotMark(tempo.value);
    }
    if tuplet != 0 {
      TupletPropNotMark(IntToString(tuplet));
    }
    assert BeatProps(tempo, dots, tuplet) == t + d + u;
  }

  lemma TempoPropNotMark(bpm: string)
    ensures var p := "tempo " + bpm; p != "pm" && p != "dd" && p != "d"
  {
    TempoPropIsLong(bpm);
  }

  lemma TupletPropNotMark(n: string)
    ensures var p := "tu " + n; p != "pm" && p != "dd" && p != "d"
  {
    assert ("tu " + n)[..3] == "tu ";
  }

  /** A beat token never starts with a backslash. */
  lemma BeatTokenStartsPlain(beat: Beat, previous: Played, tempo: Option<string>)
    requires |previous| == 6 && BeatTokenOf(beat, previous, tempo).Ok?
    ensures StartsPlain(BeatTokenOf(beat, previous, tempo).value.token)
  {
    var c := BeatContent(beat, previous).value;
    if !beat.rest && ActiveNotes(beat.notes) != [] {
      var es := IndexByString(ActiveNotes(beat.notes)).value;
      var sorted := SortBy(es, EntryKey);
      SortedValid(es, sorted);
      RenderEntriesStartPlain(sorted, previous, beat);
    }
    assert StartsPlain(c.text);
    assert BeatTokenOf(beat, previous, tempo).value.token[0] == c.text[0];
  }

  lemma {:induction false} RenderEntriesStartPlain(es: seq<Entry>, prev: Played, beat: Beat)
    requires ValidEntries(es) && |prev| == 6 && RenderEntries(es, prev, beat).Ok?
    ensures forall k :: 0 <= k < |RenderEntries(es, prev, beat).value| ==> StartsPlain(RenderEntries(es, prev, beat).value[k])
  {
    if es != [] {
      var init := es[..|es| - 1];
      RenderEntriesStartPlain(init, prev, beat);
      var (s, note) := es[|es| - 1];
      NoteTokenStartsPlain(s, note, prev[s], beat);
    }
  }

  lemma NoteTokenStartsPlain(s: int, note: Note, hasPrev: bool, beat: Beat)
    requires 0 <= s && NoteToken(s, note, hasPrev, beat).Ok?
    ensures StartsPlain(NoteToken(s, note, hasPrev, beat).value)
  {
    var effectiveTie := note.tie && hasPrev;
    var value := NoteValue(note, effectiveTie).value;
    if !effectiveTie && !note.dead {
      IntToStringStartsPlain(note.fret.value);
    }
    assert NoteToken(s, note, hasPrev, beat).value[0] == value[0];
  }

  // ---------------------------------------------------------------------------
  // The beats of one measure

  /** The tokens of a measure's beats and the flags after them; the first beat also gets the measure's tempo. */
  function BeatRun(beats: seq<Beat>, carry: Played, tempo: Option<string>): (r: Result<(seq<string>, Played)>)
    requires |carry| == 6
    ensures r.Ok? ==> |r.value.0| == |beats| && |r.value.1| == 6
  {
    if beats == [] then Ok(([], carry))
    else
      match BeatRun(beats[..|beats| - 1], carry, tempo)
        case Err(e) => Err(e)
        case Ok((tokens, c)) =>
          match BeatTokenOf(beats[|beats| - 1], c, if |beats| == 1 then tempo else None)
            case Err(e) => Err(e)
            case Ok(bt) => Ok((tokens + [bt.token], bt.nextNotes))
  }

  lemma {:induction false} BeatRunErrPersists(beats: seq<Beat>, carry: Played, tempo: Option<string>, k: nat)
    requires |carry| == 6 && k <= |beats| && BeatRun(beats[..k], carry, tempo).Err?
    ensures BeatRun(beats, carry, tempo) == BeatRun(beats[..k], carry, tempo)
    decreases |beats| - k
  {
    if k < |beats| {
      assert beats[..k + 1][..k] == beats[..k];
      BeatRunErrPersists(beats, carry, tempo, k + 1);
    } else {
      assert beats[..k] == beats;
    }
  }

  lemma BeatRunStep(beats: seq<Beat>, carry: Played, tempo: Option<string>, i: nat)
    requires |carry| == 6 && i < |beats| && BeatRun(beats[..i], carry, tempo).Ok?
    ensures var (tokens, c) := BeatRun(beats[..i], carry, tempo).value;
      var bt := BeatTokenOf(beats[i], c, if i == 0 then tempo else None);
      BeatRun(beats[..i + 1], carry, tempo) == if bt.Err? then Err(bt.error) else Ok((tokens + [bt.value.token], bt.value.nextNotes))
  {
    assert beats[..i + 1][..i] == beats[..i];
  }

  /** The `beats.forEach` of a measure. */
  method FormatMeasureBeats(beats: seq<Beat>, carry: Played, tempo: Option<string>) returns (r: Result<(seq<string>, Played)>)
    requires |carry| == 6
    ensures r == BeatRun(beats, carry, tempo)
  {
    var tokens: seq<string> := [];
    var measurePreviousNotes := carry;
    for beatIndex := 0 to |beats|
      invariant BeatRun(beats[..beatIndex], carry, tempo) == Ok((tokens, measurePreviousNotes))
    {
      BeatRunStep(beats, carry, tempo, beatIndex);
      var beatTempo := if beatIndex == 0 then tempo else None;
      var formatted := FormatBeat(beats[beatIndex], measurePreviousNotes, beatTempo);
      if formatted.Err? {
        BeatRunErrPersists(beats, carry, tempo, beatIndex + 1);
        return Err(formatted.error);
      }
      measurePreviousNotes := formatted.value.nextNotes;
      tokens := tokens + [formatted.value.token];
    }
    assert beats[..|beats|] == beats;
    return Ok((tokens, measurePreviousNotes));
  }

  /** Every beat token of a measure starts plain. */
  lemma {:induction false} BeatRunStartsPlain(beats: seq<Beat>, carry: Played, tempo: Option<string>)
    requires |carry| == 6 && BeatRun(beats, carry, tempo).Ok?
    ensures forall k :: 0 <= k < |BeatRun(beats, carry, tempo).value.0| ==> StartsPlain(BeatRun(beats, carry, tempo).value.0[k])
  {
    if beats != [] {
      var init := beats[..|beats| - 1];
      BeatRunStartsPlain(init, carry, tempo);
      var c := BeatRun(init, carry, tempo).value.1;
      BeatTokenStartsPlain(beats[|beats| - 1], c, if |beats| == 1 then tempo else None);
    }
  }

  // ---------------------------------------------------------------------------
  // The measure loop

  /** The state threaded through `score.measures.forEach`. */
  datatype LegacyRunning = LegacyRunning(signature: Signature, previousNotes: Played)

  predicate ValidLegacy(s: LegacyRunning)
  {
    s.signature.0 > 0 && s.signature.1 > 0 && |s.previousNotes| == 6
  }

  /** `[4, 4]` and no string sounding. */
  const LegacyStart: LegacyRunning := LegacyRunning((4, 4), NonePlayed)

  /** The `// marker` line of a measure, if it has marker text. */
  function MarkerLines(m: Measure): seq<string>
  {
    if m.markerText != "" then ["// " + m.markerText] else []
  }

  /** The tokens of a measure line: `\ts` first when the signature changed, then the beats. */
  function WithSignature(sig: Signature, changed: bool, beatTokens: seq<string>): seq<string>
  {
    (if changed then [TsToken(sig)] else []) + beatTokens
  }

  /** The marker line if any, then `  <tokens> |`. */
  function MeasureLines(m: Measure, sig: Signature, changed: bool, beatTokens: seq<string>): seq<string>
  {
    MarkerLines(m) + ["  " + Join(WithSignature(sig, changed, beatTokens), " ") + " |"]
  }

  /** The lines one measure adds, with the state after it. */
  function MeasureStep(m: Measure, index: int, s: LegacyRunning, tempoMap: map<int, string>): (r: Result<(seq<string>, LegacyRunning)>)
    requires ValidLegacy(s)
    ensures r.Ok? ==> ValidLegacy(r.value.1)
  {
    match SignatureAfter(m, s.signature)
      case Err(e) => Err(e)
      case Ok((sig, changed)) =>
        match Normalize.Normalized(m, sig.0, sig.1)
          case Err(e) => Err(e)
          case Ok(beats) =>
            match BeatRun(beats, s.previousNotes, TempoAt(tempoMap, index))
              case Err(e) => Err(e)
              case Ok((tokens, notes)) =>
                Ok((MeasureLines(m, sig, changed, tokens), LegacyRunning(sig, notes)))
  }

  /** The lines of the first measures and the state after them; the first failing measure stops the conversion. */
  function LinesRun(ms: seq<Measure>, tempoMap: map<int, string>): (r: Result<(seq<string>, LegacyRunning)>)
    ensures r.Ok? ==> ValidLegacy(r.value.1)
  {
    if ms == [] then Ok(([], LegacyStart))
    else
      match LinesRun(ms[..|ms| - 1], tempoMap)
        case Err(e) => Err(e)
        case Ok((lines, s)) =>
          match MeasureStep(ms[|ms| - 1], |ms| - 1, s, tempoMap)
            case Err(e) => Err(e)
            case Ok((more, s')) => Ok((lines + more, s'))
  }

  lemma {:induction false} LinesRunErrPersists(ms: seq<Measure>, tempoMap: map<int, string>, k: nat)
    requires k <= |ms| && LinesRun(ms[..k], tempoMap).Err?
    ensures LinesRun(ms, tempoMap) == LinesRun(ms[..k], tempoMap)
    decreases |ms| - k
  {
    if k < |ms| {
      assert ms[..k + 1][..k] == ms[..k];
      LinesRunErrPersists(ms, tempoMap, k + 1);
    } else {
      assert ms[..k] == ms;
    }
  }

  lemma LinesRunStep(ms: seq<Measure>, tempoMap: map<int, string>, i: nat)
    requires i < |ms| && LinesRun(ms[..i], tempoMap).Ok?
    ensures var (lines, s) := LinesRun(ms[..i], tempoMap).value;
      var step := MeasureStep(ms[i], i, s, tempoMap);
      LinesRun(ms[..i + 1], tempoMap) == if step.Err? then Err(step.error) else Ok((lines + step.value.0, step.value.1))
  {
    assert ms[..i + 1][..i] == ms[..i];
  }

  /** The measure loop of the older `jsonToAlphaText`, pushing each measure's lines. */
  method EmitMeasures(ms: seq<Measure>, tempoMap: map<int, string>) returns (r: Result<seq<string>>)
    ensures LinesRun(ms, tempoMap).Err? ==> r == Err(LinesRun(ms, tempoMap).error)
    ensures LinesRun(ms, tempoMap).Ok? ==> r == Ok(LinesRun(ms, tempoMap).value.0)
  {
    var currentSignature: Signature := (4, 4);
    var previousNotes: Played := NonePlayed;
    var lines: seq<string> := [];
    for measureIndex := 0 to |ms|
      invariant LinesRun(ms[..measureIndex], tempoMap) == Ok((lines, LegacyRunning(currentSignature, previousNotes)))
    {
      LinesRunStep(ms, tempoMap, measureIndex);
      var measure := ms[measureIndex];
      var after := SignatureAfter(measure, currentSignature);
      if after.Err? {
        LinesRunErrPersists(ms, tempoMap, measureIndex + 1);
        return Err(after.error);
      }
      var (sig, signatureChanged) := after.value;
      currentSignature := sig;
      var beats := Normalize.NormalizeBeats(measure, sig.0, sig.1);
      if beats.Err? {
        LinesRunErrPersists(ms, tempoMap, measureIndex + 1);
        return Err(beats.error);
      }
      var formatted := FormatMeasureBeats(beats.value, previousNotes, TempoAt(tempoMap, measureIndex));
      if formatted.Err? {
        LinesRunErrPersists(ms, tempoMap, measureIndex + 1);
        return Err(formatted.error);
      }
      var (tokens, measurePreviousNotes) := formatted.value;
      lines := lines + MeasureLines(measure, sig, signatureChanged, tokens);
      previousNotes := measurePreviousNotes;
    }
    assert ms[..|ms|] == ms;
    return Ok(lines);
  }

  // ---------------------------------------------------------------------------
  // Properties of the measure loop

  /**
   * A measure line holds `\ts` exactly once when the valid signature written
   * on the measure differs from the one in force, and not at all otherwise;
   * the beat tokens follow in order.
   */
  lemma TsOnlyOnChange(m: Measure, index: int, s: LegacyRunning, tempoMap: map<int, string>)
    requires ValidLegacy(s)
    requires MeasureStep(m, index, s, tempoMap).Ok?
    ensures var (sig, changed) := SignatureAfter(m, s.signature).value;
      var beats := Normalize.Normalized(m, sig.0, sig.1).value;
      var tokens := BeatRun(beats, s.previousNotes, TempoAt(tempoMap, index)).value.0;
      && (changed <==> m.signature.Some? && sig != s.signature)
      && multiset(WithSignature(sig, changed, tokens))[TsToken(sig)] == (if changed then 1 else 0)
      && WithSignature(sig, changed, tokens)[|WithSignature(sig, changed, tokens)| - |tokens|..] == tokens
  {
    var (sig, changed) := SignatureAfter(m, s.signature).value;
    var beats := Normalize.Normalized(m, sig.0, sig.1).value;
    var tokens := BeatRun(beats, s.previousNotes, TempoAt(tempoMap, index)).value.0;
    BeatRunStartsPlain(beats, s.previousNotes, TempoAt(tempoMap, index));
    TsTokenHead(sig);
    forall k | 0 <= k < |tokens| ensures tokens[k] != TsToken(sig) {
      assert StartsPlain(tokens[k]);
    }
    var w := WithSignature(sig, changed, tokens);
    var head := if changed then [TsToken(sig)] else [];
    assert w == head + tokens;
    assert multiset(w) == multiset(head) + multiset(tokens);
  }

  /** Each measure adds its bar line, preceded by its marker line when it has one. */
  lemma {:induction false} LinesRunCount(ms: seq<Measure>, tempoMap: map<int, string>)
    requires LinesRun(ms, tempoMap).Ok?
    ensures |LinesRun(ms, tempoMap).value.0| == |ms| + MarkerCount(ms)
  {
    if ms != [] {
      LinesRunCount(ms[..|ms| - 1], tempoMap);
    }
  }

  /** The number of measures with marker text. */
  function MarkerCount(ms: seq<Measure>): nat
  {
    if ms == [] then 0 else MarkerCount(ms[..|ms| - 1]) + (if ms[|ms| - 1].markerText != "" then 1 else 0)
  }

  // ---------------------------------------------------------------------------
  // The document

  /**
   * The older `jsonToAlphaText`: the header, then every measure's lines, the
   * first failure aborting the conversion.
   */
  method JsonToAlphaText(score: Score, title: string) returns (r: Result<string>)
    ensures score.measures.None? ==> r == Err("Score JSON must include a \"measures\" array")
    ensures score.measures.Some? ==>
      (r.Ok? <==> AlphaDocument.HeaderLines(score, title).Ok? && LinesRun(score.measures.value, AlphaDocument.ScoreTempoMap(score)).Ok?)
    ensures r.Ok? ==> r.value == Join(AlphaDocument.HeaderLines(score, title).value + LinesRun(score.measures.value, AlphaDocument.ScoreTempoMap(score)).value.0, "\n")
  {
    if score.measures.None? {
      return Err("Score JSON must include a \"measures\" array");
    }
    var header := AlphaDocument.HeaderLines(score, title);
    if header.Err? {
      return Err(header.error);
    }
    var tempoMap := BuildTempoMap(score.tempo);
    var lines := EmitMeasures(score.measures.value, tempoMap);
    if lines.Err? {
      return Err(lines.error);
    }
    return Ok(Join(header.value + lines.value, "\n"));
  }
}
