/**
 * Beat formatting of docs/jsonToAlphaText.js (lines 352-375 and 431-496):
 * the notes of a beat become alphaTex tokens in string order, and the fret
 * played on each string is carried to the next beat so that a tied note
 * can repeat it.
 */
module AlphaBeats {
  import opened Wrappers
  import opened Text
  import opened Score
  import opened Sorting
  import opened Durations

  /**
   * The frets carried from beat to beat: six entries, one per string, `None`
   * for no fret. The carry itself is `None` when it is JavaScript
   * `undefined`: a non-rest beat without active notes returns its carry
   * under the key `nextNotes` (docs/jsonToAlphaText.js line 439), so the
   * caller reads `nextFrets` as `undefined`.
   */
  type Frets = seq<Option<int>>

  predicate WellFormedCarry(c: Option<Frets>)
  {
    c.None? || |c.value| == 6
  }

  /** `Array(6).fill(null)`. */
  const NoFrets: Frets := [None, None, None, None, None, None]

  /** The content of a beat and the carry it hands on. */
  datatype Content = Content(text: string, nextFrets: Option<Frets>)

  // ---------------------------------------------------------------------------
  // Notes by string

  /** `notes.filter((note) => note && !note.rest)`. */
  function ActiveNotes(notes: seq<Note>): (r: seq<Note>)
    ensures forall n :: n in r <==> n in notes && !n.rest
  {
    if notes == [] then []
    else (if notes[0].rest then [] else [notes[0]]) + ActiveNotes(notes[1..])
  }

  /** A string index `formatBeatContent` accepts. */
  predicate ValidString(s: Option<int>)
  {
    s.Some? && 0 <= s.value <= 5
  }

  /** Entries keyed by string index, as `notesByString.entries()` yields them. */
  type Entry = (int, Note)

  function EntryStrings(es: seq<Entry>): seq<int>
  {
    if es == [] then [] else EntryStrings(es[..|es| - 1]) + [es[|es| - 1].0]
  }

  lemma {:induction false} EntryStringsIndex(es: seq<Entry>)
    ensures |EntryStrings(es)| == |es|
    ensures forall i :: 0 <= i < |es| ==> EntryStrings(es)[i] == es[i].0
  {
    if es != [] {
      EntryStringsIndex(es[..|es| - 1]);
    }
  }

  /**
   * The validation loop of `formatBeatContent`: each active note in turn
   * must name a string 0..5 not named before.
   */
  function IndexByString(active: seq<Note>): (r: Result<seq<Entry>>)
    ensures r.Ok? ==> ValidEntries(r.value)
  {
    if active == [] then Ok([])
    else
      match IndexByString(active[..|active| - 1])
        case Err(e) => Err(e)
        case Ok(es) =>
          var note := active[|active| - 1];
          if !ValidString(note.stringIndex) then Err("Invalid string index")
          else if note.stringIndex.value in EntryStrings(es) then Err("Multiple notes on one string in the same beat")
          else Ok(es + [(note.stringIndex.value, note)])
  }

  /** Strings named by the notes are valid and pairwise distinct. */
  predicate DistinctValidStrings(active: seq<Note>)
  {
    (forall i :: 0 <= i < |active| ==> ValidString(active[i].stringIndex))
    && (forall i, j :: 0 <= i < j < |active| ==> active[i].stringIndex != active[j].stringIndex)
  }

  /**
   * Indexing succeeds exactly when every string is valid and no two notes
   * share one; the entries are then the notes in order, keyed by string.
   */
  lemma {:induction false} IndexByStringMeaning(active: seq<Note>)
    ensures IndexByString(active).Ok? <==> DistinctValidStrings(active)
    ensures IndexByString(active).Ok? ==>
      var es := IndexByString(active).value;
      |es| == |active| && forall i :: 0 <= i < |active| ==> es[i] == (active[i].stringIndex.value, active[i])
  {
    if active != [] {
      var init := active[..|active| - 1];
      var note := active[|active| - 1];
      IndexByStringMeaning(init);
      assert forall i :: 0 <= i < |init| ==> init[i] == active[i];
      if IndexByString(init).Ok? {
        var es := IndexByString(init).value;
        EntryStringsIndex(es);
        if ValidString(note.stringIndex) && note.stringIndex.value in EntryStrings(es) {
          var j :| 0 <= j < |es| && EntryStrings(es)[j] == note.stringIndex.value;
          assert active[j].stringIndex == note.stringIndex;
        }
      } else {
        assert !DistinctValidStrings(init);
      }
    }
  }

  /** The sort key of `(a, b) => a[0] - b[0]`. */
  function EntryKey(e: Entry): (int, int)
  {
    (e.0, 0)
  }

  predicate ValidEntries(es: seq<Entry>)
  {
    forall i :: 0 <= i < |es| ==> 0 <= es[i].0 <= 5
  }

  // ---------------------------------------------------------------------------
  // One note

  /** The fret carried on a note's string: the played fret, or the previous one under an effective tie. */
  function NextFret(note: Note, prevFret: Option<int>): Option<int>
  {
    var effectiveTie := note.tie && prevFret.Some?;
    if !effectiveTie && note.fret.Some? then note.fret
    else if effectiveTie then prevFret
    else None
  }

  /** `formatNoteValue`: the previous fret under an effective tie, `x` for a dead note, else the fret. */
  function NoteValue(note: Note, effectiveTie: bool, prevFret: Option<int>): (r: Result<string>)
    ensures effectiveTie && prevFret.Some? ==> r == Ok(IntToString(prevFret.value))
    ensures !(effectiveTie && prevFret.Some?) && note.dead ==> r == Ok("x")
    ensures !(effectiveTie && prevFret.Some?) && !note.dead ==>
      (r.Ok? <==> note.fret.Some? && note.fret.value >= 0)
  {
    if effectiveTie && prevFret.Some? then Ok(IntToString(prevFret.value))
    else if note.dead then Ok("x")
    else if note.fret.None? || note.fret.value < 0 then Err("Note fret must be a non-negative integer")
    else Ok(IntToString(note.fret.value))
  }

  /** `formatNoteProps`: `g`, `h`, then `t` when a tie moves to a different fret. */
  function NoteProps(note: Note, effectiveTie: bool, prevFret: Option<int>, currentFret: Option<int>): seq<string>
  {
    (if note.ghostNote then ["g"] else [])
    + (if note.hp then ["h"] else [])
    + (if effectiveTie && prevFret.Some? && currentFret.Some? && currentFret != prevFret then ["t"] else [])
  }

  /** `{a b}` after a token when there are properties. */
  function PropsSuffix(props: seq<string>): string
  {
    if props == [] then "" else "{" + Join(props, " ") + "}"
  }

  /** The token of one note on string `s` (0-based), given the fret carried on that string. */
  function NoteToken(s: int, note: Note, prevFret: Option<int>): Result<string>
    requires 0 <= s
  {
    var effectiveTie := note.tie && prevFret.Some?;
    if note.tie && prevFret.None? && note.fret.None? then Err("Tie without a previous note")
    else
      match NoteValue(note, effectiveTie, prevFret)
        case Err(e) => Err(e)
        case Ok(value) => Ok(value + "." + NatToString(s + 1) + PropsSuffix(NoteProps(note, effectiveTie, prevFret, note.fret)))
  }

  // ---------------------------------------------------------------------------
  // All notes of a beat

  /** The tokens of the sorted entries, in order; the first failure stops the map. */
  function RenderEntries(es: seq<Entry>, prev: Frets): Result<seq<string>>
    requires ValidEntries(es) && |prev| == 6
  {
    if es == [] then Ok([])
    else
      match RenderEntries(es[..|es| - 1], prev)
        case Err(e) => Err(e)
        case Ok(ts) =>
          var (s, note) := es[|es| - 1];
          match NoteToken(s, note, prev[s])
            case Err(e) => Err(e)
            case Ok(t) => Ok(ts + [t])
  }

  /** `nextFrets` after the entries: each string's entry set by `NextFret`. */
  function FretsAfter(es: seq<Entry>, prev: Frets): (r: Frets)
    requires ValidEntries(es) && |prev| == 6
    ensures |r| == 6
  {
    if es == [] then NoFrets
    else
      var (s, note) := es[|es| - 1];
      FretsAfter(es[..|es| - 1], prev)[s := NextFret(note, prev[s])]
  }

  /** `formatBeatContent`. */
  function BeatContent(beat: Beat, previous: Option<Frets>): (r: Result<Content>)
    requires WellFormedCarry(previous)
    ensures r.Ok? ==> WellFormedCarry(r.value.nextFrets)
  {
    if beat.rest then Ok(Content("r", Some(NoFrets)))
    else
      var active := ActiveNotes(beat.notes);
      if active == [] then Ok(Content("r", None))
      else
        match IndexByString(active)
          case Err(e) => Err(e)
          case Ok(es) =>
            var sorted := SortBy(es, EntryKey);
            SortedValid(es, sorted);
            if previous.None? then Err("TypeError: previousFrets is undefined")
            else
              match RenderEntries(sorted, previous.value)
                case Err(e) => Err(e)
                case Ok(tokens) => Ok(Content(Group(tokens), Some(FretsAfter(sorted, previous.value))))
  }

  /** One token stands alone; several are grouped in parentheses. */
  function Group(tokens: seq<string>): string
  {
    if |tokens| == 1 then tokens[0] else "(" + Join(tokens, " ") + ")"
  }

  lemma SortedValid(es: seq<Entry>, sorted: seq<Entry>)
    requires ValidEntries(es) && multiset(sorted) == multiset(es)
    ensures ValidEntries(sorted)
  {
    forall i | 0 <= i < |sorted| ensures 0 <= sorted[i].0 <= 5 {
      assert sorted[i] in multiset(es);
      var j :| 0 <= j < |es| && es[j] == sorted[i];
    }
  }

  /** The validation loop: the entries of `notesByString`, or the first error. */
  method IndexNotes(active: seq<Note>) returns (r: Result<seq<Entry>>)
    ensures r == IndexByString(active)
  {
    var es: seq<Entry> := [];
    for k := 0 to |active|
      invariant IndexByString(active[..k]) == Ok(es)
    {
      assert active[..k + 1][..k] == active[..k];
      var note := active[k];
      if !ValidString(note.stringIndex) {
        IndexErrPersists(active, k + 1);
        return Err("Invalid string index");
      }
      if note.stringIndex.value in EntryStrings(es) {
        IndexErrPersists(active, k + 1);
        return Err("Multiple notes on one string in the same beat");
      }
      es := es + [(note.stringIndex.value, note)];
    }
    assert active[..|active|] == active;
    return Ok(es);
  }

  lemma {:induction false} IndexErrPersists(active: seq<Note>, k: nat)
    requires k <= |active| && IndexByString(active[..k]).Err?
    ensures IndexByString(active) == IndexByString(active[..k])
    decreases |active| - k
  {
    if k < |active| {
      assert active[..k + 1][..k] == active[..k];
      IndexErrPersists(active, k + 1);
    } else {
      assert active[..k] == active;
    }
  }

  /** The token map of `formatBeatContent`, filling `nextFrets` string by string. */
  method RenderNotes(sorted: seq<Entry>, prev: Frets) returns (r: Result<(seq<string>, Frets)>)
    requires ValidEntries(sorted) && |prev| == 6
    ensures RenderEntries(sorted, prev).Err? ==> r == Err(RenderEntries(sorted, prev).error)
    ensures RenderEntries(sorted, prev).Ok? ==> r == Ok((RenderEntries(sorted, prev).value, FretsAfter(sorted, prev)))
  {
    var tokens: seq<string> := [];
    var nextFrets := NoFrets;
    for k := 0 to |sorted|
      invariant RenderEntries(sorted[..k], prev) == Ok(tokens)
      invariant nextFrets == FretsAfter(sorted[..k], prev)
    {
      assert sorted[..k + 1][..k] == sorted[..k];
      var (s, note) := sorted[k];
      var token := NoteToken(s, note, prev[s]);
      if token.Err? {
        assert RenderEntries(sorted[..k + 1], prev) == Err(token.error);
        RenderEntriesErrPersists(sorted, prev, k + 1);
        return Err(token.error);
      }
      nextFrets := nextFrets[s := NextFret(note, prev[s])];
      tokens := tokens + [token.value];
    }
    assert sorted[..|sorted|] == sorted;
    return Ok((tokens, nextFrets));
  }

  lemma {:induction false} RenderEntriesErrPersists(es: seq<Entry>, prev: Frets, k: nat)
    requires ValidEntries(es) && |prev| == 6 && k <= |es|
    requires RenderEntries(es[..k], prev).Err?
    ensures RenderEntries(es, prev) == RenderEntries(es[..k], prev)
    decreases |es| - k
  {
    if k < |es| {
      assert es[..k + 1][..k] == es[..k];
      RenderEntriesErrPersists(es, prev, k + 1);
    } else {
      assert es[..k] == es;
    }
  }

  /** `formatBeatContent`. */
  method FormatBeatContent(beat: Beat, previous: Option<Frets>) returns (r: Result<Content>)
    requires WellFormedCarry(previous)
    ensures r == BeatContent(beat, previous)
  {
    if beat.rest {
      return Ok(Content("r", Some(NoFrets)));
    }
    var active := ActiveNotes(beat.notes);
    if |active| == 0 {
      return Ok(Content("r", None));
    }
    var indexed := IndexNotes(active);
    if indexed.Err? {
      return Err(indexed.error);
    }
    var es := indexed.value;
    var sorted := SortBy(es, EntryKey);
    SortedValid(es, sorted);
    if previous.None? {
      return Err("TypeError: previousFrets is undefined");
    }
    var rendered := RenderNotes(sorted, previous.value);
    if rendered.Err? {
      return Err(rendered.error);
    }
    var (tokens, nextFrets) := rendered.value;
    return Ok(Content(Group(tokens), Some(nextFrets)));
  }

  // ---------------------------------------------------------------------------
  // Properties of formatBeatContent

  /** A rest beat resets every string; a beat without active notes hands on `undefined`. */
  lemma BeatContentEmpty(beat: Beat, previous: Option<Frets>)
    requires WellFormedCarry(previous)
    ensures beat.rest ==> BeatContent(beat, previous) == Ok(Content("r", Some(NoFrets)))
    ensures !beat.rest && (forall n :: n in beat.notes ==> n.rest) ==> BeatContent(beat, previous) == Ok(Content("r", None))
  {
    if !beat.rest && (forall n :: n in beat.notes ==> n.rest) {
      if ActiveNotes(beat.notes) != [] {
        assert ActiveNotes(beat.notes)[0] in ActiveNotes(beat.notes);
      }
    }
  }

  /** A beat with notes fails exactly on a bad string index or two notes on one string, or when the carry is `undefined`. */
  lemma BeatContentStringErrors(beat: Beat, previous: Option<Frets>)
    requires WellFormedCarry(previous)
    requires !beat.rest && ActiveNotes(beat.notes) != []
    ensures !DistinctValidStrings(ActiveNotes(beat.notes)) ==> BeatContent(beat, previous).Err?
    ensures previous.None? ==> BeatContent(beat, previous).Err?
  {
    IndexByStringMeaning(ActiveNotes(beat.notes));
  }

  /**
   * The tokens come out in increasing string order, one per active note:
   * the sorted entries are the indexed notes, strictly ordered by string.
   */
  lemma SortedEntriesIncrease(active: seq<Note>)
    requires IndexByString(active).Ok?
    ensures var sorted := SortBy(IndexByString(active).value, EntryKey);
      |sorted| == |active|
      && (forall i, j :: 0 <= i < j < |sorted| ==> sorted[i].0 < sorted[j].0)
      && (forall i :: 0 <= i < |sorted| ==> sorted[i].1 in active && sorted[i].1.stringIndex == Some(sorted[i].0))
  {
    var es := IndexByString(active).value;
    IndexByStringMeaning(active);
    var sorted := SortBy(es, EntryKey);
    EntriesDistinct(active, es);
    SortedStrictly(es, sorted);
    SortedFromNotes(active, es, sorted);
  }

  lemma EntriesDistinct(active: seq<Note>, es: seq<Entry>)
    requires DistinctValidStrings(active)
    requires |es| == |active| && forall i :: 0 <= i < |active| ==> active[i].stringIndex == Some(es[i].0) && es[i].1 == active[i]
    ensures forall a, b :: 0 <= a < b < |es| ==> es[a].0 != es[b].0
  {
    forall a, b | 0 <= a < b < |es| ensures es[a].0 != es[b].0 {
      assert active[a].stringIndex != active[b].stringIndex;
    }
  }

  lemma SortedFromNotes(active: seq<Note>, es: seq<Entry>, sorted: seq<Entry>)
    requires |es| == |active| && forall i :: 0 <= i < |active| ==> active[i].stringIndex == Some(es[i].0) && es[i].1 == active[i]
    requires multiset(sorted) == multiset(es)
    ensures forall i :: 0 <= i < |sorted| ==> sorted[i].1 in active && sorted[i].1.stringIndex == Some(sorted[i].0)
  {
    forall i | 0 <= i < |sorted|
      ensures sorted[i].1 in active && sorted[i].1.stringIndex == Some(sorted[i].0)
    {
      assert sorted[i] in multiset(es);
      var k :| 0 <= k < |es| && es[k] == sorted[i];
    }
  }

  lemma SortedStrictly(es: seq<Entry>, sorted: seq<Entry>)
    requires forall a, b :: 0 <= a < b < |es| ==> es[a].0 != es[b].0
    requires multiset(sorted) == multiset(es) && SortedBy(sorted, EntryKey)
    ensures forall i, j :: 0 <= i < j < |sorted| ==> sorted[i].0 < sorted[j].0
  {
    forall i, j | 0 <= i < j < |sorted| ensures sorted[i].0 < sorted[j].0 {
      assert KeyLe(EntryKey(sorted[i]), EntryKey(sorted[j]));
      KeysStayDistinct(es, sorted, i, j);
    }
  }

  /** Each entry of a sequence with distinct keys occurs once. */
  lemma {:induction false} CountAtMostOne(es: seq<Entry>, x: Entry)
    requires forall a, b :: 0 <= a < b < |es| ==> es[a].0 != es[b].0
    ensures multiset(es)[x] <= 1
  {
    if es != [] {
      var init := es[..|es| - 1];
      var last := es[|es| - 1];
      assert es == init + [last];
      CountAtMostOne(init, x);
      if x in init {
        var a :| 0 <= a < |init| && init[a] == x;
        assert es[a] == x;
        assert x != last;
      }
    }
  }

  /** A repeated element of a sequence is counted twice. */
  lemma CountRepeated(sorted: seq<Entry>, i: int, j: int)
    requires 0 <= i < j < |sorted| && sorted[i] == sorted[j]
    ensures multiset(sorted)[sorted[i]] >= 2
  {
    var x := sorted[i];
    assert sorted == sorted[..i] + [x] + sorted[i + 1..j] + [x] + sorted[j + 1..];
  }

  /** Reordering entries with distinct keys keeps the keys distinct. */
  lemma KeysStayDistinct(es: seq<Entry>, sorted: seq<Entry>, i: int, j: int)
    requires forall a, b :: 0 <= a < b < |es| ==> es[a].0 != es[b].0
    requires multiset(sorted) == multiset(es) && 0 <= i < j < |sorted|
    ensures sorted[i].0 != sorted[j].0
  {
    assert sorted[i] in multiset(es) && sorted[j] in multiset(es);
    var a :| 0 <= a < |es| && es[a] == sorted[i];
    var b :| 0 <= b < |es| && es[b] == sorted[j];
    if a == b {
      CountRepeated(sorted, i, j);
      CountAtMostOne(es, sorted[i]);
      assert false;
    }
  }

  /**
   * What each string carries after the beat: `NextFret` of the note on it,
   * `None` on strings without a note.
   */
  lemma {:induction false} FretsAfterMeaning(es: seq<Entry>, prev: Frets, s: int)
    requires ValidEntries(es) && |prev| == 6 && 0 <= s < 6
    requires forall i, j :: 0 <= i < j < |es| ==> es[i].0 != es[j].0
    ensures (forall i :: 0 <= i < |es| ==> es[i].0 != s) ==> FretsAfter(es, prev)[s] == None
    ensures forall i :: 0 <= i < |es| && es[i].0 == s ==> FretsAfter(es, prev)[s] == NextFret(es[i].1, prev[s])
  {
    if es != [] {
      var init := es[..|es| - 1];
      FretsAfterMeaning(init, prev, s);
    }
  }

  // ---------------------------------------------------------------------------
  // The whole beat

  /** A beat's token and the carry it hands on. */
  datatype BeatToken = BeatToken(token: string, nextFrets: Option<Frets>)

  /** The beat properties of `formatBeat`, in their order: tempo, palm mute, dots, tuplet. */
  function BeatProps(beat: Beat, tempo: Option<string>, tuplet: int): seq<string>
  {
    (if tempo.Some? then ["tempo " + tempo.value] else [])
    + (if beat.palmMute then ["pm"] else [])
    + (if beat.dots >= 2 then ["dd"] else if beat.dots == 1 then ["d"] else [])
    + (if tuplet != 0 then ["tu " + IntToString(tuplet)] else [])
  }

  /** ` {a b}` after a beat token when there are properties. */
  function BeatPropsSuffix(props: seq<string>): string
  {
    if props == [] then "" else " {" + Join(props, " ") + "}"
  }

  /** `formatBeat`: the duration is resolved before the notes are formatted, so its error comes first. */
  function BeatTokenOf(beat: Beat, previous: Option<Frets>, tempo: Option<string>): (r: Result<BeatToken>)
    requires WellFormedCarry(previous)
    ensures r.Ok? ==> WellFormedCarry(r.value.nextFrets)
  {
    match ResolveDuration(beat)
      case Err(e) => Err(e)
      case Ok(info) =>
        match BeatContent(beat, previous)
          case Err(e) => Err(e)
          case Ok(c) =>
            Ok(BeatToken(c.text + "." + IntToString(info.duration) + BeatPropsSuffix(BeatProps(beat, tempo, info.tuplet)), c.nextFrets))
  }

  /** `formatBeat`. */
  method FormatBeat(beat: Beat, previous: Option<Frets>, tempo: Option<string>) returns (r: Result<BeatToken>)
    requires WellFormedCarry(previous)
    ensures r == BeatTokenOf(beat, previous, tempo)
  {
    var durationInfo := ResolveDuration(beat);
    if durationInfo.Err? {
      return Err(durationInfo.error);
    }
    var content := FormatBeatContent(beat, previous);
    if content.Err? {
      return Err(content.error);
    }
    var props := BeatProps(beat, tempo, durationInfo.value.tuplet);
    var beatToken := content.value.text + "." + IntToString(durationInfo.value.duration);
    return Ok(BeatToken(beatToken + BeatPropsSuffix(props), content.value.nextFrets));
  }

  // ---------------------------------------------------------------------------
  // Properties of formatBeat

  /**
   * A beat succeeds exactly when its duration resolves and its notes format;
   * an unresolvable duration wins over a note error, and the carry handed on
   * is the one of the notes.
   */
  lemma BeatTokenOutcome(beat: Beat, previous: Option<Frets>, tempo: Option<string>)
    requires WellFormedCarry(previous)
    ensures BeatTokenOf(beat, previous, tempo).Ok? <==> ResolveDuration(beat).Ok? && BeatContent(beat, previous).Ok?
    ensures ResolveDuration(beat).Err? ==> BeatTokenOf(beat, previous, tempo) == Err(ResolveDuration(beat).error)
    ensures BeatTokenOf(beat, previous, tempo).Ok? ==> BeatTokenOf(beat, previous, tempo).value.nextFrets == BeatContent(beat, previous).value.nextFrets
  {
  }

  /** The properties carry each flag once: the tempo iff given, `pm` iff palm muted, one dot mark, `tu` iff a tuplet. */
  lemma BeatPropsMeaning(beat: Beat, tempo: Option<string>, tuplet: int)
    ensures ("pm" in BeatProps(beat, tempo, tuplet)) <==> beat.palmMute
    ensures ("dd" in BeatProps(beat, tempo, tuplet)) <==> beat.dots >= 2
    ensures ("d" in BeatProps(beat, tempo, tuplet)) <==> beat.dots == 1
    ensures tempo.Some? ==> BeatProps(beat, tempo, tuplet)[0] == "tempo " + tempo.value
    ensures BeatProps(beat, tempo, tuplet) == [] <==> tempo.None? && !beat.palmMute && beat.dots != 1 && beat.dots < 2 && tuplet == 0
  {
    var props := BeatProps(beat, tempo, tuplet);
    var t := if tempo.Some? then ["tempo " + tempo.value] else [];
    var u := if tuplet != 0 then ["tu " + IntToString(tuplet)] else [];
    forall x | x in t ensures x != "pm" && x != "dd" && x != "d" {
      TempoPropIsLong(tempo.value);
    }
    forall x | x in u ensures x != "pm" && x != "dd" && x != "d" {
      assert x[..3] == "tu ";
    }
  }

  lemma TempoPropIsLong(bpm: string)
    ensures |"tempo " + bpm| >= 6
  {
  }

  /**
   * The carry slip: a non-rest beat without active notes hands on an
   * undefined carry, and the next beat that plays a note then fails even
   * when its duration is valid.
   */
  lemma UndefinedCarryFails(empty: Beat, previous: Option<Frets>, tempo: Option<string>, next: Beat, nextTempo: Option<string>)
    requires WellFormedCarry(previous)
    requires !empty.rest && ActiveNotes(empty.notes) == []
    requires BeatTokenOf(empty, previous, tempo).Ok?
    requires !next.rest && ActiveNotes(next.notes) != []
    ensures BeatTokenOf(empty, previous, tempo).value.nextFrets.None?
    ensures BeatTokenOf(next, BeatTokenOf(empty, previous, tempo).value.nextFrets, nextTempo).Err?
  {
    BeatContentStringErrors(next, None);
  }

  /** A rest beat always hands on a carry with no fret on any string. */
  lemma RestBeatResetsCarry(beat: Beat, previous: Option<Frets>, tempo: Option<string>)
    requires WellFormedCarry(previous)
    requires beat.rest && ResolveDuration(beat).Ok?
    ensures BeatTokenOf(beat, previous, tempo).Ok?
    ensures BeatTokenOf(beat, previous, tempo).value.nextFrets == Some(NoFrets)
  {
  }

  /** A token that cannot be read as an alphaTex command, which starts with a backslash. */
  predicate StartsPlain(t: string)
  {
    |t| > 0 && t[0] != '\\'
  }

  lemma IntToStringStartsPlain(i: int)
    ensures StartsPlain(IntToString(i))
  {
    if i >= 0 {
      assert IsDigit(NatToString(i)[0]);
    }
  }

  lemma NoteTokenStartsPlain(s: int, note: Note, prevFret: Option<int>)
    requires 0 <= s && NoteToken(s, note, prevFret).Ok?
    ensures StartsPlain(NoteToken(s, note, prevFret).value)
  {
    var effectiveTie := note.tie && prevFret.Some?;
    var value := NoteValue(note, effectiveTie, prevFret).value;
    if effectiveTie {
      IntToStringStartsPlain(prevFret.value);
    } else if !note.dead {
      IntToStringStartsPlain(note.fret.value);
    }
    assert NoteToken(s, note, prevFret).value[0] == value[0];
  }

  lemma {:induction false} RenderEntriesStartPlain(es: seq<Entry>, prev: Frets)
    requires ValidEntries(es) && |prev| == 6 && RenderEntries(es, prev).Ok?
    ensures forall k :: 0 <= k < |RenderEntries(es, prev).value| ==> StartsPlain(RenderEntries(es, prev).value[k])
  {
    if es != [] {
      var init := es[..|es| - 1];
      RenderEntriesStartPlain(init, prev);
      var (s, note) := es[|es| - 1];
      NoteTokenStartsPlain(s, note, prev[s]);
    }
  }

  /** A beat token never starts with a backslash, so it is never taken for a command such as `\ts`. */
  lemma BeatTokenStartsPlain(beat: Beat, previous: Option<Frets>, tempo: Option<string>)
    requires WellFormedCarry(previous) && BeatTokenOf(beat, previous, tempo).Ok?
    ensures StartsPlain(BeatTokenOf(beat, previous, tempo).value.token)
  {
    var c := BeatContent(beat, previous).value;
    if !beat.rest && ActiveNotes(beat.notes) != [] {
      var es := IndexByString(ActiveNotes(beat.notes)).value;
      var sorted := SortBy(es, EntryKey);
      SortedValid(es, sorted);
      RenderEntriesStartPlain(sorted, previous.value);
    }
    assert StartsPlain(c.text);
    assert BeatTokenOf(beat, previous, tempo).value.token[0] == c.text[0];
  }
}
