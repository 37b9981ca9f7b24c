/**
 * The `Util` helpers and the note tokens of the two ASCII tab renderers,
 * json_to_ascii_tab.rb and tab_from_json.rb. Their `Util` modules are the
 * same text; their `note_token`s differ in one mark, which `markTie` selects.
 */
module TabUtil {
  import opened Wrappers
  import opened Text
  import opened Fractions
  import opened RubyScore
  import AlphaText

  const ColumnsPerSixteenth: int := 3

  /**
   * `center_text`: a text at least `width` long is cut to its first `width`
   * characters; a shorter one is padded to exactly `width` with its left
   * margin half the slack (rounded down), so the right margin is the same
   * or one wider.
   */
  function CenterText(t: string, width: nat): (r: string)
    ensures |r| == width
    ensures |t| >= width ==> r == t[..width]
    ensures |t| < width ==>
      var left := (width - |t|) / 2;
      var right := width - |t| - left;
      left <= right <= left + 1
      && r[left..left + |t|] == t
      && (forall p :: 0 <= p < left ==> r[p] == ' ')
      && (forall p :: left + |t| <= p < width ==> r[p] == ' ')
  {
    if |t| >= width then t[..width]
    else
      var left := (width - |t|) / 2;
      var pad := RepeatChar(' ', left);
      var r := pad + t + RepeatChar(' ', width - |t| - left);
      assert r[left..left + |t|] == t;
      r
  }

  /**
   * `duration_to_cols`: `(d * 16 * 3).to_i`. Ruby's `Rational#to_i`
   * truncates toward zero, so the count is the largest whole number of
   * columns not beyond `48 * d` on the side of zero.
   */
  function DurationToCols(f: Frac): (r: int)
    requires f.d > 0
    ensures f.n >= 0 ==> 0 <= r && r * f.d <= 48 * f.n < (r + 1) * f.d
    ensures f.n < 0 ==> r <= 0 && (r - 1) * f.d < 48 * f.n <= r * f.d
  {
    var x := f.n * 16 * ColumnsPerSixteenth;
    if x >= 0 then x / f.d else -((-x) / f.d)
  }

  lemma MulLtCancel(x: int, y: int, c: int)
    requires c > 0 && x * c < y * c
    ensures x < y
  {
    assert (y - x) * c == y * c - x * c;
    MulSignPos(y - x, c);
  }

  /** At most one whole number `r` has `r * d <= x < (r + 1) * d`. */
  lemma BoundsUnique(r1: int, r2: int, x: int, d: int)
    requires d > 0
    requires r1 * d <= x < (r1 + 1) * d
    requires r2 * d <= x < (r2 + 1) * d
    ensures r1 == r2
  {
    MulLtCancel(r1, r2 + 1, d);
    MulLtCancel(r2, r1 + 1, d);
  }

  /** Whether `r` columns fall short of, meet or pass `48 * d` does not depend on how `d` is written. */
  lemma ScaleSign(r: int, a: Frac, b: Frac)
    requires a.d > 0 && b.d > 0 && SameValue(a, b)
    ensures r * a.d < 48 * a.n <==> r * b.d < 48 * b.n
    ensures r * a.d == 48 * a.n <==> r * b.d == 48 * b.n
  {
    var x := r * a.d - 48 * a.n;
    var y := r * b.d - 48 * b.n;
    assert x * b.d == y * a.d;
    MulSignPos(x, b.d);
    MulSignPos(y, a.d);
  }

  /**
   * The column count depends only on the duration's value: two fractions
   * that denote the same rational give the same width, whichever way they
   * are written.
   */
  lemma DurationToColsRespectsValue(a: Frac, b: Frac)
    requires a.d > 0 && b.d > 0 && SameValue(a, b)
    ensures DurationToCols(a) == DurationToCols(b)
  {
    var ra, rb := DurationToCols(a), DurationToCols(b);
    var d, x := b.d, 48 * b.n;
    MulSignPos(a.n, b.d);
    MulSignPos(b.n, a.d);
    if a.n >= 0 {
      ScaleSign(ra, a, b);
      ScaleSign(ra + 1, a, b);
      BoundsUnique(ra, rb, x, d);
    } else {
      ScaleSign(ra, a, b);
      ScaleSign(ra - 1, a, b);
      assert (ra - 1) * d <= x - 1 < ra * d;
      assert (rb - 1) * d <= x - 1 < rb * d;
      BoundsUnique(ra - 1, rb - 1, x - 1, d);
    }
  }

  /** `measure_total_duration`: `Rational(num, den)`, which raises on a zero denominator. */
  function MeasureTotal(sig: (int, int)): (r: Result<Frac>)
    ensures r.Ok? <==> sig.1 != 0
    ensures r.Ok? ==> r.value.d > 0 && SameValue(r.value, Frac(sig.0, sig.1))
  {
    RubyRational(sig.0, sig.1)
  }

  // ---------------------------------------------------------------------------
  // String labels

  const DefaultTuning: seq<int> := [64, 59, 55, 50, 45, 40]

  /** The pitch of string `k`: the given entry (`to_i`, so a missing number is 0) when six are given, else the standard tuning. */
  function TuningPitch(tuning: Option<seq<Option<int>>>, k: nat): int
    requires k < 6
  {
    if tuning.Some? && |tuning.value| == 6 then
      (if tuning.value[k].Some? then tuning.value[k].value else 0)
    else DefaultTuning[k]
  }

  /**
   * The string labels: `midi_to_note_name(m, with_octave: false)` of each
   * tuning entry. Each label is a note name that reads back as the pitch
   * class of its string.
   */
  function StringNames(tuning: Option<seq<Option<int>>>): (r: seq<string>)
    ensures |r| == 6
    ensures forall k :: 0 <= k < 6 ==> AlphaText.PitchClass(r[k]) == Some(TuningPitch(tuning, k) % 12)
  {
    var r := seq(6, k requires 0 <= k < 6 => AlphaText.Names[TuningPitch(tuning, k) % 12]);
    forall k | 0 <= k < 6
      ensures AlphaText.PitchClass(r[k]) == Some(TuningPitch(tuning, k) % 12)
    {
      AlphaText.NamesReadBack(TuningPitch(tuning, k) % 12);
    }
    r
  }

  // ---------------------------------------------------------------------------
  // Note tokens

  /**
   * `note_token`: `x` for a dead note, else the fret (0 when the key is
   * missing, nothing at all when it holds `null`),
   * parenthesised for a ghost note; then `~` for a tie (tab_from_json.rb
   * only, `markTie`: json_to_ascii_tab.rb paints ties as sustains instead);
   * then `/` for a `shift` slide.
   */
  function NoteToken(n: RNote, markTie: bool): string
  {
    var base := BaseText(n);
    var ghosted := if n.ghostNote then "(" + base + ")" else base;
    var tied := if markTie && n.tie then ghosted + "~" else ghosted;
    if n.slide == Some("shift") then tied + "/" else tied
  }

  /** `note.fetch('fret', 0)`: the default only for a missing key; a stored `null` comes back as `nil` (`None`). */
  function FretOf(n: RNote): Option<int>
  {
    match n.fret
      case NoFret => Some(0)
      case NullFret => None
      case FretNumber(f) => Some(f)
  }

  /** What a token says about its note; `fret` is `None` for `x` and for an empty fret. */
  datatype TokenInfo = TokenInfo(dead: bool, fret: Option<int>, ghosted: bool, tied: bool, shifted: bool)

  /** Reading a token back: a trailing `/`, then a trailing `~`, then parentheses, then `x` or a number. */
  function ReadToken(t: string): Option<TokenInfo>
  {
    if |t| > 0 && t[|t| - 1] == '/' then
      match ReadTied(t[..|t| - 1])
        case Some(i) => Some(i.(shifted := true))
        case None => None
    else ReadTied(t)
  }

  function ReadTied(t: string): Option<TokenInfo>
  {
    if |t| > 0 && t[|t| - 1] == '~' then
      match ReadParens(t[..|t| - 1])
        case Some(i) => Some(i.(tied := true))
        case None => None
    else ReadParens(t)
  }

  function ReadParens(t: string): Option<TokenInfo>
  {
    if |t| >= 2 && t[0] == '(' && t[|t| - 1] == ')' then
      match ReadCore(t[1..|t| - 1])
        case Some(i) => Some(i.(ghosted := true))
        case None => None
    else ReadCore(t)
  }

  function ReadCore(t: string): Option<TokenInfo>
  {
    if t == "x" then Some(TokenInfo(true, None, false, false, false))
    else if t == "" then Some(TokenInfo(false, None, false, false, false))
    else match ParseInt(t)
      case Some(f) => Some(TokenInfo(false, Some(f), false, false, false))
      case None => None
  }

  /** A rendered integer ends in a digit. */
  lemma IntToStringEndsInDigit(i: int)
    ensures IsDigit(IntToString(i)[|IntToString(i)| - 1])
  {
    var s := IntToString(i);
    if i < 0 {
      var d := NatToString(-i);
      assert s == "-" + d;
      assert s[|s| - 1] == d[|d| - 1];
    }
  }

  /** The text of a note before any mark: `x`, the fret, or nothing for a `null` fret (`nil.to_s`). */
  function BaseText(n: RNote): string
  {
    if n.dead then "x"
    else match FretOf(n)
      case Some(f) => IntToString(f)
      case None => ""
  }

  /** The core of a token (`x` or the fret) reads back, and ends in none of the marks. */
  lemma BaseReadsBack(n: RNote)
    ensures var base := BaseText(n);
      (|base| == 0 <==> !n.dead && FretOf(n).None?)
      && (|base| >= 1 ==> base[|base| - 1] != '/' && base[|base| - 1] != '~' && base[|base| - 1] != ')')
      && ReadParens(base) == Some(TokenInfo(n.dead, if n.dead then None else FretOf(n), false, false, false))
  {
    var base := BaseText(n);
    if !n.dead && FretOf(n).Some? {
      IntToStringEndsInDigit(FretOf(n).value);
      IntToStringRoundTrip(FretOf(n).value);
      assert base != "x" by { assert base[|base| - 1] != 'x'; }
    }
  }

  /** The parenthesised or bare base reads back with the ghost flag. */
  lemma GhostedReadsBack(n: RNote)
    ensures var g := if n.ghostNote then "(" + BaseText(n) + ")" else BaseText(n);
      (|g| >= 1 ==> g[|g| - 1] != '/' && g[|g| - 1] != '~')
      && ReadTied(g) == Some(TokenInfo(n.dead, if n.dead then None else FretOf(n), n.ghostNote, false, false))
  {
    var base := BaseText(n);
    BaseReadsBack(n);
    if n.ghostNote {
      var g := "(" + base + ")";
      assert g[1..|g| - 1] == base;
    }
  }

  /** The token with its tie mark reads back with the tie flag. */
  lemma TiedReadsBack(n: RNote, markTie: bool)
    ensures var g := if n.ghostNote then "(" + BaseText(n) + ")" else BaseText(n);
      var t := if markTie && n.tie then g + "~" else g;
      (|t| >= 1 ==> t[|t| - 1] != '/')
      && ReadTied(t) == Some(TokenInfo(n.dead, if n.dead then None else FretOf(n), n.ghostNote, markTie && n.tie, false))
  {
    var g := if n.ghostNote then "(" + BaseText(n) + ")" else BaseText(n);
    GhostedReadsBack(n);
    if markTie && n.tie {
      var t := g + "~";
      assert t[..|t| - 1] == g;
    }
  }

  /**
   * Every token reads back as the note it was made from: its dead flag,
   * fret, ghost flag, tie mark and slide. In particular no note's token is
   * `-`, the placeholder of an empty string.
   */
  lemma NoteTokenReadsBack(n: RNote, markTie: bool)
    ensures ReadToken(NoteToken(n, markTie))
      == Some(TokenInfo(n.dead, if n.dead then None else FretOf(n), n.ghostNote, markTie && n.tie, n.slide == Some("shift")))
    ensures NoteToken(n, markTie) != "-"
  {
    var g := if n.ghostNote then "(" + BaseText(n) + ")" else BaseText(n);
    var t := if markTie && n.tie then g + "~" else g;
    TiedReadsBack(n, markTie);
    assert NoteToken(n, markTie) == if n.slide == Some("shift") then t + "/" else t;
    if n.slide == Some("shift") {
      SlashReadsShifted(t);
    } else {
      UnslashedReadsTied(t);
    }
    DashReadsAsNothing();
  }

  /** A trailing `/` marks the slide and leaves the rest to be read as before. */
  lemma SlashReadsShifted(t: string)
    ensures ReadToken(t + "/") == match ReadTied(t) case Some(i) => Some(i.(shifted := true)) case None => None
  {
    assert (t + "/")[..|t|] == t;
  }

  /** A token not ending in `/` is read by its tie mark and what precedes it. */
  lemma UnslashedReadsTied(t: string)
    requires |t| >= 1 ==> t[|t| - 1] != '/'
    ensures ReadToken(t) == ReadTied(t)
  {
  }

  /** The placeholder `-` is not the token of any note. */
  lemma DashReadsAsNothing()
    ensures ReadToken("-") == None
  {
    assert ReadTied("-") == ReadParens("-") == ReadCore("-");
  }

  /**
   * A `null` fret prints nothing, so the token holds only the marks; it is
   * still not `-`, so the renderers paint it (and draw a tie up to it).
   */
  lemma NullFretToken(n: RNote, markTie: bool)
    requires !n.dead && n.fret == NullFret
    ensures NoteToken(n, markTie)
      == (if n.ghostNote then "()" else "") + (if markTie && n.tie then "~" else "") + (if n.slide == Some("shift") then "/" else "")
    ensures NoteToken(n, markTie) != "-"
  {
    NoteTokenReadsBack(n, markTie);
  }

  // ---------------------------------------------------------------------------
  // The tokens of a beat

  /** What one string shows for a beat: its token and the note behind it, if any. */
  datatype Cell = Cell(token: string, note: Option<RNote>)

  /** The placeholder of a string with no note: `{ token: '-', note: nil }`. */
  const EmptyCell: Cell := Cell("-", None)

  const EmptyCells: seq<Cell> := [EmptyCell, EmptyCell, EmptyCell, EmptyCell, EmptyCell, EmptyCell]

  /** A note that `tokens_for_beat` places on string `si`: not a rest, and on that string. */
  predicate OnString(n: RNote, si: int)
  {
    !n.rest && n.stringNum == Some(si)
  }

  /** A note placed on some string 0..5. */
  predicate Placed(n: RNote)
  {
    !n.rest && n.stringNum.Some? && 0 <= n.stringNum.value <= 5
  }

  predicate AllRest(notes: seq<RNote>)
  {
    forall k :: 0 <= k < |notes| ==> notes[k].rest
  }

  /** The cells after placing `notes` in order: a later note on a string replaces an earlier one. */
  function PlaceNotes(notes: seq<RNote>, markTie: bool): (r: seq<Cell>)
    ensures |r| == 6
  {
    if notes == [] then EmptyCells
    else
      var before := PlaceNotes(notes[..|notes| - 1], markTie);
      var n := notes[|notes| - 1];
      if Placed(n) then before[n.stringNum.value := Cell(NoteToken(n, markTie), Some(n))] else before
  }

  /** `tokens_for_beat` / `tokens_for_beat_with_notes`. */
  function BeatCells(b: RBeat, markTie: bool): (r: seq<Cell>)
    ensures |r| == 6
  {
    if b.rest || b.notes == [] || AllRest(b.notes) then EmptyCells
    else PlaceNotes(b.notes, markTie)
  }

  /** The loop of `tokens_for_beat`. */
  method TokensForBeat(b: RBeat, markTie: bool) returns (cells: seq<Cell>)
    ensures cells == BeatCells(b, markTie)
  {
    if b.rest {
      return EmptyCells;
    }
    if b.notes == [] || AllRest(b.notes) {
      return EmptyCells;
    }
    cells := EmptyCells;
    for k := 0 to |b.notes|
      invariant cells == PlaceNotes(b.notes[..k], markTie)
    {
      assert b.notes[..k + 1][..k] == b.notes[..k];
      var n := b.notes[k];
      if !n.rest && n.stringNum.Some? && 0 <= n.stringNum.value <= 5 {
        cells := cells[n.stringNum.value := Cell(NoteToken(n, markTie), Some(n))];
      }
    }
    assert b.notes[..|b.notes|] == b.notes;
  }

  /** With no note on string `si`, its cell stays the placeholder. */
  lemma {:induction false} PlaceNotesEmpty(notes: seq<RNote>, markTie: bool, si: int)
    requires 0 <= si < 6
    requires forall k :: 0 <= k < |notes| ==> !OnString(notes[k], si)
    ensures PlaceNotes(notes, markTie)[si] == EmptyCell
  {
    if notes != [] {
      var init := notes[..|notes| - 1];
      assert forall k :: 0 <= k < |init| ==> init[k] == notes[k];
      PlaceNotesEmpty(init, markTie, si);
    }
  }

  /** The last note on string `si` is the one its cell shows. */
  lemma {:induction false} PlaceNotesLast(notes: seq<RNote>, markTie: bool, si: int, k: nat)
    requires 0 <= si < 6 && k < |notes| && OnString(notes[k], si)
    requires forall k' :: k < k' < |notes| ==> !OnString(notes[k'], si)
    ensures PlaceNotes(notes, markTie)[si] == Cell(NoteToken(notes[k], markTie), Some(notes[k]))
  {
    var init := notes[..|notes| - 1];
    if k < |notes| - 1 {
      assert forall k' :: 0 <= k' < |init| ==> init[k'] == notes[k'];
      PlaceNotesLast(init, markTie, si, k);
    }
  }

  /** Note `k` of a sounding beat is the last one on string `si`. */
  predicate LastOnString(b: RBeat, si: int, k: int)
  {
    !b.rest && 0 <= k < |b.notes| && OnString(b.notes[k], si)
    && forall k' :: k < k' < |b.notes| ==> !OnString(b.notes[k'], si)
  }

  /**
   * The cell of string `si` holds the token of the last note of the beat
   * on that string, and the placeholder when there is none or the beat is
   * a rest.
   */
  lemma BeatCellsMeaning(b: RBeat, markTie: bool, si: int)
    requires 0 <= si < 6
    ensures b.rest || (forall k :: 0 <= k < |b.notes| ==> !OnString(b.notes[k], si)) ==> BeatCells(b, markTie)[si] == EmptyCell
    ensures forall k :: LastOnString(b, si, k) ==> BeatCells(b, markTie)[si] == Cell(NoteToken(b.notes[k], markTie), Some(b.notes[k]))
  {
    if !b.rest && forall k :: 0 <= k < |b.notes| ==> !OnString(b.notes[k], si) {
      if !(b.notes == [] || AllRest(b.notes)) {
        PlaceNotesEmpty(b.notes, markTie, si);
      }
    }
    forall k | LastOnString(b, si, k)
      ensures BeatCells(b, markTie)[si] == Cell(NoteToken(b.notes[k], markTie), Some(b.notes[k]))
    {
      assert !AllRest(b.notes);
      PlaceNotesLast(b.notes, markTie, si, k);
    }
  }

  /** The widest token of a beat: `tokens.map(&:length).max`. */
  function TokenWidth(cells: seq<Cell>): (r: nat)
    ensures forall k :: 0 <= k < |cells| ==> |cells[k].token| <= r
    ensures cells != [] ==> exists k :: 0 <= k < |cells| && |cells[k].token| == r
  {
    if cells == [] then 0
    else
      var w := TokenWidth(cells[..|cells| - 1]);
      var last := |cells[|cells| - 1].token|;
      assert forall k :: 0 <= k < |cells| - 1 ==> cells[..|cells| - 1][k] == cells[k];
      if last > w then last else w
  }
}
