/**
 * The second half of `render_measure` in the two ASCII tab renderers: every
 * clipped beat takes `event_cols` columns, and each of the six string lines
 * gets the beat's token there followed by dashes. tab_from_json.rb appends
 * token and dashes to each line (lines 215-237); json_to_ascii_tab.rb paints
 * into character arrays (lines 227-287), and also draws a sustain (`=`) from
 * the end of the previous note on a string to a note tied to it.
 */
module TabColumns {
  import opened Wrappers
  import opened Text
  import opened RubyScore
  import opened TabUtil
  import opened TabClip
  import opened RubyAlphaTex
  import opened TabAnnotations

  // ---------------------------------------------------------------------------
  // The columns of a beat

  /** `event_cols`: the beat's duration in columns, at least one, widened to its widest token. */
  function EventCols(b: RBeat, markTie: bool): (r: nat)
    requires ValidDuration(b)
    ensures r >= 1 && r >= DurationToCols(Duration(b)) && r >= TokenWidth(BeatCells(b, markTie))
    ensures r == 1 || r == DurationToCols(Duration(b)) || r == TokenWidth(BeatCells(b, markTie))
  {
    Max(Max(DurationToCols(Duration(b)), 1), TokenWidth(BeatCells(b, markTie)))
  }

  /** A beat with its six cells and the columns it takes. */
  datatype Event = Event(beat: RBeat, cells: seq<Cell>, w: nat)

  /** Six cells, every token fitting in the beat's columns. */
  predicate WellFormed(e: Event)
  {
    |e.cells| == 6 && e.w >= 1 && forall si :: 0 <= si < 6 ==> |e.cells[si].token| <= e.w
  }

  predicate AllWellFormed(es: seq<Event>)
  {
    forall k :: 0 <= k < |es| ==> WellFormed(es[k])
  }

  function EventOf(b: RBeat, markTie: bool): (e: Event)
    requires ValidDuration(b)
    ensures WellFormed(e)
  {
    Event(b, BeatCells(b, markTie), EventCols(b, markTie))
  }

  /** The event of every clipped beat. */
  function Events(bs: seq<RBeat>, markTie: bool): (r: seq<Event>)
    requires AllValid(bs)
    ensures |r| == |bs| && AllWellFormed(r)
  {
    seq(|bs|, k requires 0 <= k < |bs| => EventOf(bs[k], markTie))
  }

  /** The first lines of the loop body of `render_measure`: `cols`, the tokens, `token_width` and `event_cols`. */
  method BeatEvent(beat: RBeat, markTie: bool) returns (e: Event)
    requires ValidDuration(beat)
    ensures e == EventOf(beat, markTie) && e.beat == beat
  {
    var cols := Max(DurationToCols(Duration(beat)), 1);
    var cells := TokensForBeat(beat, markTie);
    var tokenWidth := TokenWidth(cells);
    var eventCols := Max(cols, tokenWidth);
    e := Event(beat, cells, eventCols);
  }

  /** `cur_col` after the events `es`. */
  function Width(es: seq<Event>): nat
  {
    if es == [] then 0 else Width(es[..|es| - 1]) + es[|es| - 1].w
  }

  /** `beat_spans`: one span per beat, from `cur_col` to `cur_col + event_cols`. */
  function SpansOf(es: seq<Event>): (r: seq<Span>)
    ensures |r| == |es|
  {
    if es == [] then []
    else
      var w := Width(es[..|es| - 1]);
      SpansOf(es[..|es| - 1]) + [Span(w, w + es[|es| - 1].w, es[|es| - 1].beat)]
  }

  /** A prefix of the events is no wider than all of them. */
  lemma {:induction false} WidthPrefix(es: seq<Event>, j: nat)
    requires j <= |es|
    ensures Width(es[..j]) <= Width(es)
    decreases |es|
  {
    if j < |es| {
      var init := es[..|es| - 1];
      assert init[..j] == es[..j];
      WidthPrefix(init, j);
    } else {
      assert es[..j] == es;
    }
  }

  /** Event `k` spans the columns from the width of the events before it, for its own width. */
  lemma {:induction false} SpanAt(es: seq<Event>, k: nat)
    requires k < |es|
    ensures Width(es[..k + 1]) == Width(es[..k]) + es[k].w
    ensures SpansOf(es)[k] == Span(Width(es[..k]), Width(es[..k]) + es[k].w, es[k].beat)
    decreases |es|
  {
    assert es[..k + 1][..k] == es[..k];
    var init := es[..|es| - 1];
    if k < |es| - 1 {
      assert init[..k] == es[..k];
      SpanAt(init, k);
    } else {
      assert init == es[..k];
    }
  }

  /** One more event: its span follows the spans before it. */
  lemma SpansSnoc(es: seq<Event>, e: Event)
    ensures Width(es + [e]) == Width(es) + e.w
    ensures SpansOf(es + [e]) == SpansOf(es) + [Span(Width(es), Width(es) + e.w, e.beat)]
  {
    assert (es + [e])[..|es|] == es;
  }

  /** The events of one more beat. */
  lemma EventsSnoc(bs: seq<RBeat>, i: nat, markTie: bool)
    requires AllValid(bs) && i < |bs|
    ensures AllValid(bs[..i]) && AllValid(bs[..i + 1])
    ensures Events(bs[..i + 1], markTie) == Events(bs[..i], markTie) + [EventOf(bs[i], markTie)]
  {
  }

  /**
   * The spans tile the measure: the first starts at column 0, each starts
   * where the one before stops, the last stops at the width, and each is
   * as wide as its event.
   */
  lemma SpansTile(es: seq<Event>)
    requires AllWellFormed(es)
    ensures var r := SpansOf(es);
      (forall k :: 0 <= k < |es| ==> r[k].beat == es[k].beat && r[k].stop - r[k].start == es[k].w)
      && (forall k :: 0 <= k < |es| ==> 0 <= r[k].start < r[k].stop <= Width(es))
      && (forall k :: 0 < k < |es| ==> r[k - 1].stop == r[k].start)
      && (|es| > 0 ==> r[0].start == 0 && r[|es| - 1].stop == Width(es))
  {
    var r := SpansOf(es);
    forall k | 0 <= k < |es|
      ensures r[k].beat == es[k].beat && r[k].stop - r[k].start == es[k].w
      ensures 0 <= r[k].start < r[k].stop <= Width(es)
    {
      SpanAt(es, k);
      WidthPrefix(es, k + 1);
    }
    forall k | 0 < k < |es|
      ensures r[k - 1].stop == r[k].start
    {
      SpanAt(es, k - 1);
      SpanAt(es, k);
    }
    if |es| > 0 {
      SpanAt(es, 0);
      SpanAt(es, |es| - 1);
      assert es[..|es|] == es;
    }
  }

  // ---------------------------------------------------------------------------
  // Lines made of one segment per event

  /** The parts one after another. */
  function Concat<T>(parts: seq<seq<T>>): seq<T>
  {
    if parts == [] then [] else Concat(parts[..|parts| - 1]) + parts[|parts| - 1]
  }

  /** Part `k` sits in the concatenation right after the parts before it. */
  lemma {:induction false} ConcatPart<T>(parts: seq<seq<T>>, k: nat)
    requires k < |parts|
    ensures |Concat(parts[..k])| + |parts[k]| <= |Concat(parts)|
    ensures Concat(parts)[|Concat(parts[..k])|..|Concat(parts[..k])| + |parts[k]|] == parts[k]
    decreases |parts|
  {
    var init := parts[..|parts| - 1];
    if k < |parts| - 1 {
      assert init[..k] == parts[..k];
      ConcatPart(init, k);
      var o := |Concat(parts[..k])|;
      assert Concat(parts)[o..o + |parts[k]|] == Concat(init)[o..o + |parts[k]|];
    } else {
      assert init == parts[..k];
    }
  }

  /** Parts as wide as their events add up to the width of the events. */
  lemma {:induction false} ConcatWidth<T>(parts: seq<seq<T>>, es: seq<Event>)
    requires |parts| == |es| && forall k :: 0 <= k < |es| ==> |parts[k]| == es[k].w
    ensures |Concat(parts)| == Width(es)
    decreases |es|
  {
    if es != [] {
      ConcatWidth(parts[..|parts| - 1], es[..|es| - 1]);
    }
  }

  /** Part `k` of parts as wide as their events occupies the columns of event `k`. */
  lemma ConcatAt<T>(parts: seq<seq<T>>, es: seq<Event>, k: nat)
    requires |parts| == |es| && forall j :: 0 <= j < |es| ==> |parts[j]| == es[j].w
    requires k < |es|
    ensures |Concat(parts)| == Width(es) && Width(es[..k]) + es[k].w <= Width(es)
    ensures Concat(parts)[Width(es[..k])..Width(es[..k]) + es[k].w] == parts[k]
  {
    ConcatWidth(parts, es);
    ConcatPart(parts, k);
    ConcatWidth(parts[..k], es[..k]);
  }

  // ---------------------------------------------------------------------------
  // tab_from_json.rb: appending

  /** One beat on one string: `tok` then `'-' * (event_cols - tok.length)`. */
  function Segment(tok: string, w: nat): (r: string)
    requires |tok| <= w
    ensures |r| == w
  {
    tok + RepeatChar('-', w - |tok|)
  }

  /** The segments of string `si`, one per event. */
  function Segments(es: seq<Event>, si: int): (r: seq<string>)
    requires AllWellFormed(es) && 0 <= si < 6
    ensures |r| == |es| && forall k :: 0 <= k < |es| ==> |r[k]| == es[k].w
  {
    seq(|es|, k requires 0 <= k < |es| => Segment(es[k].cells[si].token, es[k].w))
  }

  /** The six lines after appending the events `es`. */
  function Appended(es: seq<Event>): (r: seq<string>)
    requires AllWellFormed(es)
    ensures |r| == 6
  {
    seq(6, si requires 0 <= si < 6 => Concat(Segments(es, si)))
  }

  const NoLines: seq<string> := ["", "", "", "", "", ""]

  /** One more event: each line grows by that event's segment. */
  lemma AppendedSnoc(es: seq<Event>, e: Event)
    requires AllWellFormed(es) && WellFormed(e)
    ensures AllWellFormed(es + [e])
    ensures Appended(es + [e]) == seq(6, si requires 0 <= si < 6 => Appended(es)[si] + Segment(e.cells[si].token, e.w))
  {
    forall si | 0 <= si < 6
      ensures Appended(es + [e])[si] == Appended(es)[si] + Segment(e.cells[si].token, e.w)
    {
      assert Segments(es + [e], si)[..|es|] == Segments(es, si);
    }
  }

  /** Every appended line is as wide as the events. */
  lemma AppendedWidth(es: seq<Event>, si: int)
    requires AllWellFormed(es) && 0 <= si < 6
    ensures |Appended(es)[si]| == Width(es)
  {
    ConcatWidth(Segments(es, si), es);
  }

  /** `line` shows `seg` over the columns of span `sp`. */
  predicate Shows(line: string, sp: Span, seg: string)
  {
    0 <= sp.start <= sp.stop <= |line| && line[sp.start..sp.stop] == seg
  }

  /**
   * The appended lines are as long as the measure is wide, and within the
   * span of event `k` string `si` shows that event's token and dashes after
   * it: nothing appended later moves or changes it.
   */
  lemma AppendedSegment(es: seq<Event>, k: nat, si: int)
    requires AllWellFormed(es) && k < |es| && 0 <= si < 6
    ensures |Appended(es)[si]| == Width(es)
    ensures Shows(Appended(es)[si], SpansOf(es)[k], Segment(es[k].cells[si].token, es[k].w))
  {
    SegmentsShow(es, k, si);
    assert Appended(es)[si] == Concat(Segments(es, si));
  }

  /** The segments of one string, one after another, show segment `k` over span `k`. */
  lemma SegmentsShow(es: seq<Event>, k: nat, si: int)
    requires AllWellFormed(es) && k < |es| && 0 <= si < 6
    ensures |Concat(Segments(es, si))| == Width(es)
    ensures Shows(Concat(Segments(es, si)), SpansOf(es)[k], Segment(es[k].cells[si].token, es[k].w))
  {
    var parts := Segments(es, si);
    SpanAt(es, k);
    ConcatShows(parts, es, k, SpansOf(es)[k]);
  }

  /** Part `k` of parts as wide as their events is shown over the span of event `k`. */
  lemma ConcatShows(parts: seq<string>, es: seq<Event>, k: nat, sp: Span)
    requires |parts| == |es| && forall j :: 0 <= j < |es| ==> |parts[j]| == es[j].w
    requires k < |es| && sp.start == Width(es[..k]) && sp.stop == sp.start + es[k].w
    ensures |Concat(parts)| == Width(es) && Shows(Concat(parts), sp, parts[k])
  {
    ConcatAt(parts, es, k);
  }

  /** tab_from_json.rb lines 215-237: the column loop over the clipped beats. */
  method AppendColumns(clipped: seq<RBeat>) returns (lines: seq<string>, spans: seq<Span>, cur: nat)
    requires AllValid(clipped)
    ensures lines == Appended(Events(clipped, true))
    ensures spans == SpansOf(Events(clipped, true))
    ensures cur == Width(Events(clipped, true))
  {
    ghost var es: seq<Event> := [];
    lines := NoLines;
    spans := [];
    cur := 0;
    assert Appended(es) == NoLines;
    for i := 0 to |clipped|
      invariant es == Events(clipped[..i], true)
      invariant lines == Appended(es)
      invariant spans == SpansOf(es)
      invariant cur == Width(es)
    {
      EventsSnoc(clipped, i, true);
      ghost var e := EventOf(clipped[i], true);
      lines, spans, cur := AppendTurn(clipped[i], es, lines, spans, cur);
      es := es + [e];
    }
    assert clipped[..|clipped|] == clipped;
  }

  /** One turn of the column loop of tab_from_json.rb. */
  method AppendTurn(beat: RBeat, ghost es: seq<Event>, lines: seq<string>, spans: seq<Span>, cur: nat)
    returns (lines': seq<string>, spans': seq<Span>, cur': nat)
    requires ValidDuration(beat) && AllWellFormed(es)
    requires lines == Appended(es) && spans == SpansOf(es) && cur == Width(es)
    ensures AllWellFormed(es + [EventOf(beat, true)])
    ensures lines' == Appended(es + [EventOf(beat, true)])
    ensures spans' == SpansOf(es + [EventOf(beat, true)])
    ensures cur' == Width(es + [EventOf(beat, true)])
  {
    var e := BeatEvent(beat, true);
    SpansSnoc(es, e);
    spans' := spans + [Span(cur, cur + e.w, e.beat)];
    cur' := cur + e.w;
    assert spans' == SpansOf(es + [e]);
    AppendedSnoc(es, e);
    lines' := AppendSegments(lines, e.cells, e.w);
  }

  /** The `6.times` loop of tab_from_json.rb: token then dashes onto each line. */
  method AppendSegments(lines: seq<string>, cells: seq<Cell>, w: nat) returns (r: seq<string>)
    requires |lines| == 6 && |cells| == 6
    requires forall si :: 0 <= si < 6 ==> |cells[si].token| <= w
    ensures r == seq(6, si requires 0 <= si < 6 => lines[si] + Segment(cells[si].token, w))
  {
    r := lines;
    for si := 0 to 6
      invariant |r| == 6
      invariant forall k :: 0 <= k < si ==> r[k] == lines[k] + Segment(cells[k].token, w)
      invariant forall k :: si <= k < 6 ==> r[k] == lines[k]
    {
      var tok := cells[si].token;
      var line := r[si] + tok;
      line := line + RepeatChar('-', w - |tok|);
      r := r[si := line];
    }
  }

  // ---------------------------------------------------------------------------
  // json_to_ascii_tab.rb: painting

  /** The painting state: the six character lines, `last_note_end` per string, and `cur_col`. */
  datatype Paint = Paint(lines: seq<string>, last: seq<Option<nat>>, cur: nat)

  const Unpainted: Paint := Paint(NoLines, [None, None, None, None, None, None], 0)

  /** Dashes pushed onto a line until it is `target` long. */
  function Extend(line: string, target: nat): (r: string)
    ensures |r| == Max(|line|, target)
    ensures forall p :: 0 <= p < |r| ==> r[p] == if p < |line| then line[p] else '-'
  {
    if |line| < target then line + RepeatChar('-', target - |line|) else line
  }

  /** A sustain over the columns `[from, to)`: each dash there becomes `=`, every other character stays. */
  function Sustain(line: string, from: nat, to: nat): (r: string)
    ensures |r| == |line|
  {
    seq(|line|, p requires 0 <= p < |line| => if from <= p < to && line[p] == '-' then '=' else line[p])
  }

  /** The token written from column `at`, stopping at `target`. */
  function Place(line: string, at: nat, tok: string, target: nat): (r: string)
    ensures |r| == |line|
  {
    seq(|line|, p requires 0 <= p < |line| => if at <= p < at + |tok| && p < target then tok[p - at] else line[p])
  }

  /** A tied note on a string whose previous note ends before this beat. */
  predicate Ties(c: Cell, last: Option<nat>, cur: nat)
  {
    c.note.Some? && c.note.value.tie && last.Some? && last.value < cur
  }

  /** One string of one beat: nothing for `-`; else the sustain of a tie, the token, and the new note end. */
  function PaintString(line: string, last: Option<nat>, c: Cell, cur: nat, target: nat): (string, Option<nat>)
  {
    if c.token == "-" then (line, last)
    else
      var sustained := if Ties(c, last, cur) then Sustain(line, last.value, cur) else line;
      (Place(sustained, cur, c.token, target), Some(cur + |c.token|))
  }

  /** One event: every line extended to the new width, then every string painted. */
  function PaintBeat(s: Paint, e: Event): (r: Paint)
    requires |s.lines| == 6 && |s.last| == 6 && |e.cells| == 6
    ensures |r.lines| == 6 && |r.last| == 6 && r.cur == s.cur + e.w
  {
    var target := s.cur + e.w;
    Paint(
      seq(6, si requires 0 <= si < 6 => PaintString(Extend(s.lines[si], target), s.last[si], e.cells[si], s.cur, target).0),
      seq(6, si requires 0 <= si < 6 => PaintString(Extend(s.lines[si], target), s.last[si], e.cells[si], s.cur, target).1),
      target)
  }

  /** The state after painting the events `es`. */
  function Painted(es: seq<Event>): (r: Paint)
    requires AllWellFormed(es)
    ensures |r.lines| == 6 && |r.last| == 6 && r.cur == Width(es)
  {
    if es == [] then Unpainted
    else PaintBeat(Painted(es[..|es| - 1]), es[|es| - 1])
  }

  lemma PaintedSnoc(es: seq<Event>, e: Event)
    requires AllWellFormed(es) && WellFormed(e)
    ensures AllWellFormed(es + [e])
    ensures Painted(es + [e]) == PaintBeat(Painted(es), e)
  {
    assert (es + [e])[..|es|] == es;
  }

  /**
   * One string of one beat, position by position: a real token lands at
   * `cur` and sets the note end right after it; a tie turns the dashes
   * between the previous note end and `cur` into `=`; nothing else changes.
   */
  lemma PaintStringMeaning(line: string, last: Option<nat>, c: Cell, cur: nat, target: nat)
    requires cur + |c.token| <= target <= |line|
    ensures var (r, l) := PaintString(line, last, c, cur, target);
      |r| == |line|
      && (c.token == "-" ==> r == line && l == last)
      && (c.token != "-" ==>
            l == Some(cur + |c.token|)
            && r[cur..cur + |c.token|] == c.token
            && forall p :: 0 <= p < |line| && !(cur <= p < cur + |c.token|) ==>
                 r[p] == if Ties(c, last, cur) && last.value <= p < cur && line[p] == '-' then '=' else line[p])
  {
    if c.token != "-" {
      var sustained := if Ties(c, last, cur) then Sustain(line, last.value, cur) else line;
      var r := Place(sustained, cur, c.token, target);
      assert r == PaintString(line, last, c, cur, target).0;
    }
  }

  /** Painting one event changes no column before `q` when `q` is at most the string's note end and `cur`. */
  lemma PaintBeatKeeps(s: Paint, e: Event, si: int, q: nat)
    requires |s.lines| == 6 && |s.last| == 6 && WellFormed(e) && 0 <= si < 6
    requires |s.lines[si]| == s.cur && q <= s.cur && (s.last[si].Some? ==> q <= s.last[si].value)
    ensures q <= |PaintBeat(s, e).lines[si]| && PaintBeat(s, e).lines[si][..q] == s.lines[si][..q]
  {
    var target := s.cur + e.w;
    var ext := Extend(s.lines[si], target);
    PaintStringMeaning(ext, s.last[si], e.cells[si], s.cur, target);
    var r := PaintBeat(s, e).lines[si];
    assert r == PaintString(ext, s.last[si], e.cells[si], s.cur, target).0;
    assert forall p :: 0 <= p < q ==> r[p] == s.lines[si][p];
  }

  /** Every painted line is exactly as wide as the events, and its note end lies within it. */
  lemma {:induction false} PaintedShape(es: seq<Event>, si: int)
    requires AllWellFormed(es) && 0 <= si < 6
    ensures |Painted(es).lines[si]| == Width(es)
    ensures Painted(es).last[si].Some? ==> Painted(es).last[si].value <= Width(es)
  {
    if es != [] {
      var init := es[..|es| - 1];
      var e := es[|es| - 1];
      PaintedShape(init, si);
      var s := Painted(init);
      var target := s.cur + e.w;
      PaintStringMeaning(Extend(s.lines[si], target), s.last[si], e.cells[si], s.cur, target);
    }
  }

  /** Line `si` of `p` shows `tok` from column `start`, and the string's note end is not before its end. */
  predicate TokenAt(p: Paint, si: int, start: int, tok: string)
  {
    |p.lines| == 6 && |p.last| == 6 && 0 <= si < 6
    && ShowsAt(p.lines[si], start, tok)
    && p.last[si].Some? && start + |tok| <= p.last[si].value
  }

  /** `line` shows `tok` from column `start`. */
  predicate ShowsAt(line: string, start: int, tok: string)
  {
    0 <= start && start + |tok| <= |line| && line[start..start + |tok|] == tok
  }

  /**
   * The token of event `k` on string `si` stays intact at the start of that
   * event's span however many events are painted after it: later ties only
   * sustain from the note end after it, and later tokens go further right.
   */
  lemma {:induction false} PaintedKeepsToken(es: seq<Event>, k: nat, si: int)
    requires AllWellFormed(es) && k < |es| && 0 <= si < 6 && es[k].cells[si].token != "-"
    ensures TokenAt(Painted(es), si, SpansOf(es)[k].start, es[k].cells[si].token)
    decreases |es|
  {
    var init := es[..|es| - 1];
    var e := es[|es| - 1];
    PaintedShape(init, si);
    SpanAt(es, k);
    if k == |es| - 1 {
      assert init == es[..k];
      TokenPlaced(Painted(init), e, si);
    } else {
      PaintedKeepsToken(init, k, si);
      assert init[..k] == es[..k];
      TokenKept(Painted(init), e, si, Width(es[..k]), es[k].cells[si].token);
    }
  }

  /** The event just painted shows its token on string `si` at the old `cur`. */
  lemma TokenPlaced(s: Paint, e: Event, si: int)
    requires |s.lines| == 6 && |s.last| == 6 && WellFormed(e) && 0 <= si < 6 && e.cells[si].token != "-"
    requires |s.lines[si]| == s.cur
    ensures TokenAt(PaintBeat(s, e), si, s.cur, e.cells[si].token)
    ensures PaintBeat(s, e).last[si] == Some(s.cur + |e.cells[si].token|)
  {
    var target := s.cur + e.w;
    var ext := Extend(s.lines[si], target);
    PaintStringMeaning(ext, s.last[si], e.cells[si], s.cur, target);
  }

  /** A token before the note end of its string survives painting one more event. */
  lemma TokenKept(s: Paint, e: Event, si: int, start: nat, tok: string)
    requires WellFormed(e) && TokenAt(s, si, start, tok)
    requires |s.lines[si]| == s.cur && s.last[si].value <= s.cur
    ensures TokenAt(PaintBeat(s, e), si, start, tok)
  {
    var q := start + |tok|;
    PaintBeatKeeps(s, e, si, q);
    var target := s.cur + e.w;
    PaintStringMeaning(Extend(s.lines[si], target), s.last[si], e.cells[si], s.cur, target);
    var r := PaintBeat(s, e).lines[si];
    assert r[start..q] == r[..q][start..];
    assert s.lines[si][start..q] == s.lines[si][..q][start..];
  }

  /** json_to_ascii_tab.rb lines 227-284: the column loop over the clipped beats. */
  method PaintColumns(clipped: seq<RBeat>) returns (lines: seq<string>, spans: seq<Span>, cur: nat)
    requires AllValid(clipped)
    ensures lines == Painted(Events(clipped, false)).lines
    ensures spans == SpansOf(Events(clipped, false))
    ensures cur == Width(Events(clipped, false))
  {
    ghost var es: seq<Event> := [];
    lines := NoLines;
    spans := [];
    cur := 0;
    var last: seq<Option<nat>> := Unpainted.last;
    for i := 0 to |clipped|
      invariant es == Events(clipped[..i], false)
      invariant Paint(lines, last, cur) == Painted(es)
      invariant cur == Width(es)
      invariant spans == SpansOf(es)
    {
      EventsSnoc(clipped, i, false);
      ghost var e := EventOf(clipped[i], false);
      var painted;
      painted, spans := PaintTurn(clipped[i], es, Paint(lines, last, cur), spans);
      lines, last, cur := painted.lines, painted.last, painted.cur;
      es := es + [e];
    }
    assert clipped[..|clipped|] == clipped;
  }

  /** One turn of the column loop of json_to_ascii_tab.rb. */
  method PaintTurn(beat: RBeat, ghost es: seq<Event>, s: Paint, spans: seq<Span>) returns (s': Paint, spans': seq<Span>)
    requires ValidDuration(beat) && AllWellFormed(es)
    requires s == Painted(es) && spans == SpansOf(es)
    ensures AllWellFormed(es + [EventOf(beat, false)])
    ensures s' == Painted(es + [EventOf(beat, false)])
    ensures spans' == SpansOf(es + [EventOf(beat, false)])
  {
    var e := BeatEvent(beat, false);
    SpansSnoc(es, e);
    var cur := s.cur;
    assert cur == Width(es);
    spans' := spans + [Span(cur, cur + e.w, e.beat)];
    assert spans' == SpansOf(es + [e]);
    PaintedSnoc(es, e);
    s' := PaintEvent(s, e);
  }

  /** One turn of the column loop: extend every line to the new width, then paint every string. */
  method PaintEvent(s: Paint, e: Event) returns (r: Paint)
    requires |s.lines| == 6 && |s.last| == 6 && |e.cells| == 6
    ensures r == PaintBeat(s, e)
  {
    var target := s.cur + e.w;
    var extended := ExtendLines(s.lines, target);
    var lines, last := PaintStrings(extended, s.last, e.cells, s.cur, target);
    ghost var p := PaintBeat(s, e);
    assert forall si :: 0 <= si < 6 ==> lines[si] == p.lines[si] && last[si] == p.last[si];
    r := Paint(lines, last, target);
  }

  /** Every line extended with dashes to `target`. */
  method ExtendLines(lines: seq<string>, target: nat) returns (r: seq<string>)
    requires |lines| == 6
    ensures r == seq(6, si requires 0 <= si < 6 => Extend(lines[si], target))
  {
    r := lines;
    for si := 0 to 6
      invariant |r| == 6
      invariant forall k :: 0 <= k < si ==> r[k] == Extend(lines[k], target)
      invariant forall k :: si <= k < 6 ==> r[k] == lines[k]
    {
      var line := r[si];
      while |line| < target
        invariant |lines[si]| <= |line| <= Max(|lines[si]|, target)
        invariant forall p :: 0 <= p < |line| ==> line[p] == if p < |lines[si]| then lines[si][p] else '-'
        decreases target - |line|
      {
        line := line + ['-'];
      }
      assert line == Extend(lines[si], target);
      r := r[si := line];
    }
  }

  /** The second `6.times` loop of json_to_ascii_tab.rb: each string's sustain and token. */
  method PaintStrings(lines: seq<string>, last: seq<Option<nat>>, cells: seq<Cell>, cur: nat, target: nat)
    returns (r: seq<string>, rl: seq<Option<nat>>)
    requires |lines| == 6 && |last| == 6 && |cells| == 6
    requires cur <= target && forall si :: 0 <= si < 6 ==> target <= |lines[si]|
    ensures r == seq(6, si requires 0 <= si < 6 => PaintString(lines[si], last[si], cells[si], cur, target).0)
    ensures rl == seq(6, si requires 0 <= si < 6 => PaintString(lines[si], last[si], cells[si], cur, target).1)
  {
    r := lines;
    rl := last;
    for si := 0 to 6
      invariant |r| == 6 && |rl| == 6
      invariant forall k :: 0 <= k < si ==> (r[k], rl[k]) == PaintString(lines[k], last[k], cells[k], cur, target)
      invariant forall k :: si <= k < 6 ==> r[k] == lines[k] && rl[k] == last[k]
    {
      var c := cells[si];
      if c.token == "-" {
        continue;
      }
      var line := lines[si];
      if c.note.Some? && c.note.value.tie && last[si].Some? {
        var from := last[si].value;
        if from < cur {
          line := SustainRange(line, from, cur);
        }
      }
      line := PlaceToken(line, cur, c.token, target);
      r := r[si := line];
      rl := rl[si := Some(cur + |c.token|)];
    }
  }

  /** `(from...to).each`: a dash becomes `=`. */
  method SustainRange(line: string, from: nat, to: nat) returns (r: string)
    requires from < to <= |line|
    ensures r == Sustain(line, from, to)
  {
    r := line;
    for pos := from to to
      invariant |r| == |line|
      invariant forall p :: 0 <= p < |line| ==> r[p] == if from <= p < pos && line[p] == '-' then '=' else line[p]
    {
      if r[pos] == '-' {
        r := r[pos := '='];
      }
    }
  }

  /** `tok_chars.each_with_index`: one character per column, stopping at `target_len`. */
  method PlaceToken(line: string, at: nat, tok: string, target: nat) returns (r: string)
    requires target <= |line|
    ensures r == Place(line, at, tok, target)
  {
    r := line;
    var k := 0;
    while k < |tok| && at + k < target
      invariant 0 <= k <= |tok| && |r| == |line|
      invariant forall p :: 0 <= p < |line| ==> r[p] == if at <= p < at + k && p < target then tok[p - at] else line[p]
    {
      r := r[at + k := tok[k]];
      k := k + 1;
    }
  }
}
