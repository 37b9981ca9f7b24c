/**
 * The annotation rails drawn above a measure by both ASCII tab renderers:
 * `build_pm_annotation`, `build_let_ring_annotation` and
 * `build_tuplet_annotation` (json_to_ascii_tab.rb lines 317-433,
 * tab_from_json.rb lines 246-363, the same text). Each paints a line of
 * `total_cols` characters, one per column of the measure, from the column
 * span of every beat.
 */
module TabAnnotations {
  import opened Text
  import opened RubyScore

  /** `{ start:, stop:, beat: }`: the columns `[start, stop)` a beat occupies. */
  datatype Span = Span(start: int, stop: int, beat: RBeat)

  /** The two flag rails: palm mute (`-`) and let ring (`~`). */
  datatype Rail = PalmMute | LetRing

  predicate Flagged(b: RBeat, rail: Rail)
  {
    if rail.PalmMute? then b.palmMute else b.letRing
  }

  function RailChar(rail: Rail): char
  {
    if rail.PalmMute? then '-' else '~'
  }

  function Spaces(n: nat): (r: string)
    ensures |r| == n && forall p :: 0 <= p < n ==> r[p] == ' '
  {
    seq(n, _ => ' ')
  }

  /** Some flagged beat's span covers column `p`. */
  predicate Covered(spans: seq<Span>, rail: Rail, p: int)
  {
    exists k :: 0 <= k < |spans| && Flagged(spans[k].beat, rail) && spans[k].start <= p < spans[k].stop
  }

  /** Some beat is flagged (`any`). */
  predicate AnyFlagged(spans: seq<Span>, rail: Rail)
  {
    exists k :: 0 <= k < |spans| && Flagged(spans[k].beat, rail)
  }

  /** The rail characters over every column a flagged beat covers, spaces elsewhere. */
  function Rails(spans: seq<Span>, total: nat, rail: Rail): (r: string)
    ensures |r| == total
  {
    seq(total, p => if Covered(spans, rail, p) then RailChar(rail) else ' ')
  }

  /** `line.index(c) || 0`. */
  function IndexOr0(s: string, c: char): (r: nat)
    ensures (exists p :: 0 <= p < |s| && s[p] == c) ==> r < |s| && s[r] == c && forall p :: 0 <= p < r ==> s[p] != c
    ensures (forall p :: 0 <= p < |s| ==> s[p] != c) ==> r == 0
  {
    if s == [] then 0
    else if s[0] == c then 0
    else
      var r := IndexOr0(s[1..], c);
      if exists p :: 0 <= p < |s| - 1 && s[1..][p] == c then r + 1 else 0
  }

  /** The loop shared by both flag builders: each flagged span's columns inside the line get the rail character. */
  method PaintRails(line: array<char>, spans: seq<Span>, rail: Rail) returns (any: bool)
    requires forall p :: 0 <= p < line.Length ==> line[p] == ' '
    modifies line
    ensures line[..] == Rails(spans, line.Length, rail)
    ensures any <==> AnyFlagged(spans, rail)
  {
    any := false;
    for i := 0 to |spans|
      invariant any <==> AnyFlagged(spans[..i], rail)
      invariant line[..] == Rails(spans[..i], line.Length, rail)
    {
      var s := spans[i];
      assert forall k :: 0 <= k < i ==> spans[..i + 1][k] == spans[..i][k];
      if Flagged(s.beat, rail) {
        any := true;
        var pos := s.start;
        while pos < s.stop
          invariant pos == s.start || s.start <= pos <= s.stop
          invariant forall p :: 0 <= p < line.Length ==> line[p] == if Covered(spans[..i], rail, p) || (s.start <= p < pos) then RailChar(rail) else ' '
        {
          if 0 <= pos < line.Length {
            line[pos] := RailChar(rail);
          }
          pos := pos + 1;
        }
      }
      forall p | 0 <= p < line.Length
        ensures line[p] == Rails(spans[..i + 1], line.Length, rail)[p]
      {
        assert line[..][p] == line[p];
        CoveredSnoc(spans, i, rail, p);
      }
    }
    assert spans[..|spans|] == spans;
  }

  lemma CoveredSnoc(spans: seq<Span>, i: nat, rail: Rail, p: int)
    requires i < |spans|
    ensures Covered(spans[..i + 1], rail, p) <==>
      Covered(spans[..i], rail, p) || (Flagged(spans[i].beat, rail) && spans[i].start <= p < spans[i].stop)
  {
    if Covered(spans[..i + 1], rail, p) {
      var k :| 0 <= k < i + 1 && Flagged(spans[..i + 1][k].beat, rail) && spans[..i + 1][k].start <= p < spans[..i + 1][k].stop;
      if k < i {
        assert spans[..i][k] == spans[k];
      }
    }
    if Covered(spans[..i], rail, p) {
      var k :| 0 <= k < i && Flagged(spans[..i][k].beat, rail) && spans[..i][k].start <= p < spans[..i][k].stop;
      assert spans[..i + 1][k] == spans[k];
    }
    if Flagged(spans[i].beat, rail) && spans[i].start <= p < spans[i].stop {
      assert spans[..i + 1][i] == spans[i];
    }
  }

  // ---------------------------------------------------------------------------
  // Palm mute

  /** `build_pm_annotation`: the rails, with `PM` written over the first two columns of the first one. */
  function PmLine(spans: seq<Span>, total: nat): (r: string)
    ensures |r| == total
  {
    if !AnyFlagged(spans, PalmMute) then Spaces(total)
    else
      var rails := Rails(spans, total, PalmMute);
      var first := IndexOr0(rails, '-');
      var withP := if first < total then rails[first := 'P'] else rails;
      if first + 1 < total then withP[first + 1 := 'M'] else withP
  }

  method PmAnnotation(spans: seq<Span>, total: nat) returns (r: string)
    ensures r == PmLine(spans, total)
  {
    var line := new char[total](_ => ' ');
    var any := PaintRails(line, spans, PalmMute);
    if !any {
      return Spaces(total);
    }
    var first := IndexOr0(line[..], '-');
    if first < total {
      line[first] := 'P';
    }
    if first + 1 < total {
      line[first + 1] := 'M';
    }
    r := line[..];
  }

  /**
   * The palm-mute line is blank when no beat is palm-muted. Otherwise it
   * starts with `PM` at the first palm-muted column and, apart from those
   * two characters, shows `-` exactly over the palm-muted columns.
   */
  lemma PmLineMeaning(spans: seq<Span>, total: nat)
    ensures !AnyFlagged(spans, PalmMute) ==> PmLine(spans, total) == Spaces(total)
    ensures AnyFlagged(spans, PalmMute) && (exists p :: 0 <= p < total && Covered(spans, PalmMute, p)) ==>
      var r := PmLine(spans, total);
      var first := IndexOr0(Rails(spans, total, PalmMute), '-');
      first < total && Covered(spans, PalmMute, first) && r[first] == 'P'
      && (forall p :: 0 <= p < first ==> r[p] == ' ')
      && (first + 1 < total ==> r[first + 1] == 'M')
      && (forall p :: first + 1 < p < total ==> (r[p] == '-' <==> Covered(spans, PalmMute, p)) && (r[p] == '-' || r[p] == ' '))
  {
    var rails := Rails(spans, total, PalmMute);
    if exists p :: 0 <= p < total && Covered(spans, PalmMute, p) {
      var p :| 0 <= p < total && Covered(spans, PalmMute, p);
      assert rails[p] == '-';
    }
  }

  // ---------------------------------------------------------------------------
  // Let ring

  const LetRingText: string := "let ring"

  /** Where `let ring` starts: at the first rail column, moved left so it fits when it can, never before column 0. */
  function LetRingStart(first: int, total: nat): (r: nat)
    ensures r <= first || r == 0
    ensures total >= |LetRingText| ==> r + |LetRingText| <= total
  {
    var s := Min(first, total - |LetRingText|);
    if s < 0 then 0 else s
  }

  /** `build_let_ring_annotation`: the rails, with `let ring` written from its start column, cut at the end of the line. */
  function LetRingLine(spans: seq<Span>, total: nat): (r: string)
    ensures |r| == total
  {
    if !AnyFlagged(spans, LetRing) then Spaces(total)
    else
      var rails := Rails(spans, total, LetRing);
      var start := LetRingStart(IndexOr0(rails, '~'), total);
      PutText(rails, start, LetRingText)
  }

  method LetRingAnnotation(spans: seq<Span>, total: nat) returns (r: string)
    ensures r == LetRingLine(spans, total)
  {
    var line := new char[total](_ => ' ');
    var any := PaintRails(line, spans, LetRing);
    if !any {
      return Spaces(total);
    }
    var first := IndexOr0(line[..], '~');
    var startPos := Min(first, total - |LetRingText|);
    if startPos < 0 {
      startPos := 0;
    }
    DrawText(line, startPos, LetRingText);
    r := line[..];
  }

  /**
   * The let-ring line is blank when no beat lets ring. Otherwise, when the
   * line has room for it, `let ring` appears whole, starting no later than
   * the first let-ring column, and every other column shows `~` exactly
   * where a let-ring beat is.
   */
  lemma LetRingLineMeaning(spans: seq<Span>, total: nat)
    ensures !AnyFlagged(spans, LetRing) ==> LetRingLine(spans, total) == Spaces(total)
    ensures AnyFlagged(spans, LetRing) && total >= |LetRingText| ==>
      var r := LetRingLine(spans, total);
      var rails := Rails(spans, total, LetRing);
      var start := LetRingStart(IndexOr0(rails, '~'), total);
      start <= IndexOr0(rails, '~')
      && r[start..start + |LetRingText|] == LetRingText
      && forall p :: 0 <= p < total && !(start <= p < start + |LetRingText|) ==> (r[p] == '~' <==> Covered(spans, LetRing, p)) && (r[p] == '~' || r[p] == ' ')
  {
    if AnyFlagged(spans, LetRing) && total >= |LetRingText| {
      var rails := Rails(spans, total, LetRing);
      var start := LetRingStart(IndexOr0(rails, '~'), total);
      PutTextPlaced(rails, start, LetRingText);
      PutTextKeeps(rails, start, LetRingText);
      forall p | 0 <= p < total && !(start <= p < start + |LetRingText|)
        ensures (rails[p] == '~' <==> Covered(spans, LetRing, p)) && (rails[p] == '~' || rails[p] == ' ')
      {
      }
    }
  }

  /** Text that fits the line is written whole. */
  lemma PutTextPlaced(line: string, np: nat, text: string)
    requires np + |text| <= |line|
    ensures PutText(line, np, text)[np..np + |text|] == text
  {
    var r := PutText(line, np, text);
    forall k | 0 <= k < |text|
      ensures r[np..np + |text|][k] == text[k]
    {
      assert r[np + k] == text[k];
    }
  }

  /** Outside the text, the line is unchanged. */
  lemma PutTextKeeps(line: string, np: int, text: string)
    ensures forall p :: 0 <= p < |line| && !(np <= p < np + |text|) ==> PutText(line, np, text)[p] == line[p]
  {
  }

  // ---------------------------------------------------------------------------
  // Tuplets

  /** `beat['tuplet'].to_i`: 0 when absent. */
  function TupletOf(b: RBeat): int
  {
    if b.tuplet.Some? then b.tuplet.value else 0
  }

  /** The first beat from `j` on that has `tupletStop`, or the end. */
  function StopFrom(spans: seq<Span>, j: nat): (r: nat)
    requires j <= |spans|
    ensures j <= r <= |spans|
    ensures r < |spans| ==> spans[r].beat.tupletStop
    ensures forall k :: j <= k < r ==> !spans[k].beat.tupletStop
    decreases |spans| - j
  {
    if j == |spans| || spans[j].beat.tupletStop then j else StopFrom(spans, j + 1)
  }

  /** The first beat from `j` on that changes tuplet or starts a new one, or the end. */
  function RunEnd(spans: seq<Span>, j: nat, t: int): (r: nat)
    requires j <= |spans|
    ensures j <= r <= |spans|
    ensures r < |spans| ==> TupletOf(spans[r].beat) != t || spans[r].beat.tupletStart
    ensures forall k :: j <= k < r ==> TupletOf(spans[k].beat) == t && !spans[k].beat.tupletStart
    decreases |spans| - j
  {
    if j == |spans| || TupletOf(spans[j].beat) != t || spans[j].beat.tupletStart then j else RunEnd(spans, j + 1, t)
  }

  /**
   * The last beat of the tuplet group that begins at beat `i`: with
   * `tupletStart`, the first beat from `i` with `tupletStop` (or the last
   * beat); otherwise the last of the following beats that share the
   * tuplet and do not start a new group.
   */
  function GroupEnd(spans: seq<Span>, i: nat): (r: nat)
    requires i < |spans|
    ensures i <= r < |spans|
  {
    if spans[i].beat.tupletStart then Min(StopFrom(spans, i), |spans| - 1)
    else RunEnd(spans, i + 1, TupletOf(spans[i].beat)) - 1
  }

  /** The rail of a group spanning columns `[start, stop)`: inset by one at each end when 5 or more wide. */
  function RailBounds(start: int, stop: int): (int, int)
  {
    if stop - start >= 5 then (start + 1, stop - 1) else (start, stop)
  }

  /** Where the tuplet number goes: centred on the rail, kept inside it when it fits. */
  function NumberPos(railStart: int, railStop: int, len: nat): int
  {
    var centred := railStart + (railStop - railStart) / 2 - len / 2;
    Min(Max(centred, railStart), railStop - len)
  }

  /** Dashes over the columns `[rs, re)` of the line. */
  function PutRail(line: string, rs: int, re: int): (r: string)
    ensures |r| == |line|
  {
    seq(|line|, p requires 0 <= p < |line| => if rs <= p < re then '-' else line[p])
  }

  /** `num` written from column `np`, cut to the line. */
  function PutText(line: string, np: int, num: string): (r: string)
    ensures |r| == |line|
  {
    seq(|line|, p requires 0 <= p < |line| => if np <= p < np + |num| then num[p - np] else line[p])
  }

  /** One group drawn over `line`: nothing under 3 columns, else the rail and the tuplet number over it. */
  function PaintGroup(line: string, spanStart: int, spanStop: int, t: int): (r: string)
    ensures |r| == |line|
  {
    if spanStop - spanStart < 3 then line
    else
      var (rs, re) := RailBounds(spanStart, spanStop);
      var num := IntToString(t);
      PutText(PutRail(line, rs, re), NumberPos(rs, re, |num|), num)
  }

  /** The loop of `build_tuplet_annotation`, from beat `i` on. */
  function TupletFrom(spans: seq<Span>, total: nat, i: nat, line: string): (r: string)
    requires i <= |spans|
    ensures |r| == |line|
    decreases |spans| - i
  {
    if i == |spans| then line
    else if TupletOf(spans[i].beat) <= 1 then TupletFrom(spans, total, i + 1, line)
    else
      var e := GroupEnd(spans, i);
      var t := TupletOf(spans[i].beat);
      TupletFrom(spans, total, e + 1, PaintGroup(line, spans[i].start, Min(spans[e].stop, total), t))
  }

  /** `build_tuplet_annotation`. */
  function TupletLine(spans: seq<Span>, total: nat): (r: string)
    ensures |r| == total
  {
    TupletFrom(spans, total, 0, Spaces(total))
  }

  method TupletAnnotation(spans: seq<Span>, total: nat) returns (r: string)
    ensures r == TupletLine(spans, total)
  {
    var line := new char[total](_ => ' ');
    assert line[..] == Spaces(total);
    var i := 0;
    while i < |spans|
      invariant 0 <= i <= |spans| && line.Length == total
      invariant TupletFrom(spans, total, i, line[..]) == TupletLine(spans, total)
      decreases |spans| - i
    {
      var beat := spans[i].beat;
      var t := TupletOf(beat);
      if t <= 1 {
        TupletFromSkip(spans, total, i, line[..]);
        i := i + 1;
      } else {
        i := PaintGroupAt(line, spans, total, i);
      }
    }
    r := line[..];
  }

  /** One group of the loop of `build_tuplet_annotation`: paint it and move past it. */
  method PaintGroupAt(line: array<char>, spans: seq<Span>, total: nat, i: nat) returns (next: nat)
    requires i < |spans| && TupletOf(spans[i].beat) > 1
    modifies line
    ensures i < next <= |spans|
    ensures TupletFrom(spans, total, next, line[..]) == TupletFrom(spans, total, i, old(line[..]))
  {
    var endI := GroupEndOf(spans, i);
    var spanStop := Min(spans[endI].stop, total);
    ghost var before := line[..];
    PaintTupletGroup(line, spans[i].start, spanStop, TupletOf(spans[i].beat));
    TupletFromGroup(spans, total, i, before);
    next := endI + 1;
  }

  lemma TupletFromSkip(spans: seq<Span>, total: nat, i: nat, line: string)
    requires i < |spans| && TupletOf(spans[i].beat) <= 1
    ensures TupletFrom(spans, total, i, line) == TupletFrom(spans, total, i + 1, line)
  {
  }

  lemma TupletFromGroup(spans: seq<Span>, total: nat, i: nat, line: string)
    requires i < |spans| && TupletOf(spans[i].beat) > 1
    ensures TupletFrom(spans, total, i, line)
      == TupletFrom(spans, total, GroupEnd(spans, i) + 1,
                    PaintGroup(line, spans[i].start, Min(spans[GroupEnd(spans, i)].stop, total), TupletOf(spans[i].beat)))
  {
  }

  /** The two searches of `build_tuplet_annotation` for the end of a group. */
  method GroupEndOf(spans: seq<Span>, i: nat) returns (endI: nat)
    requires i < |spans|
    ensures endI == GroupEnd(spans, i)
  {
    var beat := spans[i].beat;
    if beat.tupletStart {
      var j := i;
      while j < |spans| && !spans[j].beat.tupletStop
        invariant i <= j <= |spans| && StopFrom(spans, j) == StopFrom(spans, i)
      {
        j := j + 1;
      }
      endI := Min(j, |spans| - 1);
    } else {
      var t := TupletOf(beat);
      var j := i + 1;
      while j < |spans|
        invariant i + 1 <= j <= |spans| && RunEnd(spans, j, t) == RunEnd(spans, i + 1, t)
      {
        var bj := spans[j].beat;
        if TupletOf(bj) != t {
          break;
        }
        if bj.tupletStart {
          break;
        }
        j := j + 1;
      }
      endI := j - 1;
    }
  }

  /** The painting of one group: the rail, then the number, both kept inside the line. */
  method PaintTupletGroup(line: array<char>, spanStart: int, spanStop: int, t: int)
    modifies line
    ensures line[..] == PaintGroup(old(line[..]), spanStart, spanStop, t)
  {
    if spanStop - spanStart < 3 {
      return;
    }
    var railStart := spanStart;
    var railStop := spanStop;
    if railStop - railStart >= 5 {
      railStart := railStart + 1;
      railStop := railStop - 1;
    }
    assert (railStart, railStop) == RailBounds(spanStart, spanStop);
    DrawRail(line, railStart, railStop);
    var num := IntToString(t);
    var numPos := railStart + (railStop - railStart) / 2 - |num| / 2;
    numPos := Min(Max(numPos, railStart), railStop - |num|);
    assert numPos == NumberPos(railStart, railStop, |num|);
    DrawText(line, numPos, num);
  }

  method DrawRail(line: array<char>, railStart: int, railStop: int)
    modifies line
    ensures line[..] == PutRail(old(line[..]), railStart, railStop)
  {
    ghost var before := line[..];
    var pos := railStart;
    while pos < railStop
      invariant pos == railStart || railStart <= pos <= railStop
      invariant forall p :: 0 <= p < line.Length ==> line[p] == if railStart <= p < pos then '-' else before[p]
    {
      if 0 <= pos < line.Length {
        line[pos] := '-';
      }
      pos := pos + 1;
    }
  }

  method DrawText(line: array<char>, numPos: int, num: string)
    modifies line
    ensures line[..] == PutText(old(line[..]), numPos, num)
  {
    ghost var before := line[..];
    for k := 0 to |num|
      invariant forall p :: 0 <= p < line.Length ==> line[p] == if numPos <= p < numPos + k then num[p - numPos] else before[p]
    {
      var q := numPos + k;
      if 0 <= q < line.Length {
        line[q] := num[k];
      }
    }
  }

  /** A character a tuplet line can hold: a space, a rail dash or a digit of a tuplet number (or its sign). */
  predicate TupletChar(c: char)
  {
    c == ' ' || c == '-' || IsDigit(c)
  }

  predicate TupletChars(s: string)
  {
    forall p :: 0 <= p < |s| ==> TupletChar(s[p])
  }

  lemma PaintGroupChars(line: string, spanStart: int, spanStop: int, t: int)
    requires TupletChars(line)
    ensures TupletChars(PaintGroup(line, spanStart, spanStop, t))
  {
    var num := IntToString(t);
    assert TupletChars(num) by {
      if t < 0 {
        assert num == "-" + NatToString(-t);
        forall k | 0 <= k < |num| ensures TupletChar(num[k]) {
          if k > 0 { assert num[k] == NatToString(-t)[k - 1]; }
        }
      }
    }
  }

  lemma {:induction false} TupletFromChars(spans: seq<Span>, total: nat, i: nat, line: string)
    requires i <= |spans|
    requires TupletChars(line)
    ensures TupletChars(TupletFrom(spans, total, i, line))
    decreases |spans| - i
  {
    if i < |spans| {
      if TupletOf(spans[i].beat) <= 1 {
        TupletFromChars(spans, total, i + 1, line);
      } else {
        var e := GroupEnd(spans, i);
        var next := PaintGroup(line, spans[i].start, Min(spans[e].stop, total), TupletOf(spans[i].beat));
        PaintGroupChars(line, spans[i].start, Min(spans[e].stop, total), TupletOf(spans[i].beat));
        TupletFromChars(spans, total, e + 1, next);
      }
    }
  }

  lemma {:induction false} TupletFromBlank(spans: seq<Span>, total: nat, i: nat, line: string)
    requires i <= |spans|
    requires forall k :: i <= k < |spans| ==> TupletOf(spans[k].beat) <= 1
    ensures TupletFrom(spans, total, i, line) == line
    decreases |spans| - i
  {
    if i < |spans| {
      TupletFromBlank(spans, total, i + 1, line);
    }
  }

  /**
   * The tuplet line holds only spaces, rail dashes and the digits of
   * tuplet numbers, and is blank when no beat is in a tuplet.
   */
  lemma TupletLineMeaning(spans: seq<Span>, total: nat)
    ensures TupletChars(TupletLine(spans, total))
    ensures (forall k :: 0 <= k < |spans| ==> TupletOf(spans[k].beat) <= 1) ==> TupletLine(spans, total) == Spaces(total)
  {
    TupletFromChars(spans, total, 0, Spaces(total));
    if forall k :: 0 <= k < |spans| ==> TupletOf(spans[k].beat) <= 1 {
      TupletFromBlank(spans, total, 0, Spaces(total));
    }
  }

  /**
   * A group narrower than three columns draws nothing. A wider one draws
   * its rail on the columns of the group, less one at each end when it is
   * five or more wide, with a number that fits centred within the rail;
   * every other column is left as it was.
   */
  lemma PaintGroupMeaning(line: string, spanStart: int, spanStop: int, t: int)
    ensures spanStop - spanStart < 3 ==> PaintGroup(line, spanStart, spanStop, t) == line
    ensures spanStop - spanStart >= 3 ==>
      var r := PaintGroup(line, spanStart, spanStop, t);
      var (rs, re) := RailBounds(spanStart, spanStop);
      var num := IntToString(t);
      var np := NumberPos(rs, re, |num|);
      (spanStop - spanStart >= 5 ==> rs == spanStart + 1 && re == spanStop - 1)
      && (spanStop - spanStart < 5 ==> rs == spanStart && re == spanStop)
      && (|num| <= re - rs ==> rs <= np && np + |num| <= re)
      && (forall p :: 0 <= p < |line| && !(rs <= p < re) && !(np <= p < np + |num|) ==> r[p] == line[p])
      && (forall p :: 0 <= p < |line| && rs <= p < re && !(np <= p < np + |num|) ==> r[p] == '-')
      && (forall p :: 0 <= p < |line| && np <= p < np + |num| ==> r[p] == num[p - np])
  {
    if spanStop - spanStart >= 3 {
      var (rs, re) := RailBounds(spanStart, spanStop);
      var num := IntToString(t);
      var np := NumberPos(rs, re, |num|);
      var railed := PutRail(line, rs, re);
      assert PaintGroup(line, spanStart, spanStop, t) == PutText(railed, np, num);
      if |num| <= re - rs {
        NumberPosInside(rs, re, |num|);
      }
    }
  }

  /** A tuplet number no wider than its rail is drawn within the rail. */
  lemma NumberPosInside(rs: int, re: int, len: nat)
    requires len <= re - rs
    ensures rs <= NumberPos(rs, re, len) && NumberPos(rs, re, len) + len <= re
  {
  }
}
