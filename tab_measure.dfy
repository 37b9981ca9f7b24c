/**
 * `render_measure` of the two ASCII tab renderers as a whole: a rest
 * measure becomes dashes as wide as its signature, any other measure is
 * padded and clipped to its signature, laid out beat by beat on the six
 * string lines, and given its tuplet, palm-mute and let-ring lines over
 * the same columns. json_to_ascii_tab.rb lines 189-296 paint the string
 * lines; tab_from_json.rb lines 177-244 append to them.
 */
module TabMeasure {
  import opened Wrappers
  import opened Text
  import opened RubyScore
  import opened TabUtil
  import opened TabClip
  import opened RubyAlphaTex
  import opened TabAnnotations
  import opened TabColumns

  /** The six string lines of a measure and its `tuplet`, `pm` and `lr` annotation lines. */
  datatype MeasureText = MeasureText(lines: seq<string>, tuplet: string, pm: string, lr: string)

  /** Six string lines and three annotation lines, all `width` columns. */
  predicate Aligned(t: MeasureText, width: nat)
  {
    |t.lines| == 6 && (forall si :: 0 <= si < 6 ==> |t.lines[si]| == width)
    && |t.tuplet| == width && |t.pm| == width && |t.lr| == width
  }

  /** `beats.nil? || beats.empty? || m.raw.dig('voices', 0, 'rest')`. */
  predicate IsRestMeasure(m: RMeasure)
  {
    FirstVoiceBeats(m) == [] || (FirstVoice(m).Some? && FirstVoice(m).value.rest)
  }

  /**
   * A rest measure: six lines of dashes and three blank annotation lines,
   * as many columns as the signature's whole duration; `' ' * cols` raises
   * on a negative count and `Rational(num, 0)` on a zero denominator.
   */
  function BlankMeasure(sig: (int, int)): (r: Result<MeasureText>)
    ensures r.Ok? <==> sig.1 != 0 && DurationToCols(MeasureTotal(sig).value) >= 0
    ensures r.Ok? ==>
      var cols := DurationToCols(MeasureTotal(sig).value);
      Aligned(r.value, cols)
      && (forall si, p :: 0 <= si < 6 && 0 <= p < cols ==> r.value.lines[si][p] == '-')
      && r.value.tuplet == Spaces(cols) && r.value.pm == Spaces(cols) && r.value.lr == Spaces(cols)
  {
    var total :- MeasureTotal(sig);
    var cols := DurationToCols(total);
    if cols < 0 then Err("ArgumentError: negative argument")
    else
      var dashes := RepeatChar('-', cols);
      Ok(MeasureText([dashes, dashes, dashes, dashes, dashes, dashes], Spaces(cols), Spaces(cols), Spaces(cols)))
  }

  /** The annotation lines over the spans of the events `es`. */
  function Annotated(lines: seq<string>, es: seq<Event>): (r: MeasureText)
  {
    var spans := SpansOf(es);
    var width := Width(es);
    MeasureText(lines, TupletLine(spans, width), PmLine(spans, width), LetRingLine(spans, width))
  }

  /** The clipped beats of a measure that is not a rest measure. */
  function MeasureBeats(m: RMeasure, sig: (int, int)): (r: Result<seq<RBeat>>)
    ensures r.Ok? <==> sig.1 != 0 && AllValid(FirstVoiceBeats(m))
    ensures r.Ok? ==> AllValid(r.value)
  {
    var clipped :- ClippedBeats(FirstVoiceBeats(m), sig);
    ClippedFillsMeasure(FirstVoiceBeats(m), sig);
    Ok(clipped)
  }

  /** json_to_ascii_tab.rb `render_measure`. */
  function AsciiMeasure(m: RMeasure, sig: (int, int)): (r: Result<MeasureText>)
    ensures r.Ok? <==> (sig.1 != 0 &&
      if IsRestMeasure(m) then DurationToCols(MeasureTotal(sig).value) >= 0 else AllValid(FirstVoiceBeats(m)))
  {
    if IsRestMeasure(m) then BlankMeasure(sig)
    else
      var clipped :- MeasureBeats(m, sig);
      var es := Events(clipped, false);
      Ok(Annotated(Painted(es).lines, es))
  }

  /** tab_from_json.rb `render_measure`. */
  function TabMeasureText(m: RMeasure, sig: (int, int)): (r: Result<MeasureText>)
    ensures r.Ok? <==> (sig.1 != 0 &&
      if IsRestMeasure(m) then DurationToCols(MeasureTotal(sig).value) >= 0 else AllValid(FirstVoiceBeats(m)))
  {
    if IsRestMeasure(m) then BlankMeasure(sig)
    else
      var clipped :- MeasureBeats(m, sig);
      var es := Events(clipped, true);
      Ok(Annotated(Appended(es), es))
  }

  /** json_to_ascii_tab.rb lines 189-296. */
  method RenderAsciiMeasure(m: RMeasure, sig: (int, int)) returns (r: Result<MeasureText>)
    ensures r == AsciiMeasure(m, sig)
  {
    if IsRestMeasure(m) {
      return BlankMeasure(sig);
    }
    var clipped :- PadAndClip(FirstVoiceBeats(m), sig);
    ClippedFillsMeasure(FirstVoiceBeats(m), sig);
    var lines, spans, cur := PaintColumns(clipped);
    var tuplet := TupletAnnotation(spans, cur);
    var pm := PmAnnotation(spans, cur);
    var lr := LetRingAnnotation(spans, cur);
    r := Ok(MeasureText(lines, tuplet, pm, lr));
  }

  /** tab_from_json.rb lines 177-244. */
  method RenderTabMeasure(m: RMeasure, sig: (int, int)) returns (r: Result<MeasureText>)
    ensures r == TabMeasureText(m, sig)
  {
    if IsRestMeasure(m) {
      return BlankMeasure(sig);
    }
    var clipped :- PadAndClip(FirstVoiceBeats(m), sig);
    ClippedFillsMeasure(FirstVoiceBeats(m), sig);
    var lines, spans, cur := AppendColumns(clipped);
    var tuplet := TupletAnnotation(spans, cur);
    var pm := PmAnnotation(spans, cur);
    var lr := LetRingAnnotation(spans, cur);
    r := Ok(MeasureText(lines, tuplet, pm, lr));
  }

  // ---------------------------------------------------------------------------
  // What a rendered measure looks like

  /** Every string line and annotation line of a rendered measure has the same number of columns. */
  lemma AsciiMeasureAligned(m: RMeasure, sig: (int, int))
    requires AsciiMeasure(m, sig).Ok?
    ensures Aligned(AsciiMeasure(m, sig).value, |AsciiMeasure(m, sig).value.tuplet|)
  {
    if !IsRestMeasure(m) {
      var es := Events(MeasureBeats(m, sig).value, false);
      forall si | 0 <= si < 6
        ensures |Painted(es).lines[si]| == Width(es)
      {
        PaintedShape(es, si);
      }
    }
  }

  lemma TabMeasureAligned(m: RMeasure, sig: (int, int))
    requires TabMeasureText(m, sig).Ok?
    ensures Aligned(TabMeasureText(m, sig).value, |TabMeasureText(m, sig).value.tuplet|)
  {
    if !IsRestMeasure(m) {
      var es := Events(MeasureBeats(m, sig).value, true);
      forall si | 0 <= si < 6
        ensures |Appended(es)[si]| == Width(es)
      {
        AppendedWidth(es, si);
      }
    }
  }

  /**
   * In json_to_ascii_tab.rb's output every clipped beat's token on a string
   * stands at the first column of that beat, whatever sustains and tokens
   * follow it.
   */
  lemma AsciiMeasureTokens(m: RMeasure, sig: (int, int), k: nat, si: int)
    requires !IsRestMeasure(m) && AsciiMeasure(m, sig).Ok?
    requires k < |MeasureBeats(m, sig).value| && 0 <= si < 6
    requires EventOf(MeasureBeats(m, sig).value[k], false).cells[si].token != "-"
    ensures var clipped := MeasureBeats(m, sig).value;
      ShowsAt(AsciiMeasure(m, sig).value.lines[si], SpansOf(Events(clipped, false))[k].start,
        EventOf(clipped[k], false).cells[si].token)
  {
    var es := Events(MeasureBeats(m, sig).value, false);
    PaintedKeepsToken(es, k, si);
  }

  /**
   * In tab_from_json.rb's output every clipped beat occupies its span on
   * each string with its token followed by dashes.
   */
  lemma TabMeasureSegments(m: RMeasure, sig: (int, int), k: nat, si: int)
    requires !IsRestMeasure(m) && TabMeasureText(m, sig).Ok?
    requires k < |MeasureBeats(m, sig).value| && 0 <= si < 6
    ensures var clipped := MeasureBeats(m, sig).value;
      var e := EventOf(clipped[k], true);
      Shows(TabMeasureText(m, sig).value.lines[si], SpansOf(Events(clipped, true))[k], Segment(e.cells[si].token, e.w))
  {
    var es := Events(MeasureBeats(m, sig).value, true);
    AppendedSegment(es, k, si);
  }
}
