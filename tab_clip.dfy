/**
 * The first half of `render_measure` in both ASCII tab renderers
 * (json_to_ascii_tab.rb lines 199-225, tab_from_json.rb lines 187-213):
 * a measure whose beats fall short of its signature gets one rest beat to
 * make up the difference, then the beats are cut off where the signature
 * is full, the beat that crosses the bar line replaced by a rest beat of
 * the time that is left. Durations are exact Ruby `Rational`s.
 */
module TabClip {
  import opened Wrappers
  import opened Fractions
  import opened RubyScore
  import opened TabUtil
  import opened RubyAlphaTex

  /** A rest beat of length `d`: `{ 'rest' => true, 'notes' => [{ 'rest' => true }], 'duration' => [n, d] }`. */
  function RestBeat(d: Frac): RBeat
  {
    RBeat([RNote(None, NoFret, true, false, false, None, false, false)], None, Some([d.n, d.d]), 0, true, None, false, false, false, false)
  }

  /** A rest beat of the kind `render_measure` adds. */
  predicate IsFiller(b: RBeat)
  {
    b.duration.Some? && |b.duration.value| == 2 && b == RestBeat(Frac(b.duration.value[0], b.duration.value[1]))
  }

  /** The duration of a beat (`rational_from_fraction`), when it reads. */
  function Duration(b: RBeat): (r: Frac)
    requires ValidDuration(b)
    ensures r.d > 0
  {
    RubyAlphaTex.RationalFromFraction(b.duration).value
  }

  /** A rest beat's duration is the rational it was made from. */
  lemma RestBeatValue(d: Frac)
    requires d.d > 0
    ensures ValidDuration(RestBeat(d)) && IsFiller(RestBeat(d))
    ensures Val(Duration(RestBeat(d))) == Val(d)
  {
    ValOfSameValue(Duration(RestBeat(d)), d);
  }

  /** `beats.sum { |b| rational_from_fraction(b['duration']) }`: raises at the first duration that does not read. */
  function SumDurations(bs: seq<RBeat>): (r: Result<Frac>)
    ensures r.Ok? <==> AllValid(bs)
    ensures r.Ok? ==> r.value.d > 0 && Val(r.value) == TotalValue(bs)
  {
    if bs == [] then Ok(Frac(0, 1))
    else
      var init := bs[..|bs| - 1];
      var last := bs[|bs| - 1];
      assert bs == init + [last];
      assert AllValid(bs) <==> AllValid(init) && ValidDuration(last);
      var s :- SumDurations(init);
      var d :- RubyAlphaTex.RationalFromFraction(last.duration);
      ValOfAdd(s, d);
      TotalValueAppend(init, last);
      Ok(RatAdd(s, d))
  }

  /** The beats after padding: one rest beat makes up a shortfall (`total_have < total_needed`). */
  function Padded(bs: seq<RBeat>, have: Frac, needed: Frac): seq<RBeat>
  {
    if !RatLe(needed, have) then bs + [RestBeat(RatSub(needed, have))] else bs
  }

  /**
   * The clipping loop, from a running total `acc`: stop once `acc` reaches
   * the measure; keep a beat that fits; replace the one that does not by a
   * rest of the time left, after which the measure is full.
   */
  function Clip(bs: seq<RBeat>, needed: Frac, acc: Frac): seq<RBeat>
    requires AllValid(bs) && needed.d > 0 && acc.d > 0
    decreases |bs|
  {
    if bs == [] || RatLe(needed, acc) then []
    else
      var d := Duration(bs[0]);
      AddExact(acc, d);
      if RatLe(RatAdd(acc, d), needed) then [bs[0]] + Clip(bs[1..], needed, RatAdd(acc, d))
      else [RestBeat(RatSub(needed, acc))] + Clip(bs[1..], needed, needed)
  }

  /** Pad then clip, as `render_measure` prepares a measure with beats. */
  function ClippedBeats(bs: seq<RBeat>, sig: (int, int)): (r: Result<seq<RBeat>>)
    ensures r.Ok? <==> sig.1 != 0 && AllValid(bs)
  {
    var needed :- MeasureTotal(sig);
    var have :- SumDurations(bs);
    SubExact(needed, have);
    RestBeatValue(RatSub(needed, have));
    assert AllValid(Padded(bs, have, needed));
    Ok(Clip(Padded(bs, have, needed), needed, Frac(0, 1)))
  }

  /** `render_measure`'s padding, from the summed durations, and its clipping loop. */
  method PadAndClip(bs: seq<RBeat>, sig: (int, int)) returns (r: Result<seq<RBeat>>)
    ensures r == ClippedBeats(bs, sig)
  {
    var needed :- MeasureTotal(sig);
    var have :- SumDurations(bs);
    var beats := bs;
    if !RatLe(needed, have) {
      var pad := RatSub(needed, have);
      SubExact(needed, have);
      RestBeatValue(pad);
      beats := bs + [RestBeat(pad)];
    }
    assert beats == Padded(bs, have, needed);
    var clipped := ClipBeats(beats, needed);
    return Ok(clipped);
  }

  /** The clipping loop of `render_measure`. */
  method ClipBeats(beats: seq<RBeat>, needed: Frac) returns (clipped: seq<RBeat>)
    requires AllValid(beats) && needed.d > 0
    ensures clipped == Clip(beats, needed, Frac(0, 1))
  {
    var acc := Frac(0, 1);
    clipped := [];
    var i := 0;
    while i < |beats|
      invariant 0 <= i <= |beats| && acc.d > 0 && AllValid(beats[i..])
      invariant clipped + Clip(beats[i..], needed, acc) == Clip(beats, needed, Frac(0, 1))
    {
      var d := Duration(beats[i]);
      if RatLe(needed, acc) {
        break;
      }
      ClipAt(beats, i, needed, acc, clipped);
      if RatLe(RatAdd(acc, d), needed) {
        clipped := clipped + [beats[i]];
        acc := RatAdd(acc, d);
      } else {
        clipped := clipped + [RestBeat(RatSub(needed, acc))];
        acc := needed;
      }
      i := i + 1;
    }
  }

  /** One turn of the clipping loop, at beat `i`, after the beats `clipped` already kept. */
  lemma ClipAt(beats: seq<RBeat>, i: nat, needed: Frac, acc: Frac, clipped: seq<RBeat>)
    requires AllValid(beats) && i < |beats| && needed.d > 0 && acc.d > 0
    requires !RatLe(needed, acc)
    ensures AllValid(beats[i..]) && AllValid(beats[i + 1..])
    ensures RatAdd(acc, Duration(beats[i])).d > 0
    ensures RatLe(RatAdd(acc, Duration(beats[i])), needed) ==>
      clipped + Clip(beats[i..], needed, acc) == (clipped + [beats[i]]) + Clip(beats[i + 1..], needed, RatAdd(acc, Duration(beats[i])))
    ensures !RatLe(RatAdd(acc, Duration(beats[i])), needed) ==>
      clipped + Clip(beats[i..], needed, acc) == (clipped + [RestBeat(RatSub(needed, acc))]) + Clip(beats[i + 1..], needed, needed)
  {
    assert beats[i..][1..] == beats[i + 1..];
    assert beats[i..][0] == beats[i];
    AddExact(acc, Duration(beats[i]));
  }

  // ---------------------------------------------------------------------------
  // What the clipped beats add up to

  /**
   * From a running total at most the measure, with enough time left in
   * the beats to fill it, the clipped beats make up exactly the rest of
   * the measure.
   */
  lemma {:induction false} ClipTotal(bs: seq<RBeat>, needed: Frac, acc: Frac)
    requires AllValid(bs) && needed.d > 0 && acc.d > 0
    requires Val(acc) <= Val(needed) <= Val(acc) + TotalValue(bs)
    ensures AllValid(Clip(bs, needed, acc))
    ensures Val(acc) + TotalValue(Clip(bs, needed, acc)) == Val(needed)
    decreases |bs|
  {
    ValOfLe(needed, acc);
    if bs != [] && !RatLe(needed, acc) {
      var d := Duration(bs[0]);
      TotalValueFront(bs);
      ValOfAdd(acc, d);
      ValOfLe(RatAdd(acc, d), needed);
      if RatLe(RatAdd(acc, d), needed) {
        var c := Clip(bs[1..], needed, RatAdd(acc, d));
        ClipTotal(bs[1..], needed, RatAdd(acc, d));
        assert Clip(bs, needed, acc) == [bs[0]] + c;
        assert ([bs[0]] + c)[1..] == c;
        TotalValueFront([bs[0]] + c);
      } else {
        var rest := RatSub(needed, acc);
        ValOfSub(needed, acc);
        RestBeatValue(rest);
        ValOfLe(needed, needed);
        assert Clip(bs[1..], needed, needed) == [];
        assert Clip(bs, needed, acc) == [RestBeat(rest)];
      }
    }
  }

  /**
   * The clipped beats of a measure always fill it exactly: pad-then-clip
   * makes their durations add up to the signature's `num/den` whenever
   * that is not negative, and leaves no beats at all when it is.
   */
  lemma ClippedFillsMeasure(bs: seq<RBeat>, sig: (int, int))
    requires ClippedBeats(bs, sig).Ok?
    ensures var needed := MeasureTotal(sig).value;
      var c := ClippedBeats(bs, sig).value;
      AllValid(c)
      && (Val(needed) >= 0.0 ==> TotalValue(c) == Val(needed))
      && (Val(needed) < 0.0 ==> c == [])
  {
    var needed := MeasureTotal(sig).value;
    var have := SumDurations(bs).value;
    var padded := Padded(bs, have, needed);
    var zero := Frac(0, 1);
    ValOfLe(needed, have);
    ValOfLe(needed, zero);
    if !RatLe(needed, have) {
      SubExact(needed, have);
      ValOfSub(needed, have);
      RestBeatValue(RatSub(needed, have));
      TotalValueAppend(bs, RestBeat(RatSub(needed, have)));
    }
    if Val(needed) >= 0.0 {
      ClipTotal(padded, needed, zero);
    }
  }

  /**
   * The clipped beats are the padded ones up to the bar line, except that
   * the last may be a rest beat standing in for the beat that crossed it.
   */
  lemma {:induction false} ClipShape(bs: seq<RBeat>, needed: Frac, acc: Frac)
    requires AllValid(bs) && needed.d > 0 && acc.d > 0
    ensures var c := Clip(bs, needed, acc);
      |c| <= |bs|
      && (forall k :: 0 <= k < |c| - 1 ==> c[k] == bs[k])
      && (c != [] ==> c[|c| - 1] == bs[|c| - 1] || IsFiller(c[|c| - 1]))
    decreases |bs|
  {
    if bs != [] && !RatLe(needed, acc) {
      var d := Duration(bs[0]);
      AddExact(acc, d);
      if RatLe(RatAdd(acc, d), needed) {
        ClipShape(bs[1..], needed, RatAdd(acc, d));
      } else {
        SubExact(needed, acc);
        RestBeatValue(RatSub(needed, acc));
        assert Clip(bs[1..], needed, needed) == [];
      }
    }
  }

  /**
   * After `render_measure`'s padding and clipping, the beats are the
   * measure's own from the start (at most one more than it has), except
   * that the last may be a rest beat that pads the measure or stands in
   * for a beat that crossed the bar line.
   */
  lemma ClippedShape(bs: seq<RBeat>, sig: (int, int))
    requires ClippedBeats(bs, sig).Ok?
    ensures var c := ClippedBeats(bs, sig).value;
      |c| <= |bs| + 1
      && (forall k :: 0 <= k < |c| - 1 ==> c[k] == bs[k])
      && (c != [] ==> (|c| <= |bs| && c[|c| - 1] == bs[|c| - 1]) || IsFiller(c[|c| - 1]))
  {
    var needed := MeasureTotal(sig).value;
    var have := SumDurations(bs).value;
    var padded := Padded(bs, have, needed);
    PaddedShape(bs, have, needed);
    ClipShape(padded, needed, Frac(0, 1));
    ShapeThroughPadding(bs, padded, ClippedBeats(bs, sig).value);
  }

  /** The padding adds at most one beat, a filler rest, after the measure's own. */
  lemma PaddedShape(bs: seq<RBeat>, have: Frac, needed: Frac)
    requires AllValid(bs) && have.d > 0 && needed.d > 0
    ensures var padded := Padded(bs, have, needed);
      AllValid(padded)
      && (padded == bs || (|padded| == |bs| + 1 && padded[..|bs|] == bs && IsFiller(padded[|bs|])))
  {
    SubExact(needed, have);
    RestBeatValue(RatSub(needed, have));
    var padded := Padded(bs, have, needed);
    if padded != bs {
      assert padded[..|bs|] == bs;
    }
  }

  lemma ShapeThroughPadding(bs: seq<RBeat>, padded: seq<RBeat>, c: seq<RBeat>)
    requires padded == bs || (|padded| == |bs| + 1 && padded[..|bs|] == bs && IsFiller(padded[|bs|]))
    requires |c| <= |padded| && (forall k :: 0 <= k < |c| - 1 ==> c[k] == padded[k])
    requires c != [] ==> c[|c| - 1] == padded[|c| - 1] || IsFiller(c[|c| - 1])
    ensures |c| <= |bs| + 1
      && (forall k :: 0 <= k < |c| - 1 ==> c[k] == bs[k])
      && (c != [] ==> (|c| <= |bs| && c[|c| - 1] == bs[|c| - 1]) || IsFiller(c[|c| - 1]))
  {
    forall k | 0 <= k < |c| - 1 ensures c[k] == bs[k] {
      assert k < |bs| && padded[k] == bs[k];
    }
    if c != [] && |c| <= |bs| && c[|c| - 1] == padded[|c| - 1] {
      assert padded[|c| - 1] == bs[|c| - 1];
    }
  }
}
