/**
 * Measure normalisation shared by the three JavaScript formatters
 * (docs/jsonToAlphaText.js lines 293-349; jsonToAlphaText.ts lines 183-245;
 * public/jsonToAlphaText.js lines 121-178): the beats of voice 1 are cut to
 * the prefix that fits the time signature and topped up with rests, so that
 * every measure lasts exactly `num/den` whole notes.
 */
module Normalize {
  import opened Wrappers
  import opened Score
  import opened Fractions

  // ---------------------------------------------------------------------------
  // Beat lengths

  /** Entry `i` of `beat.duration ?? []`; `undefined` past the end. */
  function DurationEntry(b: Beat, i: nat): Option<int>
  {
    if b.duration.Some? && i < |b.duration.value| then b.duration.value[i] else None
  }

  /** `beatDuration`: the first two entries of `duration` must be positive integers; the result is reduced. */
  function BeatDuration(b: Beat): (r: Result<Frac>)
    ensures r.Ok? <==>
      DurationEntry(b, 0).Some? && DurationEntry(b, 1).Some? && DurationEntry(b, 0).value > 0 && DurationEntry(b, 1).value > 0
    ensures r.Ok? ==>
      r.value.d > 0 && Val(r.value) == DurationEntry(b, 0).value as real / DurationEntry(b, 1).value as real
  {
    var n, d := DurationEntry(b, 0), DurationEntry(b, 1);
    if n.Some? && d.Some? && n.value > 0 && d.value > 0 then
      var f := Frac(n.value, d.value);
      ReduceSameValue(f);
      ValOfSameValue(Reduce(f), f);
      Ok(Reduce(f))
    else
      Err("Invalid beat duration")
  }

  /** Every beat has a valid duration. */
  predicate AllTimed(beats: seq<Beat>)
  {
    forall i :: 0 <= i < |beats| ==> BeatDuration(beats[i]).Ok?
  }

  /** The summed length of timed beats, in whole notes: the reference the loop's running total is checked against. */
  function TotalLength(beats: seq<Beat>): real
    requires AllTimed(beats)
  {
    if beats == [] then 0.0
    else TotalLength(beats[..|beats| - 1]) + Val(BeatDuration(beats[|beats| - 1]).value)
  }

  lemma {:induction false} TotalLengthAppend(p: seq<Beat>, q: seq<Beat>)
    requires AllTimed(p) && AllTimed(q)
    ensures AllTimed(p + q)
    ensures TotalLength(p + q) == TotalLength(p) + TotalLength(q)
    decreases |q|
  {
    assert forall i :: 0 <= i < |p + q| ==> (p + q)[i] == if i < |p| then p[i] else q[i - |p|];
    if q != [] {
      var q' := q[..|q| - 1];
      assert (p + q)[..|p + q| - 1] == p + q';
      TotalLengthAppend(p, q');
    } else {
      assert p + q == p;
    }
  }

  /** Extending a timed prefix by one timed beat adds that beat's length. */
  lemma TotalLengthStep(beats: seq<Beat>, i: nat)
    requires i < |beats| && AllTimed(beats[..i]) && BeatDuration(beats[i]).Ok?
    ensures AllTimed(beats[..i + 1])
    ensures TotalLength(beats[..i + 1]) == TotalLength(beats[..i]) + Val(BeatDuration(beats[i]).value)
  {
    assert beats[..i + 1][..i] == beats[..i];
  }

  // ---------------------------------------------------------------------------
  // Rests

  /** `k` rests of `1/den`, as `buildRestBeats` and `splitRestDuration` push them. */
  function Rests(k: nat, den: int): seq<Beat>
  {
    seq(k, _ => RestBeat(den))
  }

  lemma SumOverCommonDenominator(a: int, b: int, d: int)
    requires d > 0
    ensures a as real / d as real + b as real / d as real == (a + b) as real / d as real
  {
  }

  /** `k` rests of `1/den` last `k/den` whole notes. */
  lemma {:induction false} RestsLength(k: nat, den: int)
    requires den > 0
    ensures AllTimed(Rests(k, den))
    ensures TotalLength(Rests(k, den)) == k as real / den as real
  {
    assert DurationEntry(RestBeat(den), 0) == Some(1) && DurationEntry(RestBeat(den), 1) == Some(den);
    var one := BeatDuration(RestBeat(den));
    assert one.Ok? && Val(one.value) == 1.0 / den as real;
    if k > 0 {
      var r := Rests(k, den);
      RestsLength(k - 1, den);
      assert r[..k - 1] == Rests(k - 1, den);
      assert TotalLength(r) == TotalLength(Rests(k - 1, den)) + Val(one.value);
      SumOverCommonDenominator(k - 1, 1, den);
    }
  }

  /** `buildRestBeats`: `num` rests of `1/den`. */
  method BuildRestBeats(num: nat, den: int) returns (beats: seq<Beat>)
    ensures beats == Rests(num, den)
  {
    beats := [];
    var i := 0;
    while i < num
      invariant 0 <= i <= num
      invariant beats == Rests(i, den)
    {
      beats := beats + [RestBeat(den)];
      i := i + 1;
    }
  }

  /** The rests `splitRestDuration` produces for a remaining length. */
  function SplitRest(f: Frac): seq<Beat>
  {
    if f.n <= 0 then [] else Rests(f.n, f.d)
  }

  /** `splitRestDuration`: `n` rests of `1/d`, none for a non-positive remainder. */
  method SplitRestDuration(f: Frac) returns (beats: seq<Beat>)
    ensures beats == SplitRest(f)
  {
    if f.n <= 0 {
      return [];
    }
    beats := BuildRestBeats(f.n, f.d);
  }

  /** The rests for a positive remainder last exactly that remainder. */
  lemma SplitRestLength(f: Frac)
    requires f.d > 0 && Val(f) > 0.0
    ensures AllTimed(SplitRest(f)) && TotalLength(SplitRest(f)) == Val(f)
  {
    assert Val(f) * f.d as real == f.n as real;
    assert f.n > 0;
    RestsLength(f.n, f.d);
  }

  // ---------------------------------------------------------------------------
  // Fitting the written beats

  /**
   * The loop of `normalizeBeats` from beat `i` on, with running total
   * `total`: the number of beats kept and the final total. A beat is kept
   * while the total stays within `len`; the loop stops after reaching `len`
   * exactly or at the first beat that would overflow it.
   */
  function Fit(beats: seq<Beat>, i: nat, total: Frac, len: Frac): (r: Result<(nat, Frac)>)
    requires i <= |beats|
    ensures r.Ok? ==> i <= r.value.0 <= |beats|
    decreases |beats| - i
  {
    if i == |beats| then Ok((i, total))
    else match BeatDuration(beats[i])
      case Err(e) => Err(e)
      case Ok(dur) =>
        var next := Add(total, dur);
        if Compare(next, len) <= 0 then
          if Compare(next, len) == 0 then Ok((i + 1, next)) else Fit(beats, i + 1, next, len)
        else Ok((i, total))
  }

  /**
   * `k` beats fit in `len`: they are timed, they last at most `len`, and
   * unless they reach `len` exactly, the next beat would overflow it.
   */
  predicate LongestFit(beats: seq<Beat>, k: nat, len: real)
    requires k <= |beats|
  {
    AllTimed(beats[..k]) && TotalLength(beats[..k]) <= len
    && (k < |beats| ==> TotalLength(beats[..k]) == len || (AllTimed(beats[..k + 1]) && TotalLength(beats[..k + 1]) > len))
  }

  /**
   * What the loop keeps: a prefix of timed beats whose length is the final
   * total and does not exceed `len`; it stops early only at `len` exactly or
   * before a beat that would overflow; it fails only on a beat with an
   * invalid duration.
   */
  lemma {:induction false} FitFacts(beats: seq<Beat>, i: nat, total: Frac, len: Frac)
    requires i <= |beats| && total.d > 0 && len.d > 0
    requires AllTimed(beats[..i]) && Val(total) == TotalLength(beats[..i]) && Val(total) <= Val(len)
    ensures Fit(beats, i, total, len).Ok? ==>
      var (k, t) := Fit(beats, i, total, len).value;
      i <= k <= |beats| && t.d > 0 && AllTimed(beats[..k]) && Val(t) == TotalLength(beats[..k]) && LongestFit(beats, k, Val(len))
    ensures Fit(beats, i, total, len).Err? ==> exists j :: i <= j < |beats| && BeatDuration(beats[j]).Err?
    decreases |beats| - i
  {
    if i < |beats| && BeatDuration(beats[i]).Ok? {
      var dur := BeatDuration(beats[i]).value;
      var next := Add(total, dur);
      ValOfAdd(total, dur);
      ValOfCompare(next, len);
      TotalLengthStep(beats, i);
      if Compare(next, len) < 0 {
        FitFacts(beats, i + 1, next, len);
      }
    }
  }

  // ---------------------------------------------------------------------------
  // normalizeBeats

  /** Voice 1 of a measure, if there is one. */
  function FirstVoice(m: Measure): Option<Voice>
  {
    if |m.voices| > 0 then Some(m.voices[0]) else None
  }

  /** The beats of voice 1 (none when there is no voice). */
  function WrittenBeats(m: Measure): seq<Beat>
  {
    if |m.voices| > 0 then m.voices[0].beats else []
  }

  /** A rest voice or an empty one: the measure becomes whole rests of the signature. */
  predicate RestMeasure(m: Measure)
  {
    (FirstVoice(m).Some? && FirstVoice(m).value.rest) || WrittenBeats(m) == []
  }

  /** The beats `normalizeBeats` returns for a measure under signature `num/den`. */
  function Normalized(m: Measure, num: nat, den: int): Result<seq<Beat>>
  {
    if RestMeasure(m) then Ok(Rests(num, den))
    else
      var beats := WrittenBeats(m);
      var len := Frac(num, den);
      Complete(beats, len, Fit(beats, 0, Frac(0, 1), len))
  }

  /** The kept prefix, topped up with rests when its total falls short of `len`. */
  function Complete(beats: seq<Beat>, len: Frac, fit: Result<(nat, Frac)>): Result<seq<Beat>>
  {
    match fit
      case Err(e) => Err(e)
      case Ok((k, t)) =>
        var kept := if k <= |beats| then beats[..k] else beats;
        if Compare(t, len) < 0 then Ok(kept + SplitRest(Sub(len, t))) else Ok(kept)
  }

  /** The closing step of `normalizeBeats`: rests for whatever the kept beats leave of the measure. */
  method TopUp(beats: seq<Beat>, len: Frac, total: Frac, i: nat) returns (tail: seq<Beat>)
    requires i <= |beats|
    ensures Complete(beats, len, Ok((i, total))) == Ok(beats[..i] + tail)
  {
    tail := [];
    if Compare(total, len) < 0 {
      var remaining := Sub(len, total);
      tail := SplitRestDuration(remaining);
    } else {
      assert beats[..i] + tail == beats[..i];
    }
  }

  /** `normalizeBeats`. */
  method NormalizeBeats(m: Measure, num: nat, den: int) returns (r: Result<seq<Beat>>)
    requires num > 0 && den > 0
    ensures r == Normalized(m, num, den)
  {
    if RestMeasure(m) {
      var rests := BuildRestBeats(num, den);
      return Ok(rests);
    }
    var beats := WrittenBeats(m);
    var len := Frac(num, den);
    var total := Frac(0, 1);
    var normalized: seq<Beat> := [];
    var i := 0;
    ghost var stopped := false;
    while i < |beats|
      invariant 0 <= i <= |beats|
      invariant normalized == beats[..i]
      invariant Normalized(m, num, den) == Complete(beats, len, Fit(beats, i, total, len))
    {
      var dur := BeatDuration(beats[i]);
      if dur.Err? {
        assert Fit(beats, i, total, len) == Err(dur.error);
        return Err(dur.error);
      }
      var next := Add(total, dur.value);
      assert beats[..i + 1] == beats[..i] + [beats[i]];
      if Compare(next, len) <= 0 {
        if Compare(next, len) == 0 {
          assert Fit(beats, i, total, len) == Ok((i + 1, next));
          normalized := normalized + [beats[i]];
          total := next;
          i := i + 1;
          stopped := true;
          break;
        }
        normalized := normalized + [beats[i]];
        total := next;
        i := i + 1;
      } else {
        assert Fit(beats, i, total, len) == Ok((i, total));
        stopped := true;
        break;
      }
    }
    ghost var fit := Ok((i, total));
    assert Normalized(m, num, den) == Complete(beats, len, fit) by {
      if !stopped {
        assert Fit(beats, i, total, len) == fit;
      }
    }
    var tail := TopUp(beats, len, total, i);
    assert normalized + tail == beats[..i] + tail;
    return Ok(normalized + tail);
  }

  // ---------------------------------------------------------------------------
  // What a normalised measure is

  /** A normalised measure lasts exactly `num/den` whole notes. */
  lemma NormalizedFillsMeasure(m: Measure, num: nat, den: int)
    requires num > 0 && den > 0
    requires Normalized(m, num, den).Ok?
    ensures AllTimed(Normalized(m, num, den).value)
    ensures TotalLength(Normalized(m, num, den).value) == num as real / den as real
  {
    var len := Frac(num, den);
    if RestMeasure(m) {
      RestsLength(num, den);
    } else {
      var beats := WrittenBeats(m);
      assert beats[..0] == [];
      FitFacts(beats, 0, Frac(0, 1), len);
      var (k, t) := Fit(beats, 0, Frac(0, 1), len).value;
      ValOfCompare(t, len);
      if Compare(t, len) < 0 {
        var rest := Sub(len, t);
        ValOfSub(len, t);
        SplitRestLength(rest);
        TotalLengthAppend(beats[..k], SplitRest(rest));
      }
    }
  }

  /** Rests that all share one length. */
  ghost predicate UniformRests(s: seq<Beat>)
  {
    exists d :: s == Rests(|s|, d)
  }

  /**
   * The shape of a normalised measure: a rest or empty voice becomes `num`
   * rests of `1/den`; otherwise the longest prefix of the written beats that
   * fits, followed by rests that all share one length.
   */
  lemma NormalizedShape(m: Measure, num: nat, den: int)
    requires num > 0 && den > 0
    requires Normalized(m, num, den).Ok?
    ensures RestMeasure(m) ==> Normalized(m, num, den).value == Rests(num, den)
    ensures !RestMeasure(m) ==>
      var out := Normalized(m, num, den).value;
      var beats := WrittenBeats(m);
      exists k ::
        0 <= k <= |beats| && k <= |out| && out[..k] == beats[..k]
        && LongestFit(beats, k, num as real / den as real) && UniformRests(out[k..])
  {
    if !RestMeasure(m) {
      var len := Frac(num, den);
      var beats := WrittenBeats(m);
      var out := Normalized(m, num, den).value;
      assert beats[..0] == [];
      FitFacts(beats, 0, Frac(0, 1), len);
      var (k, t) := Fit(beats, 0, Frac(0, 1), len).value;
      var tail: seq<Beat> := if Compare(t, len) < 0 then SplitRest(Sub(len, t)) else [];
      assert out == beats[..k] + tail;
      assert out[..k] == beats[..k];
      assert out[k..] == tail;
      if Compare(t, len) < 0 && Sub(len, t).n > 0 {
        assert tail == Rests(|tail|, Sub(len, t).d);
      } else {
        assert tail == Rests(|tail|, 1);
      }
    }
  }

  /** A beat with an invalid duration among the written ones is the only way normalisation fails. */
  lemma NormalizedFailsOnlyOnBadDuration(m: Measure, num: nat, den: int)
    requires num > 0 && den > 0
    ensures Normalized(m, num, den).Err? ==>
      exists j :: 0 <= j < |WrittenBeats(m)| && BeatDuration(WrittenBeats(m)[j]).Err?
    ensures AllTimed(WrittenBeats(m)) ==> Normalized(m, num, den).Ok?
  {
    if !RestMeasure(m) {
      var beats := WrittenBeats(m);
      assert beats[..0] == [];
      FitFacts(beats, 0, Frac(0, 1), Frac(num, den));
    }
  }
}
