/**
 * Duration resolution shared by the three JavaScript formatters
 * (docs/jsonToAlphaText.js lines 1-3 and 377-429; jsonToAlphaText.ts lines
 * 64-65 and 276-328; public/jsonToAlphaText.js lines 2-3 and 204-256): a
 * beat's `[n, d]` duration becomes an alphaTex note value, possibly with a
 * tuplet, or the conversion fails.
 */
module Durations {
  import opened Wrappers
  import opened Score

  /** `POWER_OF_TWO_DURATIONS`. */
  predicate IsPowerOfTwoDuration(x: int)
  {
    x in {1, 2, 4, 8, 16, 32, 64, 128, 256}
  }

  function Pow2(k: nat): (p: int)
    ensures p >= 1
  {
    if k == 0 then 1 else 2 * Pow2(k - 1)
  }

  /** The set is exactly the powers of two up to 256. */
  lemma PowerOfTwoDurationMeaning(x: int)
    ensures IsPowerOfTwoDuration(x) <==> exists k :: 0 <= k <= 8 && x == Pow2(k)
  {
    assert Pow2(0) == 1 && Pow2(1) == 2 && Pow2(2) == 4 && Pow2(3) == 8 && Pow2(4) == 16;
    assert Pow2(5) == 32 && Pow2(6) == 64 && Pow2(7) == 128 && Pow2(8) == 256;
  }

  /** `TUPLET_CANDIDATES`. */
  const TupletCandidates: seq<int> := [3, 5, 6, 7, 9, 10, 12]

  /** `x / y` is an integer in JavaScript. */
  predicate DividesExactly(x: int, y: int)
  {
    y != 0 && x % y == 0
  }

  /** A resolved duration: the alphaTex note value and the tuplet (0 when there is none). */
  datatype DurationInfo = DurationInfo(duration: int, tuplet: int)

  /** `baseDurationFromDottedFraction`: `3/d` with one dot is a dotted `d/2`, `7/d` with two dots a double-dotted `d/4`. */
  function BaseDurationFromDottedFraction(numerator: int, denominator: int, dots: int): (r: Option<int>)
    ensures r.Some? ==> IsPowerOfTwoDuration(r.value)
    ensures r.Some? ==>
      (dots == 1 && numerator == 3 && 2 * r.value == denominator) || (dots == 2 && numerator == 7 && 4 * r.value == denominator)
    ensures dots == 1 && numerator == 3 && IsPowerOfTwoDuration(denominator / 2) && denominator % 2 == 0 ==> r == Some(denominator / 2)
    ensures dots == 2 && numerator == 7 && IsPowerOfTwoDuration(denominator / 4) && denominator % 4 == 0 ==> r == Some(denominator / 4)
    ensures !(dots == 1 && numerator == 3) && !(dots == 2 && numerator == 7) ==> r.None?
  {
    if dots == 1 && numerator == 3 then
      var base := (3 * denominator) / (2 * numerator);
      if DividesExactly(3 * denominator, 2 * numerator) && IsPowerOfTwoDuration(base) then Some(base) else None
    else if dots == 2 && numerator == 7 then
      var base := (7 * denominator) / (4 * numerator);
      if DividesExactly(7 * denominator, 4 * numerator) && IsPowerOfTwoDuration(base) then Some(base) else None
    else None
  }

  /** The first tuplet candidate `t` for which `2d / t` is a power-of-two duration. */
  function FirstTuplet(d: int, cands: seq<int>): (r: Option<DurationInfo>)
    ensures r.Some? ==>
      r.value.tuplet in cands && DividesExactly(2 * d, r.value.tuplet)
      && r.value.duration == 2 * d / r.value.tuplet && IsPowerOfTwoDuration(r.value.duration)
    ensures r.Some? ==>
      exists k :: 0 <= k < |cands| && cands[k] == r.value.tuplet
        && forall j :: 0 <= j < k ==> !(DividesExactly(2 * d, cands[j]) && IsPowerOfTwoDuration(2 * d / cands[j]))
    ensures r.None? <==> forall t :: t in cands ==> !(DividesExactly(2 * d, t) && IsPowerOfTwoDuration(2 * d / t))
  {
    if cands == [] then None
    else if DividesExactly(2 * d, cands[0]) && IsPowerOfTwoDuration(2 * d / cands[0]) then
      Some(DurationInfo(2 * d / cands[0], cands[0]))
    else
      var r := FirstTuplet(d, cands[1..]);
      if r.Some? then
        var k :| 0 <= k < |cands[1..]| && cands[1..][k] == r.value.tuplet
          && forall j :: 0 <= j < k ==> !(DividesExactly(2 * d, cands[1..][j]) && IsPowerOfTwoDuration(2 * d / cands[1..][j]));
        assert cands[k + 1] == r.value.tuplet;
        r
      else
        assert forall t :: t in cands ==> t == cands[0] || t in cands[1..];
        r
  }

  /** `beat.duration` as a pair of positive integers, when it is one. */
  function PositivePair(b: Beat): Option<(int, int)>
  {
    if b.duration.None? || |b.duration.value| != 2 then None
    else
      var n, d := b.duration.value[0], b.duration.value[1];
      if n.Some? && d.Some? && n.value > 0 && d.value > 0 then Some((n.value, d.value)) else None
  }

  /** `resolveDuration`. */
  function ResolveDuration(b: Beat): (r: Result<DurationInfo>)
    ensures PositivePair(b).None? ==> r.Err?
    ensures r.Ok? ==> IsPowerOfTwoDuration(r.value.duration)
  {
    if b.duration.None? || |b.duration.value| != 2 then Err("Beat duration is missing")
    else if PositivePair(b).None? then Err("Beat duration must be a positive fraction")
    else
      var (n, d) := PositivePair(b).value;
      if n != 1 then
        if TupletOf(b) != 0 then Err("Unsupported beat duration numerator")
        else
          var dottedBase := BaseDurationFromDottedFraction(n, d, b.dots);
          if dottedBase.Some? then Ok(DurationInfo(dottedBase.value, 0))
          else Err("Unsupported beat duration numerator")
      else if TupletOf(b) != 0 then
        var base := (d * 2) / TupletOf(b);
        if !DividesExactly(d * 2, TupletOf(b)) || !IsPowerOfTwoDuration(base) then Err("Unsupported tuplet duration")
        else Ok(DurationInfo(base, TupletOf(b)))
      else if IsPowerOfTwoDuration(d) then Ok(DurationInfo(d, 0))
      else
        var t := FirstTuplet(d, TupletCandidates);
        if t.Some? then Ok(t.value) else Err("Unsupported beat duration")
  }

  /** The resolution rules, case by case: plain, explicit tuplet, implied tuplet, dotted, and failure. */
  lemma ResolveDurationRules(b: Beat)
    ensures PositivePair(b).Some? && PositivePair(b).value.0 == 1 && TupletOf(b) == 0 && IsPowerOfTwoDuration(PositivePair(b).value.1)
      ==> ResolveDuration(b) == Ok(DurationInfo(PositivePair(b).value.1, 0))
    ensures PositivePair(b).Some? && PositivePair(b).value.0 == 1 && TupletOf(b) != 0 ==>
      (ResolveDuration(b).Ok? <==> DividesExactly(2 * PositivePair(b).value.1, TupletOf(b))
                                   && IsPowerOfTwoDuration(2 * PositivePair(b).value.1 / TupletOf(b)))
    ensures PositivePair(b).Some? && PositivePair(b).value.0 == 1 && TupletOf(b) != 0 && ResolveDuration(b).Ok? ==>
      ResolveDuration(b).value == DurationInfo(2 * PositivePair(b).value.1 / TupletOf(b), TupletOf(b))
    ensures PositivePair(b).Some? && PositivePair(b).value.0 == 1 && TupletOf(b) == 0 && !IsPowerOfTwoDuration(PositivePair(b).value.1)
      ==> (ResolveDuration(b).Ok? <==> FirstTuplet(PositivePair(b).value.1, TupletCandidates).Some?)
    ensures PositivePair(b).Some? && PositivePair(b).value.0 != 1 ==>
      (ResolveDuration(b).Ok? <==> TupletOf(b) == 0 && BaseDurationFromDottedFraction(PositivePair(b).value.0, PositivePair(b).value.1, b.dots).Some?)
  {
  }

  /** Whatever succeeds writes the beat's own length: `1/d` plain, `2/(t·base)` under a tuplet, `3/(2·base)` or `7/(4·base)` dotted. */
  lemma ResolvedValueMatches(b: Beat)
    requires ResolveDuration(b).Ok?
    ensures PositivePair(b).Some?
    ensures var (n, d) := PositivePair(b).value; var info := ResolveDuration(b).value;
      (n == 1 && info.tuplet == 0 && info.duration == d)
      || (n == 1 && info.tuplet != 0 && info.tuplet * info.duration == 2 * d)
      || (n == 3 && b.dots == 1 && info.tuplet == 0 && 2 * info.duration == d)
      || (n == 7 && b.dots == 2 && info.tuplet == 0 && 4 * info.duration == d)
  {
    var (n, d) := PositivePair(b).value;
    var info := ResolveDuration(b).value;
    if n == 1 && info.tuplet != 0 {
      if TupletOf(b) != 0 {
        assert info.tuplet == TupletOf(b) && info.duration == (d * 2) / TupletOf(b);
      }
      assert DividesExactly(2 * d, info.tuplet) && info.duration == 2 * d / info.tuplet;
    }
  }
}
