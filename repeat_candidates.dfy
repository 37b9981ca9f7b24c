/**
 * Candidate generation of the fold-plan engine (docs/repeat_inference.js,
 * lines 88-194 and 326-338): simple repeats (`count` equal windows of
 * `len` measures) and two-ending repeats (a prefix played twice with
 * different endings), each scored by the measures it saves.
 */
module RepeatCandidates {
  import opened Wrappers
  import opened RepeatPlan
  import opened Text
  import opened Windows

  /** The engine's options; `log` is a diagnostic side effect and is not modelled. */
  datatype Options = Options(
    minRepeatLen: int,
    maxRepeatLen: int,
    minPrefixLen: int,
    maxEndingLen: int,
    allowMultipleRepeats: bool)

  /** `DEFAULT_OPTIONS`. */
  const DefaultOptions: Options := Options(2, 16, 2, 8, true)

  /** The `{ start, end, times }` record of a candidate. */
  datatype RepeatHead = RepeatHead(start: int, end: int, times: int)

  /** A `[start, end]` pair of `skipRanges`: measures the fold drops. */
  datatype SkipRange = SkipRange(lo: int, hi: int)

  /** The record `buildCandidate` returns (its `end` field always equals `spanEnd` and is kept once). */
  datatype Candidate = Candidate(
    repeat: RepeatHead,
    voltas: seq<Volta>,
    skipRanges: seq<SkipRange>,
    expandedLen: int,
    printedLen: int,
    spanEnd: int,
    score: int,
    start: int,
    repeatLen: int,
    constructs: int)

  /** `buildCandidate`: the score is ten per saved measure minus one per printed construct. */
  function BuildCandidate(
    repeat: RepeatHead, voltas: seq<Volta>, repeatLen: int, skipRanges: seq<SkipRange>,
    expandedLen: int, printedLen: int, spanEnd: int): (c: Candidate)
    ensures c.start == repeat.start && c.spanEnd == spanEnd && c.repeatLen == repeatLen
    ensures c.repeat == repeat && c.voltas == voltas && c.skipRanges == skipRanges
    ensures c.expandedLen == expandedLen && c.printedLen == printedLen
    ensures c.constructs == 1 + |voltas|
    ensures c.score == 10 * (expandedLen - printedLen) - (1 + |voltas|)
    ensures expandedLen - printedLen >= 1 && |voltas| <= 8 ==> c.score > 0
  {
    var saved := expandedLen - printedLen;
    var constructs := 1 + |voltas|;
    Candidate(repeat, voltas, skipRanges, expandedLen, printedLen, spanEnd,
      saved * 10 - constructs, repeat.start, repeatLen, constructs)
  }

  // ---------------------------------------------------------------------------
  // Window comparison and boundaries

  /** The `len` measures from `a` equal those from `b` (all inside the sequence). */
  predicate WindowsEqual<T(==)>(fps: seq<T>, a: int, b: int, len: int)
  {
    len <= 0 || (0 <= a && a + len <= |fps| && 0 <= b && b + len <= |fps| && fps[a..a + len] == fps[b..b + len])
  }

  /** A non-null boundary lies in `(start, end]`; indices outside the array read `undefined`. */
  predicate HasBoundary<B>(bs: seq<Option<B>>, start: int, end: int)
  {
    exists i :: start < i <= end && 0 <= i < |bs| && bs[i].Some?
  }

  lemma SliceSnoc<T>(s: seq<T>, a: int, i: int)
    requires 0 <= a && 0 <= i && a + i < |s|
    ensures s[a..a + i + 1] == s[a..a + i] + [s[a + i]]
  {
  }

  /** `segmentsEqual`. */
  method SegmentsEqual<T(==)>(fps: seq<T>, startA: int, startB: int, len: int) returns (eq: bool)
    requires len <= 0 || (0 <= startA && startA + len <= |fps| && 0 <= startB && startB + len <= |fps|)
    ensures eq <==> WindowsEqual(fps, startA, startB, len)
  {
    var i := 0;
    while i < len
      invariant 0 <= i && (i <= len || i == 0)
      invariant WindowsEqual(fps, startA, startB, i)
    {
      if fps[startA + i] != fps[startB + i] {
        assert fps[startA..startA + len][i] != fps[startB..startB + len][i];
        return false;
      }
      SliceSnoc(fps, startA, i);
      SliceSnoc(fps, startB, i);
      i := i + 1;
    }
    return true;
  }

  /** `spanHasBoundary`: looks at indices `start + 1 .. end`. */
  method SpanHasBoundary<B>(bs: seq<Option<B>>, start: int, end: int) returns (found: bool)
    ensures found <==> HasBoundary(bs, start, end)
  {
    var i := start + 1;
    while i <= end
      invariant start + 1 <= i
      invariant forall k :: start < k < i && 0 <= k < |bs| ==> bs[k].None?
      decreases end - i
    {
      if 0 <= i < |bs| && bs[i].Some? {
        return true;
      }
      i := i + 1;
    }
    return false;
  }

  // ---------------------------------------------------------------------------
  // Simple repeats

  /**
   * The (start, length) pairs `findSimpleRepeats` reports: a length within
   * the options, a second window that fits and equals the first, and no
   * boundary anywhere inside the run of equal windows.
   */
  predicate SimpleQualifies<T(==), B>(fps: seq<T>, bs: seq<Option<B>>, opts: Options, s: int, len: int)
  {
    1 <= len && opts.minRepeatLen <= len <= Min(opts.maxRepeatLen, |fps|)
    && 0 <= s && s + 2 * len <= |fps|
    && CopyAt(fps, s, len, 1)
    && !HasBoundary(bs, s, s + len * Copies(fps, s, len) - 1)
  }

  /** The candidate reported for the window of `len` measures at `s`. */
  function SimpleCandidateOf<T(==)>(fps: seq<T>, s: nat, len: nat): Candidate
    requires 1 <= len && s + len <= |fps|
  {
    var count := Copies(fps, s, len);
    var spanEnd := s + len * count - 1;
    BuildCandidate(RepeatHead(s, s + len - 1, count), [], len, [SkipRange(s + len, spanEnd)], len * count, len, spanEnd)
  }

  /** What every candidate of `findSimpleRepeats` satisfies. */
  predicate SimpleCandidate<T(==), B>(fps: seq<T>, bs: seq<Option<B>>, opts: Options, c: Candidate)
  {
    var s, len, count := c.start, c.repeatLen, c.repeat.times;
    opts.minRepeatLen <= len <= Min(opts.maxRepeatLen, |fps|)
    && 0 <= s && len >= 1 && count >= 2 && s + 2 * len <= |fps|
    && count == Copies(fps, s, len)
    && c.repeat == RepeatHead(s, s + len - 1, count)
    && c.voltas == []
    && c.spanEnd == s + len * count - 1 && c.spanEnd < |fps|
    && !HasBoundary(bs, s, c.spanEnd)
    && c.skipRanges == [SkipRange(s + len, c.spanEnd)]
    && c.expandedLen == len * count && c.printedLen == len
    && c.constructs == 1
    && c.score == 10 * (len * count - len) - 1
  }

  lemma MulAtLeast(count: int, len: int)
    requires count >= 0 && len >= 1
    ensures count * len >= count
  {
  }

  /** A qualifying window gives a candidate of the described shape, and only such candidates exist. */
  lemma SimpleCandidateOfMeaning<T, B>(fps: seq<T>, bs: seq<Option<B>>, opts: Options, s: int, len: int)
    requires SimpleQualifies(fps, bs, opts, s, len)
    ensures SimpleCandidate(fps, bs, opts, SimpleCandidateOf(fps, s, len))
  {
    CopiesMeaning(fps, s, len);
  }

  /** The candidates the inner loop of `findSimpleRepeats` reports for `s`, lengths from `len` on. */
  function SimpleAt<T(==), B>(fps: seq<T>, bs: seq<Option<B>>, opts: Options, s: nat, len: int): seq<Candidate>
    requires 1 <= opts.minRepeatLen <= len
    decreases |fps| - len
  {
    if len > Min(opts.maxRepeatLen, |fps|) || s + 2 * len > |fps| then []
    else
      (if SimpleQualifies(fps, bs, opts, s, len) then [SimpleCandidateOf(fps, s, len)] else [])
      + SimpleAt(fps, bs, opts, s, len + 1)
  }

  /** The candidates of `findSimpleRepeats` from start `s` on, in the order it reports them. */
  function SimpleFrom<T(==), B>(fps: seq<T>, bs: seq<Option<B>>, opts: Options, s: nat): seq<Candidate>
    requires 1 <= opts.minRepeatLen
    decreases |fps| - s
  {
    if s >= |fps| then [] else SimpleAt(fps, bs, opts, s, opts.minRepeatLen) + SimpleFrom(fps, bs, opts, s + 1)
  }

  function SimpleRepeatsOf<T(==), B>(fps: seq<T>, bs: seq<Option<B>>, opts: Options): seq<Candidate>
    requires 1 <= opts.minRepeatLen
  {
    SimpleFrom(fps, bs, opts, 0)
  }

  lemma {:induction false} SimpleAtMeaning<T, B>(fps: seq<T>, bs: seq<Option<B>>, opts: Options, s: nat, len: int)
    requires 1 <= opts.minRepeatLen <= len
    ensures forall c :: c in SimpleAt(fps, bs, opts, s, len) ==>
      c.start == s && len <= c.repeatLen && SimpleQualifies(fps, bs, opts, s, c.repeatLen)
      && c == SimpleCandidateOf(fps, s, c.repeatLen)
    ensures forall l :: len <= l && SimpleQualifies(fps, bs, opts, s, l) ==>
      SimpleCandidateOf(fps, s, l) in SimpleAt(fps, bs, opts, s, len)
    decreases |fps| - len
  {
    if !(len > Min(opts.maxRepeatLen, |fps|) || s + 2 * len > |fps|) {
      SimpleAtMeaning(fps, bs, opts, s, len + 1);
    }
  }

  lemma {:induction false} SimpleFromMeaning<T, B>(fps: seq<T>, bs: seq<Option<B>>, opts: Options, s: nat)
    requires 1 <= opts.minRepeatLen
    ensures forall c :: c in SimpleFrom(fps, bs, opts, s) ==>
      s <= c.start && SimpleQualifies(fps, bs, opts, c.start, c.repeatLen)
      && c == SimpleCandidateOf(fps, c.start, c.repeatLen)
    ensures forall t, l :: s <= t && SimpleQualifies(fps, bs, opts, t, l) ==>
      SimpleCandidateOf(fps, t, l) in SimpleFrom(fps, bs, opts, s)
    decreases |fps| - s
  {
    if s < |fps| {
      SimpleAtMeaning(fps, bs, opts, s, opts.minRepeatLen);
      SimpleFromMeaning(fps, bs, opts, s + 1);
    }
  }

  /**
   * `findSimpleRepeats` reports exactly the qualifying windows: every
   * candidate has the described shape, and every qualifying (start, length)
   * pair is reported.
   */
  lemma SimpleRepeatsMeaning<T, B>(fps: seq<T>, bs: seq<Option<B>>, opts: Options)
    requires 1 <= opts.minRepeatLen
    ensures forall c :: c in SimpleRepeatsOf(fps, bs, opts) ==>
      SimpleCandidate(fps, bs, opts, c) && SimpleQualifies(fps, bs, opts, c.start, c.repeatLen)
    ensures forall s, len :: SimpleQualifies(fps, bs, opts, s, len) ==>
      SimpleCandidateOf(fps, s, len) in SimpleRepeatsOf(fps, bs, opts)
  {
    SimpleFromMeaning(fps, bs, opts, 0);
    forall c | c in SimpleRepeatsOf(fps, bs, opts)
      ensures SimpleCandidate(fps, bs, opts, c)
    {
      SimpleCandidateOfMeaning(fps, bs, opts, c.start, c.repeatLen);
    }
  }

  /** The `while` loop counting equal windows after the first two. */
  method CountWindows<T(==)>(fps: seq<T>, start: nat, len: nat) returns (count: nat)
    requires len >= 1 && start + 2 * len <= |fps|
    requires CopyAt(fps, start, len, 1)
    ensures count == Copies(fps, start, len) && count >= 2
  {
    var total := |fps|;
    count := 2;
    var more := start + count * len <= total;
    if more {
      more := SegmentsEqual(fps, start, start + (count - 1) * len, len);
    }
    while more
      invariant 2 <= count && start + (count - 1) * len + len <= total + len
      invariant count >= 3 || more
      invariant CountFrom(fps, start, len, count - 1) == Copies(fps, start, len)
      invariant more <==> CopyAt(fps, start, len, count - 1)
      decreases total - (start + (count - 1) * len)
    {
      NextCopyStart(start, len, count - 1);
      count := count + 1;
      more := start + count * len <= total;
      if more {
        NextCopyStart(start, len, count - 1);
        more := SegmentsEqual(fps, start, start + (count - 1) * len, len);
      }
    }
    count := count - 1;
  }

  /** The body of the inner loop of `findSimpleRepeats`, once the second window fits. */
  method TrySimple<T(==), B>(fps: seq<T>, bs: seq<Option<B>>, opts: Options, start: nat, len: nat) returns (c: Option<Candidate>)
    requires 1 <= opts.minRepeatLen <= len <= Min(opts.maxRepeatLen, |fps|) && start + 2 * len <= |fps|
    ensures c.Some? <==> SimpleQualifies(fps, bs, opts, start, len)
    ensures c.Some? ==> c.value == SimpleCandidateOf(fps, start, len)
  {
    var secondStart := start + len;
    var equal := SegmentsEqual(fps, start, secondStart, len);
    if !equal {
      return None;
    }
    var count := CountWindows(fps, start, len);
    var spanEnd := start + len * count - 1;
    var boundary := SpanHasBoundary(bs, start, spanEnd);
    if boundary {
      return None;
    }
    var repeat := RepeatHead(start, start + len - 1, count);
    return Some(BuildCandidate(repeat, [], len, [SkipRange(start + len, spanEnd)], len * count, len, spanEnd));
  }

  /** The inner loop of `findSimpleRepeats`: every length tried at `start`. */
  method SimpleRepeatsAt<T(==), B>(fps: seq<T>, bs: seq<Option<B>>, opts: Options, start: nat) returns (found: seq<Candidate>)
    requires opts.minRepeatLen >= 1
    ensures found == SimpleAt(fps, bs, opts, start, opts.minRepeatLen)
  {
    found := [];
    var total := |fps|;
    var maxLen := Min(opts.maxRepeatLen, total);
    var len := opts.minRepeatLen;
    while len <= maxLen
      invariant opts.minRepeatLen <= len
      invariant found + SimpleAt(fps, bs, opts, start, len) == SimpleAt(fps, bs, opts, start, opts.minRepeatLen)
      decreases maxLen - len
    {
      var secondStart := start + len;
      if secondStart + len - 1 >= total {
        SimpleAtStops(fps, bs, opts, start, len);
        break;
      }
      SimpleAtStep(fps, bs, opts, start, len);
      var candidate := TrySimple(fps, bs, opts, start, len);
      ghost var piece := if candidate.Some? then [candidate.value] else [];
      assert found + (piece + SimpleAt(fps, bs, opts, start, len + 1)) == (found + piece) + SimpleAt(fps, bs, opts, start, len + 1);
      if candidate.Some? {
        found := found + [candidate.value];
      } else {
        assert found + piece == found;
      }
      len := len + 1;
    }
    SimpleAtStops(fps, bs, opts, start, len);
  }

  lemma SimpleAtStops<T, B>(fps: seq<T>, bs: seq<Option<B>>, opts: Options, s: nat, len: int)
    requires 1 <= opts.minRepeatLen <= len && (len > Min(opts.maxRepeatLen, |fps|) || s + 2 * len > |fps|)
    ensures SimpleAt(fps, bs, opts, s, len) == []
  {
  }

  lemma SimpleAtStep<T, B>(fps: seq<T>, bs: seq<Option<B>>, opts: Options, s: nat, len: int)
    requires 1 <= opts.minRepeatLen <= len <= Min(opts.maxRepeatLen, |fps|) && s + 2 * len <= |fps|
    ensures SimpleAt(fps, bs, opts, s, len)
      == (if SimpleQualifies(fps, bs, opts, s, len) then [SimpleCandidateOf(fps, s, len)] else [])
      + SimpleAt(fps, bs, opts, s, len + 1)
  {
  }

  /** `findSimpleRepeats`. */
  method FindSimpleRepeats<T(==), B>(fps: seq<T>, bs: seq<Option<B>>, opts: Options) returns (cands: seq<Candidate>)
    requires opts.minRepeatLen >= 1
    ensures cands == SimpleRepeatsOf(fps, bs, opts)
    ensures forall c :: c in cands ==> SimpleCandidate(fps, bs, opts, c)
    ensures forall s, len :: SimpleQualifies(fps, bs, opts, s, len) ==> SimpleCandidateOf(fps, s, len) in cands
  {
    cands := [];
    var total := |fps|;
    var start := 0;
    while start < total
      invariant 0 <= start <= total
      invariant cands + SimpleFrom(fps, bs, opts, start) == SimpleRepeatsOf(fps, bs, opts)
    {
      var found := SimpleRepeatsAt(fps, bs, opts, start);
      assert cands + (found + SimpleFrom(fps, bs, opts, start + 1)) == (cands + found) + SimpleFrom(fps, bs, opts, start + 1);
      cands := cands + found;
      start := start + 1;
    }
    SimpleRepeatsMeaning(fps, bs, opts);
  }

  // ---------------------------------------------------------------------------
  // Two-ending repeats

  /**
   * The (start, prefix, first ending, second ending) choices `findVoltas`
   * reports: lengths within the options, the whole span inside the
   * sequence and free of boundaries, and the prefix played again right
   * after the first ending.
   */
  predicate VoltaQualifies<T(==), B>(fps: seq<T>, bs: seq<Option<B>>, opts: Options, s: int, p: int, e1: int, e2: int)
  {
    0 <= s < |fps| && opts.minPrefixLen <= p <= Min(opts.maxRepeatLen, |fps|)
    && 1 <= e1 <= opts.maxEndingLen && 1 <= e2 <= opts.maxEndingLen
    && s + 2 * p + e1 + e2 - 1 < |fps|
    && !HasBoundary(bs, s, s + 2 * p + e1 + e2 - 1)
    && WindowsEqual(fps, s, s + p + e1, p)
  }

  /** The candidate reported for that choice. */
  function VoltaCandidateOf(s: int, p: int, e1: int, e2: int): Candidate
  {
    var end := s + 2 * p + e1 + e2 - 1;
    BuildCandidate(RepeatHead(s, end, 2), [Volta(s + p, s + p + e1 - 1, [1]), Volta(s + 2 * p + e1, end, [2])], p,
      [SkipRange(s + p + e1, s + 2 * p + e1 - 1)], 2 * p + e1 + e2, p + e1 + e2, end)
  }

  /** What every candidate of `findVoltas` satisfies. */
  predicate VoltaCandidate<T(==), B>(fps: seq<T>, bs: seq<Option<B>>, opts: Options, c: Candidate)
  {
    var s, p := c.start, c.repeatLen;
    opts.minPrefixLen <= p <= Min(opts.maxRepeatLen, |fps|)
    && 0 <= s
    && |c.voltas| == 2
    && var v1, v2 := c.voltas[0], c.voltas[1];
    v1 == Volta(s + p, v1.end, [1]) && 1 <= v1.end - v1.start + 1 <= opts.maxEndingLen
    && v2 == Volta(v1.end + 1 + p, c.spanEnd, [2]) && 1 <= v2.end - v2.start + 1 <= opts.maxEndingLen
    && c.spanEnd < |fps|
    && c.repeat == RepeatHead(s, c.spanEnd, 2)
    && WindowsEqual(fps, s, v1.end + 1, p)
    && !HasBoundary(bs, s, c.spanEnd)
    && c.skipRanges == [SkipRange(v1.end + 1, v1.end + p)]
    && c.expandedLen - c.printedLen == p
    && c.printedLen == p + (v1.end - v1.start + 1) + (v2.end - v2.start + 1)
    && c.constructs == 3
    && c.score == 10 * p - 3
  }

  /** The body of the innermost loop of `findVoltas`, once `end < total` holds. */
  method TryVolta<T(==), B>(fps: seq<T>, bs: seq<Option<B>>, opts: Options, start: int, prefixLen: int, endLen1: int, endLen2: int)
    returns (c: Option<Candidate>)
    requires 0 <= start < |fps| && opts.minPrefixLen <= prefixLen <= Min(opts.maxRepeatLen, |fps|)
    requires 1 <= endLen1 <= opts.maxEndingLen && 1 <= endLen2 <= opts.maxEndingLen
    requires start + prefixLen + endLen1 + prefixLen + endLen2 - 1 < |fps|
    ensures c.Some? <==> VoltaQualifies(fps, bs, opts, start, prefixLen, endLen1, endLen2)
    ensures c.Some? ==> c.value == VoltaCandidateOf(start, prefixLen, endLen1, endLen2)
    ensures c.Some? ==> VoltaCandidate(fps, bs, opts, c.value)
  {
    var firstEnd := start + prefixLen + endLen1;
    var secondStart := firstEnd;
    var secondEnd := secondStart + prefixLen;
    var end := secondEnd + endLen2 - 1;
    var boundary := SpanHasBoundary(bs, start, end);
    if boundary {
      return None;
    }
    var equal := SegmentsEqual(fps, start, secondStart, prefixLen);
    if !equal {
      return None;
    }
    var volta1Start := start + prefixLen;
    var volta1End := volta1Start + endLen1 - 1;
    var volta2Start := secondEnd;
    var volta2End := volta2Start + endLen2 - 1;
    var skipStart := start + prefixLen + endLen1;
    var skipEnd := skipStart + prefixLen - 1;
    var repeat := RepeatHead(start, end, 2);
    var voltas := [Volta(volta1Start, volta1End, [1]), Volta(volta2Start, volta2End, [2])];
    var expandedLen := prefixLen * 2 + endLen1 + endLen2;
    var printedLen := prefixLen + endLen1 + endLen2;
    var candidate := BuildCandidate(repeat, voltas, prefixLen, [SkipRange(skipStart, skipEnd)], expandedLen, printedLen, end);
    return Some(candidate);
  }

  /** The innermost loop of `findVoltas`: second endings from `e2` on, stopping once the span overruns. */
  function VoltaEndings2<T(==), B>(fps: seq<T>, bs: seq<Option<B>>, opts: Options, s: nat, p: int, e1: int, e2: int): seq<Candidate>
    decreases opts.maxEndingLen - e2
  {
    if e2 > opts.maxEndingLen || s + 2 * p + e1 + e2 - 1 >= |fps| then []
    else
      (if VoltaQualifies(fps, bs, opts, s, p, e1, e2) then [VoltaCandidateOf(s, p, e1, e2)] else [])
      + VoltaEndings2(fps, bs, opts, s, p, e1, e2 + 1)
  }

  /** First endings from `e1` on. */
  function VoltaEndings1<T(==), B>(fps: seq<T>, bs: seq<Option<B>>, opts: Options, s: nat, p: int, e1: int): seq<Candidate>
    decreases opts.maxEndingLen - e1
  {
    if e1 > opts.maxEndingLen then []
    else VoltaEndings2(fps, bs, opts, s, p, e1, 1) + VoltaEndings1(fps, bs, opts, s, p, e1 + 1)
  }

  /** Prefix lengths from `p` on. */
  function VoltaPrefixes<T(==), B>(fps: seq<T>, bs: seq<Option<B>>, opts: Options, s: nat, p: int): seq<Candidate>
    decreases Min(opts.maxRepeatLen, |fps|) - p
  {
    if p > Min(opts.maxRepeatLen, |fps|) then []
    else VoltaEndings1(fps, bs, opts, s, p, 1) + VoltaPrefixes(fps, bs, opts, s, p + 1)
  }

  /** Starts from `s` on. */
  function VoltaFrom<T(==), B>(fps: seq<T>, bs: seq<Option<B>>, opts: Options, s: nat): seq<Candidate>
    decreases |fps| - s
  {
    if s >= |fps| then [] else VoltaPrefixes(fps, bs, opts, s, opts.minPrefixLen) + VoltaFrom(fps, bs, opts, s + 1)
  }

  /** The candidates of `findVoltas`, in the order it reports them. */
  function VoltaRepeatsOf<T(==), B>(fps: seq<T>, bs: seq<Option<B>>, opts: Options): seq<Candidate>
  {
    VoltaFrom(fps, bs, opts, 0)
  }

  lemma VoltaCandidateOfMeaning<T, B>(fps: seq<T>, bs: seq<Option<B>>, opts: Options, s: int, p: int, e1: int, e2: int)
    requires VoltaQualifies(fps, bs, opts, s, p, e1, e2)
    ensures VoltaCandidate(fps, bs, opts, VoltaCandidateOf(s, p, e1, e2))
  {
  }

  lemma {:induction false} VoltaEndings2Meaning<T, B>(fps: seq<T>, bs: seq<Option<B>>, opts: Options, s: nat, p: int, e1: int, e2: int)
    ensures forall c :: c in VoltaEndings2(fps, bs, opts, s, p, e1, e2) ==> VoltaCandidate(fps, bs, opts, c)
    ensures forall f :: e2 <= f && VoltaQualifies(fps, bs, opts, s, p, e1, f) ==>
      VoltaCandidateOf(s, p, e1, f) in VoltaEndings2(fps, bs, opts, s, p, e1, e2)
    decreases opts.maxEndingLen - e2
  {
    if !(e2 > opts.maxEndingLen || s + 2 * p + e1 + e2 - 1 >= |fps|) {
      VoltaEndings2Meaning(fps, bs, opts, s, p, e1, e2 + 1);
      if VoltaQualifies(fps, bs, opts, s, p, e1, e2) {
        VoltaCandidateOfMeaning(fps, bs, opts, s, p, e1, e2);
      }
    }
  }

  lemma {:induction false} VoltaEndings1Meaning<T, B>(fps: seq<T>, bs: seq<Option<B>>, opts: Options, s: nat, p: int, e1: int)
    ensures forall c :: c in VoltaEndings1(fps, bs, opts, s, p, e1) ==> VoltaCandidate(fps, bs, opts, c)
    ensures forall g, f :: e1 <= g && VoltaQualifies(fps, bs, opts, s, p, g, f) ==>
      VoltaCandidateOf(s, p, g, f) in VoltaEndings1(fps, bs, opts, s, p, e1)
    decreases opts.maxEndingLen - e1
  {
    if e1 <= opts.maxEndingLen {
      VoltaEndings2Meaning(fps, bs, opts, s, p, e1, 1);
      VoltaEndings1Meaning(fps, bs, opts, s, p, e1 + 1);
    }
  }

  lemma {:induction false} VoltaPrefixesMeaning<T, B>(fps: seq<T>, bs: seq<Option<B>>, opts: Options, s: nat, p: int)
    ensures forall c :: c in VoltaPrefixes(fps, bs, opts, s, p) ==> VoltaCandidate(fps, bs, opts, c)
    ensures forall q, g, f :: p <= q && VoltaQualifies(fps, bs, opts, s, q, g, f) ==>
      VoltaCandidateOf(s, q, g, f) in VoltaPrefixes(fps, bs, opts, s, p)
    decreases Min(opts.maxRepeatLen, |fps|) - p
  {
    if p <= Min(opts.maxRepeatLen, |fps|) {
      VoltaEndings1Meaning(fps, bs, opts, s, p, 1);
      VoltaPrefixesMeaning(fps, bs, opts, s, p + 1);
    }
  }

  lemma {:induction false} VoltaFromMeaning<T, B>(fps: seq<T>, bs: seq<Option<B>>, opts: Options, s: nat)
    ensures forall c :: c in VoltaFrom(fps, bs, opts, s) ==> VoltaCandidate(fps, bs, opts, c)
    ensures forall t, q, g, f :: s <= t && VoltaQualifies(fps, bs, opts, t, q, g, f) ==>
      VoltaCandidateOf(t, q, g, f) in VoltaFrom(fps, bs, opts, s)
    decreases |fps| - s
  {
    if s < |fps| {
      VoltaPrefixesMeaning(fps, bs, opts, s, opts.minPrefixLen);
      VoltaFromMeaning(fps, bs, opts, s + 1);
    }
  }

  /**
   * `findVoltas` reports exactly the qualifying choices: every candidate
   * has the described shape, and every qualifying choice is reported.
   */
  lemma VoltaRepeatsMeaning<T, B>(fps: seq<T>, bs: seq<Option<B>>, opts: Options)
    ensures forall c :: c in VoltaRepeatsOf(fps, bs, opts) ==> VoltaCandidate(fps, bs, opts, c)
    ensures forall s, p, e1, e2 :: VoltaQualifies(fps, bs, opts, s, p, e1, e2) ==>
      VoltaCandidateOf(s, p, e1, e2) in VoltaRepeatsOf(fps, bs, opts)
  {
    VoltaFromMeaning(fps, bs, opts, 0);
  }

  /** The innermost loop of `findVoltas`: second endings for one prefix and first ending. */
  method SecondEndings<T(==), B>(fps: seq<T>, bs: seq<Option<B>>, opts: Options, start: nat, prefixLen: int, endLen1: int)
    returns (found: seq<Candidate>)
    requires start < |fps| && opts.minPrefixLen <= prefixLen <= Min(opts.maxRepeatLen, |fps|)
    requires 1 <= endLen1 <= opts.maxEndingLen
    ensures found == VoltaEndings2(fps, bs, opts, start, prefixLen, endLen1, 1)
  {
    found := [];
    var total := |fps|;
    var endLen2 := 1;
    while endLen2 <= opts.maxEndingLen
      invariant 1 <= endLen2
      invariant found + VoltaEndings2(fps, bs, opts, start, prefixLen, endLen1, endLen2)
        == VoltaEndings2(fps, bs, opts, start, prefixLen, endLen1, 1)
      decreases opts.maxEndingLen - endLen2
    {
      var end := start + prefixLen + endLen1 + prefixLen + endLen2 - 1;
      if end >= total {
        assert VoltaEndings2(fps, bs, opts, start, prefixLen, endLen1, endLen2) == [];
        break;
      }
      var rest := VoltaEndings2(fps, bs, opts, start, prefixLen, endLen1, endLen2 + 1);
      var candidate := TryVolta(fps, bs, opts, start, prefixLen, endLen1, endLen2);
      if candidate.Some? {
        assert found + ([candidate.value] + rest) == (found + [candidate.value]) + rest;
        found := found + [candidate.value];
      }
      endLen2 := endLen2 + 1;
    }
  }

  /** The loop over first endings for one prefix. */
  method FirstEndings<T(==), B>(fps: seq<T>, bs: seq<Option<B>>, opts: Options, start: nat, prefixLen: int)
    returns (found: seq<Candidate>)
    requires start < |fps| && opts.minPrefixLen <= prefixLen <= Min(opts.maxRepeatLen, |fps|)
    ensures found == VoltaEndings1(fps, bs, opts, start, prefixLen, 1)
  {
    found := [];
    var endLen1 := 1;
    while endLen1 <= opts.maxEndingLen
      invariant 1 <= endLen1
      invariant found + VoltaEndings1(fps, bs, opts, start, prefixLen, endLen1) == VoltaEndings1(fps, bs, opts, start, prefixLen, 1)
      decreases opts.maxEndingLen - endLen1
    {
      var more := SecondEndings(fps, bs, opts, start, prefixLen, endLen1);
      var rest := VoltaEndings1(fps, bs, opts, start, prefixLen, endLen1 + 1);
      assert found + (more + rest) == (found + more) + rest;
      found := found + more;
      endLen1 := endLen1 + 1;
    }
  }

  /** The loop over prefix lengths for one start. */
  method VoltasAt<T(==), B>(fps: seq<T>, bs: seq<Option<B>>, opts: Options, start: nat) returns (found: seq<Candidate>)
    requires start < |fps|
    ensures found == VoltaPrefixes(fps, bs, opts, start, opts.minPrefixLen)
  {
    found := [];
    var maxPrefix := Min(opts.maxRepeatLen, |fps|);
    var prefixLen := opts.minPrefixLen;
    while prefixLen <= maxPrefix
      invariant opts.minPrefixLen <= prefixLen
      invariant found + VoltaPrefixes(fps, bs, opts, start, prefixLen) == VoltaPrefixes(fps, bs, opts, start, opts.minPrefixLen)
      decreases maxPrefix - prefixLen
    {
      var more := FirstEndings(fps, bs, opts, start, prefixLen);
      var rest := VoltaPrefixes(fps, bs, opts, start, prefixLen + 1);
      assert found + (more + rest) == (found + more) + rest;
      found := found + more;
      prefixLen := prefixLen + 1;
    }
  }

  /** `findVoltas`. */
  method FindVoltas<T(==), B>(fps: seq<T>, bs: seq<Option<B>>, opts: Options) returns (cands: seq<Candidate>)
    ensures cands == VoltaRepeatsOf(fps, bs, opts)
    ensures forall c :: c in cands ==> VoltaCandidate(fps, bs, opts, c)
    ensures forall s, p, e1, e2 :: VoltaQualifies(fps, bs, opts, s, p, e1, e2) ==> VoltaCandidateOf(s, p, e1, e2) in cands
  {
    cands := [];
    var start := 0;
    while start < |fps|
      invariant 0 <= start <= |fps|
      invariant cands + VoltaFrom(fps, bs, opts, start) == VoltaRepeatsOf(fps, bs, opts)
    {
      var found := VoltasAt(fps, bs, opts, start);
      assert cands + (found + VoltaFrom(fps, bs, opts, start + 1)) == (cands + found) + VoltaFrom(fps, bs, opts, start + 1);
      cands := cands + found;
      start := start + 1;
    }
    VoltaRepeatsMeaning(fps, bs, opts);
  }

  // ---------------------------------------------------------------------------
  // Scores

  /** Every simple-repeat candidate saves at least one measure, so it scores above zero. */
  lemma SimpleScorePositive<T, B>(fps: seq<T>, bs: seq<Option<B>>, opts: Options, c: Candidate)
    requires SimpleCandidate(fps, bs, opts, c)
    ensures c.score >= 9
  {
    var len, count := c.repeatLen, c.repeat.times;
    assert len * count - len == len * (count - 1);
    MulAtLeast(count - 1, len);
  }

  /** A two-ending candidate scores above zero once prefixes are at least one measure long. */
  lemma VoltaScorePositive<T, B>(fps: seq<T>, bs: seq<Option<B>>, opts: Options, c: Candidate)
    requires VoltaCandidate(fps, bs, opts, c)
    requires opts.minPrefixLen >= 1
    ensures c.score >= 7
  {
  }
}
