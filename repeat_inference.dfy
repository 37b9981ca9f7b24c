/**
 * Folding and the top level of the fold-plan engine (docs/repeat_inference.js,
 * lines 10-42 and 271-346): the selected repeats' skip ranges are dropped from
 * the measure sequence, the kept measures are renumbered, the repeats are
 * moved into the new numbering, and the fold is accepted only if unrolling it
 * reproduces every fingerprint.
 */
module RepeatInference {
  import opened Wrappers
  import opened RepeatPlan
  import opened RepeatCandidates
  import opened RepeatSelection

  /** `{ foldedIndices, plan }`: the kept original measures, and the plan over their new numbering. */
  datatype Folded = Folded(foldedIndices: seq<int>, plan: Plan)

  // ---------------------------------------------------------------------------
  // The skip mask

  /** `i` lies in one of `ranges` (inclusive at both ends). */
  predicate InRanges(ranges: seq<SkipRange>, i: int)
  {
    ranges != [] && (InRanges(ranges[..|ranges| - 1], i) || ranges[|ranges| - 1].lo <= i <= ranges[|ranges| - 1].hi)
  }

  /** `i` lies in a skip range of one of `rs`. */
  predicate SkippedBy(rs: seq<Candidate>, i: int)
  {
    rs != [] && (SkippedBy(rs[..|rs| - 1], i) || InRanges(rs[|rs| - 1].skipRanges, i))
  }

  lemma {:induction false} InRangesMeaning(ranges: seq<SkipRange>, i: int)
    ensures InRanges(ranges, i) <==> exists m :: 0 <= m < |ranges| && ranges[m].lo <= i <= ranges[m].hi
  {
    if ranges != [] {
      var init := ranges[..|ranges| - 1];
      InRangesMeaning(init, i);
      if InRanges(init, i) {
        var m :| 0 <= m < |init| && init[m].lo <= i <= init[m].hi;
        assert ranges[m] == init[m];
      }
      if exists m :: 0 <= m < |ranges| && ranges[m].lo <= i <= ranges[m].hi {
        var m :| 0 <= m < |ranges| && ranges[m].lo <= i <= ranges[m].hi;
        if m < |init| {
          assert init[m] == ranges[m];
        }
      }
    }
  }

  lemma {:induction false} SkippedByMeaning(rs: seq<Candidate>, i: int)
    ensures SkippedBy(rs, i) <==> exists k :: 0 <= k < |rs| && InRanges(rs[k].skipRanges, i)
  {
    if rs != [] {
      var init := rs[..|rs| - 1];
      SkippedByMeaning(init, i);
      if SkippedBy(init, i) {
        var k :| 0 <= k < |init| && InRanges(init[k].skipRanges, i);
        assert rs[k] == init[k];
      }
      if exists k :: 0 <= k < |rs| && InRanges(rs[k].skipRanges, i) {
        var k :| 0 <= k < |rs| && InRanges(rs[k].skipRanges, i);
        if k < |init| {
          assert init[k] == rs[k];
        }
      }
    }
  }

  /** The `skip` array after the marking loops. */
  function SkipMask(rs: seq<Candidate>, n: nat): (mask: seq<bool>)
    ensures |mask| == n
  {
    seq(n, i => SkippedBy(rs, i))
  }

  /** `for (let i = start; i <= end; i += 1) skip[i] = true;` on the array's own positions. */
  method MarkRange(skip: array<bool>, lo: int, hi: int)
    modifies skip
    ensures forall i :: 0 <= i < skip.Length ==> skip[i] == (old(skip[i]) || lo <= i <= hi)
  {
    var i := lo;
    while i <= hi
      invariant lo <= i <= hi + 1 || i == lo
      invariant forall j :: 0 <= j < skip.Length ==> skip[j] == (old(skip[j]) || lo <= j < i)
      decreases hi - i
    {
      if 0 <= i < skip.Length {
        skip[i] := true;
      }
      i := i + 1;
    }
  }

  /** The inner `forEach` over one candidate's skip ranges. */
  method MarkRanges(skip: array<bool>, ranges: seq<SkipRange>)
    modifies skip
    ensures forall i :: 0 <= i < skip.Length ==> skip[i] == (old(skip[i]) || InRanges(ranges, i))
  {
    for m := 0 to |ranges|
      invariant forall i :: 0 <= i < skip.Length ==> skip[i] == (old(skip[i]) || InRanges(ranges[..m], i))
    {
      assert ranges[..m + 1][..m] == ranges[..m];
      MarkRange(skip, ranges[m].lo, ranges[m].hi);
    }
    assert ranges[..|ranges|] == ranges;
  }

  /** The `skip` array: `true` exactly at the positions some skip range covers. */
  method MarkSkipped(rs: seq<Candidate>, n: nat) returns (skip: array<bool>)
    ensures fresh(skip) && skip[..] == SkipMask(rs, n)
  {
    skip := new bool[n](_ => false);
    for k := 0 to |rs|
      invariant skip.Length == n
      invariant forall i :: 0 <= i < n ==> skip[i] == SkippedBy(rs[..k], i)
    {
      assert rs[..k + 1][..k] == rs[..k];
      MarkRanges(skip, rs[k].skipRanges);
    }
    assert rs[..|rs|] == rs;
  }

  // ---------------------------------------------------------------------------
  // Kept positions and their new numbers

  /** The positions below `j` the mask keeps, in ascending order. */
  function KeptBelow(mask: seq<bool>, j: nat): seq<int>
    requires j <= |mask|
  {
    if j == 0 then [] else KeptBelow(mask, j - 1) + (if mask[j - 1] then [] else [j - 1])
  }

  /** `indexMap[i]`: `null` for a skipped position, else the number of kept positions before it. */
  function Rank(mask: seq<bool>, i: nat): Option<int>
    requires i < |mask|
  {
    if mask[i] then None else Some(|KeptBelow(mask, i)|)
  }

  function RankMap(mask: seq<bool>): (im: seq<Option<int>>)
    ensures |im| == |mask|
  {
    seq(|mask|, i requires 0 <= i < |mask| => Rank(mask, i))
  }

  /** The folded index list is strictly increasing and holds exactly the kept positions below `j`. */
  lemma {:induction false} KeptBelowFacts(mask: seq<bool>, j: nat)
    requires j <= |mask|
    ensures forall a, b :: 0 <= a < b < |KeptBelow(mask, j)| ==> KeptBelow(mask, j)[a] < KeptBelow(mask, j)[b]
    ensures forall a :: 0 <= a < |KeptBelow(mask, j)| ==>
      0 <= KeptBelow(mask, j)[a] < j && !mask[KeptBelow(mask, j)[a]]
    ensures forall i :: 0 <= i < j && !mask[i] ==> i in KeptBelow(mask, j)
  {
    if j > 0 {
      KeptBelowFacts(mask, j - 1);
    }
  }

  /** The numbering is monotone, and strictly so past a kept position. */
  lemma {:induction false} RankMonotone(mask: seq<bool>, i: nat, j: nat)
    requires i <= j <= |mask|
    ensures |KeptBelow(mask, i)| <= |KeptBelow(mask, j)|
    ensures i < j && !mask[i] ==> |KeptBelow(mask, i)| < |KeptBelow(mask, j)|
    decreases j - i
  {
    if i < j {
      RankMonotone(mask, i, j - 1);
      if i < j - 1 {
        RankMonotone(mask, i + 1, j - 1);
      }
    }
  }

  /** `indexMap[foldedIndices[k]] = k`: a kept position is found at its rank. */
  lemma {:induction false} RankLocates(mask: seq<bool>, i: nat, j: nat)
    requires i < j <= |mask| && !mask[i]
    ensures |KeptBelow(mask, i)| < |KeptBelow(mask, j)|
    ensures KeptBelow(mask, j)[|KeptBelow(mask, i)|] == i
  {
    if j == i + 1 {
      assert KeptBelow(mask, j) == KeptBelow(mask, i) + [i];
    } else {
      RankLocates(mask, i, j - 1);
      RankMonotone(mask, i, j - 1);
    }
  }

  /** The second loop of `buildFoldedPlan`: `foldedIndices` and `indexMap`. */
  method NumberKept(skip: array<bool>) returns (foldedIndices: seq<int>, indexMap: array<Option<int>>)
    ensures fresh(indexMap)
    ensures foldedIndices == KeptBelow(skip[..], skip.Length)
    ensures indexMap[..] == RankMap(skip[..])
  {
    ghost var mask := skip[..];
    var n := skip.Length;
    foldedIndices := [];
    indexMap := new Option<int>[n](_ => None);
    for i := 0 to n
      invariant foldedIndices == KeptBelow(mask, i)
      invariant forall j :: 0 <= j < i ==> indexMap[j] == Rank(mask, j)
      invariant forall j :: i <= j < n ==> indexMap[j] == None
    {
      assert skip[i] == mask[i];
      if !skip[i] {
        indexMap[i] := Some(|foldedIndices|);
        foldedIndices := foldedIndices + [i];
      }
    }
  }

  // ---------------------------------------------------------------------------
  // Moving repeats into the folded numbering

  /** The index-map lookups of one candidate all land inside the map, and its volta ends are kept. */
  predicate Mappable(c: Candidate, im: seq<Option<int>>)
  {
    0 <= c.repeat.start < |im| && 0 <= c.repeat.end < |im|
    && forall v :: v in c.voltas ==>
      0 <= v.start < |im| && 0 <= v.end < |im| && im[v.start].Some? && im[v.end].Some?
  }

  function FoldVolta(v: Volta, im: seq<Option<int>>): Volta
    requires 0 <= v.start < |im| && 0 <= v.end < |im| && im[v.start].Some? && im[v.end].Some?
  {
    Volta(im[v.start].value, im[v.end].value, v.allowedPasses)
  }

  function FoldVoltas(vs: seq<Volta>, im: seq<Option<int>>): (r: seq<Volta>)
    requires forall v :: v in vs ==> 0 <= v.start < |im| && 0 <= v.end < |im| && im[v.start].Some? && im[v.end].Some?
    ensures |r| == |vs|
    ensures forall k :: 0 <= k < |vs| ==> r[k] == FoldVolta(vs[k], im)
  {
    if vs == [] then [] else [FoldVolta(vs[0], im)] + FoldVoltas(vs[1..], im)
  }

  /** The `repeats.map` callback: a candidate whose start or end was skipped is dropped. */
  function FoldRepeat(c: Candidate, im: seq<Option<int>>): (r: Option<Repeat>)
    requires Mappable(c, im)
    ensures r.None? <==> im[c.repeat.start].None? || im[c.repeat.end].None?
    ensures r.Some? ==>
      Some(r.value.start) == im[c.repeat.start] && Some(r.value.end) == im[c.repeat.end]
      && r.value.times == c.repeat.times && |r.value.voltas| == |c.voltas|
  {
    var start := im[c.repeat.start];
    var end := im[c.repeat.end];
    if start.None? || end.None? then None
    else Some(Repeat(start.value, end.value, c.repeat.times, FoldVoltas(c.voltas, im)))
  }

  /** `map` followed by `filter(Boolean)`. */
  function FoldRepeats(rs: seq<Candidate>, im: seq<Option<int>>): (r: seq<Repeat>)
    requires forall c :: c in rs ==> Mappable(c, im)
    ensures |r| <= |rs|
  {
    if rs == [] then []
    else
      var init := rs[..|rs| - 1];
      assert forall c :: c in init ==> c in rs;
      var last := FoldRepeat(rs[|rs| - 1], im);
      FoldRepeats(init, im) + (if last.Some? then [last.value] else [])
  }

  /** The third step of `buildFoldedPlan`. */
  method FoldAll(rs: seq<Candidate>, indexMap: array<Option<int>>) returns (folded: seq<Repeat>)
    requires forall c :: c in rs ==> Mappable(c, indexMap[..])
    ensures folded == FoldRepeats(rs, indexMap[..])
  {
    ghost var im := indexMap[..];
    folded := [];
    for k := 0 to |rs|
      invariant folded == FoldRepeats(rs[..k], im)
    {
      assert rs[..k + 1][..k] == rs[..k];
      var r := FoldRepeat(rs[k], indexMap[..]);
      if r.Some? {
        folded := folded + [r.value];
      }
    }
    assert rs[..|rs|] == rs;
  }

  /** What `buildFoldedPlan` needs of the repeats it folds: heads and voltas in range, volta ends kept and forward. */
  predicate InFrame(rs: seq<Candidate>, n: int)
  {
    forall k :: 0 <= k < |rs| ==>
      0 <= rs[k].repeat.start < n && 0 <= rs[k].repeat.end < n
      && forall v :: v in rs[k].voltas ==>
        0 <= v.start <= v.end < n && !SkippedBy(rs, v.start) && !SkippedBy(rs, v.end)
  }

  lemma InFrameMappable(rs: seq<Candidate>, n: nat)
    requires InFrame(rs, n)
    ensures forall c :: c in rs ==> Mappable(c, RankMap(SkipMask(rs, n)))
  {
  }

  /** A folded volta still ends at or after its start, because the numbering is monotone. */
  lemma FoldVoltaForward(v: Volta, mask: seq<bool>)
    requires 0 <= v.start <= v.end < |mask| && !mask[v.start] && !mask[v.end]
    ensures FoldVolta(v, RankMap(mask)).start <= FoldVolta(v, RankMap(mask)).end
  {
    RankMonotone(mask, v.start, v.end);
  }

  lemma FoldForward(c: Candidate, mask: seq<bool>)
    requires Mappable(c, RankMap(mask))
    requires forall v :: v in c.voltas ==> v.start <= v.end
    ensures FoldRepeat(c, RankMap(mask)).Some? ==> RepeatForward(FoldRepeat(c, RankMap(mask)).value)
  {
    var im := RankMap(mask);
    if FoldRepeat(c, im).Some? {
      assert FoldRepeat(c, im).value.voltas == FoldVoltas(c.voltas, im);
      FoldVoltasForward(c.voltas, mask);
    }
  }

  lemma {:induction false} FoldVoltasForward(vs: seq<Volta>, mask: seq<bool>)
    requires forall v :: v in vs ==>
      0 <= v.start <= v.end < |mask| && RankMap(mask)[v.start].Some? && RankMap(mask)[v.end].Some?
    ensures forall v :: v in FoldVoltas(vs, RankMap(mask)) ==> v.start <= v.end
  {
    if vs != [] {
      var im := RankMap(mask);
      FoldVoltasForward(vs[1..], mask);
      FoldVoltaForward(vs[0], mask);
      assert FoldVoltas(vs, im) == [FoldVolta(vs[0], im)] + FoldVoltas(vs[1..], im);
    }
  }

  lemma {:induction false} FoldRepeatsForward(rs: seq<Candidate>, mask: seq<bool>)
    requires forall c :: c in rs ==> Mappable(c, RankMap(mask))
    requires forall c :: c in rs ==> forall v :: v in c.voltas ==> v.start <= v.end
    ensures AllForward(FoldRepeats(rs, RankMap(mask)))
  {
    if rs != [] {
      var init := rs[..|rs| - 1];
      assert forall c :: c in init ==> c in rs;
      FoldRepeatsForward(init, mask);
      FoldForward(rs[|rs| - 1], mask);
    }
  }

  /** What `buildFoldedPlan` returns: the kept measures, and the repeats renumbered onto them. */
  function FoldedPlanOf(rs: seq<Candidate>, n: nat): (folded: Folded)
    requires InFrame(rs, n)
    ensures PlanForward(folded.plan)
    ensures forall k :: 0 <= k < |folded.foldedIndices| ==> 0 <= folded.foldedIndices[k] < n
  {
    InFrameMappable(rs, n);
    FoldRepeatsForward(rs, SkipMask(rs, n));
    FoldedIndicesExact(rs, n);
    Folded(KeptBelow(SkipMask(rs, n), n), Some(FoldRepeats(rs, RankMap(SkipMask(rs, n)))))
  }

  /** `buildFoldedPlan`: drop the skipped measures, renumber the rest, and move the repeats along. */
  method BuildFoldedPlan(rs: seq<Candidate>, n: nat) returns (folded: Folded)
    requires InFrame(rs, n)
    ensures folded == FoldedPlanOf(rs, n)
    ensures folded.foldedIndices == KeptBelow(SkipMask(rs, n), n)
    ensures folded.plan == Some(FoldRepeats(rs, RankMap(SkipMask(rs, n))))
    ensures PlanForward(folded.plan)
  {
    var skip := MarkSkipped(rs, n);
    var foldedIndices, indexMap := NumberKept(skip);
    InFrameMappable(rs, n);
    var foldedRepeats := FoldAll(rs, indexMap);
    FoldRepeatsForward(rs, skip[..]);
    folded := Folded(foldedIndices, Some(foldedRepeats));
  }

  /** The folded index list: ascending, inside `[0, n)`, and exactly the measures no skip range covers. */
  lemma FoldedIndicesExact(rs: seq<Candidate>, n: nat)
    ensures var fi := KeptBelow(SkipMask(rs, n), n);
      (forall a, b :: 0 <= a < b < |fi| ==> fi[a] < fi[b])
      && (forall a :: 0 <= a < |fi| ==> 0 <= fi[a] < n && !SkippedBy(rs, fi[a]))
      && (forall i :: 0 <= i < n && !SkippedBy(rs, i) ==> i in fi)
  {
    KeptBelowFacts(SkipMask(rs, n), n);
  }

  /** `foldedIndices[indexMap[i]] = i` for every kept position `i`. */
  lemma KeptIsFoundAtRank(rs: seq<Candidate>, n: nat)
    ensures var mask := SkipMask(rs, n); var fi := KeptBelow(mask, n);
      forall i :: 0 <= i < n && !SkippedBy(rs, i) ==>
        RankMap(mask)[i].Some? && 0 <= RankMap(mask)[i].value < |fi| && fi[RankMap(mask)[i].value] == i
  {
    var mask := SkipMask(rs, n);
    forall i | 0 <= i < n && !SkippedBy(rs, i)
      ensures RankMap(mask)[i] == Some(|KeptBelow(mask, i)|)
      ensures |KeptBelow(mask, i)| < |KeptBelow(mask, n)| && KeptBelow(mask, n)[|KeptBelow(mask, i)|] == i
    {
      RankLocates(mask, i, n);
    }
  }

  /** `indexMap[foldedIndices[k]] = k` for every folded position `k`. */
  lemma RankOfFolded(rs: seq<Candidate>, n: nat)
    ensures var mask := SkipMask(rs, n); var fi := KeptBelow(mask, n);
      forall k :: 0 <= k < |fi| ==> 0 <= fi[k] < n && RankMap(mask)[fi[k]] == Some(k)
  {
    var mask := SkipMask(rs, n);
    var fi := KeptBelow(mask, n);
    KeptBelowFacts(mask, n);
    forall k | 0 <= k < |fi| ensures 0 <= fi[k] < n && RankMap(mask)[fi[k]] == Some(k) {
      var i := fi[k];
      RankLocates(mask, i, n);
      var r := |KeptBelow(mask, i)|;
      assert fi[r] == fi[k];
      assert !(r < k) && !(k < r);
    }
  }

  // ---------------------------------------------------------------------------
  // Verification of a fold

  /** `indices.map((i) => xs[i])` for indices known to be in range. */
  function Gather<T>(xs: seq<T>, indices: seq<int>): (r: seq<T>)
    requires forall k :: 0 <= k < |indices| ==> 0 <= indices[k] < |xs|
    ensures |r| == |indices| && forall k :: 0 <= k < |indices| ==> r[k] == xs[indices[k]]
  {
    seq(|indices|, k requires 0 <= k < |indices| => xs[indices[k]])
  }

  /** `indices.map((i) => xs[i])` where an index outside `xs` reads `undefined` (`None`). */
  function Lookup<T>(xs: seq<T>, indices: seq<int>): (r: seq<Option<T>>)
    ensures |r| == |indices|
    ensures forall k :: 0 <= k < |indices| ==>
      (r[k].Some? <==> 0 <= indices[k] < |xs|) && (r[k].Some? ==> r[k].value == xs[indices[k]])
  {
    seq(|indices|, k requires 0 <= k < |indices| =>
      if 0 <= indices[k] < |xs| then Some(xs[indices[k]]) else None)
  }

  /** Every element present: what the original fingerprints compare as. */
  function Present<T>(xs: seq<T>): (r: seq<Option<T>>)
    ensures |r| == |xs| && forall k :: 0 <= k < |xs| ==> r[k] == Some(xs[k])
  {
    seq(|xs|, k requires 0 <= k < |xs| => Some(xs[k]))
  }

  /** `arraysEqual`. */
  method ArraysEqual<T(==)>(a: seq<T>, b: seq<T>) returns (eq: bool)
    ensures eq <==> a == b
  {
    if |a| != |b| {
      return false;
    }
    for i := 0 to |a|
      invariant a[..i] == b[..i]
    {
      if a[i] != b[i] {
        return false;
      }
      assert a[..i + 1] == a[..i] + [a[i]] && b[..i + 1] == b[..i] + [b[i]];
    }
    assert a == a[..|a|] && b == b[..|b|];
    return true;
  }

  /** The fingerprints a fold plays back: fold, unroll, and read each unrolled index from the kept fingerprints. */
  function Replay<T>(fps: seq<T>, folded: Folded): seq<Option<T>>
    requires forall k :: 0 <= k < |folded.foldedIndices| ==> 0 <= folded.foldedIndices[k] < |fps|
    requires PlanForward(folded.plan)
  {
    var foldedFps := Gather(fps, folded.foldedIndices);
    Lookup(foldedFps, Unroll(folded.plan, |foldedFps|))
  }

  /** Playing back a fold reproduces the fingerprints exactly when every unrolled index reads the right kept measure. */
  lemma ReplayMeaning<T>(fps: seq<T>, folded: Folded)
    requires forall k :: 0 <= k < |folded.foldedIndices| ==> 0 <= folded.foldedIndices[k] < |fps|
    requires PlanForward(folded.plan)
    ensures var fi := folded.foldedIndices; var u := Unroll(folded.plan, |fi|);
      Replay(fps, folded) == Present(fps) <==>
        |u| == |fps| && forall k :: 0 <= k < |u| ==> 0 <= u[k] < |fi| && fps[fi[u[k]]] == fps[k]
  {
    var fi := folded.foldedIndices;
    var u := Unroll(folded.plan, |fi|);
    var r := Replay(fps, folded);
    if |u| == |fps| && forall k :: 0 <= k < |u| ==> 0 <= u[k] < |fi| && fps[fi[u[k]]] == fps[k] {
      assert forall k :: 0 <= k < |r| ==> r[k] == Present(fps)[k];
    }
    if r == Present(fps) {
      forall k | 0 <= k < |u| ensures 0 <= u[k] < |fi| && fps[fi[u[k]]] == fps[k] {
        assert r[k] == Some(fps[k]);
      }
    }
  }

  /** `verifyPlan`: accept exactly when the played-back fingerprints equal the original ones (the log callback is left out). */
  method VerifyPlan<T(==)>(fps: seq<T>, folded: Folded) returns (ok: bool)
    requires forall k :: 0 <= k < |folded.foldedIndices| ==> 0 <= folded.foldedIndices[k] < |fps|
    requires PlanForward(folded.plan)
    ensures ok <==> Replay(fps, folded) == Present(fps)
  {
    var foldedFps := Gather(fps, folded.foldedIndices);
    var unrolledIndices := UnrollPlan(folded.plan, |foldedFps|);
    var unrolledFps := Lookup(foldedFps, unrolledIndices);
    ok := ArraysEqual(unrolledFps, Present(fps));
  }

  /** The identity fold: every measure kept, no plan. */
  function Identity(n: nat): Folded
  {
    Folded(Range(0, n), None)
  }

  /** The identity fold plays back every fingerprint unchanged. */
  lemma IdentityReplays<T>(fps: seq<T>)
    ensures forall k :: 0 <= k < |Identity(|fps|).foldedIndices| ==> 0 <= Identity(|fps|).foldedIndices[k] < |fps|
    ensures Replay(fps, Identity(|fps|)) == Present(fps)
  {
    RangeIndex(0, |fps|);
    var fi := Identity(|fps|).foldedIndices;
    assert Gather(fps, fi) == fps;
  }

  // ---------------------------------------------------------------------------
  // Why selected repeats can be folded

  /** A candidate's skip ranges and voltas lie inside its span, and its voltas avoid its own skip ranges. */
  predicate WellPlaced(c: Candidate, n: int)
  {
    0 <= c.start <= c.repeat.start && c.repeat.end <= c.spanEnd < n && c.repeat.start <= c.repeat.end
    && (forall m :: 0 <= m < |c.skipRanges| ==> c.start <= c.skipRanges[m].lo && c.skipRanges[m].hi <= c.spanEnd)
    && forall v :: v in c.voltas ==>
      c.start <= v.start <= v.end <= c.spanEnd && !InRanges(c.skipRanges, v.start) && !InRanges(c.skipRanges, v.end)
  }

  lemma SimpleWellPlaced<T, B>(fps: seq<T>, bs: seq<Option<B>>, opts: Options, c: Candidate)
    requires SimpleCandidate(fps, bs, opts, c)
    ensures WellPlaced(c, |fps|)
  {
    MulAtLeast(c.repeat.times, c.repeatLen);
  }

  lemma VoltaWellPlaced<T, B>(fps: seq<T>, bs: seq<Option<B>>, opts: Options, c: Candidate)
    requires VoltaCandidate(fps, bs, opts, c) && opts.minPrefixLen >= 1
    ensures WellPlaced(c, |fps|)
  {
    var r := c.skipRanges[0];
    assert c.skipRanges[..0] == [];
    forall v | v in c.voltas ensures !InRanges(c.skipRanges, v.start) && !InRanges(c.skipRanges, v.end) {
      InRangesMeaning(c.skipRanges, v.start);
      InRangesMeaning(c.skipRanges, v.end);
    }
  }

  /** A position inside one member's span is skipped only by that member's own ranges. */
  lemma {:induction false} SkippedOnlyByOwner(rs: seq<Candidate>, n: int, k: int, x: int)
    requires forall j :: 0 <= j < |rs| ==> WellPlaced(rs[j], n)
    requires NonOverlapping(rs) && 0 <= k < |rs| && rs[k].start <= x <= rs[k].spanEnd
    requires !InRanges(rs[k].skipRanges, x)
    ensures !SkippedBy(rs, x)
  {
    SkippedByMeaning(rs, x);
    if SkippedBy(rs, x) {
      var j :| 0 <= j < |rs| && InRanges(rs[j].skipRanges, x);
      InRangesMeaning(rs[j].skipRanges, x);
      assert false;
    }
  }

  /** Non-overlapping, well-placed repeats meet what `buildFoldedPlan` needs. */
  lemma SelectedInFrame(rs: seq<Candidate>, n: int)
    requires forall j :: 0 <= j < |rs| ==> WellPlaced(rs[j], n)
    requires NonOverlapping(rs)
    ensures InFrame(rs, n)
  {
    forall k, v | 0 <= k < |rs| && v in rs[k].voltas
      ensures !SkippedBy(rs, v.start) && !SkippedBy(rs, v.end)
    {
      SkippedOnlyByOwner(rs, n, k, v.start);
      SkippedOnlyByOwner(rs, n, k, v.end);
    }
  }

  // ---------------------------------------------------------------------------
  // The top level

  /** The candidates `inferFoldPlan` gathers: the simple repeats, then the two-ending ones. */
  function Candidates<T(==), B>(fps: seq<T>, bs: seq<Option<B>>, opts: Options): seq<Candidate>
    requires opts.minRepeatLen >= 1
  {
    SimpleRepeatsOf(fps, bs, opts) + VoltaRepeatsOf(fps, bs, opts)
  }

  /** The selected repeats fit the sequence and fold into a plan whose playback reproduces every fingerprint. */
  predicate Accepted<T(==)>(fps: seq<T>, rs: seq<Candidate>)
  {
    InFrame(rs, |fps|) && Replay(fps, FoldedPlanOf(rs, |fps|)) == Present(fps)
  }

  /** Every generated candidate is well placed. */
  method GatherCandidates<T(==), B>(fps: seq<T>, bs: seq<Option<B>>, opts: Options) returns (cands: seq<Candidate>)
    requires opts.minRepeatLen >= 1 && opts.minPrefixLen >= 1
    ensures cands == Candidates(fps, bs, opts)
    ensures forall c :: c in cands ==> WellPlaced(c, |fps|)
  {
    var simple := FindSimpleRepeats(fps, bs, opts);
    var voltas := FindVoltas(fps, bs, opts);
    forall c | c in simple ensures WellPlaced(c, |fps|) {
      SimpleWellPlaced(fps, bs, opts, c);
    }
    forall c | c in voltas ensures WellPlaced(c, |fps|) {
      VoltaWellPlaced(fps, bs, opts, c);
    }
    cands := simple + voltas;
  }

  /**
   * What `inferFoldPlan` returns: the fold of the selected repeats when
   * there is a selection whose playback reproduces every fingerprint, and
   * otherwise the identity fold without a plan.
   */
  function InferredFold<T(==), B>(fps: seq<T>, bs: seq<Option<B>>, opts: Options): Folded
    requires opts.minRepeatLen >= 1
  {
    var sel := SelectionOf(Candidates(fps, bs, opts), opts);
    if sel.Some? && Accepted(fps, sel.value.repeats) then FoldedPlanOf(sel.value.repeats, |fps|)
    else Identity(|fps|)
  }

  /**
   * `inferFoldPlan` over the adapter's fingerprints and boundary tags. Its
   * result is `InferredFold`, and whatever it returns plays back to every
   * fingerprint.
   */
  method InferFoldPlan<T(==), B>(fps: seq<T>, bs: seq<Option<B>>, opts: Options) returns (folded: Folded)
    requires opts.minRepeatLen >= 1 && opts.minPrefixLen >= 1
    ensures forall k :: 0 <= k < |folded.foldedIndices| ==> 0 <= folded.foldedIndices[k] < |fps|
    ensures forall a, b :: 0 <= a < b < |folded.foldedIndices| ==> folded.foldedIndices[a] < folded.foldedIndices[b]
    ensures PlanForward(folded.plan)
    ensures folded.plan.None? ==> folded == Identity(|fps|)
    ensures Replay(fps, folded) == Present(fps)
    ensures folded == InferredFold(fps, bs, opts)
  {
    var n := |fps|;
    var cands := GatherCandidates(fps, bs, opts);
    var selection := SelectRepeatSet(cands, opts);
    if selection.None? || |selection.value.repeats| == 0 {
      IdentityReplays(fps);
      RangeIndex(0, n);
      return Identity(n);
    }
    var rs := selection.value.repeats;
    if !opts.allowMultipleRepeats {
      assert rs == [cands[BestIndex(cands)]];
    }
    assert NonOverlapping(rs);
    SelectedInFrame(rs, n);
    folded := BuildFoldedPlan(rs, n);
    FoldedIndicesExact(rs, n);
    var ok := VerifyPlan(fps, folded);
    if !ok {
      IdentityReplays(fps);
      RangeIndex(0, n);
      return Identity(n);
    }
  }
}
