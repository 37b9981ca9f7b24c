/**
 * Fold plans and their expansion: the `plan.repeats` records and `unrollPlan`
 * of docs/repeat_inference.js (lines 44-86). A plan lists repeats over folded
 * measure coordinates; unrolling plays each repeat `times` times (default 2),
 * taking a volta's measures only on the passes it allows.
 */
module RepeatPlan {
  import opened Wrappers
  import opened Sorting

  /** An alternate ending `[start, end]` played on the passes it lists. */
  datatype Volta = Volta(start: int, end: int, allowedPasses: seq<int>)

  /** A repeated section `[start, end]` with its alternate endings. */
  datatype Repeat = Repeat(start: int, end: int, times: int, voltas: seq<Volta>)

  /** `null` plan, or the plan's `repeats` array. */
  type Plan = Option<seq<Repeat>>

  /** The integers `lo, lo + 1, …, hi - 1` (the source's `for` loops pushing `i`). */
  function Range(lo: int, hi: int): (r: seq<int>)
    ensures |r| == if hi <= lo then 0 else hi - lo
    decreases hi - lo
  {
    if hi <= lo then [] else [lo] + Range(lo + 1, hi)
  }

  /** The `k`-th entry of `Range(lo, hi)` is `lo + k`. */
  lemma {:induction false} RangeIndex(lo: int, hi: int)
    ensures forall k :: 0 <= k < |Range(lo, hi)| ==> Range(lo, hi)[k] == lo + k
    decreases hi - lo
  {
    if lo < hi {
      RangeIndex(lo + 1, hi);
    }
  }

  /** `repeat.times || 2`: a zero (or missing) count means two passes. */
  function EffectiveTimes(r: Repeat): int
  {
    if r.times == 0 then 2 else r.times
  }

  /** Every volta of the repeat ends at or after its start; the walk over a repeat relies on this to advance. */
  predicate RepeatForward(r: Repeat)
  {
    forall v :: v in r.voltas ==> v.start <= v.end
  }

  predicate AllForward(rs: seq<Repeat>)
  {
    forall k :: 0 <= k < |rs| ==> RepeatForward(rs[k])
  }

  predicate PlanForward(plan: Plan)
  {
    plan.Some? ==> AllForward(plan.value)
  }

  /** A volta map keyed by start, whose entries end at or after their start. */
  predicate MapForward(vm: map<int, Volta>)
  {
    forall k :: k in vm ==> vm[k].start == k && vm[k].start <= vm[k].end
  }

  /**
   * The `voltaMap` of a repeat: `voltaMap.set(volta.start, volta)` for each
   * volta in order, so a later volta with the same start replaces an earlier one.
   */
  function VoltaMap(vs: seq<Volta>): (m: map<int, Volta>)
    ensures forall k :: k in m ==> m[k].start == k && m[k] in vs
    ensures forall v :: v in vs ==> v.start in m
    ensures |vs| > 0 ==> m[vs[|vs| - 1].start] == vs[|vs| - 1]
  {
    if vs == [] then map[]
    else
      var m := VoltaMap(vs[..|vs| - 1])[vs[|vs| - 1].start := vs[|vs| - 1]];
      assert forall v :: v in vs ==> v in vs[..|vs| - 1] || v == vs[|vs| - 1];
      m
  }

  /** Each entry of the volta map is the last volta of `vs` with that start. */
  lemma VoltaMapLastWins(vs: seq<Volta>, k: int)
    requires k in VoltaMap(vs)
    ensures exists j :: 0 <= j < |vs| && vs[j] == VoltaMap(vs)[k] && LastWithStart(vs, j, k)
  {
    var j := LastVoltaIndex(vs, k);
  }

  /** The position of the volta that `VoltaMap(vs)` keeps at `k`. */
  lemma {:induction false} LastVoltaIndex(vs: seq<Volta>, k: int) returns (j: int)
    requires k in VoltaMap(vs)
    ensures 0 <= j < |vs| && vs[j] == VoltaMap(vs)[k] && LastWithStart(vs, j, k)
  {
    assert vs != [];
    var init := vs[..|vs| - 1];
    VoltaMapSnoc(vs);
    if k == vs[|vs| - 1].start {
      j := |vs| - 1;
    } else {
      assert k in VoltaMap(init) && VoltaMap(vs)[k] == VoltaMap(init)[k];
      j := LastVoltaIndex(init, k);
      LastWithStartSnoc(vs, j, k);
    }
  }

  lemma VoltaMapSnoc(vs: seq<Volta>)
    requires vs != []
    ensures VoltaMap(vs) == VoltaMap(vs[..|vs| - 1])[vs[|vs| - 1].start := vs[|vs| - 1]]
  {
  }

  lemma LastWithStartSnoc(vs: seq<Volta>, j: int, k: int)
    requires vs != [] && LastWithStart(vs[..|vs| - 1], j, k) && vs[|vs| - 1].start != k
    ensures LastWithStart(vs, j, k) && vs[j] == vs[..|vs| - 1][j]
  {
  }

  /** `j` is a position of `vs` and no volta after it starts at `k`. */
  predicate LastWithStart(vs: seq<Volta>, j: int, k: int)
  {
    0 <= j < |vs| && forall j' :: j < j' < |vs| ==> vs[j'].start != k
  }

  /** One pass over `[i, end]`: a volta start jumps past the volta, emitting it only on an allowed pass. */
  function Walk(i: int, end: int, vm: map<int, Volta>, pass: int): seq<int>
    requires MapForward(vm)
    decreases end - i
  {
    if i > end then []
    else if i in vm then
      (if pass in vm[i].allowedPasses then Range(vm[i].start, vm[i].end + 1) else [])
      + Walk(vm[i].end + 1, end, vm, pass)
    else [i] + Walk(i + 1, end, vm, pass)
  }

  /** Passes `pass, pass + 1, …, times` over a repeat's body. */
  function PassesFrom(r: Repeat, vm: map<int, Volta>, pass: int, times: int): seq<int>
    requires MapForward(vm)
    decreases times - pass
  {
    if pass > times then [] else Walk(r.start, r.end, vm, pass) + PassesFrom(r, vm, pass + 1, times)
  }

  function UnrollRepeat(r: Repeat): seq<int>
    requires RepeatForward(r)
  {
    PassesFrom(r, VoltaMap(r.voltas), 1, EffectiveTimes(r))
  }

  /** The measures from `cursor` on, with the (sorted) repeats `rs` played out. */
  function UnrollFrom(rs: seq<Repeat>, cursor: int, measureCount: int): seq<int>
    requires AllForward(rs)
  {
    if rs == [] then Range(cursor, measureCount)
    else
      Range(cursor, rs[0].start) + UnrollRepeat(rs[0])
      + UnrollFrom(rs[1..], rs[0].end + 1, measureCount)
  }

  function StartKey(r: Repeat): (int, int) { (r.start, 0) }

  lemma SortedForward(rs: seq<Repeat>)
    requires AllForward(rs)
    ensures AllForward(SortBy(rs, StartKey))
  {
    var sorted := SortBy(rs, StartKey);
    forall k | 0 <= k < |sorted| ensures RepeatForward(sorted[k]) {
      assert sorted[k] in multiset(rs);
    }
  }

  /** The playback order `unrollPlan(plan, measureCount)` produces. */
  function Unroll(plan: Plan, measureCount: int): (r: seq<int>)
    requires PlanForward(plan)
    ensures plan.None? || plan.value == [] ==>
      |r| == (if measureCount < 0 then 0 else measureCount) && forall k :: 0 <= k < |r| ==> r[k] == k
  {
    if plan.None? || plan.value == [] then RangeIndex(0, measureCount); Range(0, measureCount)
    else
      var sorted := SortBy(plan.value, StartKey);
      SortedForward(plan.value);
      UnrollFrom(sorted, 0, measureCount)
  }

  lemma UnrollFromStep(rs: seq<Repeat>, cursor: int, measureCount: int)
    requires rs != [] && AllForward(rs)
    ensures AllForward(rs[1..]) && RepeatForward(rs[0])
    ensures UnrollFrom(rs, cursor, measureCount)
      == Range(cursor, rs[0].start) + UnrollRepeat(rs[0]) + UnrollFrom(rs[1..], rs[0].end + 1, measureCount)
  {
    assert forall k :: 0 <= k < |rs[1..]| ==> rs[1..][k] == rs[k + 1];
  }

  /** `for (let i = lo; i < hi; i += 1) indices.push(i)`. */
  method PushRange(indices: seq<int>, lo: int, hi: int) returns (out: seq<int>)
    ensures out == indices + Range(lo, hi)
  {
    out := indices;
    var i := lo;
    while i < hi
      invariant out + Range(i, hi) == indices + Range(lo, hi)
      decreases hi - i
    {
      out := out + [i];
      i := i + 1;
    }
  }

  /** The `voltaMap` loop of `unrollPlan`. */
  method BuildVoltaMap(vs: seq<Volta>) returns (voltaMap: map<int, Volta>)
    ensures voltaMap == VoltaMap(vs)
  {
    voltaMap := map[];
    var j := 0;
    while j < |vs|
      invariant 0 <= j <= |vs|
      invariant voltaMap == VoltaMap(vs[..j])
    {
      assert vs[..j + 1][..j] == vs[..j];
      voltaMap := voltaMap[vs[j].start := vs[j]];
      j := j + 1;
    }
    assert vs[..j] == vs;
  }

  /** One pass of the `while (i <= repeat.end)` walk. */
  method WalkPass(indices: seq<int>, repeat: Repeat, voltaMap: map<int, Volta>, pass: int) returns (out: seq<int>)
    requires MapForward(voltaMap)
    ensures out == indices + Walk(repeat.start, repeat.end, voltaMap, pass)
  {
    ghost var target := indices + Walk(repeat.start, repeat.end, voltaMap, pass);
    out := indices;
    var i := repeat.start;
    while i <= repeat.end
      invariant out + Walk(i, repeat.end, voltaMap, pass) == target
      decreases repeat.end - i
    {
      ghost var before := out;
      if i in voltaMap {
        var volta := voltaMap[i];
        ghost var played := if pass in volta.allowedPasses then Range(volta.start, volta.end + 1) else [];
        assert Walk(i, repeat.end, voltaMap, pass) == played + Walk(volta.end + 1, repeat.end, voltaMap, pass);
        if pass in volta.allowedPasses {
          out := PushRange(out, volta.start, volta.end + 1);
        } else {
          assert out == before + played;
        }
        Assoc3(before, played, Walk(volta.end + 1, repeat.end, voltaMap, pass));
        i := volta.end + 1;
      } else {
        assert Walk(i, repeat.end, voltaMap, pass) == [i] + Walk(i + 1, repeat.end, voltaMap, pass);
        Assoc3(before, [i], Walk(i + 1, repeat.end, voltaMap, pass));
        out := out + [i];
        i := i + 1;
      }
    }
  }

  /** Every pass of one repeat (the `for (let pass …)` loop). */
  method PlayRepeat(indices: seq<int>, repeat: Repeat) returns (out: seq<int>)
    requires RepeatForward(repeat)
    ensures out == indices + UnrollRepeat(repeat)
  {
    var voltaMap := BuildVoltaMap(repeat.voltas);
    VoltaMapForward(repeat);
    var times := if repeat.times == 0 then 2 else repeat.times;
    out := indices;
    var pass := 1;
    while pass <= times
      invariant out + PassesFrom(repeat, voltaMap, pass, times) == indices + UnrollRepeat(repeat)
      decreases times - pass
    {
      ghost var before := out;
      out := WalkPass(out, repeat, voltaMap, pass);
      Assoc3(before, Walk(repeat.start, repeat.end, voltaMap, pass), PassesFrom(repeat, voltaMap, pass + 1, times));
      pass := pass + 1;
    }
    assert PassesFrom(repeat, voltaMap, pass, times) == [];
  }

  /** A forward repeat's volta map sends each start to a volta that begins there and does not run backwards. */
  lemma VoltaMapForward(repeat: Repeat)
    requires RepeatForward(repeat)
    ensures MapForward(VoltaMap(repeat.voltas))
  {
    var m := VoltaMap(repeat.voltas);
    forall k | k in m ensures m[k].start == k && m[k].start <= m[k].end {
      assert m[k] in repeat.voltas;
    }
  }

  lemma Assoc3(a: seq<int>, b: seq<int>, c: seq<int>)
    ensures a + b + c == a + (b + c)
  {
  }

  lemma AppendAssoc(a: seq<int>, b: seq<int>, c: seq<int>, d: seq<int>)
    ensures a + b + c + d == a + (b + c + d)
  {
  }

  /** The body of the `repeats.forEach` loop: the measures up to the next repeat, then its passes. */
  method PlayFromCursor(indices: seq<int>, cursor: int, remaining: seq<Repeat>, measureCount: int) returns (out: seq<int>)
    requires remaining != [] && AllForward(remaining)
    ensures AllForward(remaining[1..])
    ensures out + UnrollFrom(remaining[1..], remaining[0].end + 1, measureCount)
      == indices + UnrollFrom(remaining, cursor, measureCount)
  {
    var repeat := remaining[0];
    UnrollFromStep(remaining, cursor, measureCount);
    out := PushRange(indices, cursor, repeat.start);
    out := PlayRepeat(out, repeat);
    AppendAssoc(indices, Range(cursor, repeat.start), UnrollRepeat(repeat),
      UnrollFrom(remaining[1..], repeat.end + 1, measureCount));
  }

  /** The `repeats.forEach` loop over the sorted repeats and the final `for` loop of `unrollPlan`. */
  method UnrollSorted(repeats: seq<Repeat>, measureCount: int) returns (indices: seq<int>)
    requires AllForward(repeats)
    ensures indices == UnrollFrom(repeats, 0, measureCount)
  {
    indices := [];
    var cursor := 0;
    var remaining := repeats;
    while remaining != []
      invariant AllForward(remaining)
      invariant indices + UnrollFrom(remaining, cursor, measureCount) == UnrollFrom(repeats, 0, measureCount)
      decreases |remaining|
    {
      indices := PlayFromCursor(indices, cursor, remaining, measureCount);
      cursor := remaining[0].end + 1;
      remaining := remaining[1..];
    }
    indices := PushRange(indices, cursor, measureCount);
  }

  /** `unrollPlan`: expand a plan into the sequence of folded measure indices to play. */
  method UnrollPlan(plan: Plan, measureCount: int) returns (indices: seq<int>)
    requires PlanForward(plan)
    ensures indices == Unroll(plan, measureCount)
  {
    if plan.None? || |plan.value| == 0 {
      indices := PushRange([], 0, measureCount);
      return;
    }
    var repeats := SortBy(plan.value, StartKey);
    SortedForward(plan.value);
    indices := UnrollSorted(repeats, measureCount);
  }

  // ---------------------------------------------------------------------------
  // Properties of the expansion

  /** `n` back-to-back copies of `s`. */
  function Repeated(s: seq<int>, n: int): (r: seq<int>)
    ensures |r| == (if n < 0 then 0 else n) * |s|
    decreases n
  {
    if n <= 0 then [] else s + Repeated(s, n - 1)
  }

  /** Without voltas a pass plays the whole body in order. */
  lemma {:induction false} WalkWithoutVoltas(i: int, end: int, pass: int)
    ensures Walk(i, end, map[], pass) == Range(i, end + 1)
    decreases end - i
  {
    if i <= end {
      WalkWithoutVoltas(i + 1, end, pass);
    }
  }

  lemma {:induction false} PassesWithoutVoltas(r: Repeat, pass: int, times: int)
    ensures PassesFrom(r, map[], pass, times) == Repeated(Range(r.start, r.end + 1), times - pass + 1)
    decreases times - pass
  {
    if pass <= times {
      WalkWithoutVoltas(r.start, r.end, pass);
      PassesWithoutVoltas(r, pass + 1, times);
    }
  }

  /** A plan of one repeat plays the measures before it, the repeat, then the measures after it. */
  lemma UnrollOneRepeat(r: Repeat, measureCount: int)
    requires RepeatForward(r)
    ensures PlanForward(Some([r]))
    ensures Unroll(Some([r]), measureCount)
      == Range(0, r.start) + UnrollRepeat(r) + Range(r.end + 1, measureCount)
  {
    SortSingleton(r, StartKey);
    assert [r][1..] == [];
    assert UnrollFrom([r], 0, measureCount)
      == Range(0, r.start) + UnrollRepeat(r) + UnrollFrom([], r.end + 1, measureCount);
  }

  /** Without voltas every pass plays the whole body. */
  lemma UnrollRepeatWithoutVoltas(r: Repeat)
    requires r.voltas == []
    ensures RepeatForward(r)
    ensures UnrollRepeat(r) == Repeated(Range(r.start, r.end + 1), EffectiveTimes(r))
  {
    assert VoltaMap(r.voltas) == map[];
    PassesWithoutVoltas(r, 1, EffectiveTimes(r));
  }

  lemma LengthOfSingle(start: int, end: int, measureCount: int, t: int)
    requires 0 <= start <= end < measureCount && t >= 1
    ensures |Range(0, start) + Repeated(Range(start, end + 1), t) + Range(end + 1, measureCount)|
      == measureCount + (t - 1) * (end - start + 1)
  {
    var w := end - start + 1;
    assert |Range(start, end + 1)| == w;
    assert |Repeated(Range(start, end + 1), t)| == t * w;
    assert t * w == w + (t - 1) * w;
  }

  /**
   * A plan holding one repeat without voltas plays the measures before it
   * once, its body `times` times (two when `times` is 0) and the rest once;
   * for a repeat inside the measures the output has
   * `measureCount + (times - 1) * (end - start + 1)` entries.
   */
  lemma UnrollSingleRepeat(r: Repeat, measureCount: int)
    requires r.voltas == []
    ensures PlanForward(Some([r]))
    ensures Unroll(Some([r]), measureCount)
      == Range(0, r.start) + Repeated(Range(r.start, r.end + 1), EffectiveTimes(r)) + Range(r.end + 1, measureCount)
    ensures 0 <= r.start <= r.end < measureCount && EffectiveTimes(r) >= 1 ==>
      |Unroll(Some([r]), measureCount)| == measureCount + (EffectiveTimes(r) - 1) * (r.end - r.start + 1)
  {
    UnrollRepeatWithoutVoltas(r);
    UnrollOneRepeat(r, measureCount);
    if 0 <= r.start <= r.end < measureCount && EffectiveTimes(r) >= 1 {
      LengthOfSingle(r.start, r.end, measureCount, EffectiveTimes(r));
    }
  }
}
