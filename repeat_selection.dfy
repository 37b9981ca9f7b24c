/**
 * Choosing which candidates to fold (docs/repeat_inference.js, lines
 * 196-269): a total tie-break order on candidates, and either the single
 * best candidate by that order or a non-overlapping set picked by weighted
 * interval scheduling over candidates sorted by `spanEnd`.
 */
module RepeatSelection {
  import opened Wrappers
  import opened Sorting
  import opened RepeatCandidates
  import opened Text

  /** `{ score, constructs, repeats }`. */
  datatype PlanSet = PlanSet(score: int, constructs: int, repeats: seq<Candidate>)

  /** `buildEmptyPlanSet`. */
  function EmptyPlanSet(): PlanSet { PlanSet(0, 0, []) }

  // ---------------------------------------------------------------------------
  // The tie-break order

  /** `compareRepeat`: by start ascending, then length descending, then constructs, then span end. */
  function CompareRepeat(a: Candidate, b: Candidate): int
  {
    if a.start != b.start then a.start - b.start
    else if a.repeatLen != b.repeatLen then b.repeatLen - a.repeatLen
    else if a.constructs != b.constructs then a.constructs - b.constructs
    else a.spanEnd - b.spanEnd
  }

  /** The order `compareRepeat` decides, as a lexicographic order on four keys. */
  predicate KeyLess(a: Candidate, b: Candidate)
  {
    a.start < b.start
    || (a.start == b.start && a.repeatLen > b.repeatLen)
    || (a.start == b.start && a.repeatLen == b.repeatLen && a.constructs < b.constructs)
    || (a.start == b.start && a.repeatLen == b.repeatLen && a.constructs == b.constructs && a.spanEnd < b.spanEnd)
  }

  predicate SameKey(a: Candidate, b: Candidate)
  {
    a.start == b.start && a.repeatLen == b.repeatLen && a.constructs == b.constructs && a.spanEnd == b.spanEnd
  }

  /** `compareRepeat` is negative, zero or positive exactly as the keys are below, equal or above. */
  lemma CompareRepeatMeaning(a: Candidate, b: Candidate)
    ensures CompareRepeat(a, b) < 0 <==> KeyLess(a, b)
    ensures CompareRepeat(a, b) == 0 <==> SameKey(a, b)
    ensures CompareRepeat(a, b) > 0 <==> KeyLess(b, a)
  {
  }

  /** `compareRepeat` is a total preorder: swapping the arguments flips the sign, and it is transitive. */
  lemma CompareRepeatOrder(a: Candidate, b: Candidate, c: Candidate)
    ensures CompareRepeat(a, b) < 0 <==> CompareRepeat(b, a) > 0
    ensures CompareRepeat(a, b) == 0 <==> CompareRepeat(b, a) == 0
    ensures CompareRepeat(a, b) <= 0 && CompareRepeat(b, c) <= 0 ==> CompareRepeat(a, c) <= 0
    ensures CompareRepeat(a, b) < 0 && CompareRepeat(b, c) <= 0 ==> CompareRepeat(a, c) < 0
  {
    CompareRepeatMeaning(a, b);
    CompareRepeatMeaning(b, a);
    CompareRepeatMeaning(b, c);
    CompareRepeatMeaning(a, c);
  }

  function Sign(x: int): int { if x < 0 then -1 else if x == 0 then 0 else 1 }

  /** `compareRepeatLists`: the first non-zero `compareRepeat` of aligned entries, else the length difference. */
  function CompareRepeatLists(a: seq<Candidate>, b: seq<Candidate>): int
  {
    if a == [] || b == [] then |a| - |b|
    else
      var cmp := CompareRepeat(a[0], b[0]);
      if cmp != 0 then cmp else CompareRepeatLists(a[1..], b[1..])
  }

  /** Swapping the lists flips the sign; zero means same length and pairwise equal keys. */
  lemma {:induction false} CompareRepeatListsAntisymmetric(a: seq<Candidate>, b: seq<Candidate>)
    ensures Sign(CompareRepeatLists(a, b)) == -Sign(CompareRepeatLists(b, a))
    ensures CompareRepeatLists(a, b) == 0 ==>
      |a| == |b| && forall k :: 0 <= k < |a| ==> SameKey(a[k], b[k])
  {
    if a != [] && b != [] {
      CompareRepeatOrder(a[0], b[0], a[0]);
      CompareRepeatMeaning(a[0], b[0]);
      if CompareRepeat(a[0], b[0]) == 0 {
        CompareRepeatListsAntisymmetric(a[1..], b[1..]);
        if CompareRepeatLists(a, b) == 0 {
          forall k | 0 <= k < |a| ensures SameKey(a[k], b[k]) {
            if k > 0 {
              assert a[1..][k - 1] == a[k] && b[1..][k - 1] == b[k];
            }
          }
        }
      }
    }
  }

  /** `betterPlanSet`: higher score, then fewer constructs, then the earlier repeat list. */
  function BetterPlanSet(a: PlanSet, b: PlanSet): (r: PlanSet)
    ensures r == a || r == b
    ensures r.score >= a.score && r.score >= b.score
  {
    if a.score != b.score then (if a.score > b.score then a else b)
    else if a.constructs != b.constructs then (if a.constructs < b.constructs then a else b)
    else if CompareRepeatLists(a.repeats, b.repeats) <= 0 then a else b
  }

  /** Neither argument is preferred: same score, same constructs, equal repeat lists by `compareRepeatLists`. */
  predicate FullyTied(a: PlanSet, b: PlanSet)
  {
    a.score == b.score && a.constructs == b.constructs && CompareRepeatLists(a.repeats, b.repeats) == 0
  }

  /**
   * `betterPlanSet` is a deterministic preference: on equal scores fewer
   * constructs win, and unless the two sets are fully tied the winner does
   * not depend on the order the sets are offered in.
   */
  lemma BetterPlanSetPreference(a: PlanSet, b: PlanSet)
    ensures a.score == b.score && a.constructs != b.constructs ==>
      BetterPlanSet(a, b).constructs < a.constructs || BetterPlanSet(a, b).constructs < b.constructs
    ensures !FullyTied(a, b) ==> BetterPlanSet(a, b) == BetterPlanSet(b, a)
  {
    CompareRepeatListsAntisymmetric(a.repeats, b.repeats);
  }

  // ---------------------------------------------------------------------------
  // Single-repeat mode

  /** The `candidates.reduce` of single-repeat mode: a later candidate replaces the best only when strictly smaller. */
  function BestIndex(cs: seq<Candidate>): (k: int)
    requires |cs| > 0
    ensures 0 <= k < |cs|
    ensures forall j :: 0 <= j < |cs| ==> CompareRepeat(cs[j], cs[k]) >= 0
    ensures forall j :: 0 <= j < k ==> CompareRepeat(cs[j], cs[k]) > 0
  {
    if |cs| == 1 then 0
    else
      var b := BestIndex(cs[..|cs| - 1]);
      var last := cs[|cs| - 1];
      assert forall j :: 0 <= j < |cs| - 1 ==> cs[..|cs| - 1][j] == cs[j];
      if CompareRepeat(last, cs[b]) < 0 then
        assert forall j :: 0 <= j < |cs| - 1 ==> CompareRepeat(cs[j], last) > 0 by {
          forall j | 0 <= j < |cs| - 1 ensures CompareRepeat(cs[j], last) > 0 {
            CompareRepeatOrder(last, cs[b], cs[j]);
            CompareRepeatOrder(cs[j], last, cs[j]);
          }
        }
        |cs| - 1
      else
        b
  }

  // ---------------------------------------------------------------------------
  // Multi-repeat mode

  function SpanKey(c: Candidate): (int, int) { (c.spanEnd, c.start) }

  /** Each repeat ends before any later one starts, and span ends ascend. */
  predicate NonOverlapping(rs: seq<Candidate>)
  {
    forall j, k :: 0 <= j < k < |rs| ==> rs[j].spanEnd < rs[k].start && rs[j].spanEnd <= rs[k].spanEnd
  }

  predicate EndsBy(rs: seq<Candidate>, e: int)
  {
    forall k :: 0 <= k < |rs| ==> rs[k].spanEnd <= e
  }

  function SumScores(rs: seq<Candidate>): int
  {
    if rs == [] then 0 else SumScores(rs[..|rs| - 1]) + rs[|rs| - 1].score
  }

  function SumConstructs(rs: seq<Candidate>): int
  {
    if rs == [] then 0 else SumConstructs(rs[..|rs| - 1]) + rs[|rs| - 1].constructs
  }

  /** `p` is what the backward scan finds for candidate `i`: the nearest earlier candidate ending before `i` starts, or -1. */
  predicate PrevOk(sorted: seq<Candidate>, i: int, p: int)
    requires 0 <= i < |sorted|
  {
    -1 <= p < i
    && (p >= 0 ==> sorted[p].spanEnd < sorted[i].start)
    && forall j :: p < j < i ==> sorted[j].spanEnd >= sorted[i].start
  }

  predicate PrevIndexOk(sorted: seq<Candidate>, prev: seq<int>)
  {
    |prev| == |sorted| && (forall i :: 0 <= i < |prev| ==> prev[i] < i)
    && forall i :: 0 <= i < |sorted| ==> PrevOk(sorted, i, prev[i])
  }

  /** The inner `for (let j = i - 1; j >= 0; j -= 1)` scan. */
  method ScanBack(sorted: seq<Candidate>, i: int) returns (p: int)
    requires 0 <= i < |sorted|
    ensures PrevOk(sorted, i, p)
  {
    var j := i - 1;
    while j >= 0
      invariant -1 <= j < i
      invariant forall m :: j < m < i ==> sorted[m].spanEnd >= sorted[i].start
    {
      if sorted[j].spanEnd < sorted[i].start {
        return j;
      }
      j := j - 1;
    }
    return -1;
  }

  /** The backward scan as a function: the nearest `j' <= j` whose candidate ends before candidate `i` starts, or -1. */
  function PrevScan(sorted: seq<Candidate>, i: int, j: int): (p: int)
    requires 0 <= i < |sorted| && j < i
    ensures -1 <= p <= j || (j < -1 && p == -1)
    decreases j + 1
  {
    if j < 0 then -1
    else if sorted[j].spanEnd < sorted[i].start then j
    else PrevScan(sorted, i, j - 1)
  }

  /** The `prevIndex` array as a function of the sorted candidates. */
  function PrevIndexOf(sorted: seq<Candidate>): (prev: seq<int>)
    ensures |prev| == |sorted| && forall i :: 0 <= i < |sorted| ==> -1 <= prev[i] < i
  {
    seq(|sorted|, i requires 0 <= i < |sorted| => PrevScan(sorted, i, i - 1))
  }

  lemma {:induction false} PrevScanOk(sorted: seq<Candidate>, i: int, j: int)
    requires 0 <= i < |sorted| && -1 <= j < i
    requires forall m :: j < m < i ==> sorted[m].spanEnd >= sorted[i].start
    ensures PrevOk(sorted, i, PrevScan(sorted, i, j))
    decreases j + 1
  {
    if j >= 0 && sorted[j].spanEnd >= sorted[i].start {
      PrevScanOk(sorted, i, j - 1);
    }
  }

  /** Only one entry meets `PrevOk`: the nearest earlier candidate that ends before `i` starts. */
  lemma PrevOkUnique(sorted: seq<Candidate>, i: int, p: int, q: int)
    requires 0 <= i < |sorted| && PrevOk(sorted, i, p) && PrevOk(sorted, i, q)
    ensures p == q
  {
  }

  /** The function computes what the scan finds for every index. */
  lemma PrevIndexOfOk(sorted: seq<Candidate>)
    ensures PrevIndexOk(sorted, PrevIndexOf(sorted))
  {
    forall i | 0 <= i < |sorted| ensures PrevOk(sorted, i, PrevIndexOf(sorted)[i]) {
      PrevScanOk(sorted, i, i - 1);
    }
  }

  /** The `prevIndex` array: filled with -1, then set by a backward linear scan for each `i`. */
  method ComputePrevIndex(sorted: seq<Candidate>) returns (prev: seq<int>)
    ensures PrevIndexOk(sorted, prev)
    ensures prev == PrevIndexOf(sorted)
  {
    var n := |sorted|;
    var prevIndex := new int[n](_ => -1);
    for i := 0 to n
      invariant forall k :: 0 <= k < i ==> PrevOk(sorted, k, prevIndex[k])
    {
      var p := ScanBack(sorted, i);
      prevIndex[i] := p;
    }
    prev := prevIndex[..];
    PrevIndexOfOk(sorted);
    forall i | 0 <= i < n ensures prev[i] == PrevIndexOf(sorted)[i] {
      PrevOkUnique(sorted, i, prev[i], PrevIndexOf(sorted)[i]);
    }
  }

  /** A plan set with `c` appended, its score and construct count raised by the candidate's. */
  function Extend(ps: PlanSet, c: Candidate): PlanSet
  {
    PlanSet(ps.score + c.score, ps.constructs + c.constructs, ps.repeats + [c])
  }

  /** `buildPlanSet` over the `dp` entries filled so far. */
  function BuildPlanSet(sorted: seq<Candidate>, prevIndex: seq<int>, dp: seq<PlanSet>, i: int, includeCurrent: bool): PlanSet
    requires 0 <= i < |sorted| && i < |prevIndex| && prevIndex[i] < |dp|
  {
    if !includeCurrent then EmptyPlanSet()
    else
      var prev := if prevIndex[i] >= 0 then dp[prevIndex[i]] else EmptyPlanSet();
      Extend(prev, sorted[i])
  }

  /** What the `dp` entry for index `i` holds: an honest, non-overlapping set ending by candidate `i`. */
  /** The score and construct count are the sums over the members, and the members do not overlap. */
  predicate Honest(ps: PlanSet)
  {
    ps.score == SumScores(ps.repeats)
    && ps.constructs == SumConstructs(ps.repeats)
    && NonOverlapping(ps.repeats)
  }

  predicate DpEntryOk(sorted: seq<Candidate>, ps: PlanSet, i: int)
    requires 0 <= i < |sorted|
  {
    Honest(ps)
    && EndsBy(ps.repeats, sorted[i].spanEnd)
    && (forall c :: c in ps.repeats ==> c in sorted)
    && ps.score >= 0
  }

  /** The first `|dp|` entries of the table are filled correctly and their scores never decrease. */
  predicate DpPrefixOk(sorted: seq<Candidate>, dp: seq<PlanSet>)
  {
    |dp| <= |sorted|
    && (forall k :: 0 <= k < |dp| ==> DpEntryOk(sorted, dp[k], k))
    && (forall j, k :: 0 <= j < k < |dp| ==> dp[j].score <= dp[k].score)
  }

  /** One step of the `dp` loop: `dp[i] = betterPlanSet(include, exclude)`. */
  function DpStep(sorted: seq<Candidate>, prev: seq<int>, dp: seq<PlanSet>): PlanSet
    requires |dp| < |sorted| && |dp| < |prev| && prev[|dp|] < |dp|
  {
    var i := |dp|;
    var withCurrent := BuildPlanSet(sorted, prev, dp, i, true);
    var withoutCurrent := if i > 0 then dp[i - 1] else EmptyPlanSet();
    BetterPlanSet(withCurrent, withoutCurrent)
  }

  /** Appending a candidate that starts after, and ends no earlier than, everything already in an honest set. */
  lemma {:induction false} ExtendOk(before: PlanSet, c: Candidate, bound: int)
    requires Honest(before) && EndsBy(before.repeats, bound) && bound < c.start && bound <= c.spanEnd
    ensures Honest(Extend(before, c)) && EndsBy(Extend(before, c).repeats, c.spanEnd)
    ensures forall d :: d in Extend(before, c).repeats ==> d in before.repeats || d == c
  {
    var rs := before.repeats + [c];
    assert rs[..|before.repeats|] == before.repeats;
  }

  /** The `include` plan set for candidate `|dp|` is honest, ends by that candidate and draws only on `sorted`. */
  lemma IncludeOk(sorted: seq<Candidate>, prev: seq<int>, dp: seq<PlanSet>)
    requires |dp| < |sorted| && |dp| < |prev|
    requires PrevOk(sorted, |dp|, prev[|dp|])
    requires prev[|dp|] >= 0 ==>
      DpEntryOk(sorted, dp[prev[|dp|]], prev[|dp|]) && sorted[prev[|dp|]].spanEnd <= sorted[|dp|].spanEnd
    ensures Honest(BuildPlanSet(sorted, prev, dp, |dp|, true))
    ensures EndsBy(BuildPlanSet(sorted, prev, dp, |dp|, true).repeats, sorted[|dp|].spanEnd)
    ensures forall d :: d in BuildPlanSet(sorted, prev, dp, |dp|, true).repeats ==> d in sorted
  {
    var i := |dp|;
    var p := prev[i];
    var c := sorted[i];
    if p >= 0 {
      ExtendOk(dp[p], c, sorted[p].spanEnd);
    } else {
      ExtendOk(EmptyPlanSet(), c, Min(c.start - 1, c.spanEnd));
    }
  }

  /** A table entry that is filled correctly and scores at least as much as the last one extends the table. */
  lemma {:induction false} PrefixExtend(sorted: seq<Candidate>, dp: seq<PlanSet>, ps: PlanSet)
    requires DpPrefixOk(sorted, dp) && |dp| < |sorted|
    requires DpEntryOk(sorted, ps, |dp|)
    requires |dp| > 0 ==> dp[|dp| - 1].score <= ps.score
    ensures DpPrefixOk(sorted, dp + [ps])
  {
    var dp' := dp + [ps];
    forall j, k | 0 <= j < k < |dp'| ensures dp'[j].score <= dp'[k].score {
      if k == |dp| && j < |dp| - 1 {
        assert dp[j].score <= dp[|dp| - 1].score;
      }
    }
  }

  /** The exclude entry, the previous table entry, also ends by candidate `|dp|` once span ends ascend. */
  lemma ExcludeOk(sorted: seq<Candidate>, dp: seq<PlanSet>)
    requires DpPrefixOk(sorted, dp) && 0 < |dp| < |sorted|
    requires sorted[|dp| - 1].spanEnd <= sorted[|dp|].spanEnd
    ensures DpEntryOk(sorted, dp[|dp| - 1], |dp|)
  {
    assert DpEntryOk(sorted, dp[|dp| - 1], |dp| - 1);
  }

  /** Appending a `dp` step keeps the table well filled and its scores non-decreasing. */
  lemma DpStepOk(sorted: seq<Candidate>, prev: seq<int>, dp: seq<PlanSet>)
    requires DpPrefixOk(sorted, dp) && |dp| < |sorted| && |dp| < |prev|
    requires PrevOk(sorted, |dp|, prev[|dp|])
    requires prev[|dp|] >= 0 ==> sorted[prev[|dp|]].spanEnd <= sorted[|dp|].spanEnd
    requires |dp| > 0 ==> sorted[|dp| - 1].spanEnd <= sorted[|dp|].spanEnd
    ensures DpPrefixOk(sorted, dp + [DpStep(sorted, prev, dp)])
  {
    var i := |dp|;
    if prev[i] >= 0 {
      assert DpEntryOk(sorted, dp[prev[i]], prev[i]);
    }
    IncludeOk(sorted, prev, dp);
    var withCurrent := BuildPlanSet(sorted, prev, dp, i, true);
    var withoutCurrent := if i > 0 then dp[i - 1] else EmptyPlanSet();
    if i > 0 {
      ExcludeOk(sorted, dp);
    }
    assert DpEntryOk(sorted, withoutCurrent, i);
    var step := BetterPlanSet(withCurrent, withoutCurrent);
    assert step == withCurrent || step == withoutCurrent;
    PrefixExtend(sorted, dp, step);
  }

  /** The body of the `dp` loop for index `|done|`: the better of including that candidate (after its `prevIndex` entry) or not. */
  method DpEntry(sorted: seq<Candidate>, prev: seq<int>, done: seq<PlanSet>) returns (ps: PlanSet)
    requires SortedBy(sorted, SpanKey)
    requires PrevIndexOk(sorted, prev)
    requires DpPrefixOk(sorted, done) && |done| < |sorted|
    ensures ps == DpStep(sorted, prev, done)
    ensures DpPrefixOk(sorted, done + [ps])
  {
    var i := |done|;
    assert PrevOk(sorted, i, prev[i]);
    var withCurrent := BuildPlanSet(sorted, prev, done, i, true);
    var withoutCurrent := if i > 0 then done[i - 1] else EmptyPlanSet();
    ps := BetterPlanSet(withCurrent, withoutCurrent);
    DpStepSorted(sorted, prev, done);
  }

  /** The side conditions of `DpStepOk` that sorting by span end provides. */
  lemma DpStepSorted(sorted: seq<Candidate>, prev: seq<int>, done: seq<PlanSet>)
    requires SortedBy(sorted, SpanKey)
    requires PrevIndexOk(sorted, prev)
    requires DpPrefixOk(sorted, done) && |done| < |sorted|
    ensures DpPrefixOk(sorted, done + [DpStep(sorted, prev, done)])
  {
    var i := |done|;
    assert PrevOk(sorted, i, prev[i]);
    if prev[i] >= 0 {
      assert KeyLe(SpanKey(sorted[prev[i]]), SpanKey(sorted[i]));
    }
    if i > 0 {
      assert KeyLe(SpanKey(sorted[i - 1]), SpanKey(sorted[i]));
    }
    DpStepOk(sorted, prev, done);
  }

  /** The `dp` table after its first `k` entries: each entry is `DpStep` of the entries before it. */
  function DpTable(sorted: seq<Candidate>, prev: seq<int>, k: nat): (dp: seq<PlanSet>)
    requires k <= |sorted| && |prev| == |sorted|
    requires forall i :: 0 <= i < |prev| ==> prev[i] < i
    ensures |dp| == k
  {
    if k == 0 then [] else var done := DpTable(sorted, prev, k - 1); done + [DpStep(sorted, prev, done)]
  }

  lemma {:induction false} DpTablePrefix(sorted: seq<Candidate>, prev: seq<int>, k: nat, i: nat)
    requires k <= |sorted| && |prev| == |sorted|
    requires forall j :: 0 <= j < |prev| ==> prev[j] < j
    requires i <= k
    ensures DpTable(sorted, prev, k)[..i] == DpTable(sorted, prev, i)
  {
    if i < k {
      DpTablePrefix(sorted, prev, k - 1, i);
      assert DpTable(sorted, prev, k)[..k - 1] == DpTable(sorted, prev, k - 1);
    }
  }

  /** The table satisfies the recurrence of the `dp` loop at every index. */
  lemma DpTableRecurrence(sorted: seq<Candidate>, prev: seq<int>, k: nat)
    requires k <= |sorted| && |prev| == |sorted|
    requires forall j :: 0 <= j < |prev| ==> prev[j] < j
    ensures forall i :: 0 <= i < k ==> DpTable(sorted, prev, k)[i] == DpStep(sorted, prev, DpTable(sorted, prev, k)[..i])
  {
    forall i | 0 <= i < k
      ensures DpTable(sorted, prev, k)[i] == DpStep(sorted, prev, DpTable(sorted, prev, k)[..i])
    {
      DpTablePrefix(sorted, prev, k, i + 1);
      DpTablePrefix(sorted, prev, k, i);
      assert DpTable(sorted, prev, k)[i] == DpTable(sorted, prev, k)[..i + 1][i];
    }
  }

  /** Every entry of the table is honest, ends by its candidate, and scores at least the entry before it. */
  lemma {:induction false} DpTableOk(sorted: seq<Candidate>, prev: seq<int>, k: nat)
    requires SortedBy(sorted, SpanKey) && PrevIndexOk(sorted, prev) && k <= |sorted|
    ensures DpPrefixOk(sorted, DpTable(sorted, prev, k))
  {
    if k > 0 {
      DpTableOk(sorted, prev, k - 1);
      DpStepSorted(sorted, prev, DpTable(sorted, prev, k - 1));
    }
  }

  /** The `dp` loop, filling the table front to back. */
  method BuildDp(sorted: seq<Candidate>, prev: seq<int>) returns (dp: seq<PlanSet>)
    requires SortedBy(sorted, SpanKey)
    requires PrevIndexOk(sorted, prev)
    ensures |dp| == |sorted| && DpPrefixOk(sorted, dp)
    ensures forall i :: 0 <= i < |dp| ==> prev[i] < i && dp[i] == DpStep(sorted, prev, dp[..i])
    ensures dp == DpTable(sorted, prev, |sorted|)
  {
    DpTableOk(sorted, prev, 0);
    var n := |sorted|;
    var table := new PlanSet[n](_ => EmptyPlanSet());
    for i := 0 to n
      invariant DpPrefixOk(sorted, table[..i])
      invariant table[..i] == DpTable(sorted, prev, i)
    {
      var ps := DpEntry(sorted, prev, table[..i]);
      ghost var done := table[..i];
      table[i] := ps;
      assert table[..i + 1] == done + [ps];
    }
    dp := table[..];
    assert dp == table[..n];
    DpTableRecurrence(sorted, prev, n);
  }

  // ---------------------------------------------------------------------------
  // Optimality of the table

  /** The candidates at positions `idx` of `sorted`. */
  function Pick(sorted: seq<Candidate>, idx: seq<int>): (rs: seq<Candidate>)
    requires forall k :: 0 <= k < |idx| ==> 0 <= idx[k] < |sorted|
    ensures |rs| == |idx| && forall k :: 0 <= k < |idx| ==> rs[k] == sorted[idx[k]]
  {
    seq(|idx|, k requires 0 <= k < |idx| => sorted[idx[k]])
  }

  /** Ascending positions of `sorted` whose candidates do not overlap: each ends before the next starts. */
  predicate Schedule(sorted: seq<Candidate>, idx: seq<int>)
  {
    (forall k :: 0 <= k < |idx| ==> 0 <= idx[k] < |sorted|)
    && forall j, k :: 0 <= j < k < |idx| ==> idx[j] < idx[k] && sorted[idx[j]].spanEnd < sorted[idx[k]].start
  }

  /** The score of the `include` plan set for candidate `i`. */
  function IncludeScore(sorted: seq<Candidate>, prev: seq<int>, dp: seq<PlanSet>, i: int): int
    requires 0 <= i < |sorted| && i < |prev|
  {
    (if 0 <= prev[i] < |dp| then dp[prev[i]].score else 0) + sorted[i].score
  }

  /** The score facts of a filled table: non-negative, non-decreasing, and at least the `include` score. */
  predicate DpBounds(sorted: seq<Candidate>, prev: seq<int>, dp: seq<PlanSet>)
  {
    |dp| == |sorted| == |prev|
    && forall i :: 0 <= i < |dp| ==>
      dp[i].score >= 0 && (i > 0 ==> dp[i - 1].score <= dp[i].score) && dp[i].score >= IncludeScore(sorted, prev, dp, i)
  }

  lemma DpTableBounds(sorted: seq<Candidate>, prev: seq<int>)
    requires SortedBy(sorted, SpanKey) && PrevIndexOk(sorted, prev)
    ensures DpBounds(sorted, prev, DpTable(sorted, prev, |sorted|))
  {
    var dp := DpTable(sorted, prev, |sorted|);
    DpTableOk(sorted, prev, |sorted|);
    DpTableRecurrence(sorted, prev, |sorted|);
    forall i | 0 <= i < |dp| ensures dp[i].score >= IncludeScore(sorted, prev, dp, i) {
      assert dp[i] == DpStep(sorted, prev, dp[..i]);
      if prev[i] >= 0 {
        assert dp[..i][prev[i]] == dp[prev[i]];
      }
    }
  }

  /**
   * Weighted interval scheduling: no non-overlapping choice among the
   * first `i + 1` sorted candidates scores more than the table's entry `i`.
   */
  lemma {:induction false} DpOptimal(sorted: seq<Candidate>, prev: seq<int>, dp: seq<PlanSet>, idx: seq<int>, i: int)
    requires PrevIndexOk(sorted, prev) && DpBounds(sorted, prev, dp)
    requires 0 <= i < |sorted| && Schedule(sorted, idx)
    requires forall k :: 0 <= k < |idx| ==> idx[k] <= i
    ensures SumScores(Pick(sorted, idx)) <= dp[i].score
    decreases i
  {
    if idx != [] {
      var n := |idx|;
      var rest := idx[..n - 1];
      ScheduleDropLast(sorted, idx);
      if idx[n - 1] < i {
        DpOptimal(sorted, prev, dp, idx, i - 1);
      } else {
        var p := prev[i];
        ScheduleBeforePrev(sorted, prev, idx, i);
        if p >= 0 {
          DpOptimal(sorted, prev, dp, rest, p);
        } else {
          assert Pick(sorted, rest) == [];
        }
      }
    }
  }

  /** Dropping the last pick of a schedule leaves a schedule, short of that pick's score. */
  lemma ScheduleDropLast(sorted: seq<Candidate>, idx: seq<int>)
    requires Schedule(sorted, idx) && idx != []
    ensures Schedule(sorted, idx[..|idx| - 1])
    ensures SumScores(Pick(sorted, idx)) == SumScores(Pick(sorted, idx[..|idx| - 1])) + sorted[idx[|idx| - 1]].score
  {
    assert Pick(sorted, idx[..|idx| - 1]) == Pick(sorted, idx)[..|idx| - 1];
  }

  /** The picks before a schedule's last pick `i` all sit at or before `prev[i]`. */
  lemma ScheduleBeforePrev(sorted: seq<Candidate>, prev: seq<int>, idx: seq<int>, i: int)
    requires PrevIndexOk(sorted, prev) && 0 <= i < |sorted|
    requires Schedule(sorted, idx) && idx != [] && idx[|idx| - 1] == i
    ensures |idx| == 1 || prev[i] >= 0
    ensures forall k :: 0 <= k < |idx| - 1 ==> idx[k] <= prev[i]
  {
    var n := |idx|;
    assert PrevOk(sorted, i, prev[i]);
    forall k | 0 <= k < n - 1 ensures idx[k] <= prev[i] {
      assert sorted[idx[k]].spanEnd < sorted[idx[n - 1]].start;
    }
    assert n == 1 || 0 <= idx[0] <= prev[i];
  }

  /** A candidate's position in a sequence that holds it. */
  ghost function PositionOf(s: seq<Candidate>, c: Candidate): (m: int)
    requires c in s
    ensures 0 <= m < |s| && s[m] == c
  {
    var m :| 0 <= m < |s| && s[m] == c; m
  }

  /** The choices multi-repeat mode weighs: non-overlapping candidates, each spanning at least its own start. */
  predicate Selectable(cands: seq<Candidate>, rs: seq<Candidate>)
  {
    NonOverlapping(rs) && forall k :: 0 <= k < |rs| ==> rs[k] in cands && rs[k].start <= rs[k].spanEnd
  }

  /** A selectable choice sits at ascending, non-overlapping positions of the sorted candidates. */
  lemma LiftSchedule(cands: seq<Candidate>, rs: seq<Candidate>, sorted: seq<Candidate>) returns (idx: seq<int>)
    requires Selectable(cands, rs)
    requires multiset(sorted) == multiset(cands) && SortedBy(sorted, SpanKey)
    ensures Schedule(sorted, idx) && Pick(sorted, idx) == rs
  {
    forall k | 0 <= k < |rs| ensures rs[k] in sorted {
      assert rs[k] in multiset(cands);
    }
    idx := seq(|rs|, k requires 0 <= k < |rs| => PositionOf(sorted, rs[k]));
    forall j, k | 0 <= j < k < |idx|
      ensures idx[j] < idx[k] && sorted[idx[j]].spanEnd < sorted[idx[k]].start
    {
    }
  }

  // ---------------------------------------------------------------------------
  // The selection

  /** What `selectRepeatSet` returns, as a function of the candidates and the options. */
  function SelectionOf(cands: seq<Candidate>, opts: Options): Option<PlanSet>
  {
    if cands == [] then None
    else if !opts.allowMultipleRepeats then
      var best := cands[BestIndex(cands)];
      Some(PlanSet(best.score, best.constructs, [best]))
    else
      var sorted := SortBy(cands, SpanKey);
      var best := DpTable(sorted, PrevIndexOf(sorted), |sorted|)[|sorted| - 1];
      if best.repeats == [] then None else Some(best)
  }

  /** The score of a selection, zero when nothing is selected. */
  function SelectedScore(sel: Option<PlanSet>): int
  {
    if sel.Some? then sel.value.score else 0
  }

  /** In multi-repeat mode nothing selectable scores more than the selection. */
  lemma SelectionOptimal(cands: seq<Candidate>, opts: Options, rs: seq<Candidate>)
    requires opts.allowMultipleRepeats && Selectable(cands, rs)
    ensures SumScores(rs) <= SelectedScore(SelectionOf(cands, opts))
  {
    if cands != [] {
      var sorted := SortBy(cands, SpanKey);
      var prev := PrevIndexOf(sorted);
      PrevIndexOfOk(sorted);
      var idx := LiftSchedule(cands, rs, sorted);
      DpTableBounds(sorted, prev);
      DpOptimal(sorted, prev, DpTable(sorted, prev, |sorted|), idx, |sorted| - 1);
      DpTableOk(sorted, prev, |sorted|);
      assert DpEntryOk(sorted, DpTable(sorted, prev, |sorted|)[|sorted| - 1], |sorted| - 1);
    }
  }

  /**
   * What the selection holds: at least one candidate, all drawn from the
   * input, with the summed score and construct count; in multi-repeat mode
   * non-overlapping and optimal, so it exists whenever a single candidate
   * would score above zero; in single-repeat mode the best candidate by
   * `compareRepeat`.
   */
  lemma SelectionMeaning(cands: seq<Candidate>, opts: Options)
    ensures var sel := SelectionOf(cands, opts);
      (cands == [] ==> sel.None?)
      && (sel.Some? ==>
        |sel.value.repeats| >= 1
        && (forall c :: c in sel.value.repeats ==> c in cands)
        && sel.value.score == SumScores(sel.value.repeats)
        && sel.value.constructs == SumConstructs(sel.value.repeats))
      && (opts.allowMultipleRepeats && sel.Some? ==> NonOverlapping(sel.value.repeats) && sel.value.score >= 0)
      && (opts.allowMultipleRepeats ==> forall rs :: Selectable(cands, rs) ==> SumScores(rs) <= SelectedScore(sel))
      && (opts.allowMultipleRepeats && (exists c :: c in cands && c.start <= c.spanEnd && c.score > 0) ==> sel.Some?)
      && (!opts.allowMultipleRepeats ==>
        (sel.Some? <==> cands != [])
        && (sel.Some? ==> sel.value.repeats == [cands[BestIndex(cands)]]))
  {
    if cands != [] {
      if !opts.allowMultipleRepeats {
        assert [cands[BestIndex(cands)]][..0] == [];
      } else {
        MultiSelectionHolds(cands, opts);
        forall rs | Selectable(cands, rs) ensures SumScores(rs) <= SelectedScore(SelectionOf(cands, opts)) {
          SelectionOptimal(cands, opts, rs);
        }
        if exists c :: c in cands && c.start <= c.spanEnd && c.score > 0 {
          var c :| c in cands && c.start <= c.spanEnd && c.score > 0;
          PositiveCandidateSelects(cands, opts, c);
        }
      }
    }
  }

  /** In multi-repeat mode a selection is a well-formed, non-overlapping plan set drawn from the input. */
  lemma MultiSelectionHolds(cands: seq<Candidate>, opts: Options)
    requires opts.allowMultipleRepeats && cands != []
    ensures var sel := SelectionOf(cands, opts);
      sel.Some? ==>
        |sel.value.repeats| >= 1
        && (forall c :: c in sel.value.repeats ==> c in cands)
        && sel.value.score == SumScores(sel.value.repeats)
        && sel.value.constructs == SumConstructs(sel.value.repeats)
        && NonOverlapping(sel.value.repeats) && sel.value.score >= 0
  {
    var sorted := SortBy(cands, SpanKey);
    var prev := PrevIndexOf(sorted);
    PrevIndexOfOk(sorted);
    DpTableOk(sorted, prev, |sorted|);
    var best := DpTable(sorted, prev, |sorted|)[|sorted| - 1];
    assert DpEntryOk(sorted, best, |sorted| - 1);
    forall c | c in best.repeats ensures c in cands {
      assert c in multiset(sorted);
    }
  }

  /** In multi-repeat mode one candidate with a positive score is enough for a selection. */
  lemma PositiveCandidateSelects(cands: seq<Candidate>, opts: Options, c: Candidate)
    requires opts.allowMultipleRepeats && c in cands && c.start <= c.spanEnd && c.score > 0
    ensures SelectionOf(cands, opts).Some?
  {
    assert Selectable(cands, [c]);
    assert [c][..0] == [];
    SelectionOptimal(cands, opts, [c]);
  }

  /** `selectRepeatSet`. */
  method SelectRepeatSet(cands: seq<Candidate>, opts: Options) returns (sel: Option<PlanSet>)
    ensures sel == SelectionOf(cands, opts)
    ensures cands == [] ==> sel.None?
    ensures sel.Some? ==>
      |sel.value.repeats| >= 1
      && (forall c :: c in sel.value.repeats ==> c in cands)
      && sel.value.score == SumScores(sel.value.repeats)
      && sel.value.constructs == SumConstructs(sel.value.repeats)
    ensures opts.allowMultipleRepeats && sel.Some? ==> NonOverlapping(sel.value.repeats) && sel.value.score >= 0
    ensures opts.allowMultipleRepeats ==> forall rs :: Selectable(cands, rs) ==> SumScores(rs) <= SelectedScore(sel)
    ensures opts.allowMultipleRepeats && (exists c :: c in cands && c.start <= c.spanEnd && c.score > 0) ==> sel.Some?
    ensures !opts.allowMultipleRepeats ==>
      (sel.Some? <==> cands != [])
      && (sel.Some? ==> sel.value.repeats == [cands[BestIndex(cands)]])
  {
    SelectionMeaning(cands, opts);
    if |cands| == 0 {
      return None;
    }
    if !opts.allowMultipleRepeats {
      var best := cands[BestIndex(cands)];
      return Some(PlanSet(best.score, best.constructs, [best]));
    }
    var sorted := SortBy(cands, SpanKey);
    var prev := ComputePrevIndex(sorted);
    var dp := BuildDp(sorted, prev);
    var best := dp[|dp| - 1];
    if |best.repeats| == 0 {
      return None;
    }
    return Some(best);
  }
}
