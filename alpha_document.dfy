/**
 * The document level of docs/jsonToAlphaText.js: the header lines, the
 * repeat inference over the measure fingerprints (lines 173-196), the
 * repeat marks a fold plan puts on the output measures (lines 257-284),
 * and the measure lines (lines 85-120).
 */
module AlphaDocument {
  import opened Wrappers
  import opened Text
  import opened Score
  import opened Sorting
  import opened AlphaText
  import opened AlphaBeats
  import opened AlphaMeasures
  import opened RepeatPlan
  import RepeatCandidates
  import RepeatInference

  // ---------------------------------------------------------------------------
  // Last write wins

  /** A `Map` filled by `set` calls in order: a later key overwrites an earlier one. */
  function LastWins<V>(ps: seq<(int, V)>): map<int, V>
  {
    if ps == [] then map[]
    else LastWins(ps[..|ps| - 1])[ps[|ps| - 1].0 := ps[|ps| - 1].1]
  }

  /** A key is present iff some pair sets it, and it holds the value of the last such pair. */
  lemma LastWinsMeaning<V>(ps: seq<(int, V)>, key: int)
    ensures key in LastWins(ps) <==> exists k :: 0 <= k < |ps| && ps[k].0 == key
    ensures key in LastWins(ps) ==>
      exists k :: 0 <= k < |ps| && ps[k].0 == key && LastWins(ps)[key] == ps[k].1
        && forall j :: k < j < |ps| ==> ps[j].0 != key
  {
    LastWinsDomain(ps, key);
    if key in LastWins(ps) {
      LastWinsValue(ps, key);
    }
  }

  lemma {:induction false} LastWinsDomain<V>(ps: seq<(int, V)>, key: int)
    ensures key in LastWins(ps) <==> exists k :: 0 <= k < |ps| && ps[k].0 == key
  {
    if ps != [] {
      var init := ps[..|ps| - 1];
      LastWinsDomain(init, key);
      if key in LastWins(init) {
        var k :| 0 <= k < |init| && init[k].0 == key;
        assert ps[k] == init[k];
      }
      if exists k :: 0 <= k < |ps| && ps[k].0 == key {
        var k :| 0 <= k < |ps| && ps[k].0 == key;
        if k < |init| {
          assert init[k] == ps[k];
        }
      }
    }
  }

  lemma {:induction false} LastWinsValue<V>(ps: seq<(int, V)>, key: int)
    requires key in LastWins(ps)
    ensures exists k :: 0 <= k < |ps| && ps[k].0 == key && LastWins(ps)[key] == ps[k].1
                        && forall j :: k < j < |ps| ==> ps[j].0 != key
  {
    var n := |ps| - 1;
    var init := ps[..n];
    if ps[n].0 == key {
      assert ps[n].0 == key && LastWins(ps)[key] == ps[n].1;
    } else {
      LastWinsValue(init, key);
      var k :| 0 <= k < |init| && init[k].0 == key && LastWins(init)[key] == init[k].1
        && forall j :: k < j < |init| ==> init[j].0 != key;
      assert ps[k] == init[k];
      assert forall j :: k < j < |ps| ==> ps[j].0 != key;
    }
  }

  // ---------------------------------------------------------------------------
  // Repeat marks

  /** `buildRepeatMeta`'s three collections, keyed by output position. */
  datatype RepeatMeta = RepeatMeta(repeatStarts: set<int>, repeatEnds: map<int, int>, voltaStarts: map<int, seq<int>>)

  function StartsOf(rs: seq<Repeat>): set<int>
  {
    set k | 0 <= k < |rs| :: rs[k].start
  }

  /** `repeatEnds.set(repeat.end, repeat.times || 2)`, repeat by repeat. */
  function EndPairs(rs: seq<Repeat>): (r: seq<(int, int)>)
    ensures |r| == |rs| && forall k :: 0 <= k < |rs| ==> r[k] == (rs[k].end, EffectiveTimes(rs[k]))
  {
    seq(|rs|, k requires 0 <= k < |rs| => (rs[k].end, EffectiveTimes(rs[k])))
  }

  /** The voltas of the repeats, in the order `forEach` visits them. */
  function AllVoltas(rs: seq<Repeat>): seq<Volta>
  {
    if rs == [] then [] else AllVoltas(rs[..|rs| - 1]) + rs[|rs| - 1].voltas
  }

  /** `voltaStarts.set(volta.start, volta.allowedPasses)`, volta by volta. */
  function VoltaPairs(vs: seq<Volta>): (r: seq<(int, seq<int>)>)
    ensures |r| == |vs| && forall k :: 0 <= k < |vs| ==> r[k] == (vs[k].start, vs[k].allowedPasses)
  {
    seq(|vs|, k requires 0 <= k < |vs| => (vs[k].start, vs[k].allowedPasses))
  }

  function RepeatMetaOf(rs: seq<Repeat>): RepeatMeta
  {
    RepeatMeta(StartsOf(rs), LastWins(EndPairs(rs)), LastWins(VoltaPairs(AllVoltas(rs))))
  }

  /** No plan marks nothing. */
  function PlanMeta(plan: Plan): RepeatMeta
  {
    if plan.None? then RepeatMeta({}, map[], map[]) else RepeatMetaOf(plan.value)
  }

  /** `buildRepeatMeta`. */
  method BuildRepeatMeta(plan: Plan) returns (meta: RepeatMeta)
    ensures meta == PlanMeta(plan)
  {
    var repeatStarts: set<int> := {};
    var repeatEnds: map<int, int> := map[];
    var voltaStarts: map<int, seq<int>> := map[];
    if plan.None? {
      return RepeatMeta(repeatStarts, repeatEnds, voltaStarts);
    }
    var rs := plan.value;
    for i := 0 to |rs|
      invariant repeatStarts == StartsOf(rs[..i])
      invariant repeatEnds == LastWins(EndPairs(rs[..i]))
      invariant voltaStarts == LastWins(VoltaPairs(AllVoltas(rs[..i])))
    {
      var repeat := rs[i];
      RepeatMetaStep(rs, i);
      repeatStarts := repeatStarts + {repeat.start};
      repeatEnds := repeatEnds[repeat.end := EffectiveTimes(repeat)];
      voltaStarts := SetVoltaStarts(voltaStarts, repeat.voltas, AllVoltas(rs[..i]));
    }
    assert rs[..|rs|] == rs;
    return RepeatMeta(repeatStarts, repeatEnds, voltaStarts);
  }

  lemma RepeatMetaStep(rs: seq<Repeat>, i: int)
    requires 0 <= i < |rs|
    ensures StartsOf(rs[..i + 1]) == StartsOf(rs[..i]) + {rs[i].start}
    ensures LastWins(EndPairs(rs[..i + 1])) == LastWins(EndPairs(rs[..i]))[rs[i].end := EffectiveTimes(rs[i])]
    ensures AllVoltas(rs[..i + 1]) == AllVoltas(rs[..i]) + rs[i].voltas
  {
    assert rs[..i + 1][..i] == rs[..i];
    assert EndPairs(rs[..i + 1])[..i] == EndPairs(rs[..i]);
  }

  /** `(repeat.voltas || []).forEach(...)`: set each volta's passes at its start. */
  method SetVoltaStarts(voltaStarts: map<int, seq<int>>, voltas: seq<Volta>, ghost before: seq<Volta>) returns (m: map<int, seq<int>>)
    requires voltaStarts == LastWins(VoltaPairs(before))
    ensures m == LastWins(VoltaPairs(before + voltas))
  {
    m := voltaStarts;
    assert before + voltas[..0] == before;
    for j := 0 to |voltas|
      invariant m == LastWins(VoltaPairs(before + voltas[..j]))
    {
      var volta := voltas[j];
      VoltaStep(before, voltas, j);
      m := m[volta.start := volta.allowedPasses];
    }
    assert voltas[..|voltas|] == voltas;
  }

  lemma VoltaStep(before: seq<Volta>, voltas: seq<Volta>, j: int)
    requires 0 <= j < |voltas|
    ensures LastWins(VoltaPairs(before + voltas[..j + 1])) == LastWins(VoltaPairs(before + voltas[..j]))[voltas[j].start := voltas[j].allowedPasses]
  {
    var longer := before + voltas[..j + 1];
    assert longer[..|longer| - 1] == before + voltas[..j];
    assert VoltaPairs(longer)[..|longer| - 1] == VoltaPairs(before + voltas[..j]);
  }

  /**
   * The marks of a plan: a position opens a repeat iff some repeat starts
   * there, closes one iff some repeat ends there, with the count of the
   * last such repeat (`times`, or 2 when it is 0).
   */
  lemma RepeatMetaMeaning(rs: seq<Repeat>, o: int)
    ensures o in RepeatMetaOf(rs).repeatStarts <==> exists k :: 0 <= k < |rs| && rs[k].start == o
    ensures o in RepeatMetaOf(rs).repeatEnds <==> exists k :: 0 <= k < |rs| && rs[k].end == o
    ensures o in RepeatMetaOf(rs).repeatEnds ==>
      exists k :: 0 <= k < |rs| && rs[k].end == o && RepeatMetaOf(rs).repeatEnds[o] == EffectiveTimes(rs[k])
        && forall j :: k < j < |rs| ==> rs[j].end != o
  {
    var ps := EndPairs(rs);
    LastWinsMeaning(ps, o);
    if exists k :: 0 <= k < |rs| && rs[k].end == o {
      var k :| 0 <= k < |rs| && rs[k].end == o;
      assert ps[k].0 == o;
    }
    if o in RepeatMetaOf(rs).repeatEnds {
      var k :| 0 <= k < |ps| && ps[k].0 == o && LastWins(ps)[o] == ps[k].1 && forall j :: k < j < |ps| ==> ps[j].0 != o;
      assert rs[k].end == o && forall j :: k < j < |rs| ==> rs[j].end != o;
    }
  }

  /** With distinct ends, every repeat of the plan is closed with its own count. */
  lemma RepeatsClosedWithTheirCount(rs: seq<Repeat>, k: int)
    requires 0 <= k < |rs|
    requires forall a, b :: 0 <= a < b < |rs| ==> rs[a].end != rs[b].end
    ensures rs[k].start in RepeatMetaOf(rs).repeatStarts
    ensures rs[k].end in RepeatMetaOf(rs).repeatEnds
    ensures RepeatMetaOf(rs).repeatEnds[rs[k].end] == EffectiveTimes(rs[k])
  {
    RepeatMetaMeaning(rs, rs[k].end);
    var k' :| 0 <= k' < |rs| && rs[k'].end == rs[k].end && RepeatMetaOf(rs).repeatEnds[rs[k].end] == EffectiveTimes(rs[k'])
      && forall j :: k' < j < |rs| ==> rs[j].end != rs[k].end;
    assert k' == k;
  }

  // ---------------------------------------------------------------------------
  // Volta marks

  function PassKey(p: int): (int, int) { (p, 0) }

  function PassStrings(ps: seq<int>): (r: seq<string>)
    ensures |r| == |ps| && forall k :: 0 <= k < |ps| ==> r[k] == IntToString(ps[k])
  {
    seq(|ps|, k requires 0 <= k < |ps| => IntToString(ps[k]))
  }

  /** `formatVolta`: the passes in increasing order, `\ae 1` for none. */
  function FormatVolta(passes: seq<int>): string
  {
    var sorted := SortBy(passes, PassKey);
    if |sorted| <= 1 then "\\ae " + IntToString(if |sorted| == 0 then 1 else sorted[0])
    else "\\ae (" + Join(PassStrings(sorted), " ") + ")"
  }

  /** Two sorted sequences with the same elements are the same sequence. */
  lemma {:induction false} SortedPassesUnique(xs: seq<int>, ys: seq<int>)
    requires SortedBy(xs, PassKey) && SortedBy(ys, PassKey)
    requires multiset(xs) == multiset(ys)
    ensures xs == ys
    decreases |xs|
  {
    assert |xs| == |multiset(xs)| == |ys|;
    if xs != [] {
      SameHeads(xs, ys);
      TailFacts(xs);
      TailFacts(ys);
      SortedPassesUnique(xs[1..], ys[1..]);
    }
  }

  lemma SameHeads(xs: seq<int>, ys: seq<int>)
    requires SortedBy(xs, PassKey) && SortedBy(ys, PassKey)
    requires multiset(xs) == multiset(ys) && xs != [] && ys != []
    ensures xs[0] == ys[0]
  {
    assert xs[0] in multiset(ys) && ys[0] in multiset(xs);
    SortedHeadIsLeast(xs, ys[0]);
    SortedHeadIsLeast(ys, xs[0]);
  }

  lemma TailFacts(xs: seq<int>)
    requires SortedBy(xs, PassKey) && xs != []
    ensures SortedBy(xs[1..], PassKey)
    ensures multiset(xs[1..]) == multiset(xs) - multiset{xs[0]}
    ensures xs == [xs[0]] + xs[1..]
  {
    assert xs == [xs[0]] + xs[1..];
  }

  lemma SortedHeadIsLeast(xs: seq<int>, x: int)
    requires SortedBy(xs, PassKey) && x in multiset(xs)
    ensures xs[0] <= x
  {
    var a :| 0 <= a < |xs| && xs[a] == x;
    assert a == 0 || KeyLe(PassKey(xs[0]), PassKey(xs[a]));
  }

  /** The mark depends only on which passes are listed, not on their order. */
  lemma FormatVoltaOrderFree(p: seq<int>, q: seq<int>)
    requires multiset(p) == multiset(q)
    ensures FormatVolta(p) == FormatVolta(q)
  {
    SortedPassesUnique(SortBy(p, PassKey), SortBy(q, PassKey));
  }

  /** A single pass `n` is written `\ae n`; several are listed in increasing order. */
  lemma FormatVoltaSingle(passes: seq<int>)
    requires |passes| <= 1
    ensures passes == [] ==> FormatVolta(passes) == "\\ae " + IntToString(1)
    ensures |passes| == 1 ==> FormatVolta(passes) == "\\ae " + IntToString(passes[0])
  {
    if |passes| == 1 {
      SortSingleton(passes[0], PassKey);
      assert passes == [passes[0]];
    }
  }

  lemma FormatVoltaListed(passes: seq<int>)
    requires |passes| >= 2
    ensures exists sorted: seq<int> ::
      multiset(sorted) == multiset(passes)
      && (forall i, j :: 0 <= i < j < |sorted| ==> sorted[i] <= sorted[j])
      && FormatVolta(passes) == "\\ae (" + Join(PassStrings(sorted), " ") + ")"
  {
    var sorted := SortBy(passes, PassKey);
    PassesIncrease(sorted);
    assert FormatVolta(passes) == "\\ae (" + Join(PassStrings(sorted), " ") + ")";
  }

  lemma PassesIncrease(sorted: seq<int>)
    requires SortedBy(sorted, PassKey)
    ensures forall i, j :: 0 <= i < j < |sorted| ==> sorted[i] <= sorted[j]
  {
    forall i, j | 0 <= i < j < |sorted| ensures sorted[i] <= sorted[j] {
      assert KeyLe(PassKey(sorted[i]), PassKey(sorted[j]));
    }
  }

  lemma VoltaMarkHead(passes: seq<int>)
    ensures |FormatVolta(passes)| >= 2 && FormatVolta(passes)[1] == 'a'
  {
    var sorted := SortBy(passes, PassKey);
    if |sorted| <= 1 {
      var n := if |sorted| == 0 then 1 else sorted[0];
      assert FormatVolta(passes) == "\\ae " + IntToString(n);
      SecondChar("\\ae ", IntToString(n));
    } else {
      SecondChar("\\ae (", Join(PassStrings(sorted), " ") + ")");
      assert FormatVolta(passes) == "\\ae (" + (Join(PassStrings(sorted), " ") + ")");
    }
  }

  lemma SecondChar(a: string, b: string)
    requires |a| >= 2
    ensures |a + b| >= 2 && (a + b)[1] == a[1]
  {
  }

  // ---------------------------------------------------------------------------
  // Measure lines

  /** The commands before a measure's tokens at output position `o`: `\ro`, `\ae`, `\ts`, `\rc`. */
  function MetaTokens(meta: RepeatMeta, o: int, info: MeasureInfo): seq<string>
  {
    OpenMark(meta, o) + VoltaMark(meta, o) + SignatureMark(info) + CloseMark(meta, o)
  }

  function OpenMark(meta: RepeatMeta, o: int): seq<string>
  {
    if o in meta.repeatStarts then ["\\ro"] else []
  }

  function VoltaMark(meta: RepeatMeta, o: int): seq<string>
  {
    if o in meta.voltaStarts then [FormatVolta(meta.voltaStarts[o])] else []
  }

  function SignatureMark(info: MeasureInfo): seq<string>
  {
    if info.signatureChanged then [TsToken(info.signature)] else []
  }

  /** `if (repeatTimes)`: a count of 0 writes nothing. */
  function CloseMark(meta: RepeatMeta, o: int): seq<string>
  {
    if o in meta.repeatEnds && meta.repeatEnds[o] != 0 then ["\\rc " + IntToString(meta.repeatEnds[o])] else []
  }

  /** The tokens of one output line. */
  function LineTokens(meta: RepeatMeta, o: int, info: MeasureInfo): seq<string>
  {
    MetaTokens(meta, o, info) + info.tokens
  }

  /** A marker comment, then `  <tokens> |`. */
  function MeasureLines(meta: RepeatMeta, o: int, info: MeasureInfo): seq<string>
  {
    (if info.markerText != "" then ["// " + info.markerText] else [])
    + ["  " + Join(LineTokens(meta, o, info), " ") + " |"]
  }

  /** The lines of the output measures `fi`, position by position. */
  function OutputLines(infos: seq<MeasureInfo>, fi: seq<int>, meta: RepeatMeta): seq<string>
    requires forall k :: 0 <= k < |fi| ==> 0 <= fi[k] < |infos|
  {
    if fi == [] then []
    else OutputLines(infos, fi[..|fi| - 1], meta) + MeasureLines(meta, |fi| - 1, infos[fi[|fi| - 1]])
  }

  /** `foldedIndices.forEach`. */
  method EmitMeasures(infos: seq<MeasureInfo>, fi: seq<int>, meta: RepeatMeta) returns (lines: seq<string>)
    requires forall k :: 0 <= k < |fi| ==> 0 <= fi[k] < |infos|
    ensures lines == OutputLines(infos, fi, meta)
  {
    lines := [];
    for outputIndex := 0 to |fi|
      invariant lines == OutputLines(infos, fi[..outputIndex], meta)
    {
      assert fi[..outputIndex + 1][..outputIndex] == fi[..outputIndex];
      var info := infos[fi[outputIndex]];
      if info.markerText != "" {
        lines := lines + ["// " + info.markerText];
      }
      var meta' := MetaTokens(meta, outputIndex, info);
      lines := lines + ["  " + Join(meta' + info.tokens, " ") + " |"];
    }
    assert fi[..|fi|] == fi;
  }

  /** Every kept measure has its line in the output. */
  lemma {:induction false} OutputLinesKeepEveryMeasure(infos: seq<MeasureInfo>, fi: seq<int>, meta: RepeatMeta, k: int)
    requires forall j :: 0 <= j < |fi| ==> 0 <= fi[j] < |infos|
    requires 0 <= k < |fi|
    ensures "  " + Join(LineTokens(meta, k, infos[fi[k]]), " ") + " |" in OutputLines(infos, fi, meta)
  {
    var init := fi[..|fi| - 1];
    if k < |fi| - 1 {
      assert init[k] == fi[k];
      OutputLinesKeepEveryMeasure(infos, init, meta, k);
    } else {
      var lines := MeasureLines(meta, k, infos[fi[k]]);
      assert lines[|lines| - 1] in lines;
    }
  }

  lemma OtherMarksAreNotTs(meta: RepeatMeta, o: int, sig: Signature)
    ensures TsToken(sig) !in OpenMark(meta, o) + VoltaMark(meta, o) + CloseMark(meta, o)
  {
    TsTokenHead(sig);
    if o in meta.voltaStarts {
      VoltaMarkHead(meta.voltaStarts[o]);
    }
    if o in meta.repeatEnds && meta.repeatEnds[o] != 0 {
      RcHead(meta.repeatEnds[o]);
    }
  }

  lemma RcHead(times: int)
    ensures ("\\rc " + IntToString(times))[1] == 'r'
  {
  }

  lemma PlainTokensAreNotTs(info: MeasureInfo)
    requires TokensShape(info, Mended)
    ensures TsToken(info.signature) !in info.tokens
  {
    TsTokenHead(info.signature);
    forall k | 0 <= k < |info.tokens| ensures info.tokens[k] != TsToken(info.signature) {
      assert StartsPlain(info.tokens[k]);
    }
  }

  /** Mended, `\ts` is written exactly once on the line of a measure whose signature changed, and not at all otherwise. */
  lemma TsWrittenOnce(meta: RepeatMeta, o: int, info: MeasureInfo)
    requires TokensShape(info, Mended)
    ensures multiset(LineTokens(meta, o, info))[TsToken(info.signature)] == if info.signatureChanged then 1 else 0
  {
    OtherMarksAreNotTs(meta, o, info.signature);
    PlainTokensAreNotTs(info);
    CountOnlyIn(OpenMark(meta, o), VoltaMark(meta, o), SignatureMark(info), CloseMark(meta, o), info.tokens, TsToken(info.signature));
  }

  lemma CountOnlyIn(a: seq<string>, b: seq<string>, c: seq<string>, d: seq<string>, e: seq<string>, x: string)
    requires x !in a + b + d && x !in e
    ensures multiset(a + b + c + d + e)[x] == multiset(c)[x]
  {
    assert multiset(a + b + c + d + e) == multiset(a + b + d) + multiset(c) + multiset(e);
  }

  /**
   * As written, the measure loop also puts `\ts` at the head of the
   * measure's own tokens, so a measure whose signature changed gets it
   * twice on its line.
   */
  lemma TsWrittenTwiceAsWritten(meta: RepeatMeta, o: int, info: MeasureInfo)
    requires TokensShape(info, AsWritten) && info.signatureChanged
    ensures multiset(LineTokens(meta, o, info))[TsToken(info.signature)] == 2
  {
    var ts := TsToken(info.signature);
    var rest := info.tokens[1..];
    assert info.tokens == [ts] + rest;
    LeadRestIsNotTs(info);
    OtherMarksAreNotTs(meta, o, info.signature);
    assert SignatureMark(info) == [ts];
    CountTwice(OpenMark(meta, o), VoltaMark(meta, o), CloseMark(meta, o), rest, ts);
  }

  /** After the as-written lead, a measure's tokens hold no `\ts`. */
  lemma LeadRestIsNotTs(info: MeasureInfo)
    requires TokensShape(info, AsWritten) && info.signatureChanged
    ensures TsToken(info.signature) !in info.tokens[1..]
  {
    TsTokenHead(info.signature);
    forall k | 1 <= k < |info.tokens| ensures info.tokens[k] != TsToken(info.signature) {
      assert StartsPlain(info.tokens[k]);
    }
  }

  lemma CountTwice(a: seq<string>, b: seq<string>, d: seq<string>, e: seq<string>, x: string)
    requires x !in a + b + d && x !in e
    ensures multiset(a + b + [x] + d + ([x] + e))[x] == 2
  {
    assert multiset(a + b + [x] + d + ([x] + e)) == multiset(a + b + d) + multiset{x, x} + multiset(e);
  }

  // ---------------------------------------------------------------------------
  // The document

  /** The caller's options: a trimmed title, whether to fold repeats, and the integer length bounds when given. */
  datatype ConvertOptions = ConvertOptions(title: string, inferRepeats: bool, maxRepeatLen: Option<int>, minRepeatLen: Option<int>)

  /** The lines before the measures; only the tuning can fail. */
  function HeaderLines(score: Score, title: string): (r: Result<seq<string>>)
    ensures r.Ok? <==> FormatTuning(score.tuning).Ok?
  {
    match FormatTuning(score.tuning)
      case Err(e) => Err(e)
      case Ok(tuning) =>
        Ok((if title != "" then ["\\title \"" + EscapeText(title) + "\""] else [])
          + (if score.name != "" then ["\\artist \"" + EscapeText(score.name) + "\""] else [])
          + (if score.instrument != "" then ["\\subtitle \"" + EscapeText(score.instrument) + "\""] else [])
          + (if score.instrument != "" then ["\\track \"" + EscapeText(score.instrument) + "\""] else ["\\track"])
          + ["  \\staff {tabs}", "  \\tuning (" + tuning + ")"])
  }

  /** A quoted header value reads back as the text it was made from. */
  lemma HeaderTitleReadsBack(score: Score, title: string)
    requires HeaderLines(score, title).Ok? && title != ""
    ensures var line := HeaderLines(score, title).value[0];
      |line| >= 9 && line[..8] == "\\title \"" && line[|line| - 1] == '"'
      && Unescape(line[8..|line| - 1]) == title
  {
    EscapeTextIsOnePass(title);
    assert EscapeEach(title) == EscapeChar(title[0]) + EscapeEach(title[1..]);
    assert HeaderLines(score, title).value[0] == "\\title \"" + EscapeText(title) + "\"";
    EscapeTextRoundTrip(title);
    QuotedInner("\\title \"", EscapeText(title));
  }

  lemma QuotedInner(head: string, body: string)
    ensures var line := head + body + "\"";
      |line| == |head| + |body| + 1 && line[..|head|] == head && line[|line| - 1] == '"'
      && line[|head|..|line| - 1] == body
  {
    var line := head + body + "\"";
    assert line[..|head|] == head;
    assert line[|head|..|line| - 1] == body;
  }

  /** `buildTempoMap(score.automations?.tempo)`. */
  function ScoreTempoMap(score: Score): map<int, string>
  {
    if score.tempo.Some? then TempoMapOf(score.tempo.value) else map[]
  }

  /** The options `inferRepeats` passes on, over the defaults of `inferFoldPlan`. */
  function FoldOptions(options: ConvertOptions): RepeatCandidates.Options
  {
    RepeatCandidates.Options(
      if options.minRepeatLen.Some? then options.minRepeatLen.value else 1,
      if options.maxRepeatLen.Some? then options.maxRepeatLen.value else 16,
      2, 8, true)
  }

  /** `inferRepeats`: the identity when disabled, otherwise the fold of the measure fingerprints within the boundaries. */
  method InferRepeats(infos: seq<MeasureInfo>, tempoMap: map<int, string>, options: ConvertOptions, reading: Reading) returns (folded: RepeatInference.Folded)
    requires options.minRepeatLen.None? || options.minRepeatLen.value >= 1
    ensures forall k :: 0 <= k < |folded.foldedIndices| ==> 0 <= folded.foldedIndices[k] < |infos|
    ensures forall a, b :: 0 <= a < b < |folded.foldedIndices| ==> folded.foldedIndices[a] < folded.foldedIndices[b]
    ensures PlanForward(folded.plan)
    ensures !options.inferRepeats || folded.plan.None? ==> folded == RepeatInference.Identity(|infos|)
    ensures RepeatInference.Replay(Fingerprints(infos, reading), folded) == RepeatInference.Present(Fingerprints(infos, reading))
    ensures options.inferRepeats ==>
      folded == RepeatInference.InferredFold(Fingerprints(infos, reading), BoundaryIds(infos, tempoMap), FoldOptions(options))
  {
    var fingerprints := Fingerprints(infos, reading);
    if !options.inferRepeats {
      RepeatInference.IdentityReplays(fingerprints);
      RangeIndex(0, |infos|);
      return RepeatInference.Identity(|infos|);
    }
    var boundaries := BuildBoundaryIds(infos, tempoMap);
    folded := RepeatInference.InferFoldPlan(fingerprints, boundaries, FoldOptions(options));
  }

  /** Whether the conversion succeeds: a measures array, a valid tuning, and measures that all format. */
  predicate Converts(score: Score, options: ConvertOptions, reading: Reading)
  {
    score.measures.Some? && HeaderLines(score, options.title).Ok?
    && MeasuresRun(score.measures.value, ScoreTempoMap(score), reading).Ok?
  }

  /**
   * `jsonToAlphaText`. On success the text is the header followed by the
   * lines of the kept measures with the marks of the fold; playing the fold
   * back gives every measure's fingerprint in order. The fold is returned
   * alongside as a ghost value so that the contract can speak of it.
   */
  method JsonToAlphaText(score: Score, options: ConvertOptions, reading: Reading) returns (r: Result<string>, ghost folded: RepeatInference.Folded)
    requires options.minRepeatLen.None? || options.minRepeatLen.value >= 1
    ensures r.Ok? <==> Converts(score, options, reading)
    ensures score.measures.None? ==> r == Err("Score JSON must include a \"measures\" array")
    ensures score.measures.Some? && HeaderLines(score, options.title).Err? ==> r == Err(HeaderLines(score, options.title).error)
    ensures r.Ok? ==>
      var infos := MeasuresRun(score.measures.value, ScoreTempoMap(score), reading).value.0;
      (forall k :: 0 <= k < |folded.foldedIndices| ==> 0 <= folded.foldedIndices[k] < |infos|)
      && PlanForward(folded.plan)
      && RepeatInference.Replay(Fingerprints(infos, reading), folded) == RepeatInference.Present(Fingerprints(infos, reading))
      && r.value == Join(HeaderLines(score, options.title).value + OutputLines(infos, folded.foldedIndices, PlanMeta(folded.plan)), "\n")
    ensures r.Ok? && !options.inferRepeats ==>
      folded == RepeatInference.Identity(|score.measures.value|)
    ensures r.Ok? && options.inferRepeats ==>
      var infos := MeasuresRun(score.measures.value, ScoreTempoMap(score), reading).value.0;
      folded == RepeatInference.InferredFold(Fingerprints(infos, reading), BoundaryIds(infos, ScoreTempoMap(score)), FoldOptions(options))
  {
    folded := RepeatInference.Identity(0);
    if score.measures.None? {
      return Err("Score JSON must include a \"measures\" array"), folded;
    }
    var header := HeaderLines(score, options.title);
    if header.Err? {
      return Err(header.error), folded;
    }
    var tempoMap := BuildTempoMap(score.tempo);
    assert tempoMap == ScoreTempoMap(score);
    var collected := CollectMeasures(score.measures.value, tempoMap, reading);
    if collected.Err? {
      return Err(collected.error), folded;
    }
    var measureInfos := collected.value;
    var text;
    text, folded := FoldAndEmit(measureInfos, tempoMap, options, reading, header.value);
    return Ok(text), folded;
  }

  /** The tail of `jsonToAlphaText`: fold the measures, then write the header and the kept measures' lines. */
  method FoldAndEmit(measureInfos: seq<MeasureInfo>, tempoMap: map<int, string>, options: ConvertOptions, reading: Reading, header: seq<string>)
    returns (text: string, ghost folded: RepeatInference.Folded)
    requires options.minRepeatLen.None? || options.minRepeatLen.value >= 1
    ensures forall k :: 0 <= k < |folded.foldedIndices| ==> 0 <= folded.foldedIndices[k] < |measureInfos|
    ensures PlanForward(folded.plan)
    ensures RepeatInference.Replay(Fingerprints(measureInfos, reading), folded) == RepeatInference.Present(Fingerprints(measureInfos, reading))
    ensures text == Join(header + OutputLines(measureInfos, folded.foldedIndices, PlanMeta(folded.plan)), "\n")
    ensures !options.inferRepeats ==> folded == RepeatInference.Identity(|measureInfos|)
    ensures options.inferRepeats ==>
      folded == RepeatInference.InferredFold(Fingerprints(measureInfos, reading), BoundaryIds(measureInfos, tempoMap), FoldOptions(options))
  {
    var foldResult := InferRepeats(measureInfos, tempoMap, options, reading);
    folded := foldResult;
    var repeatMeta := BuildRepeatMeta(foldResult.plan);
    var lines := EmitMeasures(measureInfos, foldResult.foldedIndices, repeatMeta);
    text := Join(header + lines, "\n");
  }
}
