/**
 * The measure loop of `jsonToAlphaText` in docs/jsonToAlphaText.js (lines
 * 36-83): the running time signature, the normalized beats of each measure,
 * their tokens with the fret carry threaded from beat to beat and from
 * measure to measure, and what the repeat inference is given about each
 * measure (lines 198-255): its boundary tag and its fingerprint.
 */
module AlphaMeasures {
  import opened Wrappers
  import opened Text
  import opened Score
  import opened AlphaText
  import opened AlphaBeats
  import opened Durations
  import Normalize

  type Signature = (int, int)

  /** What the converter records about one measure (`measureInfos`). */
  datatype MeasureInfo = MeasureInfo(
    measure: Measure,
    signature: Signature,
    signatureChanged: bool,
    markerText: string,
    beats: seq<Beat>,
    tokens: seq<string>)

  /** The `\ts` token of a signature. */
  function TsToken(sig: Signature): string
  {
    "\\ts " + IntToString(sig.0) + " " + IntToString(sig.1)
  }

  /** `\ts` starts with a backslash and a `t`. */
  lemma TsTokenHead(sig: Signature)
    ensures var ts := TsToken(sig); |ts| >= 2 && ts[0] == '\\' && ts[1] == 't'
  {
  }

  /**
   * How a member reads the converter: `AsWritten` follows the code line by
   * line; `Mended` leaves out the two defects the README lists under
   * Findings (the second `\ts` on a line, and the dot count missing from
   * the fingerprints).
   */
  datatype Reading = AsWritten | Mended

  /** What the measure loop pushes before the beat tokens: as written, the `\ts` of a changed signature. */
  function LeadTokens(reading: Reading, sig: Signature, changed: bool): seq<string>
  {
    if reading == AsWritten && changed then [TsToken(sig)] else []
  }

  // ---------------------------------------------------------------------------
  // The running signature

  /**
   * The signature in force after a measure and whether it changed: a written
   * signature must be valid, and it is a change exactly when it differs from
   * the one in force.
   */
  function SignatureAfter(m: Measure, current: Signature): (r: Result<(Signature, bool)>)
    ensures m.signature.None? ==> r == Ok((current, false))
    ensures m.signature.Some? ==> (r.Ok? <==> ValidateSignature(m.signature.value).Ok?)
    ensures r.Ok? && m.signature.Some? ==> r.value.0 == ValidateSignature(m.signature.value).value
    ensures r.Ok? ==> (r.value.1 <==> r.value.0 != current)
    ensures r.Ok? && current.0 > 0 && current.1 > 0 ==> r.value.0.0 > 0 && r.value.0.1 > 0
  {
    if m.signature.None? then Ok((current, false))
    else
      match ValidateSignature(m.signature.value)
        case Err(e) => Err(e)
        case Ok((num, den)) =>
          if num != current.0 || den != current.1 then Ok(((num, den), true)) else Ok((current, false))
  }

  // ---------------------------------------------------------------------------
  // The beats of one measure

  /** The tempo of a measure, given to its first beat only. */
  function TempoAt(tempoMap: map<int, string>, index: int): Option<string>
  {
    if index in tempoMap then Some(tempoMap[index]) else None
  }

  /**
   * The tokens of a measure's beats and the carry after them; the first
   * beat also gets the measure's tempo, and the first failing beat stops
   * the measure.
   */
  function BeatRun(beats: seq<Beat>, carry: Option<Frets>, tempo: Option<string>): (r: Result<(seq<string>, Option<Frets>)>)
    requires WellFormedCarry(carry)
    ensures r.Ok? ==> |r.value.0| == |beats| && WellFormedCarry(r.value.1)
  {
    if beats == [] then Ok(([], carry))
    else
      match BeatRun(beats[..|beats| - 1], carry, tempo)
        case Err(e) => Err(e)
        case Ok((tokens, c)) =>
          match BeatTokenOf(beats[|beats| - 1], c, if |beats| == 1 then tempo else None)
            case Err(e) => Err(e)
            case Ok(bt) => Ok((tokens + [bt.token], bt.nextFrets))
  }

  lemma {:induction false} BeatRunErrPersists(beats: seq<Beat>, carry: Option<Frets>, tempo: Option<string>, k: nat)
    requires WellFormedCarry(carry) && k <= |beats|
    requires BeatRun(beats[..k], carry, tempo).Err?
    ensures BeatRun(beats, carry, tempo) == BeatRun(beats[..k], carry, tempo)
    decreases |beats| - k
  {
    if k < |beats| {
      assert beats[..k + 1][..k] == beats[..k];
      BeatRunErrPersists(beats, carry, tempo, k + 1);
    } else {
      assert beats[..k] == beats;
    }
  }

  lemma BeatRunStep(beats: seq<Beat>, carry: Option<Frets>, tempo: Option<string>, i: nat)
    requires WellFormedCarry(carry) && i < |beats| && BeatRun(beats[..i], carry, tempo).Ok?
    ensures var (tokens, c) := BeatRun(beats[..i], carry, tempo).value;
      var bt := BeatTokenOf(beats[i], c, if i == 0 then tempo else None);
      BeatRun(beats[..i + 1], carry, tempo) == if bt.Err? then Err(bt.error) else Ok((tokens + [bt.value.token], bt.value.nextFrets))
  {
    assert beats[..i + 1][..i] == beats[..i];
  }

  /** The `beats.forEach` of a measure. */
  method FormatMeasureBeats(beats: seq<Beat>, carry: Option<Frets>, tempo: Option<string>) returns (r: Result<(seq<string>, Option<Frets>)>)
    requires WellFormedCarry(carry)
    ensures r == BeatRun(beats, carry, tempo)
  {
    var tokens: seq<string> := [];
    var measurePreviousFrets := carry;
    for beatIndex := 0 to |beats|
      invariant WellFormedCarry(measurePreviousFrets)
      invariant BeatRun(beats[..beatIndex], carry, tempo) == Ok((tokens, measurePreviousFrets))
    {
      var beatTempo := if beatIndex == 0 then tempo else None;
      var formatted := FormatBeat(beats[beatIndex], measurePreviousFrets, beatTempo);
      BeatRunStep(beats, carry, tempo, beatIndex);
      if formatted.Err? {
        BeatRunErrPersists(beats, carry, tempo, beatIndex + 1);
        return Err(formatted.error);
      }
      measurePreviousFrets := formatted.value.nextFrets;
      tokens := tokens + [formatted.value.token];
    }
    assert beats[..|beats|] == beats;
    return Ok((tokens, measurePreviousFrets));
  }

  // ---------------------------------------------------------------------------
  // One measure

  /** The state threaded through the measures: the signature in force and the fret carry. */
  datatype Running = Running(signature: Signature, carry: Option<Frets>)

  predicate ValidRunning(s: Running)
  {
    s.signature.0 > 0 && s.signature.1 > 0 && WellFormedCarry(s.carry)
  }

  predicate PositiveSignature(info: MeasureInfo)
  {
    info.signature.0 > 0 && info.signature.1 > 0
  }

  /** `[4, 4]` and no fret on any string. */
  const Start: Running := Running((4, 4), Some(NoFrets))

  /**
   * One turn of `score.measures.forEach`: the signature, then the
   * normalized beats, then the measure's tokens: the `\ts` of a changed
   * signature (as written), then one token per beat.
   */
  function MeasureStep(m: Measure, index: int, s: Running, tempoMap: map<int, string>, reading: Reading): (r: Result<(MeasureInfo, Running)>)
    requires ValidRunning(s)
    ensures r.Ok? ==> ValidRunning(r.value.1) && r.value.1.signature == r.value.0.signature && PositiveSignature(r.value.0)
    ensures r.Ok? ==> r.value.0.measure == m && r.value.0.markerText == m.markerText
    ensures r.Ok? ==> SignatureAfter(m, s.signature) == Ok((r.value.0.signature, r.value.0.signatureChanged))
    ensures r.Ok? ==> var info := r.value.0;
      var lead := LeadTokens(reading, info.signature, info.signatureChanged);
      |info.tokens| == |lead| + |info.beats| && info.tokens[..|lead|] == lead
  {
    match SignatureAfter(m, s.signature)
      case Err(e) => Err(e)
      case Ok((sig, changed)) =>
        match Normalize.Normalized(m, sig.0, sig.1)
          case Err(e) => Err(e)
          case Ok(beats) =>
            match BeatRun(beats, s.carry, TempoAt(tempoMap, index))
              case Err(e) => Err(e)
              case Ok((tokens, carry)) =>
                Ok((MeasureInfo(m, sig, changed, m.markerText, beats, LeadTokens(reading, sig, changed) + tokens), Running(sig, carry)))
  }

  /** The measure infos of the first measures and the state after them; the first failing measure stops the conversion. */
  function MeasuresRun(ms: seq<Measure>, tempoMap: map<int, string>, reading: Reading): (r: Result<(seq<MeasureInfo>, Running)>)
    ensures r.Ok? ==> |r.value.0| == |ms| && ValidRunning(r.value.1)
    ensures r.Ok? ==> forall k :: 0 <= k < |ms| ==> PositiveSignature(r.value.0[k])
  {
    if ms == [] then Ok(([], Start))
    else
      match MeasuresRun(ms[..|ms| - 1], tempoMap, reading)
        case Err(e) => Err(e)
        case Ok((infos, s)) =>
          match MeasureStep(ms[|ms| - 1], |ms| - 1, s, tempoMap, reading)
            case Err(e) => Err(e)
            case Ok((info, s')) => Ok((infos + [info], s'))
  }

  lemma {:induction false} MeasuresRunErrPersists(ms: seq<Measure>, tempoMap: map<int, string>, reading: Reading, k: nat)
    requires k <= |ms| && MeasuresRun(ms[..k], tempoMap, reading).Err?
    ensures MeasuresRun(ms, tempoMap, reading) == MeasuresRun(ms[..k], tempoMap, reading)
    decreases |ms| - k
  {
    if k < |ms| {
      assert ms[..k + 1][..k] == ms[..k];
      MeasuresRunErrPersists(ms, tempoMap, reading, k + 1);
    } else {
      assert ms[..k] == ms;
    }
  }

  lemma MeasuresRunStep(ms: seq<Measure>, tempoMap: map<int, string>, reading: Reading, i: nat)
    requires i < |ms| && MeasuresRun(ms[..i], tempoMap, reading).Ok?
    ensures var (infos, s) := MeasuresRun(ms[..i], tempoMap, reading).value;
      var step := MeasureStep(ms[i], i, s, tempoMap, reading);
      MeasuresRun(ms[..i + 1], tempoMap, reading) == if step.Err? then Err(step.error) else Ok((infos + [step.value.0], step.value.1))
  {
    assert ms[..i + 1][..i] == ms[..i];
  }

  /** The measure loop of `jsonToAlphaText`. */
  method CollectMeasures(ms: seq<Measure>, tempoMap: map<int, string>, reading: Reading) returns (r: Result<seq<MeasureInfo>>)
    ensures MeasuresRun(ms, tempoMap, reading).Err? ==> r == Err(MeasuresRun(ms, tempoMap, reading).error)
    ensures MeasuresRun(ms, tempoMap, reading).Ok? ==> r == Ok(MeasuresRun(ms, tempoMap, reading).value.0)
  {
    var currentSignature: Signature := (4, 4);
    var previousFrets: Option<Frets> := Some(NoFrets);
    var measureInfos: seq<MeasureInfo> := [];
    for measureIndex := 0 to |ms|
      invariant MeasuresRun(ms[..measureIndex], tempoMap, reading) == Ok((measureInfos, Running(currentSignature, previousFrets)))
    {
      MeasuresRunStep(ms, tempoMap, reading, measureIndex);
      var measure := ms[measureIndex];
      var after := SignatureAfter(measure, currentSignature);
      if after.Err? {
        assert MeasuresRun(ms[..measureIndex + 1], tempoMap, reading) == Err(after.error);
        MeasuresRunErrPersists(ms, tempoMap, reading, measureIndex + 1);
        return Err(after.error);
      }
      var (sig, signatureChanged) := after.value;
      var beats := Normalize.NormalizeBeats(measure, sig.0, sig.1);
      if beats.Err? {
        assert MeasuresRun(ms[..measureIndex + 1], tempoMap, reading) == Err(beats.error);
        MeasuresRunErrPersists(ms, tempoMap, reading, measureIndex + 1);
        return Err(beats.error);
      }
      var formatted := FormatMeasureBeats(beats.value, previousFrets, TempoAt(tempoMap, measureIndex));
      if formatted.Err? {
        assert MeasuresRun(ms[..measureIndex + 1], tempoMap, reading) == Err(formatted.error);
        MeasuresRunErrPersists(ms, tempoMap, reading, measureIndex + 1);
        return Err(formatted.error);
      }
      var (tokens, measurePreviousFrets) := formatted.value;
      currentSignature := sig;
      previousFrets := measurePreviousFrets;
      measureInfos := measureInfos + [MeasureInfo(measure, sig, signatureChanged, measure.markerText, beats.value, LeadTokens(reading, sig, signatureChanged) + tokens)];
    }
    assert ms[..|ms|] == ms;
    return Ok(measureInfos);
  }

  // ---------------------------------------------------------------------------
  // Properties of the measure loop

  /**
   * Each recorded measure carries the signature in force after it, counted
   * as changed exactly when it differs from the one before it (`[4, 4]`
   * before the first), and beats that fill it.
   */
  lemma {:induction false} MeasuresRunSignatures(ms: seq<Measure>, tempoMap: map<int, string>, reading: Reading, i: nat)
    requires MeasuresRun(ms, tempoMap, reading).Ok? && i < |ms|
    ensures var infos := MeasuresRun(ms, tempoMap, reading).value.0;
      var before := if i == 0 then (4, 4) else infos[i - 1].signature;
      SignatureAfter(ms[i], before) == Ok((infos[i].signature, infos[i].signatureChanged))
      && Normalize.Normalized(ms[i], infos[i].signature.0, infos[i].signature.1) == Ok(infos[i].beats)
      && infos[i].measure == ms[i] && infos[i].markerText == ms[i].markerText
    decreases |ms|
  {
    var init := ms[..|ms| - 1];
    if i < |ms| - 1 {
      assert init[i] == ms[i];
      MeasuresRunSignatures(init, tempoMap, reading, i);
    } else if i > 0 {
      MeasuresRunLast(init, tempoMap, reading);
    }
  }

  lemma MeasuresRunLast(ms: seq<Measure>, tempoMap: map<int, string>, reading: Reading)
    requires MeasuresRun(ms, tempoMap, reading).Ok? && ms != []
    ensures MeasuresRun(ms, tempoMap, reading).value.1.signature == MeasuresRun(ms, tempoMap, reading).value.0[|ms| - 1].signature
  {
  }

  /** A measure whose signature is absent or the same as before writes no change. */
  lemma UnchangedSignatureNotMarked(m: Measure, current: Signature)
    requires m.signature.None? || ValidateSignature(m.signature.value) == Ok((current.0, current.1))
    ensures SignatureAfter(m, current) == Ok((current, false))
  {
  }

  /** Every beat token of a measure reads as a note or rest, never as a command. */
  lemma {:induction false} BeatRunStartsPlain(beats: seq<Beat>, carry: Option<Frets>, tempo: Option<string>)
    requires WellFormedCarry(carry) && BeatRun(beats, carry, tempo).Ok?
    ensures forall k :: 0 <= k < |beats| ==> StartsPlain(BeatRun(beats, carry, tempo).value.0[k])
  {
    if beats != [] {
      var init := beats[..|beats| - 1];
      BeatRunStartsPlain(init, carry, tempo);
      var c := BeatRun(init, carry, tempo).value.1;
      BeatTokenStartsPlain(beats[|beats| - 1], c, if |beats| == 1 then tempo else None);
    }
  }

  /** Every recorded measure's tokens are its lead tokens followed by tokens that read as notes or rests. */
  lemma {:induction false} MeasuresRunStartsPlain(ms: seq<Measure>, tempoMap: map<int, string>, reading: Reading)
    requires MeasuresRun(ms, tempoMap, reading).Ok?
    ensures forall i :: 0 <= i < |ms| ==> TokensShape(MeasuresRun(ms, tempoMap, reading).value.0[i], reading)
  {
    if ms != [] {
      var init := ms[..|ms| - 1];
      MeasuresRunStartsPlain(init, tempoMap, reading);
      var (infos, s) := MeasuresRun(init, tempoMap, reading).value;
      MeasureStepShape(ms[|ms| - 1], |ms| - 1, s, tempoMap, reading);
      assert MeasuresRun(ms, tempoMap, reading).value.0 == infos + [MeasureStep(ms[|ms| - 1], |ms| - 1, s, tempoMap, reading).value.0];
    }
  }

  lemma MeasureStepShape(m: Measure, index: int, s: Running, tempoMap: map<int, string>, reading: Reading)
    requires ValidRunning(s) && MeasureStep(m, index, s, tempoMap, reading).Ok?
    ensures TokensShape(MeasureStep(m, index, s, tempoMap, reading).value.0, reading)
  {
    var (sig, changed) := SignatureAfter(m, s.signature).value;
    var beats := Normalize.Normalized(m, sig.0, sig.1).value;
    var tempo := TempoAt(tempoMap, index);
    BeatRunStartsPlain(beats, s.carry, tempo);
    var lead := LeadTokens(reading, sig, changed);
    var tokens := BeatRun(beats, s.carry, tempo).value.0;
    assert forall k :: |lead| <= k < |lead + tokens| ==> (lead + tokens)[k] == tokens[k - |lead|];
  }

  /** A measure's tokens: what `LeadTokens` puts first, then tokens that each read as a note or rest. */
  predicate TokensShape(info: MeasureInfo, reading: Reading)
  {
    var lead := LeadTokens(reading, info.signature, info.signatureChanged);
    |lead| <= |info.tokens| && info.tokens[..|lead|] == lead
    && forall k :: |lead| <= k < |info.tokens| ==> StartsPlain(info.tokens[k])
  }

  // ---------------------------------------------------------------------------
  // What the repeat inference sees

  /** `buildBoundaryIds`: measure `i > 0` is a boundary when its signature changes, it has a marker, or a tempo starts there. */
  function IsBoundary(infos: seq<MeasureInfo>, tempoMap: map<int, string>, i: int): bool
    requires 0 <= i < |infos|
  {
    i > 0 && (infos[i].signatureChanged || infos[i].markerText != "" || i in tempoMap)
  }

  /** The boundary tags the repeat inference receives, one per measure. */
  function BoundaryIds(infos: seq<MeasureInfo>, tempoMap: map<int, string>): seq<Option<string>>
  {
    seq(|infos|, i requires 0 <= i < |infos| => if IsBoundary(infos, tempoMap, i) then Some("boundary") else None)
  }

  method BuildBoundaryIds(infos: seq<MeasureInfo>, tempoMap: map<int, string>) returns (boundaries: seq<Option<string>>)
    ensures boundaries == BoundaryIds(infos, tempoMap)
    ensures |boundaries| == |infos|
    ensures forall i :: 0 <= i < |infos| ==> (boundaries[i].Some? <==> IsBoundary(infos, tempoMap, i))
    ensures forall i :: 0 <= i < |infos| && boundaries[i].Some? ==> boundaries[i].value == "boundary"
  {
    boundaries := seq(|infos|, _ => None);
    var i := 1;
    while i < |infos|
      invariant 1 <= i && (i <= |infos| || |infos| == 0)
      invariant |boundaries| == |infos|
      invariant forall j :: 0 <= j < i && j < |infos| ==> (boundaries[j].Some? <==> IsBoundary(infos, tempoMap, j))
      invariant forall j :: i <= j < |infos| ==> boundaries[j].None?
      invariant forall j :: 0 <= j < |infos| && boundaries[j].Some? ==> boundaries[j].value == "boundary"
    {
      var info := infos[i];
      if info.signatureChanged || info.markerText != "" || i in tempoMap {
        boundaries := boundaries[i := Some("boundary")];
      }
      i := i + 1;
    }
    assert forall j :: 0 <= j < |infos| ==> boundaries[j] == BoundaryIds(infos, tempoMap)[j];
  }

  /** `canonicalNote`. */
  datatype CanonNote = CanonNote(stringIndex: Option<int>, fret: Option<int>, rest: bool, tie: bool, hp: bool, ghostNote: bool, dead: bool)

  /** `canonicalBeat`; the dot count stays 0 when read as written. */
  datatype CanonBeat = CanonBeat(
    duration: Option<seq<Option<int>>>,
    dots: int,
    rest: bool,
    palmMute: bool,
    letRing: bool,
    tuplet: Option<int>,
    tupletStart: bool,
    tupletStop: bool,
    notes: seq<CanonNote>)

  /** `canonicalFingerprint`: the signature, the voice's rest flag and the canonical beats. */
  datatype Fingerprint = Fingerprint(signature: Signature, voiceRest: bool, beats: seq<CanonBeat>)

  function CanonicalNote(n: Note): CanonNote
  {
    CanonNote(n.stringIndex, n.fret, n.rest, n.tie, n.hp, n.ghostNote, n.dead)
  }

  function CanonicalNotes(ns: seq<Note>): (r: seq<CanonNote>)
    ensures |r| == |ns| && forall i :: 0 <= i < |ns| ==> r[i] == CanonicalNote(ns[i])
  {
    if ns == [] then [] else [CanonicalNote(ns[0])] + CanonicalNotes(ns[1..])
  }

  /**
   * `canonicalBeat`. As written the beat's `dots` is not among its fields,
   * so every beat serializes with the same (absent) dot count; mended, the
   * dot count is included.
   */
  function CanonicalBeat(b: Beat, reading: Reading): CanonBeat
  {
    CanonBeat(b.duration, if reading == Mended then b.dots else 0, b.rest, b.palmMute, b.letRing,
      b.tuplet, b.tupletStart, b.tupletStop, CanonicalNotes(b.notes))
  }

  /**
   * The fingerprint copies `tuplet` as it is, so a beat without one and the
   * same beat with `"tuplet": 0` serialize apart, though the duration code,
   * which tests the field's truthiness, resolves both alike.
   */
  lemma AbsentAndZeroTupletFingerprintApart(b: Beat, reading: Reading)
    requires b.tuplet.None?
    ensures CanonicalBeat(b, reading) != CanonicalBeat(b.(tuplet := Some(0)), reading)
    ensures ResolveDuration(b) == ResolveDuration(b.(tuplet := Some(0)))
  {
  }

  function CanonicalBeats(bs: seq<Beat>, reading: Reading): (r: seq<CanonBeat>)
    ensures |r| == |bs| && forall i :: 0 <= i < |bs| ==> r[i] == CanonicalBeat(bs[i], reading)
  {
    if bs == [] then [] else [CanonicalBeat(bs[0], reading)] + CanonicalBeats(bs[1..], reading)
  }

  function FingerprintOf(info: MeasureInfo, reading: Reading): Fingerprint
  {
    var voice0 := Normalize.FirstVoice(info.measure);
    Fingerprint(info.signature, voice0.Some? && voice0.value.rest, CanonicalBeats(info.beats, reading))
  }

  function Fingerprints(infos: seq<MeasureInfo>, reading: Reading): (r: seq<Fingerprint>)
    ensures |r| == |infos| && forall i :: 0 <= i < |infos| ==> r[i] == FingerprintOf(infos[i], reading)
  {
    seq(|infos|, i requires 0 <= i < |infos| => FingerprintOf(infos[i], reading))
  }

  /** Equal canonical notes are equal notes. */
  lemma CanonicalNotesInjective(a: seq<Note>, b: seq<Note>)
    requires CanonicalNotes(a) == CanonicalNotes(b)
    ensures a == b
  {
    assert |a| == |CanonicalNotes(a)| == |b|;
    forall i | 0 <= i < |a| ensures a[i] == b[i] {
      assert CanonicalNote(a[i]) == CanonicalNotes(a)[i] == CanonicalNote(b[i]);
    }
  }

  /**
   * Beats with equal canonical forms write the same token and hand on the
   * same carry, whatever carry and tempo they are given.
   */
  lemma EqualCanonicalBeatsRenderAlike(a: Beat, b: Beat, carry: Option<Frets>, tempo: Option<string>)
    requires WellFormedCarry(carry)
    requires CanonicalBeat(a, Mended) == CanonicalBeat(b, Mended)
    ensures BeatTokenOf(a, carry, tempo) == BeatTokenOf(b, carry, tempo)
  {
    CanonicalNotesInjective(a.notes, b.notes);
    assert a == b;
  }

  /**
   * Measures with equal fingerprints have the same signature and the same
   * beats, so from the same carry and tempo they write the same tokens.
   */
  lemma EqualFingerprintsRenderAlike(x: MeasureInfo, y: MeasureInfo, carry: Option<Frets>, tempo: Option<string>)
    requires WellFormedCarry(carry)
    requires FingerprintOf(x, Mended) == FingerprintOf(y, Mended)
    ensures x.signature == y.signature && x.beats == y.beats
    ensures BeatRun(x.beats, carry, tempo) == BeatRun(y.beats, carry, tempo)
  {
    var cx, cy := CanonicalBeats(x.beats, Mended), CanonicalBeats(y.beats, Mended);
    assert |x.beats| == |cx| == |cy| == |y.beats|;
    forall i | 0 <= i < |x.beats| ensures x.beats[i] == y.beats[i] {
      assert CanonicalBeat(x.beats[i], Mended) == cx[i] == cy[i] == CanonicalBeat(y.beats[i], Mended);
      CanonicalNotesInjective(x.beats[i].notes, y.beats[i].notes);
    }
  }

  /**
   * As written, equal fingerprints still mean the same signature and the
   * same beats in every field but `dots`.
   */
  lemma EqualFingerprintsAgreeButDots(x: MeasureInfo, y: MeasureInfo)
    requires FingerprintOf(x, AsWritten) == FingerprintOf(y, AsWritten)
    ensures x.signature == y.signature && |x.beats| == |y.beats|
    ensures forall i :: 0 <= i < |x.beats| ==> x.beats[i].(dots := 0) == y.beats[i].(dots := 0)
  {
    var cx, cy := CanonicalBeats(x.beats, AsWritten), CanonicalBeats(y.beats, AsWritten);
    assert |x.beats| == |cx| == |cy| == |y.beats|;
    forall i | 0 <= i < |x.beats| ensures x.beats[i].(dots := 0) == y.beats[i].(dots := 0) {
      assert CanonicalBeat(x.beats[i], AsWritten) == cx[i] == cy[i] == CanonicalBeat(y.beats[i], AsWritten);
      CanonicalNotesInjective(x.beats[i].notes, y.beats[i].notes);
    }
  }

  /**
   * Leaving `dots` out of `canonicalBeat` gives a plain quarter rest and a
   * dotted one the same canonical form although they write different tokens.
   */
  lemma DotsInvisibleAsWritten()
    ensures var plain := RestBeat(4);
      var dotted := plain.(dots := 1);
      CanonicalBeat(plain, AsWritten) == CanonicalBeat(dotted, AsWritten)
      && BeatTokenOf(plain, Some(NoFrets), None) != BeatTokenOf(dotted, Some(NoFrets), None)
  {
    var plain := RestBeat(4);
    var dotted := plain.(dots := 1);
    var info := DurationInfo(4, 0);
    assert PositivePair(plain) == Some((1, 4)) && IsPowerOfTwoDuration(4);
    assert ResolveDuration(plain) == Ok(info) && ResolveDuration(dotted) == Ok(info);
    var head := "r" + "." + IntToString(4);
    assert BeatProps(plain, None, 0) == [];
    assert BeatProps(dotted, None, 0) == ["d"];
    assert BeatTokenOf(plain, Some(NoFrets), None).value.token == head + "";
    assert BeatTokenOf(dotted, Some(NoFrets), None).value.token == head + BeatPropsSuffix(["d"]);
    assert |BeatPropsSuffix(["d"])| > 0;
  }
}
