# Guitar-tab score conversion: repeat folding and text renderers, in Dafny

This project models the conversion core of a guitar-tab score tool. A score
arrives as JSON: measures with a time signature, voices, beats, notes and a
tempo list. The tool turns it into alphaTex text, or into plain ASCII
tablature. The model covers five parts of that core.

- **The fold-plan engine** (`docs/repeat_inference.js`). It reads one
  fingerprint per measure and finds runs of identical measures (simple
  repeats). It also finds a shared prefix followed by two different endings
  (repeats with first and second endings, called voltas). It scores the
  candidates and picks either the best one or the best non-overlapping set,
  by dynamic programming. It then removes the skipped measures and keeps a
  plan only if unrolling that plan gives back every original fingerprint.
  The main result is `RepeatInference.InferFoldPlan`. Whenever it returns a
  plan, unrolling the folded measures through `RepeatPlan.Unroll`
  reproduces the input exactly.
- **The docs alphaTex converter** (`docs/jsonToAlphaText.js`). It builds
  the header, the tempo map and the signature changes. It pads or trims
  each measure's beats to the time signature and resolves each duration to
  a power of two, possibly a tuplet. It formats notes, carries tied frets
  forward, and fingerprints measures for the engine. Finally it writes the
  repeat and volta marks for the folded measures.
- **The older converter** in `jsonToAlphaText.ts` and
  `public/jsonToAlphaText.js`. The two files hold the same code at
  different line numbers, so one module (`AlphaLegacy`) models both. It
  shares the duration and normalisation rules, but ties and note props work
  differently and it never folds repeats.
- **The Ruby alphaTex converter** (`json_to_alphatex.rb`). It has a greedy
  repeat detector, and it merges tied beats by summing their durations. It
  writes a duration or tuplet token only when the value changes. Each
  measure line carries its section, repeat, signature and tempo marks.
- **The two Ruby ASCII renderers** (`json_to_ascii_tab.rb`,
  `tab_from_json.rb`). A rest measure renders as dashes. Any other measure
  is padded and clipped to its signature, then laid out beat by beat on six
  string lines. The first renderer paints a token over dashes and draws `=`
  sustains for ties. The second appends the token plus dashes. Both draw
  tuplet, palm-mute and let-ring annotation lines over the same columns.
  They detect repeats, build display units and wrap them into lines.

Each algorithm that works with loops in the source is a `method` proved
against a specification function. Pure logic is a `function` with a named
result. The properties that relate several functions are lemmas. The model
keeps an array wherever the source fills or paints one by index:
- the fold engine marks skipped measures (`RepeatInference.MarkSkipped`),
  numbers the kept ones into an index map (`RepeatInference.NumberKept`) and
  folds with it (`RepeatInference.FoldAll`);
- the repeat selection fills its predecessor table
  (`RepeatSelection.ComputePrevIndex`) and its DP table
  (`RepeatSelection.BuildDp`);
- the tab renderer paints its annotation rails (`TabAnnotations.PaintRails`,
  `TabAnnotations.PmAnnotation`, `TabAnnotations.LetRingAnnotation`,
  `TabAnnotations.TupletAnnotation`, `TabAnnotations.PaintGroupAt`,
  `TabAnnotations.PaintTupletGroup`, `TabAnnotations.DrawRail`,
  `TabAnnotations.DrawText`).

Fractions are exact
integers, and the real values of fractions appear only in ghost reasoning.

The engine's code has five traits that a reader might not expect, and the
model follows the code in each:

- `findVoltas` does not reject two equal endings.
- Candidates whose score is not positive are not filtered out.
- `prevIndex` is a linear scan backwards.
- Single-repeat mode picks the candidate that `compareRepeat` orders first,
  not the one with the highest score.
- The `count < 2` guard in `findSimpleRepeats` can never fire.

## Model

| member | source | states |
|---|---|---|
| RepeatPlan.VoltaMap | docs/repeat_inference.js:57-61 | every key is the start of a volta in the list; every volta start is a key; the list's last volta is the entry at its own start |
| RepeatPlan.VoltaMapLastWins | docs/repeat_inference.js:57-61 | each key maps to the last volta in the list that starts there |
| RepeatPlan.SortedForward | docs/repeat_inference.js:51 | sorting the repeats by start keeps every repeat and volta well-formed (start ≤ end) |
| RepeatPlan.Unroll | docs/repeat_inference.js:44-86 | with no plan, or an empty plan, the unrolled order is the identity 0..measureCount-1 |
| RepeatPlan.PushRange | docs/repeat_inference.js:55 | appends exactly the integers lo..hi-1 |
| RepeatPlan.BuildVoltaMap | docs/repeat_inference.js:57-61 | the loop builds VoltaMap of the voltas |
| RepeatPlan.WalkPass | docs/repeat_inference.js:65-78 | one pass walks start..end; a volta's measures are played only on its allowed passes and are skipped otherwise |
| RepeatPlan.PlayRepeat | docs/repeat_inference.js:63-79 | appends all `times` passes of the repeat (2 when times is 0 or missing) |
| RepeatPlan.PlayFromCursor | docs/repeat_inference.js:54-81 | one iteration of the forEach keeps the output equal to the specification's walk |
| RepeatPlan.UnrollSorted | docs/repeat_inference.js:51-85 | the output is the walk over the sorted repeats from measure 0, including the tail |
| RepeatPlan.UnrollPlan | docs/repeat_inference.js:44-86 | `unrollPlan` returns exactly Unroll(plan, measureCount) |
| RepeatPlan.WalkWithoutVoltas | docs/repeat_inference.js:65-78 | without voltas a pass is the plain range start..end |
| RepeatPlan.PassesWithoutVoltas | docs/repeat_inference.js:64-79 | without voltas the passes are the body repeated times-pass+1 times |
| RepeatPlan.UnrollOneRepeat | docs/repeat_inference.js:44-86 | a one-repeat plan unrolls to the prefix, then the repeat's passes, then the suffix |
| RepeatPlan.UnrollRepeatWithoutVoltas | docs/repeat_inference.js:63-79 | a repeat without voltas plays its body EffectiveTimes times |
| RepeatPlan.UnrollSingleRepeat | docs/repeat_inference.js:44-86 | a simple repeat inside the score lengthens the output by (times-1)·len |
| RepeatCandidates.BuildCandidate | docs/repeat_inference.js:176-194 | every field as passed; constructs = 1 + number of voltas; score = 10·(expandedLen − printedLen) − constructs, positive when at least one measure is saved and there are at most 8 voltas |
| RepeatCandidates.SegmentsEqual | docs/repeat_inference.js:326-331 | true iff the two windows hold equal fingerprints |
| RepeatCandidates.SpanHasBoundary | docs/repeat_inference.js:333-338 | true iff some measure in start+1..end carries a boundary (marker or tempo) |
| RepeatCandidates.CountWindows | docs/repeat_inference.js:99-103 | count is the number of consecutive windows equal to the first (Windows.Copies), at least 2 because the second window matches |
| RepeatCandidates.TrySimple | docs/repeat_inference.js:95-120 | Some iff (start, len) qualifies: len is in range, two copies fit, the second copy matches, and no boundary lies inside the span of all copies; the candidate is then the simple repeat built from the copy count |
| RepeatCandidates.SimpleRepeatsAt | docs/repeat_inference.js:94-121 | the loop over lengths computes SimpleAt, the candidates of the qualifying lengths at this start |
| RepeatCandidates.FindSimpleRepeats | docs/repeat_inference.js:88-123 | computes SimpleRepeatsOf; every candidate is a simple repeat of a qualifying (start, len), and every qualifying (start, len) yields its candidate |
| RepeatCandidates.SimpleCandidateOfMeaning | docs/repeat_inference.js:104-117 | the candidate built for a qualifying (start, len) is a simple repeat: times is the copy count, the skip range covers the copies after the first, expanded and printed lengths are len·count and len |
| RepeatCandidates.SimpleAtMeaning | docs/repeat_inference.js:94-121 | the candidates at one start are exactly those of the qualifying lengths from len upward |
| RepeatCandidates.SimpleFromMeaning | docs/repeat_inference.js:93-122 | the candidates from start s on are exactly those of the qualifying pairs with a start at or after s |
| RepeatCandidates.SimpleRepeatsMeaning | docs/repeat_inference.js:88-123 | every listed candidate is a simple repeat of a qualifying pair, and every qualifying pair's candidate is listed |
| RepeatCandidates.TryVolta | docs/repeat_inference.js:134-167 | Some iff the volta qualifies: the prefix length and both ending lengths are in range, the whole span fits, no boundary lies inside it, and the second prefix equals the first; the candidate is then the one built from those lengths |
| RepeatCandidates.SecondEndings | docs/repeat_inference.js:133-167 | the loop over the second ending's length computes VoltaEndings2 from 1 |
| RepeatCandidates.FirstEndings | docs/repeat_inference.js:132-168 | the loop over the first ending's length computes VoltaEndings1 from 1 |
| RepeatCandidates.VoltasAt | docs/repeat_inference.js:131-169 | the loop over prefix lengths computes VoltaPrefixes from minPrefixLen |
| RepeatCandidates.FindVoltas | docs/repeat_inference.js:125-174 | computes VoltaRepeatsOf; every candidate is a volta repeat, and every qualifying (start, prefix, first ending, second ending) yields its candidate |
| RepeatCandidates.VoltaCandidateOfMeaning | docs/repeat_inference.js:140-166 | the candidate built for a qualifying volta has times 2, voltas for passes 1 and 2 at the two endings, and the second prefix as its skip range |
| RepeatCandidates.VoltaEndings2Meaning | docs/repeat_inference.js:133-167 | the candidates for one first ending are exactly those of the qualifying second endings from e2 upward |
| RepeatCandidates.VoltaEndings1Meaning | docs/repeat_inference.js:132-168 | the candidates for one prefix are exactly those of the qualifying ending pairs from e1 upward |
| RepeatCandidates.VoltaPrefixesMeaning | docs/repeat_inference.js:131-169 | the candidates at one start are exactly those of the qualifying prefixes from p upward |
| RepeatCandidates.VoltaFromMeaning | docs/repeat_inference.js:130-170 | the candidates from start s on are exactly those of the qualifying voltas starting at or after s |
| RepeatCandidates.VoltaRepeatsMeaning | docs/repeat_inference.js:125-174 | every listed candidate is a volta repeat, and every qualifying volta's candidate is listed |
| RepeatCandidates.SimpleScorePositive | docs/repeat_inference.js:104-117 | a simple candidate scores at least 9 |
| RepeatCandidates.VoltaScorePositive | docs/repeat_inference.js:152-166 | a volta candidate with minPrefixLen ≥ 1 scores at least 7 |
| RepeatSelection.CompareRepeatMeaning | docs/repeat_inference.js:264-269 | orders by start ascending, then longer repeatLen, then fewer constructs, then earlier spanEnd |
| RepeatSelection.CompareRepeatOrder | docs/repeat_inference.js:264-269 | compareRepeat is antisymmetric and transitive (a total preorder) |
| RepeatSelection.CompareRepeatListsAntisymmetric | docs/repeat_inference.js:255-262 | the list comparison flips sign when its arguments swap; 0 means equal length and equal keys at each position |
| RepeatSelection.BetterPlanSet | docs/repeat_inference.js:249-253 | returns one of its two arguments, and that one has the higher score |
| RepeatSelection.BetterPlanSetPreference | docs/repeat_inference.js:249-253 | on equal scores the set with fewer constructs wins; the choice is symmetric unless everything ties |
| RepeatSelection.BestIndex | docs/repeat_inference.js:199-205 | returns the first candidate that no other candidate orders before |
| RepeatSelection.ScanBack | docs/repeat_inference.js:212-220 | finds the last earlier candidate that ends before this one starts, or -1 when there is none |
| RepeatSelection.ComputePrevIndex | docs/repeat_inference.js:212-220 | prevIndex is PrevIndexOf: at each position, the last earlier candidate that ends before this one starts, or -1 |
| RepeatSelection.PrevIndexOfOk | docs/repeat_inference.js:212-220 | at every position PrevIndexOf holds the nearest earlier candidate that ends before this one starts, or -1 |
| RepeatSelection.ExtendOk | docs/repeat_inference.js:234-243 | adding a candidate that starts after the set's last end keeps the set non-overlapping and its score and constructs honest sums |
| RepeatSelection.IncludeOk | docs/repeat_inference.js:222-227 | the "take candidate i" plan set is honest and ends by candidate i's end |
| RepeatSelection.PrefixExtend | docs/repeat_inference.js:222-227 | a new dp entry keeps the table valid when its score is at least the previous entry's |
| RepeatSelection.ExcludeOk | docs/repeat_inference.js:222-227 | the "skip candidate i" entry (the previous dp entry) is valid at i |
| RepeatSelection.DpStepOk | docs/repeat_inference.js:222-227 | betterPlanSet of include and exclude extends a valid dp table |
| RepeatSelection.DpEntry | docs/repeat_inference.js:223-226 | the new entry is DpStep: the better of taking candidate i after its prevIndex entry and skipping it; the table stays valid |
| RepeatSelection.BuildDp | docs/repeat_inference.js:222-227 | every entry is DpStep of the entries before it (the table is DpTable); the table is valid and has one entry per candidate |
| RepeatSelection.DpTableRecurrence | docs/repeat_inference.js:222-227 | each entry of DpTable is DpStep of the entries before it |
| RepeatSelection.DpTableOk | docs/repeat_inference.js:222-227 | every DpTable is valid: entry k is a non-overlapping set of candidates that ends by candidate k's end, with honest sums and a score of at least 0, and the scores never drop |
| RepeatSelection.DpOptimal | docs/repeat_inference.js:222-227 | no non-overlapping choice among the first i+1 sorted candidates scores more than dp[i] |
| RepeatSelection.LiftSchedule | docs/repeat_inference.js:207-210 | a non-overlapping subset of the candidates is a choice of increasing positions in the sorted list |
| RepeatSelection.SelectionOptimal | docs/repeat_inference.js:196-232 | in multi mode no non-overlapping subset of the candidates scores more than the selection |
| RepeatSelection.SelectionMeaning | docs/repeat_inference.js:196-232 | every fact of SelectRepeatSet, for the specification SelectionOf |
| RepeatSelection.SelectRepeatSet | docs/repeat_inference.js:196-232 | computes SelectionOf; no candidates give no set; a chosen set is drawn from the candidates with honest score and construct sums; in multi mode it is non-overlapping, no non-overlapping subset scores more, and a positive candidate guarantees a set; in single mode it is the first minimum under compareRepeat |
| RepeatInference.InRangesMeaning | docs/repeat_inference.js:273-276 | a measure is in a skip list iff some range lo..hi covers it |
| RepeatInference.SkippedByMeaning | docs/repeat_inference.js:272-277 | a measure is skipped iff some selected candidate's skip ranges cover it |
| RepeatInference.MarkRange | docs/repeat_inference.js:275 | marks exactly lo..hi in the array and leaves every other cell as it was |
| RepeatInference.MarkRanges | docs/repeat_inference.js:274-276 | ORs every range of one candidate into the array |
| RepeatInference.MarkSkipped | docs/repeat_inference.js:272-277 | the new array equals SkipMask, i.e. skipped exactly where SkippedBy holds |
| RepeatInference.KeptBelowFacts | docs/repeat_inference.js:279-286 | the kept indices strictly increase, are in range and are exactly the unskipped measures |
| RepeatInference.RankMonotone | docs/repeat_inference.js:279-286 | an unskipped measure's rank is below every later rank |
| RepeatInference.RankLocates | docs/repeat_inference.js:279-286 | the folded index at an unskipped measure's rank is that measure |
| RepeatInference.NumberKept | docs/repeat_inference.js:279-286 | foldedIndices lists the kept measures in order; indexMap maps each kept measure to its rank and each skipped one to nothing |
| RepeatInference.FoldVoltas | docs/repeat_inference.js:293-297 | keeps the allowed passes and maps both ends through the index map |
| RepeatInference.FoldRepeat | docs/repeat_inference.js:288-305 | None iff the repeat's start or end measure was skipped; otherwise the folded start and end are their ranks |
| RepeatInference.FoldRepeats | docs/repeat_inference.js:288-305 | drops exactly the repeats that cannot be mapped |
| RepeatInference.FoldAll | docs/repeat_inference.js:288-305 | the loop computes FoldRepeats over the index map |
| RepeatInference.FoldVoltaForward | docs/repeat_inference.js:293-299 | folding keeps volta start ≤ end |
| RepeatInference.FoldForward | docs/repeat_inference.js:288-305 | a folded repeat is forward when its voltas are |
| RepeatInference.FoldRepeatsForward | docs/repeat_inference.js:288-305 | every folded repeat is forward |
| RepeatInference.BuildFoldedPlan | docs/repeat_inference.js:271-311 | returns FoldedPlanOf the selection: the kept indices and the folded repeats as a forward plan |
| RepeatInference.FoldedIndicesExact | docs/repeat_inference.js:279-286 | the folded indices increase, stay in range and skip exactly the skipped measures |
| RepeatInference.KeptIsFoundAtRank | docs/repeat_inference.js:279-286 | every kept measure sits in foldedIndices at its rank |
| RepeatInference.RankOfFolded | docs/repeat_inference.js:279-286 | the rank of foldedIndices[k] is k |
| RepeatInference.Gather | docs/repeat_inference.js:314 | element k is xs[indices[k]] |
| RepeatInference.Lookup | docs/repeat_inference.js:315-316 | like Gather, but an index out of range gives nothing (JavaScript's undefined) |
| RepeatInference.Present | docs/repeat_inference.js:317 | the fingerprints, each present |
| RepeatInference.ArraysEqual | docs/repeat_inference.js:340-346 | true iff the two sequences are equal |
| RepeatInference.ReplayMeaning | docs/repeat_inference.js:313-324 | the replay is the unrolled order looked up in the folded fingerprints |
| RepeatInference.VerifyPlan | docs/repeat_inference.js:313-324 | true iff replaying the folded plan gives back every original fingerprint |
| RepeatInference.IdentityReplays | docs/repeat_inference.js:26-39 | the identity fold (no plan) replays to the input |
| RepeatInference.SimpleWellPlaced | docs/repeat_inference.js:88-123 | a simple candidate lies inside the score and its skip range lies inside its span |
| RepeatInference.VoltaWellPlaced | docs/repeat_inference.js:125-174 | a volta candidate (minPrefixLen ≥ 1) lies inside the score, with skips inside its span |
| RepeatInference.SkippedOnlyByOwner | docs/repeat_inference.js:272-277 | in a non-overlapping selection, a measure inside one candidate's span is skipped only by that candidate's ranges |
| RepeatInference.SelectedInFrame | docs/repeat_inference.js:271-311 | a non-overlapping selection of well-placed candidates keeps the start and end of every repeat and volta unskipped |
| RepeatInference.GatherCandidates | docs/repeat_inference.js:21-23 | the simple candidates followed by the volta candidates (Candidates), each well placed |
| RepeatInference.InferFoldPlan | docs/repeat_inference.js:10-42 | the result is InferredFold: the fold of the selection when there is one and it replays, otherwise the identity; foldedIndices are in range and strictly increasing; the plan is forward; unrolling the folded measures reproduces every fingerprint |
| Sorting.InsertPermutes | docs/repeat_inference.js:51 | inserting adds exactly one element |
| Sorting.InsertSorted | docs/repeat_inference.js:51 | inserting into a sorted list keeps it sorted |
| Sorting.SortBy | docs/repeat_inference.js:207-210 | the result is a permutation of the input and sorted by the key |
| Sorting.SortSingleton | docs/jsonToAlphaText.js:277-284 | sorting one element leaves it unchanged |
| AlphaText.EscapeTextIsOnePass | docs/jsonToAlphaText.js:134-136 | the two `replace` calls equal one pass that escapes each backslash and each quote |
| AlphaText.ReplaceAllAppend | docs/jsonToAlphaText.js:134-136 | a global replace distributes over concatenation |
| AlphaText.EscapeTextRoundTrip | docs/jsonToAlphaText.js:134-136 | unescaping the escaped text gives back the text |
| AlphaText.EscapedQuotesArePrefixed | docs/jsonToAlphaText.js:134-136 | every quote in the output is preceded by a backslash |
| AlphaText.JsRem | docs/jsonToAlphaText.js:150 | JavaScript `%`: strictly between -b and b, equal to Euclidean `%` for non-negative a |
| AlphaText.MidiToNote | docs/jsonToAlphaText.js:145-153 | an error exactly when the MIDI value is missing |
| AlphaText.NamesReadBack | docs/jsonToAlphaText.js:149 | each of the twelve names reads back to its pitch class |
| AlphaText.SplitNote | docs/jsonToAlphaText.js:145-153 | a note text splits back into its name and its octave digits |
| AlphaText.NoteToMidiOf | docs/jsonToAlphaText.js:145-153 | name plus octave reads back as 12·(octave+1)+pitch class |
| AlphaText.MidiToNoteRoundTrip | docs/jsonToAlphaText.js:145-153 | for m ≥ 0 (or a multiple of 12) the note name reads back to m |
| AlphaText.MidiToNoteName | docs/jsonToAlphaText.js:145-153 | the name is NOTE_NAMES[m % 12] plus the floored octave; a negative non-multiple of 12 gives "undefined" plus the octave |
| AlphaText.NoteNames | docs/jsonToAlphaText.js:138-143 | Ok iff every entry is present; each name is MidiToNote of its entry |
| AlphaText.FormatTuning | docs/jsonToAlphaText.js:138-143 | a missing tuning, or one without six entries, is skipped and succeeds; six entries fail iff one is missing |
| AlphaText.BuildTempoMap | docs/jsonToAlphaText.js:155-171 | no tempo list gives the empty map; otherwise the map is TempoMapOf the entries |
| AlphaText.TempoMapFirstWins | docs/jsonToAlphaText.js:155-171 | a measure is a key iff some eligible entry names it; its bpm is the first eligible entry's |
| AlphaText.ValidateSignature | docs/jsonToAlphaText.js:286-291 | Ok iff both entries are positive integers, and then it returns them |
| Durations.PowerOfTwoDurationMeaning | docs/jsonToAlphaText.js:2 | a valid duration is exactly 2^k for k in 0..8 (1 to 256) |
| Durations.BaseDurationFromDottedFraction | docs/jsonToAlphaText.js:419-429 | a result is a valid duration, and numerator/denominator is that duration with one dot (3/2d) or two dots (7/4d) |
| Durations.FirstTuplet | docs/jsonToAlphaText.js:409-414 | a result's tuplet is one of the candidates, it divides 2d exactly, and 2d/tuplet is a valid duration |
| Durations.ResolveDuration | docs/jsonToAlphaText.js:377-417 | a non-positive or missing pair is an error; an Ok duration is a power of two |
| Durations.ResolveDurationRules | docs/jsonToAlphaText.js:377-417 | 1/d with a valid d and no tuplet resolves to d; an explicit tuplet and the dotted rules apply in source order |
| Durations.ResolvedValueMatches | docs/jsonToAlphaText.js:377-417 | an Ok result is a plain 1/d, a dotted fraction, or a tuplet of the written value |
| Fractions.Gcd | docs/jsonToAlphaText.js:517-526 | the loop returns the greatest common divisor of |a| and |b| (1 when both are 0): at least 1, a common divisor, and greater than every other |
| Fractions.GcdIsCommonDivisor | docs/jsonToAlphaText.js:517-526 | gcd ≥ 1 and divides both arguments |
| Fractions.GcdIsGreatest | docs/jsonToAlphaText.js:517-526 | every common divisor divides the gcd and is at most the gcd |
| Fractions.ReduceSameValue | docs/jsonToAlphaText.js:498-501 | reducing keeps the value and a positive denominator |
| Fractions.ReduceCoprime | docs/jsonToAlphaText.js:498-501 | a reduced fraction has coprime numerator and denominator |
| Fractions.ReduceIdempotent | docs/jsonToAlphaText.js:498-501 | reducing twice equals reducing once |
| Fractions.AddExact | docs/jsonToAlphaText.js:503-505 | the sum has the value of the cross-multiplied sum |
| Fractions.SubExact | docs/jsonToAlphaText.js:507-509 | the difference has the value of the cross-multiplied difference |
| Fractions.CompareRespectsValue | docs/jsonToAlphaText.js:511-515 | comparison depends only on the value of the fractions |
| Fractions.CompareFlip | docs/jsonToAlphaText.js:511-515 | swapping the arguments negates the result; 0 iff the values are equal |
| Fractions.ValOfCompare | docs/jsonToAlphaText.js:511-515 | the comparison's sign is the sign of the real difference |
| Fractions.ValOfAdd | docs/jsonToAlphaText.js:503-505 | the value of the sum is the sum of the values |
| Fractions.ValOfSub | docs/jsonToAlphaText.js:507-509 | the value of the difference is the difference of the values |
| Fractions.RubyRational | json_to_ascii_tab.rb:41-44 | `Rational(a, b)`: an error iff b is 0, otherwise the same value with a positive denominator |
| Fractions.ValOfLe | json_to_ascii_tab.rb:216-217 | the Rational `<=` is the real order |
| Normalize.BeatDuration | docs/jsonToAlphaText.js:344-350 | Ok iff both duration entries are positive integers; the value is n/d |
| Normalize.TotalLengthAppend | docs/jsonToAlphaText.js:303-316 | the total length of a concatenation is the sum of the totals |
| Normalize.TotalLengthStep | docs/jsonToAlphaText.js:303-316 | adding one timed beat adds its value |
| Normalize.RestsLength | docs/jsonToAlphaText.js:326-333 | k rests of 1/den last k/den |
| Normalize.BuildRestBeats | docs/jsonToAlphaText.js:326-333 | the loop builds num rests of 1/den |
| Normalize.SplitRestDuration | docs/jsonToAlphaText.js:335-342 | n rests of 1/d; none when n ≤ 0 |
| Normalize.SplitRestLength | docs/jsonToAlphaText.js:335-342 | a positive remainder splits into rests that add up to it |
| Normalize.Fit | docs/jsonToAlphaText.js:305-315 | the fitting prefix index stays within the beats |
| Normalize.FitFacts | docs/jsonToAlphaText.js:303-316 | the prefix kept is the longest that fits the measure, its total is accumulated exactly, and a bad duration stops with an error |
| Normalize.TopUp | docs/jsonToAlphaText.js:317-321 | the kept prefix plus the rest filler equals the specification's completion |
| Normalize.NormalizeBeats | docs/jsonToAlphaText.js:293-324 | the method computes Normalized |
| Normalize.NormalizedFillsMeasure | docs/jsonToAlphaText.js:293-324 | a normalised measure lasts exactly num/den |
| Normalize.NormalizedShape | docs/jsonToAlphaText.js:293-324 | a rest measure becomes num rests of 1/den; any other measure becomes its longest fitting prefix followed by uniform rests |
| Normalize.NormalizedFailsOnlyOnBadDuration | docs/jsonToAlphaText.js:293-324 | normalising fails only when some written beat has a bad duration, and succeeds when all are timed |
| Text.NatToString | docs/jsonToAlphaText.js:485 | the decimal text is non-empty and all digits |
| Text.ParseNatToString | docs/jsonToAlphaText.js:485 | the decimal text reads back to the number |
| Text.IntToString | docs/jsonToAlphaText.js:485 | a leading minus iff the number is negative |
| Text.IntToStringRoundTrip | docs/jsonToAlphaText.js:485 | the text of an integer reads back to it |
| Text.Join | docs/jsonToAlphaText.js:117 | joining no parts gives "" and joining one part gives that part |
| Text.RepeatChar | json_to_ascii_tab.rb:195 | `c * n`: n copies of c (none for n < 0) |
| Score.RestBeat | docs/jsonToAlphaText.js:330 | a rest beat with duration 1/den and no notes |
| AlphaBeats.ActiveNotes | docs/jsonToAlphaText.js:437 | exactly the notes that are not rests |
| AlphaBeats.IndexByString | docs/jsonToAlphaText.js:442-451 | a result's entries have valid string indices |
| AlphaBeats.IndexByStringMeaning | docs/jsonToAlphaText.js:442-451 | Ok iff every active note has a distinct string index in 0..5; then one entry per note, in order |
| AlphaBeats.IndexNotes | docs/jsonToAlphaText.js:442-451 | the loop computes IndexByString |
| AlphaBeats.NoteValue | docs/jsonToAlphaText.js:479-486 | an effective tie with a previous fret prints that fret; a dead note prints x; otherwise Ok iff the fret is a non-negative integer |
| AlphaBeats.FretsAfter | docs/jsonToAlphaText.js:454-467 | six carried frets after the beat |
| AlphaBeats.FretsAfterMeaning | docs/jsonToAlphaText.js:454-467 | a string played in the beat carries its new fret; every other string keeps its old fret |
| AlphaBeats.BeatContent | docs/jsonToAlphaText.js:431-477 | the carried frets stay well formed |
| AlphaBeats.FormatBeatContent | docs/jsonToAlphaText.js:431-477 | the method computes BeatContent |
| AlphaBeats.RenderNotes | docs/jsonToAlphaText.js:453-470 | the note loop computes RenderEntries, including its first error |
| AlphaBeats.BeatContentEmpty | docs/jsonToAlphaText.js:432-440 | a rest beat prints r and resets the carry; a beat of rest notes prints r and leaves the carry undefined |
| AlphaBeats.BeatContentStringErrors | docs/jsonToAlphaText.js:443-461 | a duplicate or invalid string index, or an undefined carry, makes the beat fail |
| AlphaBeats.SortedEntriesIncrease | docs/jsonToAlphaText.js:453 | after sorting, the string indices strictly increase |
| AlphaBeats.BeatTokenOf | docs/jsonToAlphaText.js:352-375 | the next carry is well formed |
| AlphaBeats.FormatBeat | docs/jsonToAlphaText.js:352-375 | the method computes BeatTokenOf |
| AlphaBeats.BeatTokenOutcome | docs/jsonToAlphaText.js:352-375 | the beat succeeds iff its duration resolves and its content formats; the token is content, duration and props |
| AlphaBeats.BeatPropsMeaning | docs/jsonToAlphaText.js:353-365 | tempo, pm, d, dd and tu appear exactly under their conditions |
| AlphaBeats.UndefinedCarryFails | docs/jsonToAlphaText.js:436-461 | after a beat of only rest notes, any note played in the next non-rest beat makes the conversion fail |
| AlphaBeats.RestBeatResetsCarry | docs/jsonToAlphaText.js:432-434 | a rest beat always succeeds and resets the carried frets |
| AlphaBeats.BeatTokenStartsPlain | docs/jsonToAlphaText.js:352-375 | a beat token never starts with a backslash, so it cannot be taken for a meta token |
| AlphaMeasures.SignatureAfter | docs/jsonToAlphaText.js:44-51 | no signature keeps the current one unmarked; a given one must validate, and it is marked changed iff it differs |
| AlphaMeasures.BeatRun | docs/jsonToAlphaText.js:60-66 | one token per beat; the carry stays well formed |
| AlphaMeasures.FormatMeasureBeats | docs/jsonToAlphaText.js:60-66 | the loop computes BeatRun, tempo on the first beat only |
| AlphaMeasures.MeasureStep | docs/jsonToAlphaText.js:42-79 | the running signature is the measure's and positive, as SignatureAfter gives it; the tokens are LeadTokens (as written, `\ts` when the signature changed; mended, nothing) followed by one token per beat |
| AlphaMeasures.MeasuresRun | docs/jsonToAlphaText.js:42-79 | one info per measure, each with a positive signature; the reading decides whether `\ts` leads the tokens |
| AlphaMeasures.CollectMeasures | docs/jsonToAlphaText.js:42-79 | the loop computes MeasuresRun for the given reading and stops at its first error |
| AlphaMeasures.MeasuresRunSignatures | docs/jsonToAlphaText.js:44-51 | each measure's signature and flag follow from the previous measure's signature (4/4 at the start) |
| AlphaMeasures.UnchangedSignatureNotMarked | docs/jsonToAlphaText.js:44-51 | repeating the current signature is not a change |
| AlphaMeasures.MeasuresRunStartsPlain | docs/jsonToAlphaText.js:42-79 | every measure's tokens are its lead tokens followed by tokens that never start with a backslash |
| AlphaMeasures.BuildBoundaryIds | docs/jsonToAlphaText.js:198-207 | the tags are BoundaryIds: measure i is a boundary iff i ≥ 1 and it changes signature, has a marker, or has a tempo entry |
| AlphaMeasures.CanonicalNotes | docs/jsonToAlphaText.js:232-243 | the canonical form of each note, in order |
| AlphaMeasures.CanonicalBeats | docs/jsonToAlphaText.js:219-230 | the canonical form of each beat, in order; as written without the dot count, mended with it |
| AlphaMeasures.Fingerprints | docs/jsonToAlphaText.js:209-217 | one fingerprint per measure, in order, for the given reading |
| AlphaMeasures.CanonicalNotesInjective | docs/jsonToAlphaText.js:232-243 | equal canonical notes are equal notes |
| AlphaMeasures.EqualCanonicalBeatsRenderAlike | docs/jsonToAlphaText.js:219-230 | corrected: beats with equal mended canonical forms print the same token |
| AlphaMeasures.EqualFingerprintsRenderAlike | docs/jsonToAlphaText.js:209-230 | corrected: measures with equal mended fingerprints have the same signature and beats and print the same tokens |
| AlphaMeasures.AbsentAndZeroTupletFingerprintApart | docs/jsonToAlphaText.js:219-230 | a beat without a tuplet and the same beat with `"tuplet": 0` get different canonical forms, yet resolve to the same duration (lines 387-402 test the field's truthiness) |
| AlphaMeasures.EqualFingerprintsAgreeButDots | docs/jsonToAlphaText.js:209-230 | as written: equal fingerprints still mean the same signature and beats equal in every field but the dot count |
| AlphaMeasures.DotsInvisibleAsWritten | docs/jsonToAlphaText.js:219-230 | as written, a plain and a dotted quarter rest share a canonical beat but print differently |
| AlphaDocument.LastWinsMeaning | docs/jsonToAlphaText.js:257-275 | a key is present iff some pair has it; its value comes from the last such pair |
| AlphaDocument.BuildRepeatMeta | docs/jsonToAlphaText.js:257-275 | the loops compute PlanMeta of the plan |
| AlphaDocument.SetVoltaStarts | docs/jsonToAlphaText.js:269-271 | the inner loop extends the volta map, the last write winning |
| AlphaDocument.RepeatMetaMeaning | docs/jsonToAlphaText.js:257-275 | the starts are the repeat starts, the ends are the repeat ends with the last repeat's count, and the volta starts map to their passes |
| AlphaDocument.RepeatsClosedWithTheirCount | docs/jsonToAlphaText.js:257-275 | with distinct ends, each repeat opens at its start and closes with its own count |
| AlphaDocument.FormatVoltaOrderFree | docs/jsonToAlphaText.js:277-284 | the volta mark depends only on the multiset of passes |
| AlphaDocument.FormatVoltaSingle | docs/jsonToAlphaText.js:277-284 | no passes print `\ae 1`; one pass prints `\ae p` |
| AlphaDocument.FormatVoltaListed | docs/jsonToAlphaText.js:277-284 | two or more passes print `\ae (…)` with the passes in ascending order |
| AlphaDocument.EmitMeasures | docs/jsonToAlphaText.js:91-118 | the loop computes OutputLines: for each kept measure its marker comment, then the marks and its tokens (which, as written, already hold `\ts`) |
| AlphaDocument.OutputLinesKeepEveryMeasure | docs/jsonToAlphaText.js:91-118 | every folded measure's line is in the output |
| AlphaDocument.TsWrittenOnce | docs/jsonToAlphaText.js:107-109 | corrected: with mended tokens the line carries `\ts` exactly once when the signature changed, else never |
| AlphaDocument.TsWrittenTwiceAsWritten | docs/jsonToAlphaText.js:56-116 | as written: a changed signature puts `\ts` on the measure's line exactly twice |
| AlphaDocument.HeaderLines | docs/jsonToAlphaText.js:20-34 | the header succeeds iff the tuning formats |
| AlphaDocument.HeaderTitleReadsBack | docs/jsonToAlphaText.js:23 | the title line is `\title "…"` and unescapes back to the title |
| AlphaDocument.InferRepeats | docs/jsonToAlphaText.js:173-196 | disabled inference gives the identity; enabled, the fold is InferredFold of the fingerprints (as written or mended), the boundary tags and the options; the folded indices are in range and the plan replays every fingerprint |
| AlphaDocument.JsonToAlphaText | docs/jsonToAlphaText.js:18-121 | Ok iff the score converts; a missing measures array and a header error give their errors; the output is the header plus the folded lines, the fold is the identity when disabled and InferredFold otherwise, and it replays; AsWritten reproduces the code line by line |
| AlphaLegacy.NoteValue | public/jsonToAlphaText.js:301-308 | an effective tie prints -, a dead note x, and otherwise Ok iff the fret is a non-negative integer |
| AlphaLegacy.PlayedAfter | jsonToAlphaText.ts:357-359 | which of the six strings were played |
| AlphaLegacy.PlayedAfterMeaning | jsonToAlphaText.ts:357-359 | a string is marked iff some entry names it |
| AlphaLegacy.BeatContent | public/jsonToAlphaText.js:258-299 | the next played-strings record has six entries |
| AlphaLegacy.RenderNotes | jsonToAlphaText.ts:356-368 | the note loop computes RenderEntries, including its first error |
| AlphaLegacy.FormatBeatContent | jsonToAlphaText.ts:330-375 | the method computes BeatContent |
| AlphaLegacy.BeatContentMarksPlayed | jsonToAlphaText.ts:330-375 | after a non-rest beat, a string is marked iff an active note is on it |
| AlphaLegacy.EntriesNameActiveStrings | jsonToAlphaText.ts:345-354 | the entries name exactly the active notes' strings |
| AlphaLegacy.SortedKeepsStrings | jsonToAlphaText.ts:356 | sorting keeps the set of strings |
| AlphaLegacy.BeatContentEdges | jsonToAlphaText.ts:335-343 | a rest beat prints r and clears the record; a beat of rest notes prints r |
| AlphaLegacy.NotePropsFlags | public/jsonToAlphaText.js:310-317 | g, h, pm and lr appear exactly for ghost, hammer/pull, palm mute and let ring |
| AlphaLegacy.NotePropsOrder | jsonToAlphaText.ts:386-393 | the props come in the fixed order g, h, pm, lr |
| AlphaLegacy.TiedNoteToken | jsonToAlphaText.ts:360-367 | a tie after a played note prints `-.s`; without one the fret is printed |
| AlphaLegacy.BeatTokenOf | jsonToAlphaText.ts:247-274 | the next record has six entries |
| AlphaLegacy.FormatBeat | public/jsonToAlphaText.js:180-202 | the method computes BeatTokenOf |
| AlphaLegacy.BeatPropsMeaning | jsonToAlphaText.ts:253-264 | never pm (that is a note prop here); d, dd, tuplet and tempo exactly under their conditions |
| AlphaLegacy.BeatTokenStartsPlain | jsonToAlphaText.ts:247-274 | a beat token never starts with a backslash |
| AlphaLegacy.BeatRun | jsonToAlphaText.ts:111-117 | one token per beat |
| AlphaLegacy.FormatMeasureBeats | jsonToAlphaText.ts:111-117 | the loop computes BeatRun |
| AlphaLegacy.MeasureStep | jsonToAlphaText.ts:89-121 | the running state stays valid |
| AlphaLegacy.LinesRun | jsonToAlphaText.ts:89-121 | the running state stays valid over all measures |
| AlphaLegacy.EmitMeasures | jsonToAlphaText.ts:89-121 | the loop computes LinesRun and stops at its first error |
| AlphaLegacy.TsOnlyOnChange | jsonToAlphaText.ts:107-109 | a measure line starts with `\ts` iff its signature changed |
| AlphaLegacy.LinesRunCount | jsonToAlphaText.ts:100-119 | one line per measure plus one per marker |
| AlphaLegacy.JsonToAlphaText | public/jsonToAlphaText.js:5-62 | a missing measures array is an error; otherwise Ok iff the header and every measure format; the output is header plus lines |
| RubyAlphaTex.MidiToNoteName | json_to_alphatex.rb:15-20 | the name reads back to the MIDI number (Ruby's floored division and modulo) |
| RubyAlphaTex.Escape | json_to_alphatex.rb:22-24 | unescaping the quotes gives back the text; the output never starts with a bare quote |
| RubyAlphaTex.RationalFromFraction | json_to_alphatex.rb:26-29 | Ok iff the pair is missing, empty or has a non-zero denominator; the value is a/b |
| RubyAlphaTex.FloorDiv | json_to_alphatex.rb:42-52 | Ruby's integer division, rounding toward negative infinity |
| RubyAlphaTex.DurationDenominator | json_to_alphatex.rb:42-52 | an explicit type wins; otherwise a pair with a non-zero numerator gives the floored d/n |
| RubyAlphaTex.UnitFractionDenominator | json_to_alphatex.rb:42-52 | a duration 1/d gives d |
| RubyAlphaTex.FormatNote | json_to_alphatex.rb:223-251 | nothing iff the note is a rest |
| RubyAlphaTex.NoteBaseReadsBack | json_to_alphatex.rb:223-251 | the note's base text reads back to its fret (or x) and its string |
| RubyAlphaTex.ValueTextReadsBack | json_to_alphatex.rb:223-251 | the value text has no dot and reads back |
| RubyAlphaTex.NotePropsMeaning | json_to_alphatex.rb:241-250 | for an untied note, g, x, h, ss, pm and lr appear exactly under their flags, and t never does |
| RubyAlphaTex.PropsMembership | json_to_alphatex.rb:241-250 | a prop is in the list iff its flag is set |
| RubyAlphaTex.TiedNoteIsDash | json_to_alphatex.rb:226-231 | a tied note prints `-.s` (or `-` without a string) |
| RubyAlphaTex.NonRestMeaning | json_to_alphatex.rb:269-272 | the kept notes are input notes that are not rests |
| RubyAlphaTex.BeatPropsMeaning | json_to_alphatex.rb:201-221 | d and dd follow the dots; a tuplet prop appears only when emitted; at most two props |
| RubyAlphaTex.BeatsRun | json_to_alphatex.rb:167-199 | one text per beat |
| RubyAlphaTex.FormatBeats | json_to_alphatex.rb:167-199 | the loop computes the joined beat texts |
| RubyAlphaTex.BeatsRunTracks | json_to_alphatex.rb:167-199 | the running denominator and tuplet are those of the last beats |
| RubyAlphaTex.BeatsRunTextsPrefix | json_to_alphatex.rb:167-199 | a beat's text depends only on the beats before it |
| RubyAlphaTex.FormatBeatStart | json_to_alphatex.rb:201-221 | a beat text never starts with a space, a colon or a backslash |
| RubyAlphaTex.BeatTextStart | json_to_alphatex.rb:176-186 | the text starts with `:` iff the beat's denominator is known and differs from the current one |
| RubyAlphaTex.DenomTokenOnChange | json_to_alphatex.rb:171-184 | in a run, beat i starts with `:d` iff its denominator differs from the last known one |
| RubyAlphaTex.TupletAnnouncedOnChange | json_to_alphatex.rb:289-294 | a tuplet is announced iff the beat has one and it starts a group, is first, or differs from the one before |
| RubyAlphaTex.MergeStep | json_to_alphatex.rb:255-265 | the merged list grows by at most one and is never empty |
| RubyAlphaTex.MergeRun | json_to_alphatex.rb:253-267 | no longer than the input, and empty iff the input is |
| RubyAlphaTex.MergeTiedBeats | json_to_alphatex.rb:253-267 | the loop computes MergeRun |
| RubyAlphaTex.MergeBeat | json_to_alphatex.rb:255-265 | one iteration computes MergeStep |
| RubyAlphaTex.MergeErrPersists | json_to_alphatex.rb:253-267 | an error on a prefix is the result for the whole list |
| RubyAlphaTex.CanMergeIgnoresDuration | json_to_alphatex.rb:274-287 | whether two beats merge does not depend on the first one's duration |
| RubyAlphaTex.MergeLeavesNoPair | json_to_alphatex.rb:253-267 | after merging, no two neighbours can be merged |
| RubyAlphaTex.MergeKeepsUnmergeable | json_to_alphatex.rb:253-267 | a list without a mergeable pair is unchanged |
| RubyAlphaTex.MergeIdempotent | json_to_alphatex.rb:253-267 | merging twice equals merging once |
| RubyAlphaTex.MergedDurationValue | json_to_alphatex.rb:258-261 | the merged duration is the sum of the two durations |
| RubyAlphaTex.MergeKeepsTotal | json_to_alphatex.rb:253-267 | merging keeps the total duration of the beats |
| RubyAlphaTex.MergeStepTotal | json_to_alphatex.rb:255-265 | one merge step adds exactly the new beat's duration |
| RubyAlphaTex.UnitSignature | json_to_alphatex.rb:95-98 | a valid signature replaces the current one; otherwise the current one stays; the result is always valid |
| RubyAlphaTex.CollectTempos | json_to_alphatex.rb:139-151 | the loop computes TemposOf |
| RubyAlphaTex.TemposOfMeaning | json_to_alphatex.rb:139-151 | a measure's list is the bpm of every kept entry for it, in input order |
| RubyAlphaTex.Strip | json_to_alphatex.rb:164 | stripping never lengthens |
| RubyAlphaTex.StripKeeps | json_to_alphatex.rb:160-164 | stripping the padded line keeps the content and the bar |
| RubyAlphaTex.MeasureLineShape | json_to_alphatex.rb:153-165 | the line is the meta tokens, then the beats, then ` \|` |
| RubyAlphaTex.MetaStartsWithBackslash | json_to_alphatex.rb:100-107 | every meta token starts with a backslash |
| RubyAlphaTex.CanonicalFrom | json_to_alphatex.rb:297-337 | one canonical entry per measure |
| RubyAlphaTex.CanonIgnoresDots | json_to_alphatex.rb:297-337 | the canonical form ignores dots and the duration type, yet a dot changes the printed beat |
| RubyAlphaTex.NormalizedTuning | json_to_alphatex.rb:122-129 | six numbers are kept; anything else falls back to standard tuning |
| RubyAlphaTex.TuningNames | json_to_alphatex.rb:131-133 | six names, each reading back to its tuning pitch |
| RubyAlphaTex.QuotedReadsBack | json_to_alphatex.rb:68-82 | a quoted header field reads back to its text |
| RubyAlphaTex.HeaderShape | json_to_alphatex.rb:68-82 | the header has one line per present title and instrument field plus the fixed lines |
| RubyAlphaTex.UnitOutput | json_to_alphatex.rb:91-110 | only merging the beats can fail; the signature left current is valid, and kept when the measure has none; the lines are the marker comment and then, when the voice has beats, one line ending in ` |` that opens with a meta token for the first unit |
| RubyAlphaTex.UnitLineFacts | json_to_alphatex.rb:91-110 | a unit's measure line exists iff its voice has beats, ends in ` |`, and opens with a meta token when the signature is stated |
| RubyAlphaTex.CanonNoteOf | json_to_alphatex.rb:320-329 | the canonical note reads the same fret as the note, and a missing fret becomes `null` |
| RubyAlphaTex.UnitsRunSignatureValid | json_to_alphatex.rb:95-98 | the running signature stays valid |
| RubyAlphaTex.UnitsOf | json_to_alphatex.rb:86-88 | every unit names a measure of the score |
| RubyAlphaTex.BuildMeasureLine | json_to_alphatex.rb:153-165 | the method computes MeasureLine |
| RubyAlphaTex.RepeatUnits | json_to_alphatex.rb:86-88 | the method computes UnitsOf |
| RubyAlphaTex.UnitLines | json_to_alphatex.rb:90-111 | the loop computes UnitLinesOf for the given tempo keying (ByUnitIndex as written) |
| RubyAlphaTex.ToAlphaTex | json_to_alphatex.rb:65-114 | the conversion computes AlphaTexOf for the given tempo keying; ByUnitIndex looks tempos up by the unit's position, as written |
| RubyAlphaTex.MetaTempoTokens | json_to_alphatex.rb:100-107 | the only tempo tokens of a unit's meta are the tempo line of its bpms |
| RubyAlphaTex.TemposFollowMeasure | json_to_alphatex.rb:105 | corrected (ByMeasureIndex): a unit's tempo tokens are its own measure's tempo entries |
| RubyAlphaTex.TempoByUnitIndexIsLost | json_to_alphatex.rb:105 | as written (ByUnitIndex): after a folded repeat, a tempo at measure 2 is not emitted |
| Windows.CountFrom | json_to_alphatex.rb:347-350 | the count only grows and stays within the score |
| Windows.CountFromMeaning | json_to_alphatex.rb:347-350 | every counted copy equals the first window, and the next one is missing or differs |
| Windows.CopiesMeaning | json_to_alphatex.rb:347-351 | at least one copy; every copy matches; the next one does not |
| RubyRepeats.CountCopies | json_to_alphatex.rb:347-350 | the loop computes Copies |
| RubyRepeats.LongestFromMeaning | json_to_alphatex.rb:343-354 | the block found starts at i and is the longest window of at most `top` measures with two or more copies; none is found only when no such window repeats |
| RubyRepeats.FindBlockBreaking | json_to_alphatex.rb:343-354 | the loop with `break if i + len > n` computes BlockAt |
| RubyRepeats.FindBlockClamped | json_to_ascii_tab.rb:449-459 | the loop with lengths clamped to n-i computes BlockAt |
| RubyRepeats.BlockAtAdvances | json_to_ascii_tab.rb:461-466 | a found block starts at i, has two or more copies and ends inside the score |
| RubyRepeats.BlockAtGood | json_to_ascii_tab.rb:449-466 | a found block is a real repeat no longer than max_len |
| RubyRepeats.DetectRepeatsBreaking | json_to_alphatex.rb:339-364 | the outer loop computes DetectFrom with the breaking rule |
| RubyRepeats.DetectRepeatsClamped | json_to_ascii_tab.rb:443-470 | the outer loop computes DetectFrom with the clamping rule (tab_from_json.rb:388-415 is identical) |
| RubyRepeats.DetectOrdered | json_to_ascii_tab.rb:443-470 | the blocks are in order and do not overlap |
| RubyRepeats.DetectGood | json_to_ascii_tab.rb:443-470 | every detected block is a real repeat |
| RubyRepeats.DetectLayout | json_to_ascii_tab.rb:443-470 | the blocks and the single measures between them tile the score |
| RubyRepeats.DetectBlocksAreFound | json_to_ascii_tab.rb:443-470 | each detected block is the one the search finds at its start |
| RubyRepeats.NoBlockNearTheEnd | json_to_alphatex.rb:344-345 | with the breaking rule, no block starts within max_len of the end |
| RubyRepeats.ShortTailIsMissed | json_to_alphatex.rb:344-345 | two equal measures: the breaking rule finds nothing, the clamping rule finds the repeat |
| RubyRepeats.BlockIndex | json_to_ascii_tab.rb:473-474 | each key maps to the block that starts there |
| RubyRepeats.BlockUnits | json_to_ascii_tab.rb:481-488 | a block contributes one unit per measure of its body |
| RubyRepeats.AppendBlockUnits | json_to_ascii_tab.rb:481-488 | the loop appends BlockUnits |
| RubyRepeats.BuildUnits | json_to_ascii_tab.rb:472-496 | the walk computes UnitsFrom |
| RubyRepeats.UnitsCount | json_to_ascii_tab.rb:472-496 | the unit count is the measures left minus those saved by folding |
| RubyRepeats.UnitsTotal | json_to_ascii_tab.rb:472-496 | there are n - saved units for the detected blocks |
| RubyRepeats.BlockUnitsShape | json_to_ascii_tab.rb:481-488 | block units lie inside the body, and only the last closes the repeat |
| RubyRepeats.UnitsShape | json_to_ascii_tab.rb:472-496 | every unit's measure is in range, and each repeat end is the last measure of its block's body |
| RubyRepeats.ChunkUnits | json_to_ascii_tab.rb:90-101 | the loop computes Chunks |
| RubyRepeats.ChunkStateMeaning | json_to_ascii_tab.rb:90-101 | the closed chunks plus the open one are the units; each closed chunk is full or ends at a repeat end |
| RubyRepeats.ChunksMeaning | json_to_ascii_tab.rb:90-104 | flattening the chunks gives back the units, and every chunk is well formed |
| TabUtil.CenterText | json_to_ascii_tab.rb:66-72 | exactly width characters; long text is cut; short text is centred (the extra space goes right) |
| TabUtil.DurationToCols | json_to_ascii_tab.rb:51-53 | the integer part of 48·value, truncated toward zero |
| TabUtil.DurationToColsRespectsValue | json_to_ascii_tab.rb:51-53 | equal values give equal column counts |
| TabUtil.MeasureTotal | json_to_ascii_tab.rb:46-49 | an error iff the denominator is 0; the value is num/den |
| TabUtil.StringNames | json_to_ascii_tab.rb:511-513 | six names, each with the tuning's pitch class |
| TabUtil.NoteTokenReadsBack | json_to_ascii_tab.rb:435-441 | the token reads back to dead, the fret (0 for a missing key, empty for a `null` one), ghost, tie and shift slide; it is never `-` |
| TabUtil.NullFretToken | json_to_ascii_tab.rb:435-441 | a `null` fret prints nothing, so the token is only its marks, and it is still not `-`, so it is painted |
| TabUtil.PlaceNotes | json_to_ascii_tab.rb:305-314 | six cells |
| TabUtil.BeatCells | json_to_ascii_tab.rb:299-315 | six cells |
| TabUtil.TokensForBeat | json_to_ascii_tab.rb:299-315 | the method computes BeatCells |
| TabUtil.PlaceNotesEmpty | json_to_ascii_tab.rb:305-314 | a string no note is on stays empty |
| TabUtil.PlaceNotesLast | json_to_ascii_tab.rb:305-314 | the last note on a string decides its cell |
| TabUtil.BeatCellsMeaning | json_to_ascii_tab.rb:299-315 | a rest, or no note on the string, gives the empty cell; otherwise the last note's token |
| TabUtil.TokenWidth | json_to_ascii_tab.rb:243 | the widest token's length |
| TabClip.Duration | json_to_ascii_tab.rb:236 | the beat's duration has a positive denominator |
| TabClip.RestBeatValue | json_to_ascii_tab.rb:204-208 | the filler rest lasts exactly the given value |
| TabClip.SumDurations | json_to_ascii_tab.rb:200 | Ok iff every beat's duration is valid; the value is the sum |
| TabClip.ClippedBeats | json_to_ascii_tab.rb:199-225 | Ok iff the denominator is non-zero and every duration is valid |
| TabClip.PadAndClip | json_to_ascii_tab.rb:199-225 | the method computes ClippedBeats |
| TabClip.ClipBeats | json_to_ascii_tab.rb:212-225 | the clip loop computes Clip |
| TabClip.ClipAt | json_to_ascii_tab.rb:214-224 | one clip iteration keeps the beat, or closes the measure with a filler rest |
| TabClip.ClipTotal | json_to_ascii_tab.rb:212-225 | enough beats clip to exactly the needed total |
| TabClip.ClippedFillsMeasure | json_to_ascii_tab.rb:199-225 | a clipped measure lasts exactly the signature's value (nothing when that is negative) |
| TabClip.ClipShape | json_to_ascii_tab.rb:212-225 | the clip keeps a prefix of the beats, and the last may be a filler |
| TabClip.ClippedShape | json_to_ascii_tab.rb:199-225 | padding and clipping keep a prefix, with at most one filler rest at the end |
| TabColumns.EventCols | json_to_ascii_tab.rb:237-244 | max(1, the duration's columns, the widest token) |
| TabColumns.EventOf | json_to_ascii_tab.rb:236-244 | a well-formed event |
| TabColumns.Events | json_to_ascii_tab.rb:235-287 | one well-formed event per beat |
| TabColumns.BeatEvent | tab_from_json.rb:221-227 | the method computes EventOf |
| TabColumns.SpansOf | json_to_ascii_tab.rb:285-286 | one span per event |
| TabColumns.SpanAt | json_to_ascii_tab.rb:285-286 | span k starts at the total width before it and is the event's width |
| TabColumns.SpansSnoc | json_to_ascii_tab.rb:285-286 | a new event adds a span at the old total width |
| TabColumns.EventsSnoc | json_to_ascii_tab.rb:235 | events of a longer prefix extend the shorter prefix's events |
| TabColumns.SpansTile | json_to_ascii_tab.rb:285-286 | the spans tile 0..width without gaps or overlap |
| TabColumns.Segment | tab_from_json.rb:234-235 | exactly w columns |
| TabColumns.Segments | tab_from_json.rb:232-236 | one segment per event, each of the event's width |
| TabColumns.Appended | tab_from_json.rb:215-237 | six lines |
| TabColumns.AppendedSnoc | tab_from_json.rb:232-236 | a new beat appends its segment to each line |
| TabColumns.AppendedWidth | tab_from_json.rb:215-237 | every line is exactly the total width |
| TabColumns.AppendedSegment | tab_from_json.rb:215-237 | each beat's segment shows at its span on each line |
| TabColumns.SegmentsShow | tab_from_json.rb:215-237 | the joined segments show each segment at its span |
| TabColumns.ConcatShows | tab_from_json.rb:215-237 | a segment whose start is the width before it shows at that span |
| TabColumns.AppendColumns | tab_from_json.rb:215-237 | the loop computes the appended lines, the spans and the total width |
| TabColumns.AppendTurn | tab_from_json.rb:220-237 | one iteration extends the lines and spans by one event |
| TabColumns.AppendSegments | tab_from_json.rb:232-236 | each line gets its token and the dashes after it |
| TabColumns.Extend | json_to_ascii_tab.rb:247-252 | the line grows to the target with dashes and keeps its old characters |
| TabColumns.Sustain | json_to_ascii_tab.rb:261-271 | the line's length is kept |
| TabColumns.Place | json_to_ascii_tab.rb:273-280 | the line's length is kept |
| TabColumns.PaintBeat | json_to_ascii_tab.rb:246-286 | six lines; the cursor advances by the event width |
| TabColumns.Painted | json_to_ascii_tab.rb:235-287 | six lines; the cursor is the total width |
| TabColumns.PaintedSnoc | json_to_ascii_tab.rb:235-287 | a new beat paints on top of the previous state |
| TabColumns.PaintStringMeaning | json_to_ascii_tab.rb:255-283 | `-` leaves the string as it is; a token draws `=` from the last end if tied, places the token and records its end |
| TabColumns.PaintBeatKeeps | json_to_ascii_tab.rb:255-283 | painting a beat never changes columns before the last note end |
| TabColumns.PaintedShape | json_to_ascii_tab.rb:235-287 | every painted line is the total width and the last end is within it |
| TabColumns.PaintedKeepsToken | json_to_ascii_tab.rb:235-287 | each beat's token stays at its start column whatever is painted after it |
| TabColumns.TokenPlaced | json_to_ascii_tab.rb:273-282 | painting a beat places its token at the cursor |
| TabColumns.TokenKept | json_to_ascii_tab.rb:261-283 | a later beat does not disturb an earlier token |
| TabColumns.PaintColumns | json_to_ascii_tab.rb:227-289 | the loop computes the painted lines, the spans and the total width |
| TabColumns.PaintTurn | json_to_ascii_tab.rb:235-287 | one iteration paints one more event |
| TabColumns.PaintEvent | json_to_ascii_tab.rb:246-286 | the method computes PaintBeat |
| TabColumns.ExtendLines | json_to_ascii_tab.rb:247-252 | each line is extended to the target |
| TabColumns.PaintStrings | json_to_ascii_tab.rb:255-283 | the loop paints each string's cell |
| TabColumns.SustainRange | json_to_ascii_tab.rb:265-270 | the loop computes Sustain |
| TabColumns.PlaceToken | json_to_ascii_tab.rb:274-279 | the loop computes Place |
| TabAnnotations.Spaces | json_to_ascii_tab.rb:195 | n spaces |
| TabAnnotations.Rails | json_to_ascii_tab.rb:383-403 | the rail line is the total width |
| TabAnnotations.IndexOr0 | json_to_ascii_tab.rb:398 | the first position of the character, or 0 when it is absent |
| TabAnnotations.PaintRails | json_to_ascii_tab.rb:387-394 | the array becomes Rails; the flag says whether any span was flagged |
| TabAnnotations.PmLine | json_to_ascii_tab.rb:383-403 | the palm-mute line is the total width |
| TabAnnotations.PmAnnotation | json_to_ascii_tab.rb:383-403 | the method computes PmLine |
| TabAnnotations.PmLineMeaning | json_to_ascii_tab.rb:383-403 | blank when no beat is palm-muted; otherwise rails with `PM` at the first covered column |
| TabAnnotations.LetRingStart | json_to_ascii_tab.rb:421-424 | the label starts at the rail or at 0, and fits the line when the line is long enough |
| TabAnnotations.LetRingLine | json_to_ascii_tab.rb:406-433 | the let-ring line is the total width |
| TabAnnotations.LetRingAnnotation | json_to_ascii_tab.rb:406-433 | the method computes LetRingLine |
| TabAnnotations.LetRingLineMeaning | json_to_ascii_tab.rb:406-433 | blank when no beat rings; otherwise the rails with `let ring` written at the computed start |
| TabAnnotations.PutTextPlaced | json_to_ascii_tab.rb:370-373 | a number that fits is written where it was put |
| TabAnnotations.PutTextKeeps | json_to_ascii_tab.rb:370-373 | columns outside the written text are unchanged |
| TabAnnotations.StopFrom | json_to_ascii_tab.rb:334-337 | the first span marked tuplet stop, or the end |
| TabAnnotations.RunEnd | json_to_ascii_tab.rb:338-346 | the run of spans with the same tuplet and no new start |
| TabAnnotations.GroupEnd | json_to_ascii_tab.rb:331-347 | the group ends at or after its start and inside the spans |
| TabAnnotations.PutRail | json_to_ascii_tab.rb:355-364 | the length is kept |
| TabAnnotations.PutText | json_to_ascii_tab.rb:366-373 | the length is kept |
| TabAnnotations.PaintGroup | json_to_ascii_tab.rb:349-374 | the length is kept |
| TabAnnotations.TupletFrom | json_to_ascii_tab.rb:318-380 | the length is kept |
| TabAnnotations.TupletLine | json_to_ascii_tab.rb:318-380 | the tuplet line is the total width |
| TabAnnotations.TupletAnnotation | json_to_ascii_tab.rb:318-380 | the method computes TupletLine |
| TabAnnotations.TupletFromSkip | json_to_ascii_tab.rb:323-328 | a span without a tuplet is passed over |
| TabAnnotations.TupletFromGroup | json_to_ascii_tab.rb:331-376 | a tuplet span paints its group and continues after the group |
| TabAnnotations.GroupEndOf | json_to_ascii_tab.rb:331-347 | the loops compute GroupEnd |
| TabAnnotations.PaintTupletGroup | json_to_ascii_tab.rb:349-374 | the array becomes PaintGroup of its old contents |
| TabAnnotations.DrawRail | json_to_ascii_tab.rb:355-364 | the array becomes PutRail of its old contents |
| TabAnnotations.DrawText | json_to_ascii_tab.rb:366-373 | the array becomes PutText of its old contents |
| TabAnnotations.PaintGroupChars | json_to_ascii_tab.rb:349-374 | painting a group uses only rail (`-`), space and digit characters (and the minus sign of a negative number) |
| TabAnnotations.TupletFromChars | json_to_ascii_tab.rb:318-380 | the whole tuplet line uses only those characters |
| TabAnnotations.TupletFromBlank | json_to_ascii_tab.rb:318-380 | with no tuplet spans left, the line is unchanged |
| TabAnnotations.PaintGroupMeaning | json_to_ascii_tab.rb:349-374 | a group narrower than 3 columns is not drawn; otherwise the rail, pulled in by one column at each end when the group is 5 or more columns wide (those two columns are left as they were), with the number centred on it; every column of the result is given: untouched, rail or a digit of the number |
| TabAnnotations.NumberPosInside | json_to_ascii_tab.rb:367-368 | a number no wider than the rail is placed within the rail's columns |
| TabMeasure.BlankMeasure | json_to_ascii_tab.rb:193-197 | Ok iff the denominator is non-zero and the width is not negative; six dash lines and three blank lines of that width |
| TabMeasure.MeasureBeats | json_to_ascii_tab.rb:199-225 | Ok iff the denominator is non-zero and every duration is valid |
| TabMeasure.AsciiMeasure | json_to_ascii_tab.rb:189-296 | Ok iff the denominator is non-zero and, for a rest measure, the width is not negative, or else every duration is valid |
| TabMeasure.TabMeasureText | tab_from_json.rb:177-244 | the same success condition for the appending renderer |
| TabMeasure.RenderAsciiMeasure | json_to_ascii_tab.rb:189-296 | the method computes AsciiMeasure |
| TabMeasure.RenderTabMeasure | tab_from_json.rb:177-244 | the method computes TabMeasureText |
| TabMeasure.AsciiMeasureAligned | json_to_ascii_tab.rb:189-296 | all six string lines and the three annotation lines have the same width |
| TabMeasure.TabMeasureAligned | tab_from_json.rb:177-244 | all nine lines have the same width |
| TabMeasure.AsciiMeasureTokens | json_to_ascii_tab.rb:235-287 | each clipped beat's token stands at the first column of its span |
| TabMeasure.TabMeasureSegments | tab_from_json.rb:215-237 | each clipped beat shows as its token plus dashes at its span |

## Left out

- The engine's `log` callback and `firstDiffIndex` only write diagnostics, so they are not modelled.
- RepeatInference.InferFoldPlan: requires minRepeatLen ≥ 1 and minPrefixLen ≥ 1. With minRepeatLen 0 the source's window-count loop never ends, and with minPrefixLen 0 a volta candidate may start at an ending.
- RepeatPlan.UnrollPlan: requires each volta's start ≤ end (PlanForward). The engine only builds such plans, and a hand-written plan that breaks this makes the source's walk go backwards.
- AlphaDocument.JsonToAlphaText: `parseScore` (JSON text parsing) is not modelled. The score arrives already parsed, and the title arrives already trimmed.
- Bpm values are opaque strings. The model never computes with them, only copies and compares them.
- `stableStringify` and `deep_sort` are not modelled. Fingerprints are compared as values, and that equality is the same as the equality of the sorted JSON.
- JavaScript number overflow, non-integer numbers, and Ruby `to_i` or float conversions are not modelled. Integers are unbounded, and non-integer JSON values are represented as absent.
- Error messages whose text is built from runtime values are modelled as fixed strings. The model tracks where the conversion fails, not the exact wording.
- AlphaBeats.BeatContent: a beat made only of rest notes leaves the carried frets undefined, as in the source. Any note played in the next non-rest beat then fails, because the code reads a string's carried fret out of that undefined value; AlphaBeats.UndefinedCarryFails states this.
- The command-line front ends and all I/O (`ARGV`, file reads, `puts`) are not modelled. The CLI title is a parameter.
- The ASCII renderers' whole-document assembly is modelled only as far as chunking (RubyRepeats.ChunkUnits). The header, the tempo line, the number line, `ljust` padding, `x{count}`, marker lines and joining the lines are left out.
- The signature carried from one measure to the next in the ASCII renderers is a parameter (`sig`) of each measure.
- Fret values that are not integers are not represented. A note's fret is a missing key, `null`, or an integer (`RubyScore.FretEntry`): the ASCII renderers' `fetch('fret', 0)` prints 0 for the first and nothing for the second, and the alphaTex converter reads both as `nil`.
- TabColumns.PaintColumns: Ruby's `line_chars` arrays of characters are modelled as immutable strings that the loop reassigns. In-place aliasing is not captured.
- TabAnnotations.PaintGroupMeaning: only a number no wider than its rail is proved to stay inside the rail. A wider number is still placed column by column as stated, clipped to the line.
- RubyAlphaTex.Escape: only quotes are escaped, as in the source. Backslashes pass through, so a text ending in a backslash does not read back as a quoted field. The round trip is stated with quote-only unescaping.
- Sorting.SortBy: the host language's sort is replaced by insertion sort. The model proves only that the result is a sorted permutation, not that the order among equal keys matches the host's.
- TabColumns.Segment: its contract states only the length. The content (the token followed by dashes) is stated by TabColumns.AppendSegments and TabColumns.AppendedSegment.
- RepeatInference.ArraysEqual: JavaScript compares the elements with `===`. For fingerprint strings this is value equality, which is what the model uses.
- AlphaMeasures.CanonicalNotes: the docs converter's notes carry no `slide` field in this model, because the converter never prints it. So the `slide` key of `canonicalNote` is not modelled, and two notes that differ only in their slide fingerprint alike here but not in the code.

## Findings

The docs converter's members take a `Reading`. `AsWritten` follows the code line by line, and `Mended` applies the intended fix of rows 1 and 2. The Ruby converter's members take a `TempoKeying`. `ByUnitIndex` is the code as written, and `ByMeasureIndex` is the intended fix of row 3.

| source | as written | input that shows it | evidently intended | confidence | as-written member | corrected member |
|---|---|---|---|---|---|---|
| docs/jsonToAlphaText.js:219-230 | `canonicalBeat` leaves out `dots`, so measures that print differently can get the same fingerprint and be folded into one repeat | a measure with one quarter rest next to a measure with one dotted quarter rest (same duration pair, dots 0 and 1) | fingerprints that differ whenever the printed tokens differ; the `Mended` reading adds the dot count to the canonical beat | not executed | AlphaMeasures.DotsInvisibleAsWritten | AlphaMeasures.EqualFingerprintsRenderAlike |
| docs/jsonToAlphaText.js:56-58 | a changed signature's `\ts` is pushed into the measure's tokens and again into the line's meta (lines 107-109), and line 116 concatenates both | any measure whose signature differs from the previous one, e.g. 3/4 after 4/4 | `\ts` written once on the line; the `Mended` reading leaves it out of the tokens and keeps the meta one | not executed | AlphaDocument.TsWrittenTwiceAsWritten | AlphaDocument.TsWrittenOnce |
| json_to_alphatex.rb:105 | tempos are looked up by the unit's position in the folded list (`idx`), not by its measure index | with `--max-repeat-len 1` (or 2): three measures where measures 0 and 1 are equal and fold into one repeat, and a tempo is set at measure 2; the unit for measure 2 has index 1, so its tempo is never written. With the default length 16, line 345 stops the search on any length that runs past the end, so the same bug needs 17 measures: 0 and 1 equal, the others distinct, a tempo at measure 16, whose unit has index 15 | the tempo of the unit's own measure; the unit would have to carry its measure's index, which `ByMeasureIndex` reads | not executed | RubyAlphaTex.TempoByUnitIndexIsLost | RubyAlphaTex.TemposFollowMeasure |
