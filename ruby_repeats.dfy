/**
 * The older, greedy repeat detector of the Ruby scripts and what they build
 * from it: `detect_repeats` (json_to_alphatex.rb lines 339-364,
 * json_to_ascii_tab.rb lines 443-470, tab_from_json.rb lines 388-415),
 * `build_units` (json_to_alphatex.rb lines 366-389, json_to_ascii_tab.rb
 * lines 472-496, tab_from_json.rb lines 417-441) and the line chunking of
 * the two ASCII renderers (json_to_ascii_tab.rb lines 90-101,
 * tab_from_json.rb lines 87-98). Measures are compared through their
 * canonical form, an opaque value with equality.
 */
module RubyRepeats {
  import opened Wrappers
  import opened Text
  import opened Windows

  /** `{ start:, len:, count: }`: `count` copies of `len` measures from `start`. */
  datatype Block = Block(start: nat, len: nat, count: nat)

  /**
   * The two length loops. json_to_alphatex.rb counts down from `max_len`
   * and gives up at the first length that overruns the measures; the ASCII
   * renderers count down from `min(max_len, n - i)`.
   */
  datatype Style = BreakOnOverrun | ClampToRest

  // ---------------------------------------------------------------------------
  // Copies of a window

  /** The `count` loop of `detect_repeats`. */
  method CountCopies<T(==)>(canon: seq<T>, i: nat, len: nat) returns (count: nat)
    requires 1 <= len && i + len <= |canon|
    ensures count == Copies(canon, i, len)
  {
    count := 1;
    while i + count * len + len <= |canon| && canon[i + count * len..i + count * len + len] == canon[i..i + len]
      invariant 1 <= count && i + count * len <= |canon|
      invariant CountFrom(canon, i, len, count) == Copies(canon, i, len)
      decreases |canon| - (i + count * len)
    {
      NextCopyStart(i, len, count);
      count := count + 1;
    }
  }

  // ---------------------------------------------------------------------------
  // The block at one position

  /** The first length from `top` down to 1 whose window repeats at least twice. */
  function LongestFrom<T(==)>(canon: seq<T>, i: nat, top: int): (r: Option<Block>)
    requires i + top <= |canon|
    decreases top
  {
    if top < 1 then None
    else if Copies(canon, i, top) >= 2 then Some(Block(i, top, Copies(canon, i, top)))
    else LongestFrom(canon, i, top - 1)
  }

  /** The block `detect_repeats` reports at `i`, if any. */
  function BlockAt<T(==)>(canon: seq<T>, i: nat, maxLen: int, style: Style): Option<Block>
  {
    match style
      case BreakOnOverrun => if maxLen < 1 || i + maxLen > |canon| then None else LongestFrom(canon, i, maxLen)
      case ClampToRest => if i >= |canon| then None else LongestFrom(canon, i, Min(maxLen, |canon| - i))
  }

  /** A block is well formed: at least two copies of a non-empty window, all inside the measures and all equal. */
  predicate GoodBlock<T(==)>(canon: seq<T>, b: Block)
  {
    b.len >= 1 && b.count >= 2 && BlockEnd(b) <= |canon|
    && forall k :: 0 <= k < b.count ==> CopyAt(canon, b.start, b.len, k)
  }

  /**
   * The block found from `top` is the longest repeating window no longer
   * than `top`; none is found only when no such window repeats.
   */
  lemma {:induction false} LongestFromMeaning<T>(canon: seq<T>, i: nat, top: int)
    requires i + top <= |canon|
    ensures LongestFrom(canon, i, top).Some? ==>
      var b := LongestFrom(canon, i, top).value;
      b.start == i && 1 <= b.len <= top && b.count == Copies(canon, i, b.len) >= 2
      && forall l :: b.len < l <= top ==> Copies(canon, i, l) < 2
    ensures LongestFrom(canon, i, top).None? ==> forall l :: 1 <= l <= top ==> Copies(canon, i, l) < 2
    decreases top
  {
    if top >= 1 && Copies(canon, i, top) < 2 {
      LongestFromMeaning(canon, i, top - 1);
    }
  }

  /** A window that repeats gives a well-formed block. */
  lemma RepeatedWindowIsGood<T>(canon: seq<T>, i: nat, len: nat)
    requires 1 <= len && i + len <= |canon| && Copies(canon, i, len) >= 2
    ensures GoodBlock(canon, Block(i, len, Copies(canon, i, len)))
  {
    CopiesMeaning(canon, i, len);
  }

  /** The length loop of json_to_alphatex.rb: down from `max_len`, giving up at the first overrunning length. */
  method FindBlockBreaking<T(==)>(canon: seq<T>, i: nat, maxLen: int) returns (best: Option<Block>)
    ensures best == BlockAt(canon, i, maxLen, BreakOnOverrun)
  {
    best := None;
    var len := maxLen;
    while len >= 1
      invariant len <= maxLen
      invariant len < maxLen ==> i + maxLen <= |canon|
      invariant maxLen >= 1 && i + maxLen <= |canon| ==> LongestFrom(canon, i, maxLen) == LongestFrom(canon, i, len)
      decreases len
    {
      if i + len > |canon| {
        break;
      }
      var count := CountCopies(canon, i, len);
      if count <= 1 {
        len := len - 1;
        continue;
      }
      best := Some(Block(i, len, count));
      break;
    }
  }

  /** The length loop of the ASCII renderers: down from `min(max_len, n - i)`. */
  method FindBlockClamped<T(==)>(canon: seq<T>, i: nat, maxLen: int) returns (best: Option<Block>)
    requires i < |canon|
    ensures best == BlockAt(canon, i, maxLen, ClampToRest)
  {
    best := None;
    var len := Min(maxLen, |canon| - i);
    while len >= 1
      invariant i + len <= |canon|
      invariant LongestFrom(canon, i, Min(maxLen, |canon| - i)) == LongestFrom(canon, i, len)
      decreases len
    {
      var count := CountCopies(canon, i, len);
      if count < 2 {
        len := len - 1;
        continue;
      }
      best := Some(Block(i, len, count));
      break;
    }
  }

  // ---------------------------------------------------------------------------
  // detect_repeats

  /** Where the scan resumes after a block: past its last copy. */
  function BlockEnd(b: Block): (r: nat)
    ensures b.len >= 1 && b.count >= 1 ==> r >= b.start + b.len
  {
    b.start + b.len * b.count
  }

  /** A reported block starts where it was looked for and moves the scan forward. */
  lemma BlockAtAdvances<T>(canon: seq<T>, i: nat, maxLen: int, style: Style)
    requires BlockAt(canon, i, maxLen, style).Some?
    ensures var b := BlockAt(canon, i, maxLen, style).value;
      b.start == i && b.len >= 1 && b.count >= 2 && i < BlockEnd(b) <= |canon|
  {
    var top := match style case BreakOnOverrun => maxLen case ClampToRest => Min(maxLen, |canon| - i);
    LongestFromMeaning(canon, i, top);
  }

  /** The blocks the scan reports from position `i` on. */
  function DetectFrom<T(==)>(canon: seq<T>, maxLen: int, style: Style, i: nat): seq<Block>
    decreases |canon| - i
  {
    if i >= |canon| then []
    else
      match BlockAt(canon, i, maxLen, style)
        case None => DetectFrom(canon, maxLen, style, i + 1)
        case Some(b) =>
          BlockAtAdvances(canon, i, maxLen, style);
          [b] + DetectFrom(canon, maxLen, style, BlockEnd(b))
  }

  /** A reported block is well formed and no longer than the length limit. */
  lemma BlockAtGood<T>(canon: seq<T>, i: nat, maxLen: int, style: Style)
    requires BlockAt(canon, i, maxLen, style).Some?
    ensures var b := BlockAt(canon, i, maxLen, style).value;
      b.start == i && GoodBlock(canon, b) && b.len <= maxLen
  {
    var top := match style case BreakOnOverrun => maxLen case ClampToRest => Min(maxLen, |canon| - i);
    LongestFromMeaning(canon, i, top);
    var b := BlockAt(canon, i, maxLen, style).value;
    RepeatedWindowIsGood(canon, i, b.len);
  }

  /** `detect_repeats` of json_to_alphatex.rb. */
  method DetectRepeatsBreaking<T(==)>(canon: seq<T>, maxLen: int) returns (blocks: seq<Block>)
    ensures blocks == DetectFrom(canon, maxLen, BreakOnOverrun, 0)
  {
    blocks := [];
    var i: nat := 0;
    while i < |canon|
      invariant blocks + DetectFrom(canon, maxLen, BreakOnOverrun, i) == DetectFrom(canon, maxLen, BreakOnOverrun, 0)
      decreases |canon| - i
    {
      var best := FindBlockBreaking(canon, i, maxLen);
      if best.Some? {
        BlockAtAdvances(canon, i, maxLen, BreakOnOverrun);
        blocks := blocks + [best.value];
        i := i + best.value.len * best.value.count;
      } else {
        i := i + 1;
      }
    }
  }

  /** `detect_repeats` of json_to_ascii_tab.rb and tab_from_json.rb. */
  method DetectRepeatsClamped<T(==)>(canon: seq<T>, maxLen: int) returns (blocks: seq<Block>)
    ensures blocks == DetectFrom(canon, maxLen, ClampToRest, 0)
  {
    blocks := [];
    var i: nat := 0;
    while i < |canon|
      invariant blocks + DetectFrom(canon, maxLen, ClampToRest, i) == DetectFrom(canon, maxLen, ClampToRest, 0)
      decreases |canon| - i
    {
      var best := FindBlockClamped(canon, i, maxLen);
      if best.Some? {
        BlockAtAdvances(canon, i, maxLen, ClampToRest);
        blocks := blocks + [best.value];
        i := i + best.value.len * best.value.count;
      } else {
        i := i + 1;
      }
    }
  }

  /** The blocks are well formed, start at or after `i`, and each ends before the next starts. */
  ghost predicate Layout<T>(canon: seq<T>, bs: seq<Block>, i: nat)
  {
    (forall a :: 0 <= a < |bs| ==> GoodBlock(canon, bs[a])) && Ordered(bs, i)
  }

  /** The blocks advance the scan, start at or after `i`, and each ends before the next starts. */
  ghost predicate Ordered(bs: seq<Block>, i: nat)
  {
    (forall a :: 0 <= a < |bs| ==> i <= bs[a].start && bs[a].len >= 1 && bs[a].count >= 1)
    && forall a, b :: 0 <= a < b < |bs| ==> BlockEnd(bs[a]) <= bs[b].start
  }

  /** Putting a block in front of blocks that start after it ends keeps the order. */
  lemma OrderedCons(b: Block, rest: seq<Block>, i: nat)
    requires b.start == i && b.len >= 1 && b.count >= 1 && Ordered(rest, BlockEnd(b))
    ensures Ordered([b] + rest, i)
  {
    var bs := [b] + rest;
    forall a, c | 0 <= a < c < |bs| ensures BlockEnd(bs[a]) <= bs[c].start {
      assert bs[c] == rest[c - 1];
      if a > 0 {
        assert bs[a] == rest[a - 1];
      }
    }
  }

  /** The reported blocks advance the scan, start at or after `i` and do not overlap. */
  lemma {:induction false} DetectOrdered<T>(canon: seq<T>, maxLen: int, style: Style, i: nat)
    ensures Ordered(DetectFrom(canon, maxLen, style, i), i)
    decreases |canon| - i
  {
    if i < |canon| {
      match BlockAt(canon, i, maxLen, style)
        case None =>
          DetectOrdered(canon, maxLen, style, i + 1);
        case Some(b) =>
          BlockAtAdvances(canon, i, maxLen, style);
          DetectOrdered(canon, maxLen, style, BlockEnd(b));
          OrderedCons(b, DetectFrom(canon, maxLen, style, BlockEnd(b)), i);
    }
  }

  /** Every reported block is well formed: at least two equal copies, inside the measures. */
  lemma {:induction false} DetectGood<T>(canon: seq<T>, maxLen: int, style: Style, i: nat)
    ensures forall b :: b in DetectFrom(canon, maxLen, style, i) ==> GoodBlock(canon, b)
    decreases |canon| - i
  {
    if i < |canon| {
      match BlockAt(canon, i, maxLen, style)
        case None =>
          DetectGood(canon, maxLen, style, i + 1);
        case Some(b) =>
          BlockAtAdvances(canon, i, maxLen, style);
          BlockAtGood(canon, i, maxLen, style);
          DetectGood(canon, maxLen, style, BlockEnd(b));
    }
  }

  /**
   * The reported blocks are well formed (at least two equal copies, inside
   * the measures), in increasing order and non-overlapping, since the scan
   * resumes after the last copy of each block.
   */
  lemma DetectLayout<T>(canon: seq<T>, maxLen: int, style: Style)
    ensures Layout(canon, DetectFrom(canon, maxLen, style, 0), 0)
  {
    DetectOrdered(canon, maxLen, style, 0);
    DetectGood(canon, maxLen, style, 0);
  }

  /**
   * Each reported block is the one `BlockAt` finds at its start: the
   * longest window (up to the length limit) that repeats there.
   */
  lemma {:induction false} DetectBlocksAreFound<T>(canon: seq<T>, maxLen: int, style: Style, i: nat)
    ensures forall b :: b in DetectFrom(canon, maxLen, style, i) ==> BlockAt(canon, b.start, maxLen, style) == Some(b)
    decreases |canon| - i
  {
    if i < |canon| {
      match BlockAt(canon, i, maxLen, style)
        case None =>
          DetectBlocksAreFound(canon, maxLen, style, i + 1);
        case Some(b) =>
          BlockAtAdvances(canon, i, maxLen, style);
          DetectBlocksAreFound(canon, maxLen, style, BlockEnd(b));
    }
  }

  /**
   * With the length loop that gives up at the first overrun, no block is
   * ever reported at an `i` with `i + max_len > n`, even when a shorter
   * window repeats there.
   */
  lemma NoBlockNearTheEnd<T>(canon: seq<T>, maxLen: int, b: Block)
    requires b in DetectFrom(canon, maxLen, BreakOnOverrun, 0)
    ensures b.start + maxLen <= |canon|
  {
    DetectBlocksAreFound(canon, maxLen, BreakOnOverrun, 0);
  }

  /** A concrete case: `[a, a]` with `max_len` 16 has a repeated window but no block is reported. */
  lemma ShortTailIsMissed(a: int)
    ensures Copies([a, a], 0, 1) == 2
    ensures DetectFrom([a, a], 16, BreakOnOverrun, 0) == []
    ensures DetectFrom([a, a], 16, ClampToRest, 0) == [Block(0, 1, 2)]
  {
    var canon := [a, a];
    assert CopyAt(canon, 0, 1, 1);
    assert !CopyAt(canon, 0, 1, 2);
    CountFromMeaning(canon, 0, 1, 1);
    assert Copies(canon, 0, 1) == 2 by {
      assert CountFrom(canon, 0, 1, 2) == 2;
    }
    assert Copies(canon, 0, 2) == 1 by {
      assert canon[2..] == [];
    }
    assert LongestFrom(canon, 0, 2) == LongestFrom(canon, 0, 1);
    assert DetectFrom(canon, 16, BreakOnOverrun, 1) == [] by {
      assert DetectFrom(canon, 16, BreakOnOverrun, 2) == [];
    }
    assert BlockEnd(Block(0, 1, 2)) == 2;
    assert DetectFrom(canon, 16, ClampToRest, 2) == [];
  }

  // ---------------------------------------------------------------------------
  // build_units

  /** One printed measure: its index, whether it opens a repeat, and the block it closes. */
  datatype Unit = Unit(measure: nat, repeatStart: bool, repeatEnd: Option<Block>)

  /** `block_at`: blocks by start; a later block with the same start replaces an earlier one. */
  function BlockIndex(blocks: seq<Block>): (r: map<nat, Block>)
    ensures forall p :: p in r ==> r[p] in blocks && r[p].start == p
  {
    if blocks == [] then map[]
    else BlockIndex(blocks[..|blocks| - 1])[blocks[|blocks| - 1].start := blocks[|blocks| - 1]]
  }

  /** Blocks `build_units` can walk over: each advances the scan. */
  predicate Advancing(blocks: seq<Block>)
  {
    forall b :: b in blocks ==> b.len >= 1 && b.count >= 1
  }

  /** The units of one block: its first `len` measures, the first opening and the last closing the repeat. */
  function BlockUnits(b: Block): (r: seq<Unit>)
    ensures |r| == b.len
  {
    seq(b.len, k requires 0 <= k < b.len => Unit(b.start + k, k == 0, if k == b.len - 1 then Some(b) else None))
  }

  /** An index `build_units` can walk: each block sits under its own start and advances the scan. */
  predicate WalkableIndex(index: map<nat, Block>)
  {
    forall p :: p in index ==> index[p].start == p && index[p].len >= 1 && index[p].count >= 1
  }

  /** The units from measure `i` on. */
  function UnitsFrom(n: nat, index: map<nat, Block>, i: nat): seq<Unit>
    requires WalkableIndex(index)
    decreases n - i
  {
    if i >= n then []
    else if i in index then
      var b := index[i];
      BlockUnits(b) + UnitsFrom(n, index, BlockEnd(b))
    else [Unit(i, false, None)] + UnitsFrom(n, index, i + 1)
  }

  /** The `len.times` loop of `build_units`. */
  method AppendBlockUnits(units: seq<Unit>, b: Block) returns (r: seq<Unit>)
    ensures r == units + BlockUnits(b)
  {
    r := units;
    var k := 0;
    while k < b.len
      invariant 0 <= k <= b.len && r == units + BlockUnits(b)[..k]
    {
      r := r + [Unit(b.start + k, k == 0, if k == b.len - 1 then Some(b) else None)];
      k := k + 1;
    }
  }

  /** `build_units`. */
  method BuildUnits(n: nat, blocks: seq<Block>) returns (units: seq<Unit>)
    requires Advancing(blocks)
    ensures units == UnitsFrom(n, BlockIndex(blocks), 0)
  {
    var blockAt: map<nat, Block> := map[];
    for j := 0 to |blocks|
      invariant blockAt == BlockIndex(blocks[..j])
    {
      assert blocks[..j + 1][..j] == blocks[..j];
      blockAt := blockAt[blocks[j].start := blocks[j]];
    }
    assert blocks[..|blocks|] == blocks;
    units := [];
    var i: nat := 0;
    while i < n
      invariant units + UnitsFrom(n, blockAt, i) == UnitsFrom(n, blockAt, 0)
      decreases n - i
    {
      if i in blockAt {
        var b := blockAt[i];
        units := AppendBlockUnits(units, b);
        assert BlockEnd(b) > i;
        i := i + b.len * b.count;
      } else {
        units := units + [Unit(i, false, None)];
        i := i + 1;
      }
    }
  }

  /** The measures a block saves: all copies after the first. */
  function Saved(bs: seq<Block>): int
  {
    if bs == [] then 0 else bs[0].len * (bs[0].count - 1) + Saved(bs[1..])
  }

  /** The blocks by start, built from the front: the first block with a start wins. */
  function StartIndex(bs: seq<Block>): (r: map<nat, Block>)
    ensures forall p :: p in r ==> r[p] in bs && r[p].start == p
  {
    if bs == [] then map[] else StartIndex(bs[1..])[bs[0].start := bs[0]]
  }

  /** From position `i` on, `index` holds exactly the blocks of `bs` by start. */
  ghost predicate IndexMatches(index: map<nat, Block>, bs: seq<Block>, i: nat)
  {
    forall p :: i <= p ==> (p in index <==> p in StartIndex(bs)) && (p in index ==> index[p] == StartIndex(bs)[p])
  }

  /** Past the first block, the index matches the remaining blocks. */
  lemma IndexMatchesRest(index: map<nat, Block>, bs: seq<Block>, i: nat)
    requires bs != [] && Ordered(bs, i) && IndexMatches(index, bs, i)
    ensures IndexMatches(index, bs[1..], BlockEnd(bs[0]))
  {
    var b := bs[0];
    assert b.start < BlockEnd(b);
    assert StartIndex(bs) == StartIndex(bs[1..])[b.start := b];
  }

  /** No block of a layout from `i + 1` starts at `i`. */
  lemma NotStartedAt(bs: seq<Block>, i: nat)
    requires Ordered(bs, i + 1)
    ensures i !in StartIndex(bs)
  {
    forall a | 0 <= a < |bs| ensures bs[a].start != i {
    }
  }

  /**
   * Walking the blocks of the detector: `len` units per block plus one per
   * measure outside all blocks, so `n - Σ len·(count − 1)` units in all.
   */
  lemma {:induction false} UnitsCount<T>(canon: seq<T>, maxLen: int, style: Style, index: map<nat, Block>, i: nat)
    requires WalkableIndex(index)
    requires IndexMatches(index, DetectFrom(canon, maxLen, style, i), i)
    ensures |UnitsFrom(|canon|, index, i)| == (if i <= |canon| then |canon| - i else 0) - Saved(DetectFrom(canon, maxLen, style, i))
    decreases |canon| - i
  {
    var n := |canon|;
    if i < n {
      var bs := DetectFrom(canon, maxLen, style, i);
      match BlockAt(canon, i, maxLen, style)
        case None =>
          DetectOrdered(canon, maxLen, style, i + 1);
          NotStartedAt(bs, i);
          UnitsCount(canon, maxLen, style, index, i + 1);
        case Some(b) =>
          BlockAtAdvances(canon, i, maxLen, style);
          DetectOrdered(canon, maxLen, style, i);
          var rest := DetectFrom(canon, maxLen, style, BlockEnd(b));
          assert bs[0] == b && bs[1..] == rest;
          IndexMatchesRest(index, bs, i);
          UnitsCount(canon, maxLen, style, index, BlockEnd(b));
          UnitsCountStep(n, index, b, rest);
    }
  }

  /** One block's step of `UnitsCount`: `len` units, then the rest after its last copy. */
  lemma UnitsCountStep(n: nat, index: map<nat, Block>, b: Block, rest: seq<Block>)
    requires WalkableIndex(index) && b.start < n && b.start in index && index[b.start] == b
    requires BlockEnd(b) <= n && |UnitsFrom(n, index, BlockEnd(b))| == n - BlockEnd(b) - Saved(rest)
    ensures |UnitsFrom(n, index, b.start)| == n - b.start - Saved([b] + rest)
  {
    assert ([b] + rest)[1..] == rest;
    SpanSplit(b);
  }

  /** A block spans its first copy and the copies it saves. */
  lemma SpanSplit(b: Block)
    requires b.count >= 1
    ensures BlockEnd(b) == b.start + b.len + b.len * (b.count - 1)
  {
  }

  /** With increasing starts, the two ways of indexing the blocks agree. */
  lemma {:induction false} IndexesAgree(bs: seq<Block>)
    requires forall a, b :: 0 <= a < b < |bs| ==> bs[a].start < bs[b].start
    ensures BlockIndex(bs) == StartIndex(bs)
  {
    if bs != [] {
      var init := bs[..|bs| - 1];
      var last := bs[|bs| - 1];
      assert bs == init + [last];
      IndexesAgree(init);
      StartIndexSnoc(init, last);
    }
  }

  /** Adding a block after all others with a later start. */
  lemma {:induction false} StartIndexSnoc(bs: seq<Block>, last: Block)
    requires forall a :: 0 <= a < |bs| ==> bs[a].start < last.start
    ensures StartIndex(bs + [last]) == StartIndex(bs)[last.start := last]
  {
    if bs != [] {
      assert (bs + [last])[1..] == bs[1..] + [last];
      StartIndexSnoc(bs[1..], last);
    }
  }

  /** The index built from the detector's blocks matches them from position 0. */
  lemma DetectIndexMatches<T>(canon: seq<T>, maxLen: int, style: Style)
    ensures Advancing(DetectFrom(canon, maxLen, style, 0))
    ensures IndexMatches(BlockIndex(DetectFrom(canon, maxLen, style, 0)), DetectFrom(canon, maxLen, style, 0), 0)
  {
    var bs := DetectFrom(canon, maxLen, style, 0);
    DetectOrdered(canon, maxLen, style, 0);
    forall a, b | 0 <= a < b < |bs| ensures bs[a].start < bs[b].start {
      assert BlockEnd(bs[a]) > bs[a].start;
    }
    IndexesAgree(bs);
  }

  /** The total number of units of the detector's blocks. */
  lemma UnitsTotal<T>(canon: seq<T>, maxLen: int, style: Style)
    ensures Advancing(DetectFrom(canon, maxLen, style, 0))
    ensures |UnitsFrom(|canon|, BlockIndex(DetectFrom(canon, maxLen, style, 0)), 0)| == |canon| - Saved(DetectFrom(canon, maxLen, style, 0))
  {
    DetectIndexMatches(canon, maxLen, style);
    UnitsCount(canon, maxLen, style, BlockIndex(DetectFrom(canon, maxLen, style, 0)), 0);
  }

  /** The units of a block name its first copy, and only the last closes it. */
  lemma BlockUnitsShape(b: Block)
    ensures forall u :: u in BlockUnits(b) ==> b.start <= u.measure < b.start + b.len
    ensures forall u :: u in BlockUnits(b) && u.repeatEnd.Some? ==> u.repeatEnd.value == b && u.measure == b.start + b.len - 1
  {
  }

  /**
   * Every unit names a measure that exists, and a unit closes a block
   * exactly at the last measure of the block's first copy.
   */
  lemma {:induction false} UnitsShape<T>(canon: seq<T>, maxLen: int, style: Style, index: map<nat, Block>, i: nat)
    requires WalkableIndex(index)
    requires IndexMatches(index, DetectFrom(canon, maxLen, style, i), i)
    ensures forall u :: u in UnitsFrom(|canon|, index, i) ==> i <= u.measure < |canon|
    ensures forall u :: u in UnitsFrom(|canon|, index, i) && u.repeatEnd.Some? ==>
      u.measure == u.repeatEnd.value.start + u.repeatEnd.value.len - 1 && GoodBlock(canon, u.repeatEnd.value)
    decreases |canon| - i
  {
    var n := |canon|;
    if i < n {
      var bs := DetectFrom(canon, maxLen, style, i);
      match BlockAt(canon, i, maxLen, style)
        case None =>
          DetectOrdered(canon, maxLen, style, i + 1);
          NotStartedAt(bs, i);
          UnitsShape(canon, maxLen, style, index, i + 1);
          assert UnitsFrom(n, index, i) == [Unit(i, false, None)] + UnitsFrom(n, index, i + 1);
        case Some(b) =>
          BlockAtAdvances(canon, i, maxLen, style);
          BlockAtGood(canon, i, maxLen, style);
          DetectOrdered(canon, maxLen, style, i);
          var rest := DetectFrom(canon, maxLen, style, BlockEnd(b));
          assert bs[0] == b && bs[1..] == rest;
          IndexMatchesRest(index, bs, i);
          UnitsShape(canon, maxLen, style, index, BlockEnd(b));
          BlockUnitsShape(b);
          assert UnitsFrom(n, index, i) == BlockUnits(b) + UnitsFrom(n, index, BlockEnd(b));
    }
  }

  // ---------------------------------------------------------------------------
  // Chunking

  /** `cur` and `chunks` after the units so far. */
  function ChunkState(units: seq<Unit>, perLine: int): (seq<seq<Unit>>, seq<Unit>)
  {
    if units == [] then ([], [])
    else
      var (chunks, cur) := ChunkState(units[..|units| - 1], perLine);
      var u := units[|units| - 1];
      var cur' := cur + [u];
      if |cur'| >= perLine || u.repeatEnd.Some? then (chunks + [cur'], []) else (chunks, cur')
  }

  /** The chunks, the last open one included when it is not empty. */
  function Chunks(units: seq<Unit>, perLine: int): seq<seq<Unit>>
  {
    var (chunks, cur) := ChunkState(units, perLine);
    if cur == [] then chunks else chunks + [cur]
  }

  /** The chunking loop of `render`. */
  method ChunkUnits(units: seq<Unit>, perLine: int) returns (chunks: seq<seq<Unit>>)
    ensures chunks == Chunks(units, perLine)
  {
    chunks := [];
    var cur: seq<Unit> := [];
    for j := 0 to |units|
      invariant (chunks, cur) == ChunkState(units[..j], perLine)
    {
      assert units[..j + 1][..j] == units[..j];
      var u := units[j];
      cur := cur + [u];
      if |cur| >= perLine || u.repeatEnd.Some? {
        chunks := chunks + [cur];
        cur := [];
      }
    }
    assert units[..|units|] == units;
    if cur != [] {
      chunks := chunks + [cur];
    }
  }

  function Flatten(chunks: seq<seq<Unit>>): seq<Unit>
  {
    if chunks == [] then [] else Flatten(chunks[..|chunks| - 1]) + chunks[|chunks| - 1]
  }

  /** A chunk of at most `max(1, per_line)` units, none but the last closing a repeat. */
  predicate GoodChunk(c: seq<Unit>, perLine: int)
  {
    1 <= |c| <= Max(1, perLine) && forall k :: 0 <= k < |c| - 1 ==> c[k].repeatEnd.None?
  }

  lemma FlattenAppend(chunks: seq<seq<Unit>>, c: seq<Unit>)
    ensures Flatten(chunks + [c]) == Flatten(chunks) + c
  {
    assert (chunks + [c])[..|chunks|] == chunks;
  }

  /**
   * The state after the units: the closed chunks and the open one hold the
   * units in order; every closed chunk is good, and the open one is shorter
   * than `per_line` and closes no repeat.
   */
  lemma {:induction false} ChunkStateMeaning(units: seq<Unit>, perLine: int)
    ensures var (chunks, cur) := ChunkState(units, perLine);
      Flatten(chunks) + cur == units
      && (forall c :: c in chunks ==> GoodChunk(c, perLine))
      && |cur| < Max(1, perLine) && (forall k :: 0 <= k < |cur| ==> cur[k].repeatEnd.None?)
  {
    if units != [] {
      var init := units[..|units| - 1];
      ChunkStateMeaning(init, perLine);
      var (chunks, cur) := ChunkState(init, perLine);
      var u := units[|units| - 1];
      var cur' := cur + [u];
      assert units == init + [u];
      if |cur'| >= perLine || u.repeatEnd.Some? {
        FlattenAppend(chunks, cur');
        assert GoodChunk(cur', perLine);
      }
    }
  }

  /**
   * The chunks hold the units in order; each has at most
   * `max(1, per_line)` units, and a unit that closes a repeat is always the
   * last of its chunk.
   */
  lemma ChunksMeaning(units: seq<Unit>, perLine: int)
    ensures Flatten(Chunks(units, perLine)) == units
    ensures forall c :: c in Chunks(units, perLine) ==> GoodChunk(c, perLine)
  {
    ChunkStateMeaning(units, perLine);
    var (chunks, cur) := ChunkState(units, perLine);
    if cur != [] {
      FlattenAppend(chunks, cur);
    }
  }
}
