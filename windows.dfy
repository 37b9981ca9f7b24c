/**
 * Counting equal windows of measures, the loop both repeat detectors share:
 * json_to_alphatex.rb lines 347-350, json_to_ascii_tab.rb lines 452-455 and
 * docs/repeat_inference.js lines 99-103 all count how many consecutive
 * windows of `len` measures from `i` equal the first one.
 */
module Windows {
  /** Copy `k` of the window of `len` measures at `i` is there and equals the window. */
  predicate CopyAt<T(==)>(canon: seq<T>, i: nat, len: nat, k: nat)
  {
    i + k * len + len <= |canon| && canon[i + k * len..i + k * len + len] == canon[i..i + len]
  }

  lemma NextCopyStart(i: nat, len: nat, c: nat)
    ensures i + (c + 1) * len == i + c * len + len
  {
  }

  /**
   * The `count` loop: the number of consecutive copies of the window, the
   * first `c` of them already counted.
   */
  function CountFrom<T(==)>(canon: seq<T>, i: nat, len: nat, c: nat): (r: nat)
    requires 1 <= len && 1 <= c && i + c * len <= |canon|
    ensures c <= r && i + r * len <= |canon|
    decreases |canon| - (i + c * len)
  {
    NextCopyStart(i, len, c);
    if i + c * len + len <= |canon| && canon[i + c * len..i + c * len + len] == canon[i..i + len] then CountFrom(canon, i, len, c + 1)
    else c
  }

  /** The copies counted are all equal to the window, and the one after them is not (or overruns). */
  lemma {:induction false} CountFromMeaning<T>(canon: seq<T>, i: nat, len: nat, c: nat)
    requires 1 <= len && 1 <= c && i + c * len <= |canon|
    requires forall k :: 0 <= k < c ==> CopyAt(canon, i, len, k)
    ensures forall k :: 0 <= k < CountFrom(canon, i, len, c) ==> CopyAt(canon, i, len, k)
    ensures !CopyAt(canon, i, len, CountFrom(canon, i, len, c))
    decreases |canon| - (i + c * len)
  {
    NextCopyStart(i, len, c);
    if i + c * len + len <= |canon| && canon[i + c * len..i + c * len + len] == canon[i..i + len] {
      assert CopyAt(canon, i, len, c);
      CountFromMeaning(canon, i, len, c + 1);
    }
  }

  /** The number of copies of the window at `i`. */
  function Copies<T(==)>(canon: seq<T>, i: nat, len: nat): nat
    requires 1 <= len && i + len <= |canon|
  {
    CountFrom(canon, i, len, 1)
  }

  /** The window equals itself: copy 0 is always there. */
  lemma FirstCopy<T>(canon: seq<T>, i: nat, len: nat)
    requires i + len <= |canon|
    ensures CopyAt(canon, i, len, 0)
  {
  }

  /**
   * `count` is the exact number of consecutive copies: all of the first
   * `count` windows equal the first, the next one does not or overruns.
   */
  lemma CopiesMeaning<T>(canon: seq<T>, i: nat, len: nat)
    requires 1 <= len && i + len <= |canon|
    ensures Copies(canon, i, len) >= 1 && i + Copies(canon, i, len) * len <= |canon|
    ensures forall k :: 0 <= k < Copies(canon, i, len) ==> CopyAt(canon, i, len, k)
    ensures !CopyAt(canon, i, len, Copies(canon, i, len))
  {
    FirstCopy(canon, i, len);
    CountFromMeaning(canon, i, len, 1);
  }
}
