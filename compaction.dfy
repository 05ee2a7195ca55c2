/** Removing several entries of a dynamic array in one pass ("mark, then
    compact"): a scan pushes the position of every entry to drop onto a list,
    in ascending order, and the array is then erased at those positions from
    the highest one down, so that every position still pending names the entry
    it named during the scan.

    `Marked` is what the scan collects, `Compact` is what erasing a list of
    positions of the original array leaves, and `Keep` is the intended result,
    the unmarked entries in their order. `EraseMarkedKeepsUnmarked` says that
    the two agree, and `CompactStep` is the step that makes erasing from the
    top down correct. */
module Compaction {

  /** Number of set flags in a mask. */
  function Count(mask: seq<bool>): nat
  {
    if mask == [] then 0
    else Count(mask[..|mask| - 1]) + (if mask[|mask| - 1] then 1 else 0)
  }

  predicate StrictlyIncreasing(ids: seq<int>)
  {
    forall i, j :: 0 <= i < j < |ids| ==> ids[i] < ids[j]
  }

  /** The positions whose flag is set, in ascending order: what a scan of
      positions 0, 1, ... collects when it pushes `k` whenever `mask[k]`. */
  function Marked(mask: seq<bool>): (ids: seq<int>)
    ensures StrictlyIncreasing(ids)
    ensures forall i :: 0 <= i < |ids| ==> 0 <= ids[i] < |mask|
    ensures forall k :: 0 <= k < |mask| ==> (k in ids <==> mask[k])
  {
    if mask == [] then []
    else
      var n := |mask| - 1;
      Marked(mask[..n]) + (if mask[n] then [n] else [])
  }

  /** One more step of the scan: position `a` is pushed exactly when its
      flag is set. */
  lemma MarkedNext(mask: seq<bool>, a: int)
    requires 0 <= a < |mask|
    ensures Marked(mask[..a + 1]) == Marked(mask[..a]) + (if mask[a] then [a] else [])
  {
    assert mask[..a + 1][..a] == mask[..a];
  }

  /** `s` without the entries at the positions listed in `dead`; positions
      always refer to `s` itself, the surviving entries keep their order. */
  function Compact<T>(s: seq<T>, dead: seq<int>): (r: seq<T>)
  {
    if s == [] then []
    else
      var n := |s| - 1;
      Compact(s[..n], dead) + (if n in dead then [] else [s[n]])
  }

  /** The entries of `s` whose flag in `mask` is clear, in their order. */
  function Keep<T>(s: seq<T>, mask: seq<bool>): (r: seq<T>)
    requires |s| == |mask|
  {
    if s == [] then []
    else
      var n := |s| - 1;
      Keep(s[..n], mask[..n]) + (if mask[n] then [] else [s[n]])
  }

  /** The scan pushes one position per set flag. */
  lemma {:induction false} MarkedCount(mask: seq<bool>)
    ensures |Marked(mask)| == Count(mask)
  {
    if mask != [] {
      MarkedCount(mask[..|mask| - 1]);
    }
  }

  /** Compacting drops exactly the marked entries. */
  lemma {:induction false} KeepLength<T>(s: seq<T>, mask: seq<bool>)
    requires |s| == |mask|
    ensures |Keep(s, mask)| == |s| - Count(mask)
  {
    if s != [] {
      KeepLength(s[..|s| - 1], mask[..|s| - 1]);
    }
  }

  /** Every entry that remains comes from an unmarked position. */
  lemma {:induction false} KeepFrom<T>(s: seq<T>, mask: seq<bool>, x: T)
    requires |s| == |mask|
    requires x in Keep(s, mask)
    ensures exists k :: 0 <= k < |s| && !mask[k] && s[k] == x
  {
    var n := |s| - 1;
    if x in Keep(s[..n], mask[..n]) {
      KeepFrom(s[..n], mask[..n], x);
      var k :| 0 <= k < n && !mask[..n][k] && s[..n][k] == x;
      assert !mask[k] && s[k] == x;
    } else {
      assert !mask[n] && s[n] == x;
    }
  }

  /** Every entry at an unmarked position remains. */
  lemma {:induction false} KeepRetains<T>(s: seq<T>, mask: seq<bool>, k: int)
    requires |s| == |mask|
    requires 0 <= k < |s| && !mask[k]
    ensures s[k] in Keep(s, mask)
  {
    var n := |s| - 1;
    if k < n {
      KeepRetains(s[..n], mask[..n], k);
    }
  }

  /** The entries that remain are exactly the entries at unmarked positions. */
  lemma KeepMembers<T>(s: seq<T>, mask: seq<bool>)
    requires |s| == |mask|
    ensures forall x :: x in Keep(s, mask) <==> exists k :: 0 <= k < |s| && !mask[k] && s[k] == x
  {
    forall x | x in Keep(s, mask)
      ensures exists k :: 0 <= k < |s| && !mask[k] && s[k] == x
    {
      KeepFrom(s, mask, x);
    }
    forall k | 0 <= k < |s| && !mask[k]
      ensures s[k] in Keep(s, mask)
    {
      KeepRetains(s, mask, k);
    }
  }

  /** Only positions below `|s|` matter to `Compact`. */
  lemma {:induction false} CompactAgree<T>(s: seq<T>, d1: seq<int>, d2: seq<int>)
    requires forall k :: 0 <= k < |s| ==> (k in d1 <==> k in d2)
    ensures Compact(s, d1) == Compact(s, d2)
  {
    if s != [] {
      CompactAgree(s[..|s| - 1], d1, d2);
    }
  }

  /** Erasing no position of `s` leaves `s`. */
  lemma {:induction false} CompactNone<T>(s: seq<T>, dead: seq<int>)
    requires forall k :: 0 <= k < |s| ==> k !in dead
    ensures Compact(s, dead) == s
  {
    if s != [] {
      var n := |s| - 1;
      CompactNone(s[..n], dead);
      assert s[..n] + [s[n]] == s;
    }
  }

  /** Erasing position `e` of the array that remains after the higher
      positions `dead` were erased is the same as erasing `e` together with
      them from the original: the entries below every position of `dead`
      have not moved. */
  lemma {:induction false} CompactStep<T>(s: seq<T>, dead: seq<int>, e: int)
    requires 0 <= e < |s|
    requires forall i :: 0 <= i < |dead| ==> e < dead[i]
    ensures e < |Compact(s, dead)|
    ensures Compact(s, [e] + dead) == Compact(s, dead)[..e] + Compact(s, dead)[e + 1..]
  {
    var n := |s| - 1;
    if n == e {
      CompactNone(s[..n], dead);
      CompactNone(s[..n], [e] + dead);
    } else {
      CompactStep(s[..n], dead, e);
    }
  }

  /** The compaction theorem: erasing the positions the scan collected leaves
      exactly the unmarked entries, in their original order. */
  lemma {:induction false} EraseMarkedKeepsUnmarked<T>(s: seq<T>, mask: seq<bool>)
    requires |s| == |mask|
    ensures Compact(s, Marked(mask)) == Keep(s, mask)
  {
    if s != [] {
      var n := |s| - 1;
      CompactAgree(s[..n], Marked(mask), Marked(mask[..n]));
      EraseMarkedKeepsUnmarked(s[..n], mask[..n]);
    }
  }

  /** With no flag set nothing is removed. */
  lemma {:induction false} KeepAll<T>(s: seq<T>, mask: seq<bool>)
    requires |s| == |mask|
    requires forall k :: 0 <= k < |mask| ==> !mask[k]
    ensures Keep(s, mask) == s
  {
    if s != [] {
      var n := |s| - 1;
      KeepAll(s[..n], mask[..n]);
      assert s[..n] + [s[n]] == s;
    }
  }

  /** `Count` is the number of flagged positions. */
  lemma {:induction false} CountIsCardinality(mask: seq<bool>)
    ensures Count(mask) == |set k | 0 <= k < |mask| && mask[k]|
  {
    if mask != [] {
      var n := |mask| - 1;
      CountIsCardinality(mask[..n]);
      var below := set k | 0 <= k < n && mask[..n][k];
      assert (set k | 0 <= k < |mask| && mask[k]) == below + (if mask[n] then {n} else {});
    }
  }
}
