/**
 * The two ways a boolean filter is applied to a column: keep only the positions
 * where it is true (numpy's `column[filter]`, or a comprehension with `if f`), or
 * keep every position and put a blank where it is false (`column[~filter] = nan`).
 * The filter may be shorter than the column; only the filter's length is looked at.
 */
module Selection {

  /** Number of true entries. */
  function Count(mask: seq<bool>): nat
  {
    if mask == [] then 0 else (if mask[0] then 1 else 0) + Count(mask[1..])
  }

  /** Every entry of `s` moved up by one. */
  function Shift(s: seq<nat>): (r: seq<nat>)
    ensures |r| == |s| && forall k :: 0 <= k < |s| ==> r[k] == s[k] + 1
  {
    seq(|s|, k requires 0 <= k < |s| => s[k] + 1)
  }

  /** The positions where `mask` is true, in increasing order. */
  function TrueIndices(mask: seq<bool>): (r: seq<nat>)
    ensures |r| == Count(mask)
    ensures forall k :: 0 <= k < |r| ==> r[k] < |mask| && mask[r[k]]
    ensures forall k, l :: 0 <= k < l < |r| ==> r[k] < r[l]
  {
    if mask == [] then []
    else if mask[0] then [0] + Shift(TrueIndices(mask[1..]))
    else Shift(TrueIndices(mask[1..]))
  }

  /** No true position is missed. */
  lemma {:induction false} TrueIndicesComplete(mask: seq<bool>, i: nat)
    requires i < |mask| && mask[i]
    ensures i in TrueIndices(mask)
  {
    var r := TrueIndices(mask);
    if i == 0 {
      assert r[0] == 0;
    } else {
      TrueIndicesComplete(mask[1..], i - 1);
      var shifted := Shift(TrueIndices(mask[1..]));
      ShiftMember(TrueIndices(mask[1..]), i - 1);
      if mask[0] {
        assert r == [0] + shifted;
      } else {
        assert r == shifted;
      }
    }
  }

  lemma ShiftMember(s: seq<nat>, j: nat)
    requires j in s
    ensures j + 1 in Shift(s)
  {
    var k :| 0 <= k < |s| && s[k] == j;
    assert Shift(s)[k] == j + 1;
  }

  /** The entries of `xs` at the true positions of `mask`, in their original order. */
  function Select<T>(xs: seq<T>, mask: seq<bool>): (r: seq<T>)
    requires |mask| <= |xs|
    ensures |r| == Count(mask)
    ensures forall k :: 0 <= k < |r| ==> r[k] == xs[TrueIndices(mask)[k]]
  {
    if mask == [] then []
    else (if mask[0] then [xs[0]] else []) + Select(xs[1..], mask[1..])
  }

  /** Selecting over one more entry appends that entry exactly when its mask bit is set. */
  lemma {:induction false} SelectSnoc<T>(xs: seq<T>, mask: seq<bool>, x: T, b: bool)
    requires |mask| == |xs|
    ensures Select(xs + [x], mask + [b]) == Select(xs, mask) + if b then [x] else []
  {
    if mask == [] {
      assert xs + [x] == [x];
    } else {
      assert (xs + [x])[1..] == xs[1..] + [x];
      assert (mask + [b])[1..] == mask[1..] + [b];
      SelectSnoc(xs[1..], mask[1..], x, b);
    }
  }

  /** The first `|mask|` entries of `xs`, with `blank` wherever `mask` is false. */
  function Blank<T>(xs: seq<T>, mask: seq<bool>, blank: T): (r: seq<T>)
    requires |mask| <= |xs|
    ensures |r| == |mask|
    ensures forall i :: 0 <= i < |mask| ==> r[i] == if mask[i] then xs[i] else blank
  {
    if mask == [] then []
    else [if mask[0] then xs[0] else blank] + Blank(xs[1..], mask[1..], blank)
  }

  /**
   * The two policies agree on what they keep: dropping the blanked positions of
   * a blanked column gives the selected column.
   */
  lemma {:induction false} SelectAfterBlank<T>(xs: seq<T>, mask: seq<bool>, blank: T)
    requires |mask| <= |xs|
    ensures Select(Blank(xs, mask, blank), mask) == Select(xs, mask)
  {
    if mask != [] {
      var b := Blank(xs, mask, blank);
      assert b[1..] == Blank(xs[1..], mask[1..], blank);
      SelectAfterBlank(xs[1..], mask[1..], blank);
    }
  }
}
