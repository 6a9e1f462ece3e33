/**
 * Boolean-mask row selection, `table[mask]` in the dataframe idiom the
 * simulator uses for every filter: the rows whose mask entry is true, in
 * their original order. The client radius filter, the competitor filter,
 * the active-competitor loop and the candidate list of the nearest-workshop
 * search are all instances of it.
 */
module Masks {

  /** Number of true entries of a mask, as `mask.sum()` counts them. */
  function Trues(keep: seq<bool>): nat
  {
    if |keep| == 0 then 0
    else Trues(keep[..|keep| - 1]) + (if keep[|keep| - 1] then 1 else 0)
  }

  /** The rows of `xs` whose entry in `keep` is true, in order. */
  function Mask<T>(xs: seq<T>, keep: seq<bool>): (r: seq<T>)
    requires |keep| == |xs|
    ensures |r| == Trues(keep) <= |xs|
  {
    if |xs| == 0 then []
    else
      var n := |xs| - 1;
      Mask(xs[..n], keep[..n]) + (if keep[n] then [xs[n]] else [])
  }

  /**
   * The positions of the true entries, in increasing order: the row labels
   * that survive a mask.
   */
  function TrueIndices(keep: seq<bool>): (idx: seq<nat>)
    ensures |idx| == Trues(keep)
    ensures forall j :: 0 <= j < |idx| ==> idx[j] < |keep| && keep[idx[j]]
    ensures forall j, k :: 0 <= j < k < |idx| ==> idx[j] < idx[k]
    ensures forall i :: 0 <= i < |keep| && keep[i] ==> i in idx
  {
    if |keep| == 0 then []
    else
      var n := |keep| - 1;
      var front := TrueIndices(keep[..n]);
      assert forall i :: 0 <= i < n ==> keep[..n][i] == keep[i];
      front + (if keep[n] then [n] else [])
  }

  /**
   * A mask keeps exactly the rows at its true positions, in their original
   * order: row j of the result is row `TrueIndices(keep)[j]` of the input.
   */
  lemma {:induction false} MaskSelects<T>(xs: seq<T>, keep: seq<bool>)
    requires |keep| == |xs|
    ensures |Mask(xs, keep)| == |TrueIndices(keep)|
    ensures forall j :: 0 <= j < |TrueIndices(keep)| ==>
      Mask(xs, keep)[j] == xs[TrueIndices(keep)[j]]
  {
    if |xs| > 0 {
      var n := |xs| - 1;
      MaskSelects(xs[..n], keep[..n]);
      var front, frontIdx := Mask(xs[..n], keep[..n]), TrueIndices(keep[..n]);
      assert Mask(xs, keep) == front + (if keep[n] then [xs[n]] else []);
      assert TrueIndices(keep) == frontIdx + (if keep[n] then [n] else []);
      forall j | 0 <= j < |frontIdx|
        ensures Mask(xs, keep)[j] == xs[TrueIndices(keep)[j]]
      {
        assert frontIdx[j] < n;
        assert front[j] == xs[..n][frontIdx[j]] == xs[frontIdx[j]];
      }
    }
  }

  /** A row value is in the result exactly when some kept row holds it. */
  lemma MaskMembers<T>(xs: seq<T>, keep: seq<bool>)
    requires |keep| == |xs|
    ensures forall x :: x in Mask(xs, keep) <==>
      exists i :: 0 <= i < |xs| && keep[i] && xs[i] == x
  {
    MaskSelects(xs, keep);
    var r, idx := Mask(xs, keep), TrueIndices(keep);
    forall x | x in r ensures exists i :: 0 <= i < |xs| && keep[i] && xs[i] == x {
      var j :| 0 <= j < |r| && r[j] == x;
      assert keep[idx[j]] && xs[idx[j]] == x;
    }
    forall x | exists i :: 0 <= i < |xs| && keep[i] && xs[i] == x ensures x in r {
      var i :| 0 <= i < |xs| && keep[i] && xs[i] == x;
      var j :| 0 <= j < |idx| && idx[j] == i;
      assert r[j] == x;
    }
  }

  /** A mask that is true everywhere keeps the whole table. */
  lemma {:induction false} MaskAll<T>(xs: seq<T>, keep: seq<bool>)
    requires |keep| == |xs|
    requires forall i :: 0 <= i < |keep| ==> keep[i]
    ensures Mask(xs, keep) == xs
  {
    if |xs| > 0 {
      var n := |xs| - 1;
      MaskAll(xs[..n], keep[..n]);
      assert xs[..n] + [xs[n]] == xs;
    }
  }

  /** A mask that is false everywhere keeps nothing. */
  lemma {:induction false} TruesNone(keep: seq<bool>)
    requires forall i :: 0 <= i < |keep| ==> !keep[i]
    ensures Trues(keep) == 0
  {
    if |keep| > 0 {
      TruesNone(keep[..|keep| - 1]);
    }
  }

  /** Two masks that are never true at the same row keep at most all rows between them. */
  lemma {:induction false} TruesDisjoint(m1: seq<bool>, m2: seq<bool>)
    requires |m1| == |m2|
    requires forall i :: 0 <= i < |m1| ==> !(m1[i] && m2[i])
    ensures Trues(m1) + Trues(m2) <= |m1|
  {
    if |m1| > 0 {
      var n := |m1| - 1;
      TruesDisjoint(m1[..n], m2[..n]);
    }
  }

  /** Three masks of which exactly one is true at every row share the rows out among them. */
  lemma {:induction false} TruesPartition(m1: seq<bool>, m2: seq<bool>, m3: seq<bool>)
    requires |m1| == |m2| == |m3|
    requires forall i :: 0 <= i < |m1| ==>
      (if m1[i] then 1 else 0) + (if m2[i] then 1 else 0) + (if m3[i] then 1 else 0) == 1
    ensures Trues(m1) + Trues(m2) + Trues(m3) == |m1|
  {
    if |m1| > 0 {
      var n := |m1| - 1;
      TruesPartition(m1[..n], m2[..n], m3[..n]);
    }
  }

  /**
   * Masking keeps parallel columns aligned: when column `ys` is computed row
   * by row from `xs` by `f`, the masked `ys` is `f` of the masked `xs`.
   */
  lemma MaskAligned<T, U>(xs: seq<T>, ys: seq<U>, keep: seq<bool>, f: T -> U)
    requires |xs| == |ys| == |keep|
    requires forall i :: 0 <= i < |xs| ==> ys[i] == f(xs[i])
    ensures |Mask(ys, keep)| == |Mask(xs, keep)|
    ensures forall j :: 0 <= j < |Mask(xs, keep)| ==> Mask(ys, keep)[j] == f(Mask(xs, keep)[j])
  {
    MaskSelects(xs, keep);
    MaskSelects(ys, keep);
  }
}
