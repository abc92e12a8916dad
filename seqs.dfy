/**
 * Sequence helpers shared by the model: a filter (Python's list
 * comprehension with a condition) and a first-match search (Python's
 * `next(generator, None)`), each with the lemmas that characterise it.
 */
module Seqs {
  import opened Wrappers

  /** The elements of `s` that satisfy `p`, in their original order. */
  function Filter<T>(s: seq<T>, p: T -> bool): (r: seq<T>)
    ensures |r| <= |s|
    ensures forall k :: 0 <= k < |r| ==> p(r[k])
    decreases |s|
  {
    if s == [] then []
    else (if p(s[0]) then [s[0]] else []) + Filter(s[1..], p)
  }

  ghost predicate Increasing(idx: seq<nat>) {
    forall a, b :: 0 <= a < b < |idx| ==> idx[a] < idx[b]
  }

  /** Every position of `idx`, moved one place to the right. */
  function Shifted(idx: seq<nat>): (r: seq<nat>)
    ensures |r| == |idx|
    ensures forall k :: 0 <= k < |r| ==> r[k] == idx[k] + 1
  {
    seq(|idx|, k requires 0 <= k < |idx| => idx[k] + 1)
  }

  /** The positions of `s` where `p` holds, in increasing order. */
  ghost function Positions<T>(s: seq<T>, p: T -> bool): (idx: seq<nat>)
    ensures |idx| == |Filter(s, p)|
    decreases |s|
  {
    if s == [] then []
    else (if p(s[0]) then [0] else []) + Shifted(Positions(s[1..], p))
  }

  lemma {:induction false} PositionsIncreasing<T>(s: seq<T>, p: T -> bool)
    ensures Increasing(Positions(s, p))
    ensures forall k :: 0 <= k < |Positions(s, p)| ==> Positions(s, p)[k] < |s|
    decreases |s|
  {
    if s != [] {
      PositionsIncreasing(s[1..], p);
    }
  }

  lemma {:induction false} PositionsPick<T>(s: seq<T>, p: T -> bool)
    ensures forall k :: 0 <= k < |Positions(s, p)| ==>
      Positions(s, p)[k] < |s| && Filter(s, p)[k] == s[Positions(s, p)[k]]
    decreases |s|
  {
    if s != [] {
      PositionsPick(s[1..], p);
      assert Filter(s, p) == (if p(s[0]) then [s[0]] else []) + Filter(s[1..], p);
    }
  }

  /** A position is in the shifted sequence exactly when its predecessor is in the original. */
  lemma InShifted(idx: seq<nat>, i: nat)
    ensures i in Shifted(idx) <==> i >= 1 && i - 1 in idx
  {
    if i in Shifted(idx) {
      var k :| 0 <= k < |idx| && Shifted(idx)[k] == i;
      assert idx[k] == i - 1;
    }
    if i >= 1 && i - 1 in idx {
      var k :| 0 <= k < |idx| && idx[k] == i - 1;
      assert Shifted(idx)[k] == i;
    }
  }

  lemma {:induction false} PositionsComplete<T>(s: seq<T>, p: T -> bool)
    ensures forall i :: 0 <= i < |s| ==> (p(s[i]) <==> i in Positions(s, p))
    decreases |s|
  {
    if s != [] {
      var tail := Positions(s[1..], p);
      var head: seq<nat> := if p(s[0]) then [0] else [];
      assert Positions(s, p) == head + Shifted(tail);
      PositionsComplete(s[1..], p);
      forall i | 0 <= i < |s|
        ensures p(s[i]) <==> i in Positions(s, p)
      {
        InShifted(tail, i);
        if i >= 1 {
          assert s[i] == s[1..][i - 1];
        }
      }
    }
  }

  /** Filter keeps exactly the positions where `p` holds, in increasing order. */
  lemma FilterPositions<T>(s: seq<T>, p: T -> bool) returns (idx: seq<nat>)
    ensures |idx| == |Filter(s, p)|
    ensures Increasing(idx)
    ensures forall k :: 0 <= k < |idx| ==> idx[k] < |s| && Filter(s, p)[k] == s[idx[k]]
    ensures forall i :: 0 <= i < |s| ==> (p(s[i]) <==> i in idx)
  {
    idx := Positions(s, p);
    PositionsIncreasing(s, p);
    PositionsPick(s, p);
    PositionsComplete(s, p);
  }

  /** The last element Filter keeps is the element at the last position where `p` holds. */
  lemma FilterLast<T>(s: seq<T>, p: T -> bool) returns (j: nat)
    requires Filter(s, p) != []
    ensures j < |s| && p(s[j])
    ensures Filter(s, p)[|Filter(s, p)| - 1] == s[j]
    ensures forall i :: j < i < |s| ==> !p(s[i])
  {
    var idx := FilterPositions(s, p);
    j := idx[|idx| - 1];
  }

  /** The first element of `s` satisfying `p`, or None. */
  function First<T>(s: seq<T>, p: T -> bool): Option<T>
    decreases |s|
  {
    if s == [] then None
    else if p(s[0]) then Some(s[0])
    else First(s[1..], p)
  }

  /** First finds nothing exactly when no element satisfies `p`; otherwise it finds the
      element at the least position where `p` holds. */
  lemma {:induction false} FirstSpec<T>(s: seq<T>, p: T -> bool) returns (j: nat)
    ensures First(s, p).None? <==> forall i :: 0 <= i < |s| ==> !p(s[i])
    ensures First(s, p).Some? ==>
      j < |s| && p(s[j]) && First(s, p).value == s[j] && forall i :: 0 <= i < j ==> !p(s[i])
    decreases |s|
  {
    if s == [] {
      j := 0;
    } else if p(s[0]) {
      j := 0;
    } else {
      var t := FirstSpec(s[1..], p);
      j := t + 1;
      forall i | 1 <= i < |s|
        ensures s[i] == s[1..][i - 1]
      {
      }
    }
  }
}
