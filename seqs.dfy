/**
 The one sequence combinator the board relies on twice: JavaScript's
 `Array.prototype.filter`, which keeps the elements that satisfy a test, in
 their original order. `deleteTask` and `getTasksByColumn` are both filters.
 */
module Seqs {

  /** The elements of `s` that satisfy `keep`, in the order they have in `s`. */
  function Filter<T(!new)>(s: seq<T>, keep: T -> bool): (r: seq<T>)
    ensures |r| <= |s|
    ensures forall x :: x in r <==> x in s && keep(x)
  {
    if s == [] then []
    else if keep(s[0]) then [s[0]] + Filter(s[1..], keep)
    else Filter(s[1..], keep)
  }

  ghost predicate StrictlyIncreasing(idx: seq<nat>) {
    forall k, l :: 0 <= k < l < |idx| ==> idx[k] < idx[l]
  }

  /** `r` is the subsequence of `s` found at the increasing positions `idx`. */
  ghost predicate PicksOut<T(!new)>(r: seq<T>, s: seq<T>, idx: seq<nat>) {
    && |idx| == |r|
    && StrictlyIncreasing(idx)
    && forall k :: 0 <= k < |idx| ==> idx[k] < |s| && r[k] == s[idx[k]]
  }

  /** Every position moved one place to the right. */
  function Shift(idx: seq<nat>): seq<nat> {
    seq(|idx|, k requires 0 <= k < |idx| => idx[k] + 1)
  }

  /** A subsequence of the tail is a subsequence of the whole sequence, at
      positions one further on; with the head put in front, at position 0. */
  lemma PicksOutTail<T(!new)>(r: seq<T>, s: seq<T>, idx: seq<nat>)
    requires s != [] && PicksOut(r, s[1..], idx)
    ensures PicksOut(r, s, Shift(idx))
    ensures PicksOut([s[0]] + r, s, [0] + Shift(idx))
  {
  }

  /** One step of the filter: the head, if it passes, then the filtered tail. */
  lemma FilterCons<T(!new)>(s: seq<T>, keep: T -> bool)
    requires s != []
    ensures Filter(s, keep) == (if keep(s[0]) then [s[0]] else []) + Filter(s[1..], keep)
  {
  }

  /** If `rest` covers every passing position of the tail, the shifted
      positions, with 0 in front when the head passes, cover every passing
      position of the whole sequence. */
  lemma ShiftCovers<T(!new)>(s: seq<T>, keep: T -> bool, rest: seq<nat>)
    requires s != []
    requires forall i :: 0 <= i < |s| - 1 && keep(s[1..][i]) ==> i in rest
    ensures forall i :: 0 <= i < |s| && keep(s[i]) ==>
      i in (if keep(s[0]) then [0] else []) + Shift(rest)
  {
    var idx := (if keep(s[0]) then [0] else []) + Shift(rest);
    forall i | 0 <= i < |s| && keep(s[i])
      ensures i in idx
    {
      if i > 0 {
        assert s[1..][i - 1] == s[i];
        var k :| 0 <= k < |rest| && rest[k] == i - 1;
        assert idx[if keep(s[0]) then k + 1 else k] == i;
      }
    }
  }

  /** Order preservation: the filtered sequence is exactly the subsequence of
      `s` at the positions whose element passes the test. */
  lemma {:induction false} FilterPicksOut<T(!new)>(s: seq<T>, keep: T -> bool) returns (idx: seq<nat>)
    ensures PicksOut(Filter(s, keep), s, idx)
    ensures forall i :: 0 <= i < |s| && keep(s[i]) ==> i in idx
  {
    if s == [] {
      idx := [];
    } else {
      var rest := FilterPicksOut(s[1..], keep);
      var tail := Filter(s[1..], keep);
      PicksOutTail(tail, s, rest);
      FilterCons(s, keep);
      ShiftCovers(s, keep, rest);
      idx := (if keep(s[0]) then [0] else []) + Shift(rest);
      assert keep(s[0]) ==> Filter(s, keep) == [s[0]] + tail;
      assert !keep(s[0]) ==> Filter(s, keep) == tail && idx == Shift(rest);
    }
  }

  /** Filtering twice with the same test is filtering once. */
  lemma FilterIdempotent<T(!new)>(s: seq<T>, keep: T -> bool)
    ensures Filter(Filter(s, keep), keep) == Filter(s, keep)
  {
  }

  /** Filtering distributes over concatenation. */
  lemma {:induction false} FilterConcat<T(!new)>(a: seq<T>, b: seq<T>, keep: T -> bool)
    ensures Filter(a + b, keep) == Filter(a, keep) + Filter(b, keep)
  {
    if a == [] {
      assert a + b == b;
    } else {
      assert (a + b)[0] == a[0];
      assert (a + b)[1..] == a[1..] + b;
      FilterConcat(a[1..], b, keep);
    }
  }
}
