/**
 * Order-preserving subsequences, witnessed by a strictly increasing list of
 * positions into the longer sequence.
 */
module Subsequences {

  /** `idx` picks `a` out of `b`: `a[k] == b[idx[k]]`, positions strictly increasing. */
  ghost predicate SubseqVia<T>(a: seq<T>, b: seq<T>, idx: seq<int>) {
    && |idx| == |a|
    && (forall k :: 0 <= k < |idx| ==> 0 <= idx[k] < |b| && a[k] == b[idx[k]])
    && (forall k, l :: 0 <= k < l < |idx| ==> idx[k] < idx[l])
  }

  /** `a` is `b` with some elements removed, the rest kept in their order. */
  ghost predicate IsSubseq<T>(a: seq<T>, b: seq<T>) {
    exists idx :: SubseqVia(a, b, idx)
  }

  /** Picking out of a picked-out sequence is picking out of the original. */
  lemma SubseqTransitive<T>(a: seq<T>, b: seq<T>, c: seq<T>)
    requires IsSubseq(a, b) && IsSubseq(b, c)
    ensures IsSubseq(a, c)
  {
    var ia :| SubseqVia(a, b, ia);
    var ib :| SubseqVia(b, c, ib);
    var ic := seq(|ia|, k requires 0 <= k < |ia| => ib[ia[k]]);
    assert SubseqVia(a, c, ic);
  }

  function Shift(idx: seq<int>): (r: seq<int>)
    ensures |r| == |idx|
    ensures forall k :: 0 <= k < |idx| ==> r[k] == idx[k] + 1
  {
    seq(|idx|, k requires 0 <= k < |idx| => idx[k] + 1)
  }

  /** A new first element of `b` may be skipped or matched. */
  lemma SubseqPrepend<T>(a: seq<T>, b: seq<T>, x: T, idx: seq<int>)
    requires SubseqVia(a, b, idx)
    ensures SubseqVia(a, [x] + b, Shift(idx))
    ensures SubseqVia([x] + a, [x] + b, [0] + Shift(idx))
  {
    var sh := Shift(idx);
    forall k | 0 <= k < |sh| ensures 0 <= sh[k] < |[x] + b| && a[k] == ([x] + b)[sh[k]] {
      assert ([x] + b)[idx[k] + 1] == b[idx[k]];
    }
    var c := [0] + sh;
    forall k | 0 <= k < |c| ensures 0 <= c[k] < |[x] + b| && ([x] + a)[k] == ([x] + b)[c[k]] {
      if k > 0 {
        assert c[k] == sh[k - 1];
        assert ([x] + a)[k] == a[k - 1];
      }
    }
  }

  /** A new last element of `b` may be skipped or matched. */
  lemma SubseqAppend<T>(a: seq<T>, b: seq<T>, x: T, idx: seq<int>)
    requires SubseqVia(a, b, idx)
    ensures SubseqVia(a, b + [x], idx)
    ensures SubseqVia(a + [x], b + [x], idx + [|b|])
  {
    var c := idx + [|b|];
    forall k | 0 <= k < |c| ensures 0 <= c[k] < |b + [x]| && (a + [x])[k] == (b + [x])[c[k]] {
      if k < |idx| {
        assert c[k] == idx[k];
      }
    }
  }
}
