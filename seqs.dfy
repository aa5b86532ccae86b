/** Order-preserving selection from a sequence: the `Array.prototype.filter`
    that every derived list of the transactions composable is built from. */
module Seqs {

  /** The elements of `s` that satisfy `p`, in the order they occur in `s`. */
  function Filter<T(==)>(s: seq<T>, p: T -> bool): (r: seq<T>)
    ensures |r| <= |s|
    ensures forall i :: 0 <= i < |r| ==> p(r[i]) && r[i] in s
    ensures forall i :: 0 <= i < |s| && p(s[i]) ==> s[i] in r
  {
    if s == [] then []
    else if p(s[0]) then [s[0]] + Filter(s[1..], p)
    else Filter(s[1..], p)
  }

  /** `a` can be obtained from `b` by deleting elements; the order of what is kept is unchanged. */
  predicate IsSubseq<T(==)>(a: seq<T>, b: seq<T>)
    decreases |b|
  {
    if a == [] then true
    else if b == [] then false
    else (a[0] == b[0] && IsSubseq(a[1..], b[1..])) || IsSubseq(a, b[1..])
  }

  /** The indices of `s` whose element satisfies `p`. */
  function Matching<T>(s: seq<T>, p: T -> bool): set<nat>
  {
    set i: nat | i < |s| && p(s[i])
  }

  /** Filtering distributes over concatenation. */
  lemma {:induction false} FilterAppend<T>(a: seq<T>, b: seq<T>, p: T -> bool)
    ensures Filter(a + b, p) == Filter(a, p) + Filter(b, p)
  {
    if a != [] {
      assert (a + b)[1..] == a[1..] + b;
      FilterAppend(a[1..], b, p);
    } else {
      assert a + b == b;
    }
  }

  /** Nothing is kept when no element satisfies `p`. */
  lemma {:induction false} FilterNone<T>(s: seq<T>, p: T -> bool)
    requires forall i :: 0 <= i < |s| ==> !p(s[i])
    ensures Filter(s, p) == []
  {
    if s != [] {
      FilterNone(s[1..], p);
    }
  }

  /** What Filter keeps is a subsequence of its input. */
  lemma {:induction false} FilterIsSubseq<T>(s: seq<T>, p: T -> bool)
    ensures IsSubseq(Filter(s, p), s)
  {
    if s != [] {
      FilterIsSubseq(s[1..], p);
      if p(s[0]) {
        assert Filter(s, p)[1..] == Filter(s[1..], p);
      }
    }
  }

  /** A subsequence of `b` made only of elements satisfying `p` is a subsequence of `Filter(b, p)`. */
  lemma {:induction false} SubseqOfFilter<T>(a: seq<T>, b: seq<T>, p: T -> bool)
    requires IsSubseq(a, b)
    requires forall i :: 0 <= i < |a| ==> p(a[i])
    ensures IsSubseq(a, Filter(b, p))
    decreases |b|
  {
    if a != [] {
      var f := Filter(b, p);
      if a[0] == b[0] && IsSubseq(a[1..], b[1..]) {
        SubseqOfFilter(a[1..], b[1..], p);
        assert p(b[0]);
        assert f[0] == a[0] && f[1..] == Filter(b[1..], p);
      } else {
        SubseqOfFilter(a, b[1..], p);
        if p(b[0]) {
          assert f[1..] == Filter(b[1..], p);
        }
      }
    }
  }

  /** A subsequence is never longer than the sequence, and one of equal length is the sequence itself. */
  lemma {:induction false} SubseqLength<T>(a: seq<T>, b: seq<T>)
    requires IsSubseq(a, b)
    ensures |a| <= |b|
    ensures |a| == |b| ==> a == b
    decreases |b|
  {
    if a != [] {
      if a[0] == b[0] && IsSubseq(a[1..], b[1..]) {
        SubseqLength(a[1..], b[1..]);
        if |a| == |b| {
          assert a == [a[0]] + a[1..];
          assert b == [b[0]] + b[1..];
        }
      } else {
        SubseqLength(a, b[1..]);
      }
    }
  }

  /** Filter(s, p) is THE subsequence of `s` whose elements satisfy `p`: it is one, and every
      other such subsequence is shorter or equal to it. */
  lemma FilterIsLargest<T>(r: seq<T>, s: seq<T>, p: T -> bool)
    requires IsSubseq(r, s)
    requires forall i :: 0 <= i < |r| ==> p(r[i])
    ensures IsSubseq(Filter(s, p), s)
    ensures |r| <= |Filter(s, p)|
    ensures |r| == |Filter(s, p)| ==> r == Filter(s, p)
  {
    FilterIsSubseq(s, p);
    SubseqOfFilter(r, s, p);
    SubseqLength(r, Filter(s, p));
  }

  /** The length of Filter(s, p) is the number of positions of `s` that satisfy `p`. */
  lemma {:induction false} FilterLength<T>(s: seq<T>, p: T -> bool)
    ensures |Filter(s, p)| == |Matching(s, p)|
    decreases |s|
  {
    if s != [] {
      var n := |s| - 1;
      var init := s[..n];
      FilterLength(init, p);
      assert s == init + [s[n]];
      FilterAppend(init, [s[n]], p);
      assert [s[n]][1..] == [];
      if p(s[n]) {
        assert Matching(s, p) == Matching(init, p) + {n};
        assert n !in Matching(init, p);
      } else {
        assert Matching(s, p) == Matching(init, p);
      }
    }
  }
}
