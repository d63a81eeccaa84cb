/** The `Array.prototype.filter` and `find` the client and the controllers use, and the facts
    about them the proofs need: a filter keeps exactly the matching elements, in their original
    order. */
module Seqs {
  import opened Wrappers

  /** The position of the first element of `s` that satisfies `p` (what a `findOne` with a
      `where` clause, or `Array.prototype.find`, picks), or `None` when no element does. */
  function IndexWhere<T>(s: seq<T>, p: T -> bool): (r: Option<nat>)
    ensures r.Some? ==> r.value < |s| && p(s[r.value]) && forall j :: 0 <= j < r.value ==> !p(s[j])
    ensures r.None? ==> forall j :: 0 <= j < |s| ==> !p(s[j])
  {
    if s == [] then None
    else if p(s[0]) then Some(0)
    else match IndexWhere(s[1..], p)
      case None => None
      case Some(k) => Some(k + 1)
  }

  /** The elements of `s` that satisfy `p`, in the order they appear in `s`. */
  function Filter<T(!new)>(s: seq<T>, p: T -> bool): (r: seq<T>)
    ensures |r| <= |s|
    ensures forall x :: x in r <==> x in s && p(x)
    ensures forall i :: 0 <= i < |r| ==> p(r[i])
  {
    if s == [] then [] else (if p(s[0]) then [s[0]] else []) + Filter(s[1..], p)
  }

  /** Filtering distributes over concatenation, so the relative order of kept elements is the
      order of `s`. */
  lemma {:induction false} FilterAppend<T(!new)>(a: seq<T>, b: seq<T>, p: T -> bool)
    ensures Filter(a + b, p) == Filter(a, p) + Filter(b, p)
  {
    if a == [] {
      assert a + b == b;
    } else {
      assert (a + b)[0] == a[0];
      assert (a + b)[1..] == a[1..] + b;
      FilterAppend(a[1..], b, p);
    }
  }

  /** A filter keeps something exactly when there is an element to find. */
  lemma FilterFindsFirst<T(!new)>(s: seq<T>, p: T -> bool)
    ensures |Filter(s, p)| > 0 <==> IndexWhere(s, p).Some?
  {
    if IndexWhere(s, p).Some? {
      assert s[IndexWhere(s, p).value] in Filter(s, p);
    }
  }

  /** A filter keeps every element when all match and none when none match. */
  lemma {:induction false} FilterAllOrNone<T(!new)>(s: seq<T>, p: T -> bool)
    ensures (forall i :: 0 <= i < |s| ==> p(s[i])) ==> Filter(s, p) == s
    ensures (forall i :: 0 <= i < |s| ==> !p(s[i])) ==> Filter(s, p) == []
  {
    if s != [] {
      FilterAllOrNone(s[1..], p);
    }
  }

  /** Pointwise, if every element of `a` that satisfies `p` sits where `b` has an element that
      satisfies `p` or `q`, then `a` keeps at most as many as `b` keeps under `p` and `q`. */
  lemma {:induction false} FilterCountBound<T(!new)>(a: seq<T>, b: seq<T>, p: T -> bool, q: T -> bool)
    requires |a| == |b|
    requires forall i :: 0 <= i < |a| && p(a[i]) ==> p(b[i]) || q(b[i])
    ensures |Filter(a, p)| <= |Filter(b, p)| + |Filter(b, q)|
  {
    if a != [] {
      FilterCountBound(a[1..], b[1..], p, q);
    }
  }

  /** The special case with no second predicate: a pointwise weaker sequence keeps no more. */
  lemma FilterCountMonotone<T(!new)>(a: seq<T>, b: seq<T>, p: T -> bool)
    requires |a| == |b|
    requires forall i :: 0 <= i < |a| && p(a[i]) ==> p(b[i])
    ensures |Filter(a, p)| <= |Filter(b, p)|
  {
    var never := (x: T) => false;
    FilterCountBound(a, b, p, never);
    FilterAllOrNone(b, never);
  }
}
