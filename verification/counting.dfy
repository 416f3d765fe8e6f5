/**
 Counting and order-preserving filtering of sequences: the plain sequence
 meaning of a `$match` stage and of a `{"$sum": {"$cond": [p, 1, 0]}}` accumulator.
 */
module Counting {

  /** Number of positions of `s` whose element satisfies `p`. */
  function Count<T>(s: seq<T>, p: T -> bool): nat
  {
    |set i | 0 <= i < |s| && p(s[i])|
  }

  lemma EmptyCount<T>(s: seq<T>, p: T -> bool)
    requires s == []
    ensures Count(s, p) == 0
  {
    assert (set i | 0 <= i < |s| && p(s[i])) == {};
  }

  /** Appending one element adds one to the count exactly when it satisfies `p`. */
  lemma CountSnoc<T>(s: seq<T>, x: T, p: T -> bool)
    ensures Count(s + [x], p) == Count(s, p) + (if p(x) then 1 else 0)
  {
    var t := s + [x];
    var before := set i | 0 <= i < |s| && p(s[i]);
    var after := set i | 0 <= i < |t| && p(t[i]);
    if p(x) {
      assert after == before + {|s|};
    } else {
      assert after == before;
    }
  }

  /** The elements of `s` that satisfy `p`, in their original order. */
  function Keep<T>(s: seq<T>, p: T -> bool): (r: seq<T>)
    ensures |r| <= |s|
    ensures forall i :: 0 <= i < |r| ==> p(r[i])
    ensures forall i :: 0 <= i < |s| && p(s[i]) ==> s[i] in r
    ensures forall x :: x in r ==> x in s
  {
    if s == [] then []
    else
      var front := Keep(s[..|s| - 1], p);
      var last := s[|s| - 1];
      assert forall i :: 0 <= i < |s| - 1 ==> s[..|s| - 1][i] == s[i];
      assert forall x :: x in s[..|s| - 1] ==> x in s;
      front + (if p(last) then [last] else [])
  }

  /** The filter keeps exactly as many elements as satisfy `p`. */
  lemma {:induction false} KeepCount<T>(s: seq<T>, p: T -> bool)
    ensures |Keep(s, p)| == Count(s, p) <= |s|
  {
    if s != [] {
      var front := s[..|s| - 1];
      KeepCount(front, p);
      assert s == front + [s[|s| - 1]];
      CountSnoc(front, s[|s| - 1], p);
    }
  }
}
