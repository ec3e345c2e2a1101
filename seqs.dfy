/**
 * `Array.prototype.filter` on sequences, and the positions it keeps, so that
 * "the result is exactly the elements satisfying `p`, in their original
 * order" can be stated and proved.
 */
module Seqs {

  /** `s.filter(p)`. */
  function Filter<T>(p: T -> bool, s: seq<T>): (r: seq<T>)
    ensures |r| <= |s|
    ensures forall k :: 0 <= k < |r| ==> p(r[k])
    ensures forall x :: x in r ==> x in s
  {
    if s == [] then [] else (if p(s[0]) then [s[0]] else []) + Filter(p, s[1..])
  }

  /** The indices `i` of `s` with `p(s[i])`, in increasing order. */
  function Positions<T>(p: T -> bool, s: seq<T>): (idx: seq<nat>)
    ensures forall k :: 0 <= k < |idx| ==> idx[k] < |s| && p(s[idx[k]])
    ensures forall k, l :: 0 <= k < l < |idx| ==> idx[k] < idx[l]
    ensures forall i :: 0 <= i < |s| && p(s[i]) ==> i in idx
  {
    if s == [] then []
    else
      var n := |s| - 1;
      var front := Positions(p, s[..n]);
      assert forall k :: 0 <= k < |front| ==> s[..n][front[k]] == s[front[k]];
      front + (if p(s[n]) then [n] else [])
  }

  lemma {:induction false} FilterAppend<T>(p: T -> bool, s: seq<T>, t: seq<T>)
    ensures Filter(p, s + t) == Filter(p, s) + Filter(p, t)
  {
    if s == [] {
      assert s + t == t;
    } else {
      assert (s + t)[1..] == s[1..] + t;
      FilterAppend(p, s[1..], t);
    }
  }

  /**
   * The filter keeps exactly the elements at `Positions(p, s)`: every element
   * satisfying `p`, in the order in which they occur in `s`.
   */
  lemma {:induction false} FilterSelectsPositions<T>(p: T -> bool, s: seq<T>)
    ensures |Filter(p, s)| == |Positions(p, s)|
    ensures forall k :: 0 <= k < |Filter(p, s)| ==> Filter(p, s)[k] == s[Positions(p, s)[k]]
  {
    if s != [] {
      var n := |s| - 1;
      assert s == s[..n] + [s[n]];
      FilterAppend(p, s[..n], [s[n]]);
      FilterSelectsPositions(p, s[..n]);
      assert [s[n]][1..] == [];
    }
  }

  /** Filters by two predicates that no element satisfies together share no position, so they fit in `s`. */
  lemma {:induction false} DisjointFiltersFit<T>(p: T -> bool, q: T -> bool, s: seq<T>)
    requires forall x :: !(p(x) && q(x))
    ensures |Filter(p, s)| + |Filter(q, s)| <= |s|
    ensures forall x :: x in Filter(p, s) ==> x !in Filter(q, s)
  {
    if s != [] {
      DisjointFiltersFit(p, q, s[1..]);
      assert !(p(s[0]) && q(s[0]));
    }
    forall x | x in Filter(p, s)
      ensures x !in Filter(q, s)
    {
      var k :| 0 <= k < |Filter(p, s)| && Filter(p, s)[k] == x;
      assert p(x) && !q(x);
    }
  }
}
