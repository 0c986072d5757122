/** Swift's `first(where:)` on arrays, as an index search. */
module Seqs {
  import opened Wrappers

  /**
   * The index of the first element of `s` that satisfies `p`, or None when
   * no element does.
   */
  function FirstWhere<T>(s: seq<T>, p: T -> bool): (r: Option<nat>)
    ensures r.Some? ==> r.value < |s| && p(s[r.value])
    ensures r.Some? ==> forall j :: 0 <= j < r.value ==> !p(s[j])
    ensures r.None? <==> forall j :: 0 <= j < |s| ==> !p(s[j])
  {
    if s == [] then None
    else if p(s[0]) then Some(0)
    else match FirstWhere(s[1..], p)
      case None => None
      case Some(k) => Some(k + 1)
  }

  /** `xs.compactMap(f)`: the values `f` gives, in order, with the Nones dropped. */
  function CompactMap<T, U>(xs: seq<T>, f: T -> Option<U>): (r: seq<U>)
    ensures |r| <= |xs|
  {
    if xs == [] then []
    else (match f(xs[0]) case Some(y) => [y] case None => []) + CompactMap(xs[1..], f)
  }

  /** Every value kept is the value `f` gives for some element. */
  lemma {:induction false} CompactMapOrigin<T, U>(xs: seq<T>, f: T -> Option<U>)
    ensures forall i :: 0 <= i < |CompactMap(xs, f)| ==>
      exists j :: 0 <= j < |xs| && f(xs[j]) == Some(CompactMap(xs, f)[i])
  {
    var r := CompactMap(xs, f);
    if xs == [] {
      assert r == [];
    } else {
      CompactMapOrigin(xs[1..], f);
      var head := match f(xs[0]) case Some(y) => [y] case None => [];
      var tail := CompactMap(xs[1..], f);
      assert r == head + tail;
      forall i | 0 <= i < |r|
        ensures exists j :: 0 <= j < |xs| && f(xs[j]) == Some(r[i])
      {
        if i < |head| {
          assert f(xs[0]) == Some(r[i]);
        } else {
          assert r[i] == tail[i - |head|];
          var j :| 0 <= j < |xs[1..]| && f(xs[1..][j]) == Some(tail[i - |head|]);
          assert xs[1..][j] == xs[j + 1];
        }
      }
    }
  }

  lemma {:induction false} CompactMapAppend<T, U>(a: seq<T>, b: seq<T>, f: T -> Option<U>)
    ensures CompactMap(a + b, f) == CompactMap(a, f) + CompactMap(b, f)
  {
    if a == [] {
      assert a + b == b;
    } else {
      assert (a + b)[0] == a[0];
      assert (a + b)[1..] == a[1..] + b;
      CompactMapAppend(a[1..], b, f);
    }
  }
}
