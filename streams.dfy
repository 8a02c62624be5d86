/** The three streaming semantics over a sequence of decoded values:
    map, order-preserving filter, and left fold. */
module Streams {

  /** Applies `f` to every element, keeping the order. */
  function Map<A, B>(f: A -> B, s: seq<A>): (r: seq<B>)
    ensures |r| == |s|
    ensures forall i :: 0 <= i < |s| ==> r[i] == f(s[i])
  {
    if s == [] then [] else [f(s[0])] + Map(f, s[1..])
  }

  /** The elements of `s` for which `p` holds, in their original order. */
  function Filter<A>(p: A -> bool, s: seq<A>): (r: seq<A>)
    ensures |r| <= |s|
    ensures forall i :: 0 <= i < |r| ==> p(r[i])
  {
    if s == [] then []
    else
      assert s == [s[0]] + s[1..];
      (if p(s[0]) then [s[0]] else []) + Filter(p, s[1..])
  }

  /** Combines the elements from the left: f(...f(f(z, s[0]), s[1])..., s[|s|-1]). */
  function FoldLeft<A, B>(f: (B, A) -> B, z: B, s: seq<A>): B
  {
    if s == [] then z else FoldLeft(f, f(z, s[0]), s[1..])
  }

  /** The positions of `s` at which `p` holds, in increasing order. */
  function Kept<A>(p: A -> bool, s: seq<A>): (ks: seq<nat>)
    ensures forall k :: 0 <= k < |ks| ==> ks[k] < |s| && p(s[ks[k]])
    ensures forall k, l :: 0 <= k < l < |ks| ==> ks[k] < ks[l]
    ensures forall i :: 0 <= i < |s| && p(s[i]) ==> i in ks
  {
    if s == [] then []
    else
      var n := |s| - 1;
      var front := Kept(p, s[..n]);
      assert forall k :: 0 <= k < |front| ==> s[..n][front[k]] == s[front[k]];
      front + (if p(s[n]) then [n] else [])
  }

  /** Mapping a sequence extended by one element extends the result by one element. */
  lemma {:induction false} MapSnoc<A, B>(f: A -> B, s: seq<A>, x: A)
    ensures Map(f, s + [x]) == Map(f, s) + [f(x)]
  {
    var r := Map(f, s + [x]);
    assert forall i :: 0 <= i < |s| ==> (s + [x])[i] == s[i];
    assert r == Map(f, s) + [f(x)];
  }

  /** Filtering is streaming: one more element adds at most that element, at the end. */
  lemma {:induction false} FilterSnoc<A>(p: A -> bool, s: seq<A>, x: A)
    ensures Filter(p, s + [x]) == Filter(p, s) + (if p(x) then [x] else [])
  {
    if s == [] {
      assert [] + [x] == [x];
    } else {
      assert (s + [x])[0] == s[0];
      assert (s + [x])[1..] == s[1..] + [x];
      FilterSnoc(p, s[1..], x);
    }
  }

  /** Folding over one more element applies `f` once more to the previous total. */
  lemma {:induction false} FoldLeftSnoc<A, B>(f: (B, A) -> B, z: B, s: seq<A>, x: A)
    ensures FoldLeft(f, z, s + [x]) == f(FoldLeft(f, z, s), x)
  {
    if s == [] {
      assert [] + [x] == [x];
      assert [x][1..] == [];
    } else {
      assert (s + [x])[0] == s[0];
      assert (s + [x])[1..] == s[1..] + [x];
      FoldLeftSnoc(f, f(z, s[0]), s[1..], x);
    }
  }

  /** Filter keeps exactly the elements at the `Kept` positions: the result is the
      order-preserving subsequence of `s` of the elements satisfying `p`, and each
      kept element is the original element. */
  lemma {:induction false} FilterIsKeptSubsequence<A>(p: A -> bool, s: seq<A>)
    ensures |Filter(p, s)| == |Kept(p, s)|
    ensures forall k :: 0 <= k < |Kept(p, s)| ==> Filter(p, s)[k] == s[Kept(p, s)[k]]
  {
    if s != [] {
      var n := |s| - 1;
      assert s == s[..n] + [s[n]];
      FilterIsKeptSubsequence(p, s[..n]);
      FilterSnoc(p, s[..n], s[n]);
      var front := Kept(p, s[..n]);
      assert forall k :: 0 <= k < |front| ==> s[..n][front[k]] == s[front[k]];
    }
  }
}
