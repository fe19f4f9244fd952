/**
 * The swap sequence of a Fisher-Yates shuffle, shared by the scalar and the
 * vectorised shuffles: the k-th swap exchanges position `top - 1 - k` with the
 * target `ts[k]`.
 */
module Swaps {

  function Swap<T>(s: seq<T>, p: nat, q: nat): (r: seq<T>)
    requires p < |s| && q < |s|
    ensures |r| == |s| && r[p] == s[q] && r[q] == s[p]
    ensures forall x :: 0 <= x < |s| && x != p && x != q ==> r[x] == s[x]
  {
    s[p := s[q]][q := s[p]]
  }

  lemma SwapPermutes<T>(s: seq<T>, p: nat, q: nat)
    requires p < |s| && q < |s|
    ensures multiset(Swap(s, p, q)) == multiset(s)
  {
    var t := s[p := s[q]];
    assert multiset(t) == multiset(s) - multiset{s[p]} + multiset{s[q]};
    assert multiset(t[q := s[p]]) == multiset(t) - multiset{t[q]} + multiset{s[p]};
  }

  /** Targets that stay inside the first `top` cells. */
  ghost predicate TargetsBelow(ts: seq<nat>, top: nat)
  {
    forall k :: 0 <= k < |ts| ==> ts[k] < top
  }

  function ApplySwaps<T>(s: seq<T>, top: nat, ts: seq<nat>): (r: seq<T>)
    requires |ts| <= top <= |s|
    requires TargetsBelow(ts, top)
    ensures |r| == |s|
    decreases |ts|
  {
    if ts == [] then s
    else Swap(ApplySwaps(s, top, ts[..|ts| - 1]), top - |ts|, ts[|ts| - 1])
  }

  /** One more swap extends the sequence of swaps already done. */
  lemma ApplySwapsSnoc<T>(s: seq<T>, top: nat, ts: seq<nat>, t: nat)
    requires |ts| < top <= |s|
    requires TargetsBelow(ts, top) && t < top
    ensures TargetsBelow(ts + [t], top)
    ensures ApplySwaps(s, top, ts + [t]) == Swap(ApplySwaps(s, top, ts), top - 1 - |ts|, t)
  {
    assert (ts + [t])[..|ts|] == ts;
  }

  /** The shuffle only rearranges: the result is a permutation of the input. */
  lemma {:induction false} ApplySwapsPermutes<T>(s: seq<T>, top: nat, ts: seq<nat>)
    requires |ts| <= top <= |s|
    requires TargetsBelow(ts, top)
    ensures multiset(ApplySwaps(s, top, ts)) == multiset(s)
    decreases |ts|
  {
    if ts != [] {
      var prev := ts[..|ts| - 1];
      ApplySwapsPermutes(s, top, prev);
      SwapPermutes(ApplySwaps(s, top, prev), top - |ts|, ts[|ts| - 1]);
    }
  }

  /** Cells at or beyond `top` are never touched when every target is below `top`. */
  lemma {:induction false} ApplySwapsFrame<T>(s: seq<T>, top: nat, ts: seq<nat>)
    requires |ts| <= top <= |s|
    requires TargetsBelow(ts, top)
    ensures s[top..] == ApplySwaps(s, top, ts)[top..]
    decreases |ts|
  {
    if ts != [] {
      ApplySwapsFrame(s, top, ts[..|ts| - 1]);
    }
  }

  /** The first `top` cells are a permutation of what they held. */
  lemma ApplySwapsPermutesPrefix<T>(s: seq<T>, top: nat, ts: seq<nat>)
    requires |ts| <= top <= |s|
    requires TargetsBelow(ts, top)
    ensures multiset(ApplySwaps(s, top, ts)[..top]) == multiset(s[..top])
  {
    var r := ApplySwaps(s, top, ts);
    ApplySwapsPermutes(s, top, ts);
    ApplySwapsFrame(s, top, ts);
    hide ApplySwaps;
    assert s == s[..top] + s[top..];
    assert r == r[..top] + r[top..];
    assert multiset(s) == multiset(s[..top]) + multiset(s[top..]);
    assert multiset(r) == multiset(r[..top]) + multiset(r[top..]);
  }
}
