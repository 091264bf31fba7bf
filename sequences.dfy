/** Order-preserving filter-and-map over sequences: the shape of a Python loop
    that appends a converted element to a result list for each element a test accepts. */
module Sequences {
  import opened Wrappers

  /** The values `pick` yields, in the order of the elements it accepts (`Some`). */
  function Collect<A, B>(s: seq<A>, pick: A -> Option<B>): (r: seq<B>)
    ensures |r| <= |s|
  {
    if s == [] then []
    else Collect(s[..|s| - 1], pick) + Picked(s[|s| - 1], pick)
  }

  /** What one element adds to a `Collect`: its picked value, or nothing. */
  function Picked<A, B>(x: A, pick: A -> Option<B>): seq<B>
  {
    match pick(x)
    case Some(b) => [b]
    case None => []
  }

  /** The positions of `s` that `pick` accepts, in increasing order. */
  function PickedIndices<A, B>(s: seq<A>, pick: A -> Option<B>): seq<nat>
  {
    if s == [] then []
    else PickedIndices(s[..|s| - 1], pick) + (if pick(s[|s| - 1]).Some? then [|s| - 1] else [])
  }

  /** Collecting one more element appends what that element contributes. */
  lemma CollectSnoc<A, B>(s: seq<A>, x: A, pick: A -> Option<B>)
    ensures Collect(s + [x], pick) == Collect(s, pick) + Picked(x, pick)
  {
    assert (s + [x])[..|s|] == s;
  }

  /** Collecting distributes over concatenation. */
  lemma {:induction false} CollectConcat<A, B>(s: seq<A>, t: seq<A>, pick: A -> Option<B>)
    ensures Collect(s + t, pick) == Collect(s, pick) + Collect(t, pick)
    decreases |t|
  {
    if t == [] {
      assert s + t == s;
    } else {
      CollectConcat(s, t[..|t| - 1], pick);
      ConcatLast(s, t);
    }
  }

  /** Dropping the last element of `s + t`, with `t` non-empty, drops it from `t`. */
  lemma ConcatLast<A>(s: seq<A>, t: seq<A>)
    requires t != []
    ensures (s + t)[..|s + t| - 1] == s + t[..|t| - 1]
    ensures (s + t)[|s + t| - 1] == t[|t| - 1]
  {
    assert (s + t)[..|s + t| - 1] == s + t[..|t| - 1];
  }

  /** Nothing is collected from elements that `pick` all reject. */
  lemma {:induction false} CollectNothing<A, B>(s: seq<A>, pick: A -> Option<B>)
    requires forall i :: 0 <= i < |s| ==> pick(s[i]).None?
    ensures Collect(s, pick) == []
  {
    if s != [] {
      CollectNothing(s[..|s| - 1], pick);
    }
  }

  /** `Collect` keeps exactly the accepted elements, maps each through `pick`, and
      keeps their relative order: `PickedIndices` lists where each result came from. */
  lemma {:induction false} CollectSpec<A, B>(s: seq<A>, pick: A -> Option<B>)
    ensures |PickedIndices(s, pick)| == |Collect(s, pick)|
    ensures forall k :: 0 <= k < |PickedIndices(s, pick)| ==>
      PickedIndices(s, pick)[k] < |s| && pick(s[PickedIndices(s, pick)[k]]) == Some(Collect(s, pick)[k])
    ensures forall k, l :: 0 <= k < l < |PickedIndices(s, pick)| ==>
      PickedIndices(s, pick)[k] < PickedIndices(s, pick)[l]
    ensures forall i :: 0 <= i < |s| && pick(s[i]).Some? ==> i in PickedIndices(s, pick)
  {
    if s != [] {
      var init := s[..|s| - 1];
      CollectSpec(init, pick);
      var idx, r := PickedIndices(s, pick), Collect(s, pick);
      var idx0, r0 := PickedIndices(init, pick), Collect(init, pick);
      forall k | 0 <= k < |idx|
        ensures idx[k] < |s| && pick(s[idx[k]]) == Some(r[k])
      {
        if k < |idx0| {
          assert idx[k] == idx0[k] && r[k] == r0[k];
          assert s[idx[k]] == init[idx0[k]];
        }
      }
      forall i | 0 <= i < |s| && pick(s[i]).Some?
        ensures i in idx
      {
        if i < |s| - 1 {
          assert s[i] == init[i];
          assert i in idx0;
        }
      }
    }
  }
}
