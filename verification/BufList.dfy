/** The doubly linked list of the buffer cache in kernel/bio.c, through two arrays of
    indices, as a sequence. */
module BufList {
  import opened Basics

  ghost predicate Below(order: seq<nat>, n: nat) { forall i :: 0 <= i < |order| ==> order[i] < n }

  /** The node at position `i`; the head stands before the first and after the last. */
  function Node(order: seq<nat>, h: nat, i: int): nat { if 0 <= i < |order| then order[i] else h }

  /** Positions i - 1 and i point at each other. */
  ghost predicate LinkAt(next: seq<nat>, prev: seq<nat>, order: seq<nat>, h: nat, i: int)
    requires |next| == |prev|
  {
    var a, b := Node(order, h, i - 1), Node(order, h, i);
    a < |next| && b < |next| && next[a] == b && prev[b] == a
  }

  /** The list from head `h` holds exactly `order`. */
  ghost predicate Linked(next: seq<nat>, prev: seq<nat>, order: seq<nat>, h: nat) {
    && |next| == |prev| && h < |next| && h !in order && Distinct(order)
    && Below(order, |next|)
    && (forall i {:trigger LinkAt(next, prev, order, h, i)} :: 0 <= i <= |order| ==> LinkAt(next, prev, order, h, i))
  }

  function Without(order: seq<nat>, k: nat): seq<nat>
    requires k < |order|
  {
    order[..k] + order[k + 1..]
  }

  lemma WithoutOne(order: seq<nat>, k: nat)
    requires Distinct(order) && k < |order|
    ensures Distinct(Without(order, k)) && order[k] !in Without(order, k)
    ensures forall i {:trigger Without(order, k)[i]} :: 0 <= i < |order| - 1 ==>
              Without(order, k)[i] == order[if i < k then i else i + 1]
  {
  }

  // ----- Unlinking -----

  function UnlinkNext(next: seq<nat>, prev: seq<nat>, b: nat): seq<nat>
    requires b < |next| == |prev| && prev[b] < |next|
  {
    next[prev[b] := next[b]]
  }

  function UnlinkPrev(next: seq<nat>, prev: seq<nat>, b: nat): seq<nat>
    requires b < |next| == |prev| && next[b] < |prev|
  {
    prev[next[b] := prev[b]]
  }

  lemma Neighbours(next: seq<nat>, prev: seq<nat>, order: seq<nat>, h: nat, k: nat)
    requires Linked(next, prev, order, h) && k < |order|
    ensures order[k] < |next| && prev[order[k]] == Node(order, h, k - 1) < |next|
    ensures next[order[k]] == Node(order, h, k + 1) < |next|
  {
    assert LinkAt(next, prev, order, h, k) && LinkAt(next, prev, order, h, k + 1);
  }

  lemma Unlinked(next: seq<nat>, prev: seq<nat>, order: seq<nat>, h: nat, k: nat)
    requires Linked(next, prev, order, h) && k < |order|
    ensures order[k] < |next| && prev[order[k]] < |next| && next[order[k]] < |next|
    ensures Linked(UnlinkNext(next, prev, order[k]), UnlinkPrev(next, prev, order[k]), Without(order, k), h)
    ensures order[k] !in Without(order, k)
  {
    Neighbours(next, prev, order, h, k);
    var next', prev' := UnlinkNext(next, prev, order[k]), UnlinkPrev(next, prev, order[k]);
    var order' := Without(order, k);
    WithoutOne(order, k);
    forall i | 0 <= i <= |order'| ensures LinkAt(next', prev', order', h, i) {
      assert LinkAt(next, prev, order, h, if i <= k then i else i + 1);
    }
  }

  // ----- Pushing to the front -----

  function PushNext(next: seq<nat>, h: nat, b: nat): seq<nat>
    requires b < |next| && h < |next|
  {
    next[b := next[h]][h := b]
  }

  function PushPrev(next: seq<nat>, prev: seq<nat>, h: nat, b: nat): seq<nat>
    requires b < |prev| && h < |next| && next[h] < |prev|
  {
    prev[b := h][next[h] := b]
  }

  lemma Pushed(next: seq<nat>, prev: seq<nat>, order: seq<nat>, h: nat, b: nat)
    requires Linked(next, prev, order, h) && b < |next| && b != h && b !in order
    ensures next[h] < |prev|
    ensures Linked(PushNext(next, h, b), PushPrev(next, prev, h, b), [b] + order, h)
  {
    assert LinkAt(next, prev, order, h, 0);
    var next', prev', order' := PushNext(next, h, b), PushPrev(next, prev, h, b), [b] + order;
    forall i | 0 <= i <= |order'| ensures LinkAt(next', prev', order', h, i) {
      if i > 1 {
        assert LinkAt(next, prev, order, h, i - 1);
        assert Node(order', h, i) == Node(order, h, i - 1) && Node(order', h, i - 1) == Node(order, h, i - 2);
      }
    }
  }

  lemma EmptyList(next: seq<nat>, prev: seq<nat>, h: nat)
    requires |next| == |prev| && h < |next| && next[h] == h && prev[h] == h
    ensures Linked(next, prev, [], h)
  {
  }

  // ----- Order by last use -----

  /** Each buffer was moved to the front later than those behind it. */
  ghost predicate ByStamp(order: seq<nat>, stamp: seq<nat>) {
    && Below(order, |stamp|)
    && forall i, j :: 0 <= i < j < |order| ==> stamp[order[i]] > stamp[order[j]]
  }

  lemma FrontByStamp(order: seq<nat>, stamp: seq<nat>, k: nat, time: nat)
    requires Distinct(order) && ByStamp(order, stamp) && k < |order| && forall x :: 0 <= x < |stamp| ==> stamp[x] < time
    ensures order[k] < |stamp| && ByStamp([order[k]] + Without(order, k), stamp[order[k] := time])
  {
    var order', stamp' := [order[k]] + Without(order, k), stamp[order[k] := time];
    WithoutOne(order, k);
    forall i, j | 0 <= i < j < |order'| ensures stamp'[order'[i]] > stamp'[order'[j]] {
      assert order'[j] == Without(order, k)[j - 1];
      assert i > 0 ==> order'[i] == Without(order, k)[i - 1];
    }
  }

  lemma PushByStamp(order: seq<nat>, stamp: seq<nat>, b: nat, time: nat)
    requires ByStamp(order, stamp) && b < |stamp| && b !in order && forall x :: 0 <= x < |stamp| ==> stamp[x] < time
    ensures ByStamp([b] + order, stamp[b := time])
  {
  }

  /** Moving a buffer to the front keeps the list a permutation. */
  lemma FrontPermutes(order: seq<nat>, k: nat)
    requires k < |order|
    ensures multiset([order[k]] + Without(order, k)) == multiset(order)
  {
    assert order == order[..k] + [order[k]] + order[k + 1..];
  }
}
