/** malloc, free and morecore of user/umalloc.c on the headers in memory. */
module Umalloc {
  import opened HeapBlocks

  /** The free blocks above an address: what is left of a walk along the list. */
  ghost function Up(free: set<nat>, p: nat): set<nat> { set f | f in free && f > p }

  /** How many units morecore asks for when `nu` are needed. */
  function Core(nu: nat): nat { if nu < 4096 then 4096 else nu }

  /** What sbrk is asked for: the bytes of `n` units as an int, the low 32 bits in two's
      complement. */
  function Asked(n: nat): int {
    var low := 16 * n % 0x1_0000_0000;
    if low < 0x8000_0000 then low else low - 0x1_0000_0000
  }

  /** sbrk is asked for what morecore goes on to use exactly if the request stays below two
      gigabytes. */
  lemma AskedIff(n: nat)
    ensures Asked(n) == 16 * n <==> 16 * n < 0x8000_0000
  {
  }

  /** For a request of the largest int, sbrk is asked for a negative amount. */
  lemma HugeRequest()
    ensures Asked(Core(Units(0x7FFF_FFFF))) < 0
  {
  }

  /** Units for a request, with one for the header. */
  function Units(nbytes: nat): (n: nat)
    ensures 0 < n && 16 * (n - 1) >= nbytes && 16 * (n - 2) < nbytes
  {
    (nbytes + 15) / 16 + 1
  }

  // ----- Walking the list -----

  lemma Follow(h: Heap, weak: int, p: nat)
    requires Inv(h, weak) && IsNode(h, p)
    ensures p in h.mem && IsNode(h, h.mem[p].ptr) && h.mem[p].ptr in h.mem && h.base <= p
    ensures h.mem[p].ptr != h.base ==>
              p < h.mem[p].ptr && h.mem[p].ptr in h.free && Up(h.free, h.mem[p].ptr) < Up(h.free, p)
  {
    assert NodeOk(h, p) && BlockOk(h, p);
    var n := h.mem[p].ptr;
    assert NodeOk(h, n);
    if n != h.base {
      assert n in Up(h.free, p) && n !in Up(h.free, n);
    }
  }

  lemma AtLive(h: Heap, b: nat)
    requires Inv(h, 0) && b in h.live
    ensures b in h.mem && h.base < b && b !in h.free && h.mem[b].size == h.live[b] > 0
  {
    assert BlockOk(h, b);
  }

  /** Between `start` and `at` going round, all blocks are smaller than `n`. */
  ghost predicate Small(h: Heap, start: nat, at: nat, wrapped: bool, n: nat) {
    forall f {:trigger f in h.free} ::
      f in h.free && f in h.mem && (if wrapped then f > start || f <= at else start < f <= at) ==> h.mem[f].size < n
  }

  lemma SmallStep(h: Heap, start: nat, at: nat, wrapped: bool, n: nat)
    requires Inv(h, 0) && IsNode(h, at) && at in h.mem && Small(h, start, at, wrapped, n)
    requires h.mem[at].ptr in h.mem && h.mem[h.mem[at].ptr].size < n
    requires if wrapped then at < start else start <= at
    ensures Small(h, start, h.mem[at].ptr, wrapped || h.mem[at].ptr == h.base, n)
  {
    var p := h.mem[at].ptr;
    assert NodeOk(h, at);
    forall f | f in h.free && f in h.mem && (if wrapped || p == h.base then f > start || f <= p else start < f <= p)
      ensures h.mem[f].size < n
    {
      assert NoneBetween(h, at, f) && BlockOk(h, f);
    }
  }

  ghost predicate NoneFits(h: Heap, n: nat) {
    forall f {:trigger f in h.free} :: f in h.free && f in h.mem ==> h.mem[f].size < n
  }

  ghost predicate SomeFits(h: Heap, n: nat) { exists f :: f in h.free && f in h.mem && h.mem[f].size >= n }

  // ----- Giving a block back -----

  /** What free makes of the heap, once it has found header `p`. */
  /** The units at `b` are the end of the first free block with room for `n`, from `start`
      round the list; it comes after `at`. */
  ghost predicate NextFit(h: Heap, start: nat, at: nat, b: nat, n: nat) {
    && IsNode(h, at) && at in h.mem && h.mem[at].ptr in h.free && h.mem[at].ptr in h.mem
    && Small(h, start, at, at < start, n)
    && var a := h.mem[at].ptr; h.mem[a].size >= n && b + n == a + h.mem[a].size
  }

  function Given(h: Heap, p: nat, b: nat): Heap
    requires p in h.mem && b in h.mem && h.mem[p].ptr in h.mem
  {
    var h1 := InsertUp(h, p, b);
    if p + h.mem[p].size == b then MergeDown(h1, p, b) else h1
  }

  lemma GivenInv(h: Heap, p: nat, b: nat)
    requires CanInsert(h, p, b)
    ensures Inv(Given(h, p, b), 0) && IsNode(Given(h, p, b), p)
    ensures Given(h, p, b).live == h.live - {b}
    ensures Given(h, p, b).own.Keys == h.own.Keys && Given(h, p, b).base == h.base
    ensures SomeFits(Given(h, p, b), h.mem[b].size)
  {
    if b + h.mem[b].size == h.mem[p].ptr { InsertJoinInv(h, p, b); } else { InsertPlainInv(h, p, b); }
    var h1 := InsertUp(h, p, b);
    assert BlockOk(h, b) && BlockOk(h, p);
    if p + h.mem[p].size == b {
      MergeDownInv(h1, p, b);
      assert p in Given(h, p, b).free;
    } else {
      NotAdjacent(h1, p, b);
      assert b in Given(h, p, b).free;
    }
  }

  lemma GivenMem(h: Heap, p: nat, b: nat)
    requires p in h.mem && b in h.mem && h.mem[p].ptr in h.mem && p != b
    ensures var nx := h.mem[p].ptr;
            var m := if b + h.mem[b].size == nx then h.mem[b := Header(h.mem[nx].ptr, h.mem[b].size + h.mem[nx].size)]
                     else h.mem[b := h.mem[b].(ptr := nx)];
            Given(h, p, b).mem ==
            if p + m[p].size == b then m[p := Header(m[b].ptr, m[p].size + m[b].size)] else m[p := m[p].(ptr := b)]
  {
  }

  class Allocator {
    const base: nat
    var mem: map<nat, Header>
    var freep: nat
    ghost var h: Heap

    ghost predicate Valid()
      reads this
    {
      && 0 < base && h.base == base
      && (if freep == 0 then h.free == {} && h.live == map[] && h.own == map[]
          else h.mem == mem && Inv(h, 0) && IsNode(h, freep))
    }

    constructor (baseAddr: nat)
      requires 0 < baseAddr
      ensures Valid() && base == baseAddr && freep == 0
    {
      base, freep, mem := baseAddr, 0, map[];
      h := Heap(map[], baseAddr, {}, map[], map[]);
    }

    /** The block before `ap` goes back on the list, joined with free neighbours. */
    method Free(ap: nat)
      requires Valid() && ap > 0 && ap - 1 in h.live
      modifies this
      ensures Valid() && freep != 0
      ensures h.live == old(h.live) - {ap - 1} && h.own.Keys == old(h.own.Keys)
      ensures SomeFits(h, old(h.live)[ap - 1])
    {
      hide Inv, Given;
      var b := ap - 1;
      AtLive(h, b);
      var p := FindPlace(b);
      GivenInv(h, p, b);
      GivenMem(h, p, b);
      ghost var h' := Given(h, p, b);
      var nx := mem[p].ptr;
      if b + mem[b].size == nx {
        mem := mem[b := Header(mem[nx].ptr, mem[b].size + mem[nx].size)];
      } else {
        mem := mem[b := mem[b].(ptr := nx)];
      }
      if p + mem[p].size == b {
        mem := mem[p := Header(mem[b].ptr, mem[p].size + mem[b].size)];
      } else {
        mem := mem[p := mem[p].(ptr := b)];
      }
      freep := p;
      h := h';
    }

    /** The search loop of free: it ends at the header the block goes after. */
    method FindPlace(b: nat) returns (p: nat)
      requires Valid() && freep != 0 && b in h.live
      ensures CanInsert(h, p, b) && p != 0
    {
      hide Inv;
      AtLive(h, b);
      p := freep;
      Follow(h, 0, p);
      while !(b > p && b < mem[p].ptr)
        invariant IsNode(h, p) && p in mem && mem[p].ptr in mem && p != b && h.base <= p
        decreases if p > b then 1 else 0, Up(h.free, p)
      {
        Follow(h, 0, p);
        if p >= mem[p].ptr && (b > p || b < mem[p].ptr) {
          break;
        }
        p := mem[p].ptr;
        Follow(h, 0, p);
      }
      Follow(h, 0, p);
    }

    /** At least 4096 units at address `grant` from sbrk, which gives none if that is 0,
        are put on the list. `overrun` is set, and the model stops, where the header would
        claim more than sbrk was asked for. */
    method Morecore(nu: nat, grant: nat) returns (p: nat, ghost overrun: bool)
      requires Valid() && freep != 0 && 0 < nu && (grant != 0 ==> Above(h, grant))
      modifies this
      ensures Valid() && freep != 0 && h.live == old(h.live)
      ensures overrun <==> grant != 0 && 16 * Core(nu) >= 0x8000_0000
      ensures grant == 0 || overrun ==> p == 0 && h == old(h) && freep == old(freep)
      ensures grant != 0 && !overrun ==>
                p == freep && SomeFits(h, nu) && h.own.Keys == old(h.own.Keys) + Range(grant, Core(nu))
    {
      hide Inv;
      var n := Core(nu);
      if grant == 0 {
        return 0, false;
      }
      AskedIff(n);
      if Asked(n) != 16 * n {
        return 0, true;
      }
      overrun := false;
      GrowInv(h, grant, n);
      mem := mem[grant := Header(if grant in mem then mem[grant].ptr else 0, n)];
      h := Grow(h, grant, n);
      Free(grant + 1);
      assert h.live == old(h.live);
      FitsLess(h, n, nu);
      p := freep;
    }

    /** A block of `Units(nbytes)` units, disjoint from all live ones: the first free block
        that fits from the last place on, or its end. 0 only if none fits and sbrk fails.
        A request too large for sbrk's argument that no free block fits overruns memory. */
    method Malloc(nbytes: nat, grant: nat) returns (ap: nat, ghost overrun: bool)
      requires Valid() && nbytes < 0x1_0000_0000 && (grant != 0 ==> base < grant && Above(h, grant))
      modifies this
      ensures Valid() && freep != 0
      ensures ap != 0 ==> ap - 1 !in old(h.live) && h.live == old(h.live)[ap - 1 := Units(nbytes)]
      ensures ap == 0 ==> h.live == old(h.live) && NoneFits(h, Units(nbytes)) && h.own.Keys == old(h.own.Keys)
      ensures overrun <==> ap == 0 && grant != 0
      ensures overrun ==> 16 * Core(Units(nbytes)) >= 0x8000_0000
      ensures 16 * Core(Units(nbytes)) >= 0x8000_0000 ==> h.own.Keys == old(h.own.Keys)
      ensures SomeFits(old(h), Units(nbytes)) ==>
                && ap != 0 && NextFit(old(h), old(freep), freep, ap - 1, Units(nbytes))
                && h.own.Keys == old(h.own.Keys)
      ensures !SomeFits(old(h), Units(nbytes)) ==>
                if grant != 0 && 16 * Core(Units(nbytes)) < 0x8000_0000
                then ap != 0 && h.own.Keys == old(h.own.Keys) + Range(grant, Core(Units(nbytes)))
                else ap == 0
    {
      hide Inv, Units, Core, NextFit;
      overrun := false;
      var nunits := Units(nbytes);
      if freep == 0 {
        Setup();
      }
      ghost var live0, keys0, h0, freep0 := h.live, h.own.Keys, h, freep;
      var prevp: nat, more := freep, false;
      ghost var wrapped := false;
      Follow(h, 0, prevp);
      NothingPassed(h, prevp, nunits);
      var p := mem[prevp].ptr;
      while true
        invariant Valid() && freep != 0 && IsNode(h, prevp) && prevp in mem
        invariant p == mem[prevp].ptr && p in mem && IsNode(h, p)
        invariant h.live == live0
        invariant h.own.Keys == (if more then keys0 + Range(grant, Core(nunits)) else keys0) && !overrun
        invariant more ==> 16 * Core(nunits) < 0x8000_0000
        invariant if wrapped then prevp < freep else freep <= prevp
        invariant Small(h, freep, prevp, wrapped, nunits)
        invariant if more then SomeFits(h, nunits) else grant != 0 ==> Above(h, grant)
        invariant if more then !SomeFits(h0, nunits) && grant != 0 else h == h0 && freep == freep0
        decreases !more, !wrapped, Up(h.free, prevp)
      {
        if mem[p].size >= nunits {
          Fits(h, freep, prevp, nunits);
          ap := Take(prevp, p, nunits);
          return;
        }
        WalkStep(h, freep, prevp, wrapped, nunits);
        if p == freep {
          if more {
            assert false;
          }
          p, overrun := Morecore(nunits, grant);
          if p == 0 {
            return 0, overrun;
          }
          more, wrapped := true, false;
          NothingPassed(h, p, nunits);
        } else {
          wrapped := wrapped || p == base;
        }
        prevp := p;
        Follow(h, 0, prevp);
        p := mem[prevp].ptr;
      }
    }

    /** A free block that fits is taken whole, or its end is. */
    method Take(prevp: nat, p: nat, n: nat) returns (ap: nat)
      requires Valid() && freep != 0 && IsNode(h, prevp) && prevp in mem
      requires p == mem[prevp].ptr && p in mem && IsNode(h, p)
      requires 0 < n <= mem[p].size
      modifies this
      ensures Valid() && freep != 0 && ap != 0 && ap - 1 !in old(h.live)
      ensures h.live == old(h.live)[ap - 1 := n] && h.own.Keys == old(h.own.Keys)
      ensures freep == prevp && ap - 1 + n == p + old(mem)[p].size
    {
      hide Inv;
      BigIsFree(h, p);
      Follow(h, 0, prevp);
      if mem[p].size == n {
        TakeWholeInv(h, prevp);
        h := TakeWhole(h, prevp);
        mem := mem[prevp := mem[prevp].(ptr := mem[p].ptr)];
        ap := p + 1;
      } else {
        TakeTailInv(h, p, n);
        h := TakeTail(h, p, n);
        mem := mem[p := mem[p].(size := mem[p].size - n)];
        var q := p + mem[p].size;
        mem := mem[q := Header(if q in mem then mem[q].ptr else 0, n)];
        ap := q + 1;
      }
      freep := prevp;
    }

    /** The first call makes the base header a list of its own. */
    method Setup()
      requires Valid() && freep == 0
      modifies this
      ensures Valid() && freep == base && h.live == old(h.live) && h.own == old(h.own) && h.free == {}
    {
      mem := mem[base := Header(base, 0)];
      freep := base;
      h := Heap(mem, base, {}, map[], map[]);
    }
  }

  lemma BigIsFree(h: Heap, p: nat)
    requires Inv(h, 0) && IsNode(h, p) && p in h.mem && h.mem[p].size > 0
    ensures p in h.free && p !in h.live && h.base < p
    ensures forall x {:trigger h.mem[x]} :: IsNode(h, x) && x in h.mem && h.mem[x].ptr == p ==> x != p
  {
    assert BlockOk(h, p) && NodeOk(h, p);
  }

  /** One step along the list; when it is back at the start, no block fits. */
  lemma WalkStep(h: Heap, start: nat, at: nat, wrapped: bool, n: nat)
    requires Inv(h, 0) && IsNode(h, start) && IsNode(h, at) && at in h.mem && Small(h, start, at, wrapped, n)
    requires h.mem[at].ptr in h.mem && h.mem[h.mem[at].ptr].size < n
    requires if wrapped then at < start else start <= at
    ensures var p := h.mem[at].ptr;
            if p == start then NoneFits(h, n) && !SomeFits(h, n)
            else
              && Small(h, start, p, wrapped || p == h.base, n)
              && (if wrapped || p == h.base then p < start else start <= p)
              && (p == h.base ==> !wrapped) && (p != h.base ==> Up(h.free, p) < Up(h.free, at))
  {
    var p := h.mem[at].ptr;
    SmallStep(h, start, at, wrapped, n);
    Follow(h, 0, at);
    Follow(h, 0, start);
    assert NoneBetween(h, at, start) && NoneBetween(h, at, at) && BlockOk(h, start) && BlockOk(h, at);
  }

  /** The block found fits, and no block passed on the way did. */
  lemma Fits(h: Heap, start: nat, at: nat, n: nat)
    requires Inv(h, 0) && IsNode(h, start) && IsNode(h, at) && at in h.mem && Small(h, start, at, at < start, n)
    requires h.mem[at].ptr in h.mem && h.mem[h.mem[at].ptr].size >= n > 0
    ensures SomeFits(h, n)
    ensures var a := h.mem[at].ptr; NextFit(h, start, at, a + h.mem[a].size - n, n)
  {
    Follow(h, 0, at);
    BigIsFree(h, h.mem[at].ptr);
  }

  lemma FitsLess(h: Heap, n: nat, m: nat)
    requires SomeFits(h, n) && m <= n
    ensures SomeFits(h, m)
  {
  }

  lemma NothingPassed(h: Heap, start: nat, n: nat)
    ensures Small(h, start, start, false, n)
  {
  }
}
