/** The blocks of the allocator in user/umalloc.c: a circular list of free blocks in order
    of address, the live blocks, and the tiling of the memory got from sbrk.
    Addresses and sizes are in units of the 16-byte header. */
module HeapBlocks {

  datatype Header = Header(ptr: nat, size: nat)

  /** `free` are the addresses of the free blocks, linked through their headers from the
      base header on; `live` are the blocks handed out with their sizes; `own` maps each
      unit got from sbrk to the block it lies in. */
  datatype Heap = Heap(mem: map<nat, Header>, base: nat, free: set<nat>, live: map<nat, nat>, own: map<nat, nat>)

  ghost predicate IsNode(h: Heap, a: nat) { a in h.free || a == h.base }

  ghost predicate IsBlock(h: Heap, a: nat) { a in h.free || a in h.live }

  /** A header on the list links to the next address on it, or back to the base. */
  ghost predicate NodeOk(h: Heap, a: nat) {
    IsNode(h, a) ==> a in h.mem && IsNode(h, h.mem[a].ptr) && (h.mem[a].ptr == h.base || a < h.mem[a].ptr)
  }

  /** No free block lies between a header and the one it links to. */
  ghost predicate NoneBetween(h: Heap, a: nat, b: nat) {
    IsNode(h, a) && a in h.mem && b in h.free ==> b <= a || (h.mem[a].ptr != h.base && h.mem[a].ptr <= b)
  }

  /** Free blocks are never adjacent, but for one that `weak` allows. */
  ghost predicate Coalesced(h: Heap, a: nat, b: nat, weak: int) {
    a in h.free && b in h.free && a in h.mem && a + h.mem[a].size == b ==> a == weak
  }

  /** A block lies above the base, and owns the units from its header on. */
  ghost predicate BlockOk(h: Heap, a: nat) {
    IsBlock(h, a) ==>
      && h.base < a && a in h.mem && h.mem[a].size > 0
      && (a in h.live ==> a !in h.free && h.live[a] == h.mem[a].size)
  }

  ghost predicate Mine(h: Heap, a: nat, u: nat) {
    IsBlock(h, a) && a in h.mem && a <= u < a + h.mem[a].size ==> u in h.own && h.own[u] == a
  }

  ghost predicate UnitOk(h: Heap, u: nat) {
    u in h.own ==> IsBlock(h, h.own[u]) && h.own[u] in h.mem && h.own[u] <= u < h.own[u] + h.mem[h.own[u]].size
  }

  ghost predicate Inv(h: Heap, weak: int) {
    && h.base in h.mem && h.mem[h.base].size == 0 && h.base !in h.free && h.base !in h.live
    && (forall a {:trigger NodeOk(h, a)} :: NodeOk(h, a))
    && (forall a, b {:trigger NoneBetween(h, a, b)} :: NoneBetween(h, a, b))
    && (forall a, b {:trigger Coalesced(h, a, b, weak)} :: Coalesced(h, a, b, weak))
    && (forall a {:trigger BlockOk(h, a)} :: BlockOk(h, a))
    && (forall a, u {:trigger Mine(h, a, u)} :: Mine(h, a, u))
    && (forall u {:trigger UnitOk(h, u)} :: UnitOk(h, u))
  }

  /** Two blocks do not overlap. */
  lemma BlocksDisjoint(h: Heap, weak: int, a: nat, b: nat)
    requires Inv(h, weak) && IsBlock(h, a) && IsBlock(h, b) && a < b
    ensures a in h.mem && b in h.mem && a + h.mem[a].size <= b
  {
    assert BlockOk(h, a) && BlockOk(h, b);
    assert Mine(h, b, b) && Mine(h, a, b);
  }

  // ----- Taking a free block -----

  /** malloc's exact fit: the block after header `p` leaves the list. */
  function TakeWhole(h: Heap, p: nat): Heap
    requires p in h.mem && h.mem[p].ptr in h.mem
  {
    var a := h.mem[p].ptr;
    h.(mem := h.mem[p := h.mem[p].(ptr := h.mem[a].ptr)], free := h.free - {a}, live := h.live[a := h.mem[a].size])
  }

  lemma TakeWholeInv(h: Heap, p: nat)
    requires Inv(h, 0) && IsNode(h, p) && p in h.mem && h.mem[p].ptr in h.free
    ensures h.mem[p].ptr in h.mem && Inv(TakeWhole(h, p), 0)
  {
    var a := h.mem[p].ptr;
    assert NodeOk(h, p) && NodeOk(h, a) && BlockOk(h, a) && BlockOk(h, p);
    var h' := TakeWhole(h, p);
    forall x ensures NodeOk(h', x) {
      assert NodeOk(h, x) && NoneBetween(h, x, p) && NoneBetween(h, p, x) && BlockOk(h, x);
    }
    forall x, b ensures NoneBetween(h', x, b) { assert NoneBetween(h, x, b) && NoneBetween(h, a, b); }
    forall x, b ensures Coalesced(h', x, b, 0) { assert Coalesced(h, x, b, 0); }
    forall x ensures BlockOk(h', x) { assert BlockOk(h, x); }
    forall x, u ensures Mine(h', x, u) { assert Mine(h, x, u); }
    forall u ensures UnitOk(h', u) { assert UnitOk(h, u); }
  }

  /** The units from `a` to `a + n` are given to block `b`. */
  function Relabel(own: map<nat, nat>, a: nat, n: nat, b: nat): map<nat, nat> {
    map u | u in own :: if a <= u < a + n then b else own[u]
  }

  /** malloc's split: the last `n` units of free block `a` become a live block. */
  function TakeTail(h: Heap, a: nat, n: nat): Heap
    requires a in h.mem && n < h.mem[a].size
  {
    var size := h.mem[a].size - n;
    var q := a + size;
    var ptr := if q in h.mem then h.mem[q].ptr else 0;
    h.(mem := h.mem[a := h.mem[a].(size := size)][q := Header(ptr, n)],
       live := h.live[q := n],
       own := Relabel(h.own, q, n, q))
  }

  lemma TakeTailInv(h: Heap, a: nat, n: nat)
    requires Inv(h, 0) && a in h.free && a in h.mem && 0 < n < h.mem[a].size
    ensures Inv(TakeTail(h, a, n), 0)
    ensures a + h.mem[a].size - n !in h.live
  {
    var h', q := TakeTail(h, a, n), a + h.mem[a].size - n;
    assert BlockOk(h, a) && BlockOk(h, q) && Mine(h, a, q) && Mine(h, q, q);
    forall x ensures NodeOk(h', x) { assert NodeOk(h, x); }
    forall x, b ensures NoneBetween(h', x, b) { assert NoneBetween(h, x, b); }
    forall x, b ensures Coalesced(h', x, b, 0) {
      assert Coalesced(h, x, b, 0) && BlockOk(h, b) && Mine(h, a, b) && Mine(h, b, b);
    }
    forall x ensures BlockOk(h', x) { assert BlockOk(h, x); }
    forall x, u ensures Mine(h', x, u) { assert Mine(h, x, u) && Mine(h, a, u); }
    forall u ensures UnitOk(h', u) { assert UnitOk(h, u); }
  }

  // ----- New memory -----

  /** morecore: `n` units from `a` on, as a block about to be freed. */
  function Grow(h: Heap, a: nat, n: nat): Heap {
    var ptr := if a in h.mem then h.mem[a].ptr else 0;
    h.(mem := h.mem[a := Header(ptr, n)], live := h.live[a := n], own := Grown(h.own, a, n))
  }

  function Grown(own: map<nat, nat>, a: nat, n: nat): map<nat, nat> {
    map u | u in own.Keys + Range(a, n) :: if a <= u < a + n then a else own[u]
  }

  function Range(a: nat, n: nat): (us: set<nat>)
    ensures forall u :: u in us <==> a <= u < a + n
  {
    if n == 0 then {} else Range(a, n - 1) + {a + n - 1}
  }

  ghost predicate Above(h: Heap, a: nat) { h.base < a && forall u {:trigger u in h.own} :: u in h.own ==> u < a }

  lemma GrowInv(h: Heap, a: nat, n: nat)
    requires Inv(h, 0) && Above(h, a) && 0 < n
    ensures Inv(Grow(h, a, n), 0) && a !in h.live
  {
    var h' := Grow(h, a, n);
    assert BlockOk(h, a) && Mine(h, a, a);
    forall x ensures NodeOk(h', x) { assert NodeOk(h, x); }
    forall x, b ensures NoneBetween(h', x, b) { assert NoneBetween(h, x, b); }
    forall x, b ensures Coalesced(h', x, b, 0) { assert Coalesced(h, x, b, 0); }
    forall x ensures BlockOk(h', x) { assert BlockOk(h, x); }
    forall x: nat, u: nat ensures Mine(h', x, u) { assert Mine(h, x, u) && (u in Range(a, n) <==> a <= u < a + n); }
    forall u ensures UnitOk(h', u) { assert UnitOk(h, u); }
  }

  // ----- Giving a block back -----

  /** Header `p` is where the block `b` goes in the order of addresses. */
  ghost predicate Place(h: Heap, p: nat, b: nat) {
    IsNode(h, p) && p in h.mem && p < b && (h.mem[p].ptr == h.base || b < h.mem[p].ptr)
  }

  /** The live block `b` is linked after header `p`, joined with the block after it if
      they are adjacent. */
  function InsertUp(h: Heap, p: nat, b: nat): Heap
    requires p in h.mem && b in h.mem && h.mem[p].ptr in h.mem
  {
    var nx := h.mem[p].ptr;
    if b + h.mem[b].size == nx then
      h.(mem := h.mem[b := Header(h.mem[nx].ptr, h.mem[b].size + h.mem[nx].size)][p := h.mem[p].(ptr := b)],
         free := h.free - {nx} + {b}, live := h.live - {b}, own := Relabel(h.own, nx, h.mem[nx].size, b))
    else
      h.(mem := h.mem[b := h.mem[b].(ptr := nx)][p := h.mem[p].(ptr := b)], free := h.free + {b}, live := h.live - {b})
  }

  ghost predicate CanInsert(h: Heap, p: nat, b: nat) {
    Inv(h, 0) && b in h.live && b in h.mem && Place(h, p, b) && h.mem[p].ptr in h.mem
  }

  /** A free block lies below the place of `b` or above it, and touches `b` only as the
      header before it or the one after it. */
  lemma PlaceApart(h: Heap, p: nat, b: nat, x: nat)
    requires CanInsert(h, p, b) && x in h.free && x in h.mem
    ensures x < b ==> x <= p && x + h.mem[x].size <= (if x < p then p else b)
    ensures b < x ==> h.mem[p].ptr != h.base && h.mem[p].ptr <= x && b + h.mem[b].size <= h.mem[p].ptr
  {
    assert NoneBetween(h, p, x) && NodeOk(h, p) && BlockOk(h, x);
    if x < b { BlocksDisjoint(h, 0, x, if x < p && p != h.base then p else b); }
    if b < x { BlocksDisjoint(h, 0, b, h.mem[p].ptr); }
  }

  lemma InsertPlainInv(h: Heap, p: nat, b: nat)
    requires CanInsert(h, p, b) && b + h.mem[b].size != h.mem[p].ptr
    ensures Inv(InsertUp(h, p, b), p)
  {
    var h' := InsertUp(h, p, b);
    assert NodeOk(h, p) && BlockOk(h, b) && BlockOk(h, p);
    forall x ensures NodeOk(h', x) { assert NodeOk(h, x); }
    forall x: nat, y: nat ensures NoneBetween(h', x, y) { InsertPlainBetween(h, p, b, x, y); }
    forall x: nat, y: nat ensures Coalesced(h', x, y, p) {
      assert Coalesced(h, x, y, 0) && BlockOk(h, x) && BlockOk(h, y);
      if x in h.free { PlaceApart(h, p, b, x); }
      if y in h.free { PlaceApart(h, p, b, y); }
    }
    forall x ensures BlockOk(h', x) { assert BlockOk(h, x); }
    forall x: nat, u: nat ensures Mine(h', x, u) { assert Mine(h, x, u); }
    forall u ensures UnitOk(h', u) { assert UnitOk(h, u); }
  }

  lemma InsertPlainBetween(h: Heap, p: nat, b: nat, x: nat, y: nat)
    requires CanInsert(h, p, b) && b + h.mem[b].size != h.mem[p].ptr
    ensures NoneBetween(InsertUp(h, p, b), x, y)
  {
    assert NoneBetween(h, x, y) && NoneBetween(h, p, y) && NoneBetween(h, x, p);
    assert NodeOk(h, x) && BlockOk(h, x) && BlockOk(h, b) && BlockOk(h, p);
    if x in h.free { assert NoneBetween(h, p, x); }
  }

  lemma InsertJoinInv(h: Heap, p: nat, b: nat)
    requires CanInsert(h, p, b) && b + h.mem[b].size == h.mem[p].ptr
    ensures Inv(InsertUp(h, p, b), p)
  {
    var h', nx := InsertUp(h, p, b), h.mem[p].ptr;
    assert NodeOk(h, p) && BlockOk(h, b) && BlockOk(h, p) && BlockOk(h, nx) && NodeOk(h, nx);
    forall x ensures NodeOk(h', x) { InsertJoinNode(h, p, b, x); }
    forall x: nat, y: nat ensures NoneBetween(h', x, y) { InsertJoinBetween(h, p, b, x, y); }
    forall x: nat, y: nat ensures Coalesced(h', x, y, p) {
      assert Coalesced(h, x, y, 0) && Coalesced(h, nx, y, 0) && BlockOk(h, x) && BlockOk(h, y);
      if x in h.free { PlaceApart(h, p, b, x); }
      if y in h.free { PlaceApart(h, p, b, y); }
    }
    forall x ensures BlockOk(h', x) { assert BlockOk(h, x); }
    forall x: nat, u: nat ensures Mine(h', x, u) { assert Mine(h, x, u) && Mine(h, nx, u); }
    forall u ensures UnitOk(h', u) { assert UnitOk(h, u); }
  }

  /** Only `p` links to the header after it. */
  lemma OneLink(h: Heap, weak: int, p: nat, x: nat)
    requires Inv(h, weak) && IsNode(h, p) && IsNode(h, x) && p in h.mem && x in h.mem
    requires h.mem[p].ptr in h.free && h.mem[x].ptr == h.mem[p].ptr
    ensures x == p
  {
    assert NodeOk(h, x) && NodeOk(h, p) && BlockOk(h, x) && BlockOk(h, p);
    assert NoneBetween(h, x, p) && NoneBetween(h, p, x);
  }

  lemma InsertJoinNode(h: Heap, p: nat, b: nat, x: nat)
    requires CanInsert(h, p, b) && b + h.mem[b].size == h.mem[p].ptr
    ensures NodeOk(InsertUp(h, p, b), x)
  {
    var nx := h.mem[p].ptr;
    assert NodeOk(h, p) && BlockOk(h, b) && NodeOk(h, nx) && NodeOk(h, x);
    if IsNode(h, x) && h.mem[x].ptr == nx { OneLink(h, 0, p, x); }
  }

  lemma InsertJoinBetween(h: Heap, p: nat, b: nat, x: nat, y: nat)
    requires CanInsert(h, p, b) && b + h.mem[b].size == h.mem[p].ptr
    ensures NoneBetween(InsertUp(h, p, b), x, y)
  {
    var nx := h.mem[p].ptr;
    assert NoneBetween(h, x, y) && NoneBetween(h, p, y) && NoneBetween(h, x, p) && NoneBetween(h, nx, y);
    assert NodeOk(h, x) && NodeOk(h, p) && NodeOk(h, nx);
    assert BlockOk(h, x) && BlockOk(h, b) && BlockOk(h, nx) && BlockOk(h, p);
    if x in h.free { assert NoneBetween(h, p, x); }
    if IsNode(h, x) && h.mem[x].ptr == nx { OneLink(h, 0, p, x); }
  }

  /** Header `p` is joined with the free block `b` right after it. */
  function MergeDown(h: Heap, p: nat, b: nat): Heap
    requires p in h.mem && b in h.mem
  {
    h.(mem := h.mem[p := Header(h.mem[b].ptr, h.mem[p].size + h.mem[b].size)], free := h.free - {b},
       own := Relabel(h.own, b, h.mem[b].size, p))
  }

  lemma MergeDownInv(h: Heap, p: nat, b: nat)
    requires Inv(h, p) && p in h.free && p in h.mem && b in h.free
    requires b in h.mem && h.mem[p].ptr == b && p + h.mem[p].size == b
    ensures Inv(MergeDown(h, p, b), 0)
  {
    var h' := MergeDown(h, p, b);
    assert NodeOk(h, p) && NodeOk(h, b) && BlockOk(h, b) && BlockOk(h, p);
    forall x ensures NodeOk(h', x) {
      assert NodeOk(h, x);
      if IsNode(h, x) && h.mem[x].ptr == b { OneLink(h, p, p, x); }
    }
    forall x, y ensures NoneBetween(h', x, y) { assert NoneBetween(h, x, y) && NoneBetween(h, b, y); }
    forall x: nat, y: nat ensures Coalesced(h', x, y, 0) { assert Coalesced(h, x, y, p) && Coalesced(h, b, y, p); }
    forall x ensures BlockOk(h', x) { assert BlockOk(h, x); }
    forall x: nat, u: nat ensures Mine(h', x, u) { assert Mine(h, x, u) && Mine(h, b, u); }
    forall u ensures UnitOk(h', u) { assert UnitOk(h, u); }
  }

  /** If there is a gap after `p` after all, nothing is adjacent. */
  lemma NotAdjacent(h: Heap, p: nat, b: nat)
    requires Inv(h, p) && IsNode(h, p) && p in h.mem && b in h.free && h.mem[p].ptr == b && p + h.mem[p].size != b
    ensures Inv(h, 0)
  {
    assert NodeOk(h, p);
    forall x: nat, y: nat ensures Coalesced(h, x, y, 0) {
      assert Coalesced(h, x, y, p) && NoneBetween(h, p, y) && BlockOk(h, x);
      if x == p && x in h.free { BlocksDisjoint(h, p, p, b); }
    }
  }
}
