/** Sv39 page tables in physical memory (section 4.4 of the RISC-V Privileged
    Architecture specification, version 20211203): the abstraction of
    kernel/vm.c and kernel/kalloc.c.

    Memory is a map from page-aligned physical addresses to 512 words. Beside it
    runs the bookkeeping the proofs are about: which page is what (`own`), where
    each page-table page is (`tab`), and the flat map from virtual page numbers
    to leaf entries (`flat`). */
module PageTables {
  import opened Basics

  const PGSIZE: nat := 4096
  const NPTE: nat := 512
  const MAXVA: nat := 0x40_0000_0000        // 1 << 38
  const TRAMPOLINE: nat := MAXVA - PGSIZE
  const TRAPFRAME: nat := TRAMPOLINE - PGSIZE

  const PTE_V: nat := 1
  const PTE_R: nat := 2
  const PTE_W: nat := 4
  const PTE_X: nat := 8
  const PTE_U: nat := 16

  type Page = p: seq<nat> | |p| == NPTE witness seq(NPTE, i => 0)

  // ----- Entries and indices -----

  predicate IsValid(pte: nat) { pte % 2 == 1 }

  /** Does the entry carry any of PTE_R, PTE_W, PTE_X? */
  predicate IsLeaf(pte: nat) { pte / 2 % 8 != 0 }

  function PteToPa(pte: nat): nat { pte / 1024 * 4096 }

  function PaToPte(pa: nat): nat { pa / 4096 * 1024 }

  function FlagsOf(pte: nat): nat { pte % 1024 }

  lemma PteRoundTrip(pa: nat, flags: nat)
    requires pa % 4096 == 0 && flags < 1024
    ensures PteToPa(PaToPte(pa) + flags) == pa && FlagsOf(PaToPte(pa) + flags) == flags
    ensures IsValid(PaToPte(pa) + flags) <==> flags % 2 == 1
    ensures IsLeaf(PaToPte(pa) + flags) <==> flags / 2 % 8 != 0
  {
    PteFields(pa / 4096, flags);
    PteLowBits(pa / 4096, flags);
  }

  lemma PteFields(q: nat, flags: nat)
    requires flags < 1024
    ensures (q * 1024 + flags) / 1024 == q && (q * 1024 + flags) % 1024 == flags
  {
  }

  lemma PteLowBits(q: nat, flags: nat)
    ensures (q * 1024 + flags) % 2 == flags % 2
    ensures (q * 1024 + flags) / 2 % 8 == flags / 2 % 8
  {
    assert q * 1024 + flags == 2 * (512 * q) + flags;
    DivTwo(512 * q, flags);
    assert 512 * q + flags / 2 == 8 * (64 * q) + flags / 2;
    ModEight(64 * q, flags / 2);
  }

  lemma DivTwo(a: nat, f: nat)
    ensures (2 * a + f) / 2 == a + f / 2 && (2 * a + f) % 2 == f % 2
  {
  }

  lemma ModEight(a: nat, f: nat)
    ensures (8 * a + f) % 8 == f % 8
  {
  }

  /** PX(level, va): the 9-bit index into the table of that level. */
  function Px(level: nat, va: nat): nat
    requires level <= 2
  {
    if level == 2 then va / 0x4000_0000 % 512
    else if level == 1 then va / 0x20_0000 % 512
    else va / 0x1000 % 512
  }

  function Vpn(va: nat): nat { va / 4096 }

  /** The three indices are the base-512 digits of the page number, so together
      with the 12-bit offset they determine the address. */
  lemma PxDigits(va: nat)
    requires va < MAXVA
    ensures Px(0, va) == Vpn(va) % 512
    ensures Px(1, va) == Vpn(va) / 512 % 512
    ensures Px(2, va) == Vpn(va) / 512 / 512 < 256
    ensures Vpn(va) == (Px(2, va) * 512 + Px(1, va)) * 512 + Px(0, va)
  {
  }

  // ----- Bookkeeping -----

  /** A page-table page: the address space it belongs to (named by its root
      page), its level, and the index digits that lead to it. */
  datatype Tbl = Tbl(r: nat, level: nat, pre: nat)

  datatype Tag = Free | Other | Table(t: Tbl) | User(r: nat, vpn: nat)

  /** `fixed` are the mappings of pages the address space does not own (the
      trampoline and the trapframe). `cut` is empty except inside freewalk: the
      tables whose parent entry is not to be trusted. */
  datatype Mem = Mem(
    pages: map<nat, Page>,
    free: seq<nat>,
    own: map<nat, Tag>,
    tab: map<Tbl, nat>,
    flat: map<(nat, nat), nat>,
    fixed: set<(nat, nat)>,
    cut: set<Tbl>)

  function Root(r: nat): Tbl { Tbl(r, 2, 0) }

  function Child(t: Tbl, idx: nat): Tbl
    requires t.level > 0
  {
    Tbl(t.r, t.level - 1, t.pre * 512 + idx)
  }

  function Parent(t: Tbl): Tbl { Tbl(t.r, t.level + 1, t.pre / 512) }

  function LowTable(r: nat, vpn: nat): Tbl { Tbl(r, 0, vpn / 512) }

  /** The flat-map key of an entry of a bottom table. */
  function Key(t: Tbl, idx: nat): (nat, nat) { (t.r, t.pre * 512 + idx) }

  lemma ChildParent(t: Tbl, idx: nat)
    requires t.level > 0 && idx < 512
    ensures Parent(Child(t, idx)) == t && Child(t, idx).pre % 512 == idx
  {
  }

  /** What a page's tag promises. Nothing but the tag's own place in the tables
      refers to the page, so no page is shared. A page tagged Other is in the hands of
      somebody outside the tables; AddressSpaces says whose. */
  ghost predicate OwnOk(m: Mem, p: nat)
    requires p in m.own
  {
    && p % 4096 == 0 && p > 0
    && match m.own[p]
       case Free => p in m.free
       case Other => true
       case Table(t) => t in m.tab && m.tab[t] == p
       case User(r, v) => (r, v) in m.flat && (r, v) !in m.fixed && PteToPa(m.flat[(r, v)]) == p
  }

  ghost predicate FreeOk(m: Mem, i: nat)
    requires i < |m.free|
  {
    m.free[i] in m.own && m.own[m.free[i]] == Free
  }

  ghost predicate Apart(m: Mem, i: nat, j: nat) {
    i < j < |m.free| ==> m.free[i] != m.free[j]
  }

  /** Page-table pages form one three-level tree per root. */
  ghost predicate TableOk(m: Mem, t: Tbl)
    requires t in m.tab
  {
    && m.tab[t] in m.own && m.own[m.tab[t]] == Table(t)
    && t.level <= 2
    && (t.level == 2 ==> t.pre == 0 && m.tab[t] == t.r)
    && (t.level < 2 ==> Parent(t) in m.tab)
  }

  /** An entry of an upper table is a link to the table below, or invalid. */
  ghost predicate LinkOk(m: Mem, t: Tbl, idx: nat)
    requires t in m.tab && t.level > 0 && idx < 512
  {
    && m.tab[t] in m.pages
    && (Child(t, idx) !in m.cut ==>
          && (IsValid(m.pages[m.tab[t]][idx]) <==> Child(t, idx) in m.tab)
          && (Child(t, idx) in m.tab ==> m.pages[m.tab[t]][idx] == PaToPte(m.tab[Child(t, idx)]) + PTE_V))
  }

  /** An entry of a bottom table is the flat map's, or invalid. */
  ghost predicate LeafOk(m: Mem, t: Tbl, idx: nat)
    requires t in m.tab && t.level == 0 && idx < 512
  {
    && m.tab[t] in m.pages
    && (IsValid(m.pages[m.tab[t]][idx]) <==> Key(t, idx) in m.flat)
    && (Key(t, idx) in m.flat ==> m.pages[m.tab[t]][idx] == m.flat[Key(t, idx)])
  }

  /** A mapped page is a leaf; if it is not fixed the mapping owns the page. */
  ghost predicate KeyOk(m: Mem, k: (nat, nat))
    requires k in m.flat
  {
    && LowTable(k.0, k.1) in m.tab
    && IsValid(m.flat[k]) && IsLeaf(m.flat[k])
    && (k !in m.fixed ==> PteToPa(m.flat[k]) in m.own && m.own[PteToPa(m.flat[k])] == User(k.0, k.1))
  }

  ghost predicate Inv(m: Mem) {
    && m.pages.Keys == m.own.Keys
    && m.fixed <= m.flat.Keys
    && (forall p {:trigger OwnOk(m, p)} :: p in m.own ==> OwnOk(m, p))
    && (forall i: nat {:trigger FreeOk(m, i)} :: i < |m.free| ==> FreeOk(m, i))
    && (forall i: nat, j: nat {:trigger Apart(m, i, j)} :: Apart(m, i, j))
    && (forall t {:trigger TableOk(m, t)} :: t in m.tab ==> TableOk(m, t))
    && (forall t, idx: nat {:trigger LinkOk(m, t, idx)} :: t in m.tab && t.level > 0 && idx < 512 ==> LinkOk(m, t, idx))
    && (forall t, idx: nat {:trigger LeafOk(m, t, idx)} ::
          t in m.tab && t.level == 0 && idx < 512 ==> LeafOk(m, t, idx))
    && (forall k {:trigger KeyOk(m, k)} :: k in m.flat ==> KeyOk(m, k))
  }

  // ----- Following entries -----

  /** The entry at `idx` of the table page at `pa`, if it is a valid one. */
  function Fetch(pages: map<nat, Page>, pa: nat, idx: nat): Option<nat>
    requires idx < 512
  {
    if pa in pages && IsValid(pages[pa][idx]) then Some(pages[pa][idx]) else None
  }

  lemma FetchLink(m: Mem, t: Tbl, idx: nat)
    requires Inv(m) && m.cut == {} && t in m.tab && t.level > 0 && idx < 512
    ensures Child(t, idx) !in m.tab ==> Fetch(m.pages, m.tab[t], idx) == None
    ensures Child(t, idx) in m.tab ==>
              var f := Fetch(m.pages, m.tab[t], idx); f.Some? && PteToPa(f.value) == m.tab[Child(t, idx)]
  {
    assert LinkOk(m, t, idx);
    if Child(t, idx) in m.tab {
      assert TableOk(m, Child(t, idx)) && OwnOk(m, m.tab[Child(t, idx)]);
      PteRoundTrip(m.tab[Child(t, idx)], PTE_V);
    }
  }

  // ----- The page allocator -----

  function Zeros(): Page { seq(NPTE, i => 0) }

  /** The page kalloc hands out, as it leaves it. */
  function Kalloc(m: Mem, junk: Page): Mem
    requires m.free != []
  {
    m.(pages := m.pages[m.free[0] := junk], free := m.free[1..], own := m.own[m.free[0] := Other])
  }

  function Kfree(m: Mem, p: nat, junk: Page): Mem {
    m.(pages := m.pages[p := junk], free := [p] + m.free, own := m.own[p := Free])
  }

  /** Writes to a page that no table refers to, such as one just allocated. */
  function Fill(m: Mem, p: nat, data: Page): Mem {
    m.(pages := m.pages[p := data])
  }

  /** Changing one page that no table refers to, and the free list, keeps every
      table as it is. */
  lemma FrameInv(m: Mem, m': Mem, p: nat)
    requires Inv(m) && p in m.own && !m.own[p].Table?
    requires m' == m.(pages := m'.pages, own := m'.own, free := m'.free)
    requires p in m'.own && m'.own == m.own[p := m'.own[p]] && m'.pages.Keys == m'.own.Keys
    requires forall q :: q in m.pages && q != p ==> m'.pages[q] == m.pages[q]
    requires m'.own[p] == m.own[p] || (m.own[p] in {Free, Other} && m'.own[p] in {Free, Other})
    requires forall i: nat {:trigger FreeOk(m', i)} :: i < |m'.free| ==> FreeOk(m', i)
    requires forall i: nat, j: nat {:trigger Apart(m', i, j)} :: Apart(m', i, j)
    requires m'.own[p] == Free ==> p in m'.free
    requires forall q :: q in m.free && q != p ==> q in m'.free
    ensures Inv(m')
  {
    forall q | q in m'.own ensures OwnOk(m', q) { assert OwnOk(m, q); }
    forall t | t in m'.tab ensures TableOk(m', t) { assert TableOk(m, t); }
    forall t, idx: nat | t in m'.tab && t.level > 0 && idx < 512 ensures LinkOk(m', t, idx) {
      assert TableOk(m, t) && LinkOk(m, t, idx);
    }
    forall t, idx: nat | t in m'.tab && t.level == 0 && idx < 512 ensures LeafOk(m', t, idx) {
      assert TableOk(m, t) && LeafOk(m, t, idx);
    }
    forall k | k in m'.flat ensures KeyOk(m', k) { assert KeyOk(m, k); }
  }

  lemma KallocInv(m: Mem, junk: Page)
    requires Inv(m) && m.free != []
    ensures m.free[0] in m.own && m.own[m.free[0]] == Free && Inv(Kalloc(m, junk))
  {
    var m' := Kalloc(m, junk);
    assert FreeOk(m, 0);
    forall i: nat | i < |m'.free| ensures FreeOk(m', i) { assert FreeOk(m, i + 1) && Apart(m, 0, i + 1); }
    forall i: nat, j: nat ensures Apart(m', i, j) { assert Apart(m, i + 1, j + 1); }
    FrameInv(m, m', m.free[0]);
  }

  lemma KfreeInv(m: Mem, p: nat, junk: Page)
    requires Inv(m) && p in m.own && m.own[p] == Other
    ensures Inv(Kfree(m, p, junk))
  {
    var m' := Kfree(m, p, junk);
    forall i: nat | i < |m.free| ensures m.free[i] != p { assert FreeOk(m, i); }
    forall i: nat | i < |m'.free| ensures FreeOk(m', i) { if i > 0 { assert FreeOk(m, i - 1); } }
    forall i: nat, j: nat ensures Apart(m', i, j) { if 0 < i < j { assert Apart(m, i - 1, j - 1); } }
    FrameInv(m, m', p);
  }

  /** freerange hands a page that was never managed to the allocator. */
  lemma NoMemoryInv()
    ensures Inv(Mem(map[], [], map[], map[], map[], {}, {}))
  {
  }

  lemma AddPageInv(m: Mem, p: nat, junk: Page)
    requires Inv(m) && m.tab == map[] && m.flat == map[] && p !in m.own && p % 4096 == 0 && p > 0
    ensures Inv(Kfree(m, p, junk))
  {
    var m' := Kfree(m, p, junk);
    forall i: nat | i < |m.free| ensures m.free[i] != p { assert FreeOk(m, i); }
    forall q | q in m'.own ensures OwnOk(m', q) { if q != p { assert OwnOk(m, q); } }
    forall i: nat | i < |m'.free| ensures FreeOk(m', i) { if i > 0 { assert FreeOk(m, i - 1); } }
    forall i: nat, j: nat ensures Apart(m', i, j) { if 0 < i < j { assert Apart(m, i - 1, j - 1); } }
  }

  lemma FillInv(m: Mem, p: nat, data: Page)
    requires Inv(m) && p in m.own && (m.own[p] == Other || m.own[p].User?)
    ensures Inv(Fill(m, p, data))
  {
    var m' := Fill(m, p, data);
    forall i: nat | i < |m'.free| ensures FreeOk(m', i) { assert FreeOk(m, i); }
    forall i: nat, j: nat ensures Apart(m', i, j) { assert Apart(m, i, j); }
    FrameInv(m, m', p);
  }

  // ----- Writing one page-table entry -----

  function SetEntry(m: Mem, t: Tbl, idx: nat, pte: nat): map<nat, Page>
    requires t in m.tab && m.tab[t] in m.pages && idx < 512
  {
    m.pages[m.tab[t] := m.pages[m.tab[t]][idx := pte]]
  }

  /** No other entry of any table changes. */
  lemma OtherEntries(m: Mem, t: Tbl, idx: nat, pte: nat, u: Tbl, j: nat)
    requires Inv(m) && t in m.tab && u in m.tab && idx < 512 && j < 512 && (t, idx) != (u, j)
    ensures m.tab[t] in m.pages && m.tab[u] in m.pages
    ensures SetEntry(m, t, idx, pte)[m.tab[u]][j] == m.pages[m.tab[u]][j]
  {
    assert TableOk(m, t) && TableOk(m, u);
  }

  /** Nothing hangs below a table that does not exist. */
  lemma NoOrphans(m: Mem, c: Tbl, j: nat)
    requires Inv(m) && c !in m.tab && c.level <= 2 && j < 512
    ensures c.level > 0 ==> Child(c, j) !in m.tab
    ensures c.level == 0 ==> Key(c, j) !in m.flat
  {
    if c.level > 0 {
      ChildParent(c, j);
      assert Child(c, j) in m.tab ==> TableOk(m, Child(c, j));
    } else {
      assert LowTable(c.r, c.pre * 512 + j) == c;
      assert Key(c, j) in m.flat ==> KeyOk(m, Key(c, j));
    }
  }

  /** walk links a zeroed page in as a new table. */
  function Link(m: Mem, t: Tbl, idx: nat, p: nat): Mem
    requires t in m.tab && m.tab[t] in m.pages && t.level > 0 && idx < 512
  {
    m.(pages := SetEntry(m, t, idx, PaToPte(p) + PTE_V),
       own := m.own[p := Table(Child(t, idx))],
       tab := m.tab[Child(t, idx) := p])
  }

  lemma LinkInv(m: Mem, t: Tbl, idx: nat, p: nat)
    requires Inv(m) && m.cut == {} && t in m.tab && t.level > 0 && idx < 512 && Child(t, idx) !in m.tab
    requires p in m.own && m.own[p] == Other && m.pages[p] == Zeros()
    ensures m.tab[t] in m.pages && Inv(Link(m, t, idx, p))
  {
    assert TableOk(m, t) && OwnOk(m, p);
    var m', c := Link(m, t, idx, p), Child(t, idx);
    ChildParent(t, idx);
    forall q | q in m'.own ensures OwnOk(m', q) { assert OwnOk(m, q); }
    forall i: nat | i < |m'.free| ensures FreeOk(m', i) { assert FreeOk(m, i); }
    forall i: nat, j: nat ensures Apart(m', i, j) { assert Apart(m, i, j); }
    forall u | u in m'.tab ensures TableOk(m', u) { if u != c { assert TableOk(m, u); } }
    forall u, j: nat | u in m'.tab && u.level > 0 && j < 512 ensures LinkOk(m', u, j) {
      LinkInvLinks(m, t, idx, p, u, j);
    }
    forall u, j: nat | u in m'.tab && u.level == 0 && j < 512 ensures LeafOk(m', u, j) {
      LinkInvLeaves(m, t, idx, p, u, j);
    }
    forall k | k in m'.flat ensures KeyOk(m', k) { assert KeyOk(m, k); }
  }

  lemma LinkInvLinks(m: Mem, t: Tbl, idx: nat, p: nat, u: Tbl, j: nat)
    requires Inv(m) && m.cut == {} && t in m.tab && t.level > 0 && idx < 512 && Child(t, idx) !in m.tab
    requires p in m.own && m.own[p] == Other && m.pages[p] == Zeros()
    requires (u in m.tab || u == Child(t, idx)) && u.level > 0 && j < 512
    ensures m.tab[t] in m.pages && LinkOk(Link(m, t, idx, p), u, j)
  {
    assert TableOk(m, t) && OwnOk(m, p);
    ChildParent(t, idx);
    ChildParent(u, j);
    if u == Child(t, idx) {
      NoOrphans(m, u, j);
    } else {
      assert TableOk(m, u) && LinkOk(m, u, j);
      if (t, idx) == (u, j) {
        PteRoundTrip(p, PTE_V);
      } else {
        OtherEntries(m, t, idx, PaToPte(p) + PTE_V, u, j);
      }
    }
  }

  lemma LinkInvLeaves(m: Mem, t: Tbl, idx: nat, p: nat, u: Tbl, j: nat)
    requires Inv(m) && t in m.tab && t.level > 0 && idx < 512 && Child(t, idx) !in m.tab
    requires p in m.own && m.own[p] == Other && m.pages[p] == Zeros()
    requires (u in m.tab || u == Child(t, idx)) && u.level == 0 && j < 512
    ensures m.tab[t] in m.pages && LeafOk(Link(m, t, idx, p), u, j)
  {
    assert TableOk(m, t) && OwnOk(m, p);
    if u == Child(t, idx) {
      NoOrphans(m, u, j);
    } else {
      assert TableOk(m, u) && LeafOk(m, u, j);
    }
  }

  /** mappages writes a leaf entry. Unless the mapping is fixed, the address
      space takes over the page. */
  function MapLeaf(m: Mem, t: Tbl, idx: nat, pte: nat, fix: bool): Mem
    requires t in m.tab && m.tab[t] in m.pages && idx < 512
  {
    m.(pages := SetEntry(m, t, idx, pte),
       own := if fix then m.own else m.own[PteToPa(pte) := User(t.r, t.pre * 512 + idx)],
       flat := m.flat[Key(t, idx) := pte],
       fixed := if fix then m.fixed + {Key(t, idx)} else m.fixed)
  }

  lemma MapLeafInv(m: Mem, t: Tbl, idx: nat, pte: nat, fix: bool)
    requires Inv(m) && t in m.tab && t.level == 0 && idx < 512 && Key(t, idx) !in m.flat
    requires IsValid(pte) && IsLeaf(pte)
    requires !fix ==> PteToPa(pte) in m.own && m.own[PteToPa(pte)] == Other
    ensures m.tab[t] in m.pages && Inv(MapLeaf(m, t, idx, pte, fix))
  {
    assert TableOk(m, t);
    var m' := MapLeaf(m, t, idx, pte, fix);
    assert LowTable(t.r, t.pre * 512 + idx) == t;
    MapLeafOwners(m, t, idx, pte, fix);
    forall i: nat | i < |m'.free| ensures FreeOk(m', i) { assert FreeOk(m, i); }
    forall i: nat, j: nat ensures Apart(m', i, j) { assert Apart(m, i, j); }
    forall u | u in m'.tab ensures TableOk(m', u) { assert TableOk(m, u); }
    forall u, j: nat | u in m'.tab && u.level > 0 && j < 512 ensures LinkOk(m', u, j) {
      assert TableOk(m, u) && LinkOk(m, u, j);
    }
    forall u, j: nat | u in m'.tab && u.level == 0 && j < 512 ensures LeafOk(m', u, j) {
      SetLeafOk(m, t, idx, pte, u, j);
    }
  }

  lemma MapLeafOwners(m: Mem, t: Tbl, idx: nat, pte: nat, fix: bool)
    requires Inv(m) && t in m.tab && m.tab[t] in m.pages && t.level == 0 && idx < 512 && Key(t, idx) !in m.flat
    requires IsValid(pte) && IsLeaf(pte)
    requires !fix ==> PteToPa(pte) in m.own && m.own[PteToPa(pte)] == Other
    ensures var m' := MapLeaf(m, t, idx, pte, fix);
            && (forall p: nat {:trigger OwnOk(m', p)} :: p in m'.own ==> OwnOk(m', p))
            && (forall k {:trigger KeyOk(m', k)} :: k in m'.flat ==> KeyOk(m', k))
  {
    var m' := MapLeaf(m, t, idx, pte, fix);
    assert LowTable(t.r, t.pre * 512 + idx) == t;
    forall q | q in m'.own ensures OwnOk(m', q) { assert OwnOk(m, q); }
    forall k | k in m'.flat ensures KeyOk(m', k) { if k != Key(t, idx) { assert KeyOk(m, k); } }
  }

  lemma KeyInjective(t: Tbl, idx: nat, u: Tbl, j: nat)
    requires t.level == u.level && idx < 512 && j < 512
    ensures Key(t, idx) == Key(u, j) ==> t == u && idx == j
  {
    assert (t.pre * 512 + idx) / 512 == t.pre;
    assert (u.pre * 512 + j) / 512 == u.pre;
  }

  /** After one leaf entry is written, the flat map with that key set (or
      removed, for an invalid entry) still agrees with every leaf entry. */
  lemma SetLeafOk(m: Mem, t: Tbl, idx: nat, pte: nat, u: Tbl, j: nat)
    requires Inv(m) && t in m.tab && t.level == 0 && idx < 512
    requires u in m.tab && u.level == 0 && j < 512
    ensures m.tab[t] in m.pages
    ensures LeafOk(m.(pages := SetEntry(m, t, idx, pte),
                      flat := if IsValid(pte) then m.flat[Key(t, idx) := pte] else m.flat - {Key(t, idx)}), u, j)
  {
    assert TableOk(m, t) && TableOk(m, u) && LeafOk(m, u, j);
    if (t, idx) != (u, j) {
      OtherEntries(m, t, idx, pte, u, j);
      KeyInjective(t, idx, u, j);
    }
  }

  /** uvmunmap clears a leaf entry; the page itself is now in the caller's hands. */
  function UnmapLeaf(m: Mem, t: Tbl, idx: nat): Mem
    requires t in m.tab && m.tab[t] in m.pages && idx < 512 && Key(t, idx) in m.flat
  {
    var k := Key(t, idx);
    m.(pages := SetEntry(m, t, idx, 0),
       own := if k in m.fixed then m.own else m.own[PteToPa(m.flat[k]) := Other],
       flat := m.flat - {k},
       fixed := m.fixed - {k})
  }

  lemma UnmapLeafInv(m: Mem, t: Tbl, idx: nat)
    requires Inv(m) && t in m.tab && t.level == 0 && idx < 512 && Key(t, idx) in m.flat
    ensures m.tab[t] in m.pages && Inv(UnmapLeaf(m, t, idx))
    ensures Key(t, idx) !in m.fixed ==>
              var pa := PteToPa(m.flat[Key(t, idx)]);
              pa in m.own && m.own[pa] == User(t.r, t.pre * 512 + idx) && UnmapLeaf(m, t, idx).own[pa] == Other
  {
    assert TableOk(m, t) && KeyOk(m, Key(t, idx));
    var m' := UnmapLeaf(m, t, idx);
    forall q | q in m'.own ensures OwnOk(m', q) { assert OwnOk(m, q); }
    forall i: nat | i < |m'.free| ensures FreeOk(m', i) { assert FreeOk(m, i); }
    forall i: nat, j: nat ensures Apart(m', i, j) { assert Apart(m, i, j); }
    forall u | u in m'.tab ensures TableOk(m', u) { assert TableOk(m, u); }
    forall u, j: nat | u in m'.tab && u.level > 0 && j < 512 ensures LinkOk(m', u, j) {
      assert TableOk(m, u) && LinkOk(m, u, j);
    }
    forall u, j: nat | u in m'.tab && u.level == 0 && j < 512 ensures LeafOk(m', u, j) {
      SetLeafOk(m, t, idx, 0, u, j);
    }
    forall k | k in m'.flat ensures KeyOk(m', k) { assert KeyOk(m, k); }
  }

  // ----- Freeing tables -----

  /** freewalk gives back a table with nothing below it. */
  function DropTable(m: Mem, t: Tbl, junk: Page): Mem
    requires t in m.tab
  {
    m.(pages := m.pages[m.tab[t] := junk], free := [m.tab[t]] + m.free,
       own := m.own[m.tab[t] := Free], tab := m.tab - {t})
  }

  ghost predicate Childless(m: Mem, t: Tbl) {
    && (forall idx: nat {:trigger Child(t, idx)} :: t.level > 0 && idx < 512 ==> Child(t, idx) !in m.tab)
    && (forall idx: nat {:trigger Key(t, idx)} :: t.level == 0 && idx < 512 ==> Key(t, idx) !in m.flat)
  }

  lemma DropTableInv(m: Mem, t: Tbl, junk: Page)
    requires Inv(m) && t in m.tab && Childless(m, t) && (t.level < 2 ==> t in m.cut)
    ensures Inv(DropTable(m, t, junk))
  {
    assert TableOk(m, t) && OwnOk(m, m.tab[t]);
    var m', p := DropTable(m, t, junk), m.tab[t];
    forall i: nat | i < |m.free| ensures m.free[i] != p { assert FreeOk(m, i); }
    forall q | q in m'.own ensures OwnOk(m', q) { assert OwnOk(m, q); }
    forall i: nat | i < |m'.free| ensures FreeOk(m', i) { if i > 0 { assert FreeOk(m, i - 1); } }
    forall i: nat, j: nat ensures Apart(m', i, j) { if 0 < i < j { assert Apart(m, i - 1, j - 1); } }
    forall u | u in m'.tab ensures TableOk(m', u) {
      assert TableOk(m, u);
      if u.level < 2 {
        var idx := u.pre % 512;
        assert Parent(u) == t ==> Child(t, idx) == u;
      }
    }
    forall u, j: nat | u in m'.tab && u.level > 0 && j < 512 ensures LinkOk(m', u, j) {
      assert TableOk(m, u) && LinkOk(m, u, j);
    }
    forall u, j: nat | u in m'.tab && u.level == 0 && j < 512 ensures LeafOk(m', u, j) {
      assert TableOk(m, u) && LeafOk(m, u, j);
    }
    forall k | k in m'.flat ensures KeyOk(m', k) {
      assert KeyOk(m, k);
      assert LowTable(k.0, k.1) == t ==> Key(t, k.1 % 512) == k;
    }
  }

  /** The parent entry of a dropped table is cleared; it can be trusted again. */
  function ClearLink(m: Mem, t: Tbl, idx: nat): Mem
    requires t in m.tab && m.tab[t] in m.pages && t.level > 0 && idx < 512
  {
    m.(pages := SetEntry(m, t, idx, 0), cut := m.cut - {Child(t, idx)})
  }

  lemma ClearLinkInv(m: Mem, t: Tbl, idx: nat)
    requires Inv(m) && t in m.tab && t.level > 0 && idx < 512 && Child(t, idx) !in m.tab
    ensures m.tab[t] in m.pages && Inv(ClearLink(m, t, idx))
  {
    assert TableOk(m, t);
    var m' := ClearLink(m, t, idx);
    forall q | q in m'.own ensures OwnOk(m', q) { assert OwnOk(m, q); }
    forall i: nat | i < |m'.free| ensures FreeOk(m', i) { assert FreeOk(m, i); }
    forall i: nat, j: nat ensures Apart(m', i, j) { assert Apart(m, i, j); }
    forall u | u in m'.tab ensures TableOk(m', u) { assert TableOk(m, u); }
    forall u, j: nat | u in m'.tab && u.level > 0 && j < 512 ensures LinkOk(m', u, j) {
      assert TableOk(m, u) && LinkOk(m, u, j);
      ChildParent(t, idx);
      ChildParent(u, j);
      if (t, idx) != (u, j) {
        OtherEntries(m, t, idx, 0, u, j);
      }
    }
    forall u, j: nat | u in m'.tab && u.level == 0 && j < 512 ensures LeafOk(m', u, j) {
      assert TableOk(m, u) && LeafOk(m, u, j);
    }
    forall k | k in m'.flat ensures KeyOk(m', k) { assert KeyOk(m, k); }
  }

  function Cut(m: Mem, t: Tbl): Mem { m.(cut := m.cut + {t}) }

  lemma CutInv(m: Mem, t: Tbl)
    requires Inv(m)
    ensures Inv(Cut(m, t))
  {
    var m' := Cut(m, t);
    forall q | q in m'.own ensures OwnOk(m', q) { assert OwnOk(m, q); }
    forall i: nat | i < |m'.free| ensures FreeOk(m', i) { assert FreeOk(m, i); }
    forall i: nat, j: nat ensures Apart(m', i, j) { assert Apart(m, i, j); }
    forall u | u in m'.tab ensures TableOk(m', u) { assert TableOk(m, u); }
    forall u, j: nat | u in m'.tab && u.level > 0 && j < 512 ensures LinkOk(m', u, j) { assert LinkOk(m, u, j); }
    forall u, j: nat | u in m'.tab && u.level == 0 && j < 512 ensures LeafOk(m', u, j) { assert LeafOk(m, u, j); }
    forall k | k in m'.flat ensures KeyOk(m', k) { assert KeyOk(m, k); }
  }

  /** uvmcreate turns a zeroed page into an empty address space. */
  function NewRoot(m: Mem, p: nat): Mem {
    m.(own := m.own[p := Table(Root(p))], tab := m.tab[Root(p) := p])
  }

  lemma NewRootLinks(m: Mem, p: nat, u: Tbl, j: nat)
    requires Inv(m) && p in m.own && m.own[p] == Other && m.pages[p] == Zeros() && Root(p) !in m.tab
    requires (u in m.tab || u == Root(p)) && u.level > 0 && j < 512
    ensures LinkOk(NewRoot(m, p), u, j)
  {
    if u == Root(p) {
      NoOrphans(m, u, j);
    } else {
      assert TableOk(m, u) && LinkOk(m, u, j);
    }
  }

  lemma NewRootPage(m: Mem, p: nat, q: nat)
    requires Inv(m) && p in m.own && m.own[p] == Other && Root(p) !in m.tab && q in m.own
    ensures OwnOk(NewRoot(m, p), q)
  {
    assert OwnOk(m, q) && OwnOk(m, p);
  }

  lemma NewRootTable(m: Mem, p: nat, u: Tbl)
    requires Inv(m) && p in m.own && m.own[p] == Other && Root(p) !in m.tab && (u in m.tab || u == Root(p))
    ensures TableOk(NewRoot(m, p), u)
  {
    if u != Root(p) { assert TableOk(m, u); }
  }

  lemma NewRootLeaf(m: Mem, p: nat, u: Tbl, j: nat)
    requires Inv(m) && u in m.tab && u.level == 0 && j < 512
    ensures LeafOk(NewRoot(m, p), u, j)
  {
    assert LeafOk(m, u, j);
  }

  lemma NewRootKey(m: Mem, p: nat, k: (nat, nat))
    requires Inv(m) && p in m.own && m.own[p] == Other && k in m.flat
    ensures KeyOk(NewRoot(m, p), k)
  {
    assert KeyOk(m, k);
  }

  lemma NewRootFree(m: Mem, p: nat, i: nat)
    requires Inv(m) && p in m.own && m.own[p] == Other && i < |m.free|
    ensures FreeOk(NewRoot(m, p), i)
  {
    assert FreeOk(m, i);
  }

  lemma NotARoot(m: Mem, p: nat)
    requires Inv(m) && p in m.own && m.own[p] == Other
    ensures Root(p) !in m.tab
  {
    assert Root(p) in m.tab ==> TableOk(m, Root(p));
  }

  lemma NewRootInv(m: Mem, p: nat)
    requires Inv(m) && m.cut == {} && p in m.own && m.own[p] == Other && m.pages[p] == Zeros()
    ensures Root(p) !in m.tab && Inv(NewRoot(m, p))
  {
    hide OwnOk, FreeOk, TableOk, LinkOk, LeafOk, KeyOk;
    var m' := NewRoot(m, p);
    NotARoot(m, p);
    forall q | q in m'.own ensures OwnOk(m', q) { NewRootPage(m, p, q); }
    forall i: nat | i < |m'.free| ensures FreeOk(m', i) { NewRootFree(m, p, i); }
    forall i: nat, j: nat ensures Apart(m', i, j) { assert Apart(m, i, j); }
    forall u | u in m'.tab ensures TableOk(m', u) { NewRootTable(m, p, u); }
    forall u, j: nat | u in m'.tab && u.level > 0 && j < 512 ensures LinkOk(m', u, j) { NewRootLinks(m, p, u, j); }
    forall u, j: nat | u in m'.tab && u.level == 0 && j < 512 ensures LeafOk(m', u, j) { NewRootLeaf(m, p, u, j); }
    forall k | k in m'.flat ensures KeyOk(m', k) { NewRootKey(m, p, k); }
  }
}
