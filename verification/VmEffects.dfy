/** What the operations of kernel/vm.c do to memory, as relations between the
    bookkeeping before and after, and how those relations compose. */
module VmEffects {
  import opened PageTables

  function JunkFreed(): Page { seq(NPTE, i => 0x0101010101010101) }
  function JunkAllocated(): Page { seq(NPTE, i => 0x0505050505050505) }

  /** perm | PTE_V, as bits of an entry for the page at `pa`. */
  function Entry(pa: nat, perm: nat): nat {
    PaToPte(pa) + (if perm % 2 == 1 then perm else perm + 1)
  }

  ghost predicate GoodPerm(perm: nat) {
    perm < 1024 && perm / 2 % 8 != 0
  }

  lemma EntryFacts(pa: nat, perm: nat)
    requires pa % 4096 == 0 && GoodPerm(perm)
    ensures PteToPa(Entry(pa, perm)) == pa && IsValid(Entry(pa, perm)) && IsLeaf(Entry(pa, perm))
    ensures FlagsOf(Entry(pa, perm)) == if perm % 2 == 1 then perm else perm + 1
  {
    PteRoundTrip(pa, if perm % 2 == 1 then perm else perm + 1);
  }

  /** The table on the path to page `vpn`. */
  function TblOn(r: nat, vpn: nat, level: nat): Tbl
    requires level <= 2
  {
    if level == 2 then Root(r) else if level == 1 then Tbl(r, 1, vpn / 512 / 512) else LowTable(r, vpn)
  }

  lemma PathStep(r: nat, va: nat, level: nat)
    requires va < MAXVA && 0 < level <= 2
    ensures Px(level, va) < 512 && Child(TblOn(r, Vpn(va), level), Px(level, va)) == TblOn(r, Vpn(va), level - 1)
  {
    PxDigits(va);
  }

  lemma PathEnd(r: nat, va: nat)
    requires va < MAXVA
    ensures Px(0, va) < 512 && Key(LowTable(r, Vpn(va)), Px(0, va)) == (r, Vpn(va))
  {
    PxDigits(va);
  }

  /** A page keeps its owner and contents, unless it was free or is a table. */
  ghost predicate PageGrows(m: Mem, m': Mem, r: nat, p: nat) {
    p in m.own ==>
      && p in m'.own && p in m.pages && p in m'.pages
      && (m.own[p] != Free ==> m'.own[p] == m.own[p])
      && (m.own[p] == Free ==> m'.own[p] == Free || (m'.own[p].Table? && m'.own[p].t.r == r))
      && (m.own[p] == Other || m.own[p].User? ==> m'.pages[p] == m.pages[p])
  }

  ghost predicate TabGrows(m: Mem, m': Mem, r: nat, t: Tbl) {
    && (t in m.tab ==> t in m'.tab && m'.tab[t] == m.tab[t])
    && (t in m'.tab && t !in m.tab ==> t.r == r && t.level < 2)
  }

  /** Nothing happened but that address space `r` may have more tables, made from
      free pages. */
  ghost predicate Grows(m: Mem, m': Mem, r: nat) {
    && m'.flat == m.flat && m'.fixed == m.fixed && m'.cut == m.cut && m'.own.Keys == m.own.Keys
    && (forall t {:trigger TabGrows(m, m', r, t)} :: TabGrows(m, m', r, t))
    && (forall p: nat {:trigger PageGrows(m, m', r, p)} :: PageGrows(m, m', r, p))
  }

  lemma GrowsRefl(m: Mem, r: nat)
    requires Inv(m)
    ensures Grows(m, m, r)
  {
    forall t ensures TabGrows(m, m, r, t) { }
    forall p ensures PageGrows(m, m, r, p) { }
  }

  lemma GrowsTrans(a: Mem, b: Mem, c: Mem, r: nat)
    requires Grows(a, b, r) && Grows(b, c, r)
    ensures Grows(a, c, r)
  {
    forall t ensures TabGrows(a, c, r, t) { assert TabGrows(a, b, r, t) && TabGrows(b, c, r, t); }
    forall p ensures PageGrows(a, c, r, p) { assert PageGrows(a, b, r, p) && PageGrows(b, c, r, p); }
  }

  /** A free page, zeroed and linked in as the table below entry `idx` of `t`. */
  ghost function NewTable(m: Mem, t: Tbl, idx: nat): Mem
    requires m.free != [] && t in m.tab && m.tab[t] in m.pages && t.level > 0 && idx < 512
  {
    Link(Fill(PageTables.Kalloc(m, JunkAllocated()), m.free[0], Zeros()), t, idx, m.free[0])
  }

  lemma NewTableInv(m: Mem, t: Tbl, idx: nat)
    requires Inv(m) && m.cut == {} && m.free != []
    requires t in m.tab && t.level > 0 && idx < 512 && Child(t, idx) !in m.tab
    ensures m.tab[t] in m.pages && Inv(NewTable(m, t, idx))
    ensures m.free[0] in m.own && m.own[m.free[0]] == Free && m.tab[t] != m.free[0]
  {
    assert TableOk(m, t) && FreeOk(m, 0);
    var m1 := PageTables.Kalloc(m, JunkAllocated());
    KallocInv(m, JunkAllocated());
    FillInv(m1, m.free[0], Zeros());
    LinkInv(Fill(m1, m.free[0], Zeros()), t, idx, m.free[0]);
  }

  lemma NewTableGrows(m: Mem, t: Tbl, idx: nat)
    requires Inv(m) && m.cut == {} && m.free != []
    requires t in m.tab && t.level > 0 && idx < 512 && Child(t, idx) !in m.tab
    ensures m.tab[t] in m.pages && Grows(m, NewTable(m, t, idx), t.r)
  {
    assert TableOk(m, t) && FreeOk(m, 0);
    var m' := NewTable(m, t, idx);
    forall u ensures TabGrows(m, m', t.r, u) { }
    forall p ensures PageGrows(m, m', t.r, p) { }
  }

  datatype MapResult = Mapped | NoMemory | PanicRemap

  /** One more entry `pte` in the flat map; unless it is fixed, the page `pa` it
      refers to now belongs to it. Tables may have been added. */
  ghost predicate Maps(m: Mem, m': Mem, r: nat, vpn: nat, pa: nat, pte: nat, fix: bool) {
    && (r, vpn) !in m.flat
    && m'.flat == m.flat[(r, vpn) := pte]
    && m'.fixed == (if fix then m.fixed + {(r, vpn)} else m.fixed)
    && m'.cut == m.cut && m'.own.Keys == m.own.Keys
    && (forall t {:trigger TabGrows(m, m', r, t)} :: TabGrows(m, m', r, t))
    && (forall p: nat {:trigger PageGrows(m, m', r, p)} :: fix || p != pa ==> PageGrows(m, m', r, p))
    && (!fix ==>
          && pa in m.own && m.own[pa] == Other && pa in m'.own && m'.own[pa] == User(r, vpn)
          && pa in m.pages && pa in m'.pages && m'.pages[pa] == m.pages[pa])
  }

  /** The keys of `n` consecutive pages, and the flat map with those pages mapped. */
  ghost function Keys(r: nat, v: nat, n: nat): set<(nat, nat)> {
    if n == 0 then {} else Keys(r, v, n - 1) + {(r, v + n - 1)}
  }

  ghost function MapRange(flat: map<(nat, nat), nat>, r: nat, v: nat, pa: nat, perm: nat, n: nat)
    : map<(nat, nat), nat>
  {
    if n == 0 then flat
    else MapRange(flat, r, v, pa, perm, n - 1)[(r, v + n - 1) := Entry(pa + (n - 1) * 4096, perm)]
  }

  lemma {:induction false} InKeys(r: nat, v: nat, n: nat, k: (nat, nat))
    ensures k in Keys(r, v, n) <==> k.0 == r && v <= k.1 < v + n
  {
    if n > 0 {
      InKeys(r, v, n - 1, k);
    }
  }

  lemma {:induction false} InMapRange(flat: map<(nat, nat), nat>, r: nat, v: nat, pa: nat, perm: nat,
                                      n: nat, k: (nat, nat))
    ensures k in MapRange(flat, r, v, pa, perm, n) <==> k in flat || k in Keys(r, v, n)
    ensures k in flat && k !in Keys(r, v, n) ==> MapRange(flat, r, v, pa, perm, n)[k] == flat[k]
    ensures k in Keys(r, v, n) ==>
              k.1 >= v && MapRange(flat, r, v, pa, perm, n)[k] == Entry(pa + (k.1 - v) * 4096, perm)
  {
    InKeys(r, v, n, k);
    if n > 0 {
      InKeys(r, v, n - 1, k);
      InMapRange(flat, r, v, pa, perm, n - 1, k);
    }
  }

  ghost predicate OtherAt(m: Mem, pa: nat, i: nat) {
    var p := pa + i * 4096;
    p in m.own && m.own[p] == Other
  }

  ghost predicate Taken(m: Mem, m': Mem, r: nat, v: nat, pa: nat, i: nat) {
    var p := pa + i * 4096;
    && p in m.own && p in m'.own && p in m.pages && p in m'.pages
    && m'.own[p] == User(r, v + i) && m'.pages[p] == m.pages[p]
  }

  /** Maps, for `n` consecutive pages. */
  ghost predicate MapsRange(m: Mem, m': Mem, r: nat, v: nat, pa: nat, perm: nat, n: nat, fix: bool) {
    && Keys(r, v, n) !! m.flat.Keys
    && m'.flat == MapRange(m.flat, r, v, pa, perm, n)
    && m'.fixed == (if fix then m.fixed + Keys(r, v, n) else m.fixed)
    && m'.cut == m.cut && m'.own.Keys == m.own.Keys
    && (forall t {:trigger TabGrows(m, m', r, t)} :: TabGrows(m, m', r, t))
    && (forall p: nat {:trigger PageGrows(m, m', r, p)} :: fix || !(pa <= p < pa + n * 4096) ==> PageGrows(m, m', r, p))
    && (!fix ==> forall i: nat {:trigger Taken(m, m', r, v, pa, i)} :: i < n ==> Taken(m, m', r, v, pa, i))
  }

  lemma MapsNone(m: Mem, r: nat, v: nat, pa: nat, perm: nat, fix: bool)
    requires Inv(m)
    ensures MapsRange(m, m, r, v, pa, perm, 0, fix)
  {
    GrowsRefl(m, r);
  }

  lemma StillOther(m: Mem, m': Mem, r: nat, v: nat, pa: nat, perm: nat, n: nat, fix: bool)
    requires MapsRange(m, m', r, v, pa, perm, n, fix)
    requires Root(r) in m.tab
    ensures Root(r) in m'.tab
    ensures !fix && OtherAt(m, pa, n) ==> OtherAt(m', pa, n)
    ensures (r, v + n) in m'.flat <==> (r, v + n) in m.flat
  {
    assert TabGrows(m, m', r, Root(r));
    assert !fix ==> PageGrows(m, m', r, pa + n * 4096);
    InMapRange(m.flat, r, v, pa, perm, n, (r, v + n));
    InKeys(r, v, n, (r, v + n));
  }

  lemma MapsRangeGrows(m: Mem, m1: Mem, m2: Mem, r: nat, v: nat, pa: nat, perm: nat, n: nat, fix: bool)
    requires MapsRange(m, m1, r, v, pa, perm, n, fix) && Grows(m1, m2, r)
    ensures MapsRange(m, m2, r, v, pa, perm, n, fix)
  {
    forall t ensures TabGrows(m, m2, r, t) { assert TabGrows(m, m1, r, t) && TabGrows(m1, m2, r, t); }
    forall p: nat | fix || !(pa <= p < pa + n * 4096) ensures PageGrows(m, m2, r, p) {
      assert PageGrows(m, m1, r, p) && PageGrows(m1, m2, r, p);
    }
    if !fix {
      forall i: nat | i < n ensures Taken(m, m2, r, v, pa, i) {
        assert Taken(m, m1, r, v, pa, i) && PageGrows(m1, m2, r, pa + i * 4096);
      }
    }
  }

  lemma MapsRangeStep(m: Mem, m1: Mem, m2: Mem, r: nat, v: nat, pa: nat, perm: nat, n: nat, fix: bool)
    requires MapsRange(m, m1, r, v, pa, perm, n, fix)
    requires Maps(m1, m2, r, v + n, pa + n * 4096, Entry(pa + n * 4096, perm), fix)
    ensures MapsRange(m, m2, r, v, pa, perm, n + 1, fix)
  {
    var q := pa + n * 4096;
    InMapRange(m.flat, r, v, pa, perm, n, (r, v + n));
    forall t ensures TabGrows(m, m2, r, t) { assert TabGrows(m, m1, r, t) && TabGrows(m1, m2, r, t); }
    forall p: nat | fix || !(pa <= p < pa + (n + 1) * 4096) ensures PageGrows(m, m2, r, p) {
      assert PageGrows(m, m1, r, p) && PageGrows(m1, m2, r, p);
    }
    if !fix {
      forall i: nat | i < n + 1 ensures Taken(m, m2, r, v, pa, i) {
        if i < n {
          assert Taken(m, m1, r, v, pa, i) && PageGrows(m1, m2, r, pa + i * 4096);
        } else {
          assert PageGrows(m, m1, r, q);
        }
      }
    }
  }

  lemma MapsAfterGrows(m: Mem, m1: Mem, t: Tbl, idx: nat, pa: nat, pte: nat, fix: bool)
    requires Grows(m, m1, t.r) && Inv(m1) && t in m1.tab && t.level == 0 && idx < 512 && Key(t, idx) !in m1.flat
    requires PteToPa(pte) == pa && (!fix ==> pa in m.own && m.own[pa] == Other)
    ensures m1.tab[t] in m1.pages
    ensures Maps(m, MapLeaf(m1, t, idx, pte, fix), t.r, t.pre * 512 + idx, pa, pte, fix)
  {
    hide Inv;
    LeafEntry(m1, t, idx);
    var m' := MapLeaf(m1, t, idx, pte, fix);
    if !fix {
      assert PageGrows(m, m1, t.r, pa);
    }
    forall u ensures TabGrows(m, m', t.r, u) { assert TabGrows(m, m1, t.r, u); }
    forall p: nat | fix || p != pa ensures PageGrows(m, m', t.r, p) { assert PageGrows(m, m1, t.r, p); }
  }

  /** A leaf entry is valid exactly when the flat map has its key. */
  lemma LeafEntry(m: Mem, t: Tbl, idx: nat)
    requires Inv(m) && t in m.tab && t.level == 0 && idx < 512
    ensures m.tab[t] in m.pages && m.tab[t] in m.own && m.own[m.tab[t]] == Table(t)
    ensures IsValid(m.pages[m.tab[t]][idx]) <==> Key(t, idx) in m.flat
    ensures Key(t, idx) in m.flat ==> m.pages[m.tab[t]][idx] == m.flat[Key(t, idx)]
  {
    assert TableOk(m, t) && LeafOk(m, t, idx);
  }

  lemma LeafTable(m: Mem, r: nat, vpn: nat)
    requires Inv(m)
    ensures (r, vpn) in m.flat ==> LowTable(r, vpn) in m.tab
  {
    assert (r, vpn) in m.flat ==> KeyOk(m, (r, vpn));
  }

  lemma MapsZero(m: Mem, m': Mem, r: nat, v: nat, pa: nat, perm: nat, fix: bool)
    requires MapsRange(m, m', r, v, pa, perm, 0, fix)
    ensures Grows(m, m', r)
  {
    forall p: nat ensures PageGrows(m, m', r, p) {
      assert !(pa <= p < pa + 0 * 4096);
    }
  }

  lemma MapsOne(m: Mem, m': Mem, r: nat, v: nat, pa: nat, perm: nat, fix: bool)
    requires MapsRange(m, m', r, v, pa, perm, 1, fix) && pa % 4096 == 0
    requires !fix ==> OtherAt(m, pa, 0)
    requires forall p: nat :: p in m.own ==> p % 4096 == 0
    ensures Maps(m, m', r, v, pa, Entry(pa, perm), fix)
  {
    assert Keys(r, v, 1) == {(r, v)};
    assert MapRange(m.flat, r, v, pa, perm, 1) == MapRange(m.flat, r, v, pa, perm, 0)[(r, v) := Entry(pa, perm)];
    assert !fix ==> Taken(m, m', r, v, pa, 0);
    forall p: nat | fix || p != pa ensures PageGrows(m, m', r, p) {
      if p in m.own {
        assert fix || !(pa <= p < pa + 1 * 4096);
      }
    }
  }

  lemma OnePage(m: Mem, p: nat)
    requires Inv(m) && p in m.own && m.own[p] == Other
    ensures p > 0 && p % 4096 == 0 && forall i: nat {:trigger OtherAt(m, p, i)} :: i < 1 ==> OtherAt(m, p, i)
    ensures forall q: nat :: q in m.own ==> q % 4096 == 0
  {
    assert OwnOk(m, p);
    forall q: nat | q in m.own ensures q % 4096 == 0 { assert OwnOk(m, q); }
  }

  // ----- Allocating pages to an address space -----

  /** Pages in use keep owner and contents; a free page may have become a table of
      `r` or one of the pages mapped at the keys `ks`. */
  ghost predicate PageAlloced(m: Mem, m': Mem, r: nat, ks: set<(nat, nat)>, p: nat) {
    p in m.own ==>
      && p in m'.own && p in m.pages && p in m'.pages
      && (m.own[p] != Free ==> m'.own[p] == m.own[p])
      && (m.own[p] == Free ==>
            || m'.own[p] == Free
            || (m'.own[p].Table? && m'.own[p].t.r == r)
            || (m'.own[p].User? && (m'.own[p].r, m'.own[p].vpn) in ks))
      && (m.own[p] == Other || m.own[p].User? ==> m'.pages[p] == m.pages[p])
  }

  /** Exactly the keys `ks` are new in the flat map. */
  ghost predicate Alloced(m: Mem, m': Mem, r: nat, ks: set<(nat, nat)>) {
    && ks !! m.flat.Keys
    && m'.flat.Keys == m.flat.Keys + ks && (forall k :: k in m.flat ==> m'.flat[k] == m.flat[k])
    && m'.fixed == m.fixed && m'.cut == m.cut && m'.own.Keys == m.own.Keys
    && (forall t {:trigger TabGrows(m, m', r, t)} :: TabGrows(m, m', r, t))
    && (forall p: nat {:trigger PageAlloced(m, m', r, ks, p)} :: PageAlloced(m, m', r, ks, p))
  }

  /** The entry at `k` has the permissions `perm` and its page holds `data`. */
  ghost predicate NewLeaf(m: Mem, k: (nat, nat), perm: nat, data: Page) {
    && k in m.flat
    && FlagsOf(m.flat[k]) == (if perm % 2 == 1 then perm else perm + 1)
    && PteToPa(m.flat[k]) in m.pages && m.pages[PteToPa(m.flat[k])] == data
  }

  lemma FreshPageMapped(m: Mem, m1: Mem, m2: Mem, p: nat, r: nat, v: nat, perm: nat, data: Page)
    requires Inv(m) && m.free != [] && p == m.free[0] && p in m.own && m.own[p] == Free && p % 4096 == 0
    requires m1 == Fill(PageTables.Kalloc(m, JunkAllocated()), p, data) && GoodPerm(perm)
    requires Maps(m1, m2, r, v, p, Entry(p, perm), false)
    ensures Alloced(m, m2, r, {(r, v)}) && NewLeaf(m2, (r, v), perm, data)
  {
    EntryFacts(p, perm);
    forall t ensures TabGrows(m, m2, r, t) { assert TabGrows(m1, m2, r, t); }
    forall q: nat ensures PageAlloced(m, m2, r, {(r, v)}, q) {
      assert q != p ==> PageGrows(m1, m2, r, q);
    }
  }

  lemma FreshPageReturned(m: Mem, m1: Mem, m2: Mem, p: nat, r: nat, data: Page)
    requires Inv(m) && m.free != [] && p == m.free[0] && p in m.own && m.own[p] == Free
    requires m1 == Fill(PageTables.Kalloc(m, JunkAllocated()), p, data)
    requires Grows(m1, m2, r)
    ensures Grows(m, PageTables.Kfree(m2, p, JunkFreed()), r)
  {
    var m3 := PageTables.Kfree(m2, p, JunkFreed());
    forall t ensures TabGrows(m, m3, r, t) { assert TabGrows(m1, m2, r, t); }
    forall q: nat ensures PageGrows(m, m3, r, q) {
      assert PageGrows(m1, m2, r, q);
    }
  }

  function PgRoundUp(sz: nat): nat { (sz + 4095) / 4096 * 4096 }

  /** The number of pages that hold `sz` bytes. */
  function PagesFor(sz: nat): nat { (sz + 4095) / 4096 }

  lemma PageBounds(sz: nat, q: nat)
    ensures PgRoundUp(sz) == PagesFor(sz) * 4096
    ensures q * 4096 < sz <==> q < PagesFor(sz)
    ensures Vpn(q * 4096) == q
  {
  }

  lemma MorePages(sz: nat, sz': nat)
    requires sz <= sz' <= TRAPFRAME
    ensures PagesFor(sz) <= PagesFor(sz') <= HIGH
  {
  }

  lemma UserPerm(xperm: nat)
    requires xperm in {0, PTE_W, PTE_X, PTE_W + PTE_X}
    ensures GoodPerm(PTE_R + PTE_U + xperm)
  {
  }

  lemma AllocedNone(m: Mem, r: nat)
    requires Inv(m)
    ensures Alloced(m, m, r, {})
  {
    forall t ensures TabGrows(m, m, r, t) { }
    forall p: nat ensures PageAlloced(m, m, r, {}, p) { }
  }

  lemma AllocedStep(m: Mem, m1: Mem, m2: Mem, r: nat, ks: set<(nat, nat)>, ls: set<(nat, nat)>)
    requires Alloced(m, m1, r, ks) && Alloced(m1, m2, r, ls)
    ensures Alloced(m, m2, r, ks + ls)
  {
    forall t ensures TabGrows(m, m2, r, t) { assert TabGrows(m, m1, r, t) && TabGrows(m1, m2, r, t); }
    var kls := ks + ls;
    forall p: nat ensures PageAlloced(m, m2, r, kls, p) {
      assert PageAlloced(m, m1, r, ks, p) && PageAlloced(m1, m2, r, ls, p);
    }
  }

  const HIGH: nat := TRAPFRAME / 4096

  ghost predicate FixedAt(m: Mem, r: nat, k: (nat, nat)) {
    k in m.fixed && k.0 == r ==> k.1 >= HIGH
  }

  /** Fixed mappings are at TRAPFRAME and above. */
  ghost predicate FixedHigh(m: Mem, r: nat) {
    forall k {:trigger FixedAt(m, r, k)} :: FixedAt(m, r, k)
  }

  ghost predicate SpaceAt(m: Mem, r: nat, n: nat, k: (nat, nat)) {
    k in m.flat && k.0 == r && k !in m.fixed ==> k.1 < n
  }

  /** Every page the address space owns is among its first `n` pages. */
  ghost predicate Space(m: Mem, r: nat, n: nat) {
    && n <= HIGH && FixedHigh(m, r)
    && forall k {:trigger SpaceAt(m, r, n, k)} :: SpaceAt(m, r, n, k)
  }

  lemma NoFixedBelow(m: Mem, r: nat, v: nat, n: nat)
    requires FixedHigh(m, r) && v + n <= HIGH
    ensures Keys(r, v, n) !! m.fixed
  {
    forall k | k in Keys(r, v, n) ensures k !in m.fixed {
      InKeys(r, v, n, k);
      assert FixedAt(m, r, k);
    }
  }

  /** The page after those allocated so far is not mapped. */
  lemma SpaceAllows(m: Mem, m': Mem, r: nat, v: nat, n: nat)
    requires Inv(m) && Space(m, r, v) && v + n < HIGH && Root(r) in m.tab
    requires m'.fixed == m.fixed && (forall t {:trigger TabGrows(m, m', r, t)} :: TabGrows(m, m', r, t))
    requires m'.flat.Keys == m.flat.Keys + Keys(r, v, n)
    ensures Root(r) in m'.tab && (r, v + n) !in m'.flat && FixedHigh(m', r)
  {
    assert TabGrows(m, m', r, Root(r));
    InKeys(r, v, n, (r, v + n));
    assert SpaceAt(m, r, v, (r, v + n)) && FixedAt(m, r, (r, v + n));
    forall k ensures FixedAt(m', r, k) { assert FixedAt(m, r, k); }
  }

  lemma AllocAllows(m: Mem, m': Mem, r: nat, v: nat, n: nat)
    requires Inv(m) && Space(m, r, v) && v + n < HIGH && Root(r) in m.tab && Alloced(m, m', r, Keys(r, v, n))
    ensures Root(r) in m'.tab && (r, v + n) !in m'.flat
  {
    hide Inv;
    SpaceAllows(m, m', r, v, n);
  }

  /** Pages `lo` to `hi` are mapped with `perm` and hold zeros. */
  ghost predicate Zeroed(m: Mem, r: nat, lo: nat, hi: nat, perm: nat) {
    forall i: nat {:trigger NewLeaf(m, (r, i), perm, Zeros())} ::
      lo <= i < hi ==> (r, i) !in m.fixed && NewLeaf(m, (r, i), perm, Zeros())
  }

  lemma ZeroedNone(m: Mem, r: nat, lo: nat, perm: nat)
    ensures Zeroed(m, r, lo, lo, perm)
  {
  }

  lemma ZeroedStep(m: Mem, m': Mem, r: nat, lo: nat, hi: nat, perm: nat)
    requires Inv(m) && Zeroed(m, r, lo, hi, perm) && Alloced(m, m', r, {(r, hi)})
    requires NewLeaf(m', (r, hi), perm, Zeros())
    ensures Zeroed(m', r, lo, hi + 1, perm)
  {
    var hi' := hi + 1;
    forall i: nat | lo <= i < hi' ensures (r, i) !in m'.fixed && NewLeaf(m', (r, i), perm, Zeros()) {
      if i < hi {
        assert NewLeaf(m, (r, i), perm, Zeros());
        NewLeafKept(m, m', r, {(r, hi)}, (r, i), perm, Zeros());
      }
    }
  }

  lemma AllocedGrows(m: Mem, m1: Mem, m2: Mem, r: nat, ks: set<(nat, nat)>)
    requires Alloced(m, m1, r, ks) && Grows(m1, m2, r)
    ensures Alloced(m, m2, r, ks)
  {
    forall t ensures TabGrows(m, m2, r, t) { assert TabGrows(m, m1, r, t) && TabGrows(m1, m2, r, t); }
    forall p: nat ensures PageAlloced(m, m2, r, ks, p) {
      assert PageAlloced(m, m1, r, ks, p) && PageGrows(m1, m2, r, p);
    }
  }

  /** Unmapping what was allocated leaves only tables behind. */
  lemma RollBack(m: Mem, m1: Mem, m2: Mem, r: nat, ks: set<(nat, nat)>, v: nat, n: nat)
    requires Inv(m) && Alloced(m, m1, r, ks) && Unmaps(m1, m2, r, v, n, true)
    requires ks <= Keys(r, v, n) && Keys(r, v, n) !! m.flat.Keys && Keys(r, v, n) !! m.fixed
    ensures Grows(m, m2, r)
  {
    assert m2.flat == m.flat;
    forall t ensures TabGrows(m, m2, r, t) { assert TabGrows(m, m1, r, t); }
    forall p: nat ensures PageGrows(m, m2, r, p) {
      assert PageAlloced(m, m1, r, ks, p) && PageUnmapped(m1, m2, r, v, n, true, p);
      if p in m.own {
        assert OwnOk(m, p);
        if m1.own[p].User? {
          InKeys(r, v, n, (m1.own[p].r, m1.own[p].vpn));
        }
      }
    }
  }

  lemma NewLeafKept(m: Mem, m': Mem, r: nat, ks: set<(nat, nat)>, k: (nat, nat), perm: nat, data: Page)
    requires Inv(m) && Alloced(m, m', r, ks) && NewLeaf(m, k, perm, data) && k !in m.fixed
    ensures NewLeaf(m', k, perm, data)
  {
    assert KeyOk(m, k);
    assert PageAlloced(m, m', r, ks, PteToPa(m.flat[k]));
  }

  // ----- Copying an address space -----

  /** The keys a copy of the first `n` pages of `o` has in `c`. */
  ghost function CopyKeys(m: Mem, o: nat, c: nat, n: nat): set<(nat, nat)> {
    if n == 0 then {} else CopyKeys(m, o, c, n - 1) + (if (o, n - 1) in m.flat then {(c, n - 1)} else {})
  }

  lemma {:induction false} InCopyKeys(m: Mem, o: nat, c: nat, n: nat, k: (nat, nat))
    ensures k in CopyKeys(m, o, c, n) <==> k.0 == c && k.1 < n && (o, k.1) in m.flat
  {
    if n > 0 {
      InCopyKeys(m, o, c, n - 1, k);
    }
  }

  /** Page `i` of `c` holds what page `i` of `o` held, with the same flags. */
  ghost predicate CopyOf(m: Mem, m': Mem, o: nat, c: nat, i: nat) {
    (o, i) in m.flat ==>
      && (c, i) !in m'.fixed
      && PteToPa(m.flat[(o, i)]) in m.pages
      && NewLeaf(m', (c, i), FlagsOf(m.flat[(o, i)]), m.pages[PteToPa(m.flat[(o, i)])])
  }

  ghost predicate Copies(m: Mem, m': Mem, o: nat, c: nat, n: nat) {
    forall i: nat {:trigger CopyOf(m, m', o, c, i)} :: i < n ==> CopyOf(m, m', o, c, i)
  }

  /** The parent's page is as it was, and the child's is not mapped yet. */
  lemma CopySource(m: Mem, m1: Mem, o: nat, c: nat, k: nat)
    requires Inv(m) && Root(o) in m.tab && Root(c) in m.tab && o != c && k < HIGH
    requires FixedHigh(m, o) && Space(m, c, 0) && Alloced(m, m1, c, CopyKeys(m, o, c, k))
    ensures Root(o) in m1.tab && Root(c) in m1.tab
    ensures (o, k) in m1.flat <==> (o, k) in m.flat
    ensures (o, k) in m.flat ==>
              && m1.flat[(o, k)] == m.flat[(o, k)] && (o, k) !in m.fixed && (o, k) !in m1.fixed
              && var pa := PteToPa(m.flat[(o, k)]);
                 pa in m.pages && pa in m1.pages && m1.pages[pa] == m.pages[pa]
    ensures (c, k) !in m1.flat && (c, k) !in m1.fixed
  {
    var ks := CopyKeys(m, o, c, k);
    assert TabGrows(m, m1, c, Root(o)) && TabGrows(m, m1, c, Root(c));
    InCopyKeys(m, o, c, k, (o, k));
    InCopyKeys(m, o, c, k, (c, k));
    assert SpaceAt(m, c, 0, (c, k)) && FixedAt(m, c, (c, k)) && FixedAt(m, o, (o, k));
    if (o, k) in m.flat {
      assert KeyOk(m, (o, k));
      assert PageAlloced(m, m1, c, ks, PteToPa(m.flat[(o, k)]));
    }
  }

  lemma CopySkip(m: Mem, m1: Mem, o: nat, c: nat, k: nat)
    requires Alloced(m, m1, c, CopyKeys(m, o, c, k)) && Copies(m, m1, o, c, k) && (o, k) !in m.flat
    ensures Alloced(m, m1, c, CopyKeys(m, o, c, k + 1)) && Copies(m, m1, o, c, k + 1)
  {
    assert CopyKeys(m, o, c, k + 1) == CopyKeys(m, o, c, k);
    assert CopyOf(m, m1, o, c, k);
  }

  lemma CopyStep(m: Mem, m1: Mem, m2: Mem, o: nat, c: nat, k: nat)
    requires Inv(m1) && Alloced(m, m1, c, CopyKeys(m, o, c, k)) && Copies(m, m1, o, c, k) && (o, k) in m.flat
    requires Alloced(m1, m2, c, {(c, k)}) && (c, k) !in m1.fixed
    requires PteToPa(m.flat[(o, k)]) in m.pages
    requires NewLeaf(m2, (c, k), FlagsOf(m.flat[(o, k)]), m.pages[PteToPa(m.flat[(o, k)])])
    ensures Alloced(m, m2, c, CopyKeys(m, o, c, k + 1)) && Copies(m, m2, o, c, k + 1)
  {
    AllocedStep(m, m1, m2, c, CopyKeys(m, o, c, k), {(c, k)});
    var k' := k + 1;
    forall i: nat | i < k' ensures CopyOf(m, m2, o, c, i) {
      if i < k {
        assert CopyOf(m, m1, o, c, i);
        if (o, i) in m.flat {
          NewLeafKept(m1, m2, c, {(c, k)}, (c, i), FlagsOf(m.flat[(o, i)]), m.pages[PteToPa(m.flat[(o, i)])]);
        }
      }
    }
  }

  lemma CopyRollBack(m: Mem, m1: Mem, o: nat, c: nat, k: nat)
    requires Inv(m) && Root(c) in m.tab && k < HIGH && Space(m, c, 0) && Alloced(m, m1, c, CopyKeys(m, o, c, k))
    ensures Root(c) in m1.tab
    ensures CopyKeys(m, o, c, k) <= Keys(c, 0, k) && Keys(c, 0, k) !! m.flat.Keys && Keys(c, 0, k) !! m.fixed
    ensures Keys(c, 0, k) !! m1.fixed
  {
    assert TabGrows(m, m1, c, Root(c));
    NoFixedBelow(m, c, 0, k);
    forall x | x in CopyKeys(m, o, c, k) ensures x in Keys(c, 0, k) {
      InCopyKeys(m, o, c, k, x);
      InKeys(c, 0, k, x);
    }
    forall x | x in Keys(c, 0, k) ensures x !in m.flat {
      InKeys(c, 0, k, x);
      assert SpaceAt(m, c, 0, x) && FixedAt(m, c, x);
    }
  }

  lemma LeafFlags(m: Mem, k: (nat, nat))
    requires Inv(m) && k in m.flat
    ensures GoodPerm(FlagsOf(m.flat[k])) && FlagsOf(m.flat[k]) % 2 == 1
  {
    assert KeyOk(m, k);
    PteLowBits(m.flat[k] / 1024, m.flat[k] % 1024);
  }

  // ----- Unmapping -----

  /** The page of key `k` is given back, or left to the caller. */
  ghost function UnmapOne(m: Mem, r: nat, vpn: nat, doFree: bool): Mem {
    var t, k := LowTable(r, vpn), (r, vpn);
    if k !in m.flat || t !in m.tab || m.tab[t] !in m.pages || Key(t, vpn % 512) != k then m
    else
      var m1 := UnmapLeaf(m, t, vpn % 512);
      if doFree then PageTables.Kfree(m1, PteToPa(m.flat[k]), JunkFreed()) else m1
  }

  lemma UnmapOneInv(m: Mem, r: nat, vpn: nat, doFree: bool)
    requires Inv(m) && (doFree ==> (r, vpn) !in m.fixed)
    ensures Inv(UnmapOne(m, r, vpn, doFree))
    ensures (r, vpn) in m.flat ==>
              var t := LowTable(r, vpn); t in m.tab && m.tab[t] in m.pages && Key(t, vpn % 512) == (r, vpn)
  {
    if (r, vpn) in m.flat {
      var t := LowTable(r, vpn);
      assert KeyOk(m, (r, vpn)) && TableOk(m, t);
      UnmapLeafInv(m, t, vpn % 512);
      if doFree {
        KfreeInv(UnmapLeaf(m, t, vpn % 512), PteToPa(m.flat[(r, vpn)]), JunkFreed());
      }
    }
  }

  lemma MappedPage(m: Mem, k: (nat, nat))
    requires Inv(m)
    ensures k in m.flat ==>
              var t := LowTable(k.0, k.1); t in m.tab && m.tab[t] in m.own && m.own[m.tab[t]] == Table(t)
    ensures k in m.flat && k !in m.fixed ==>
              var pa := PteToPa(m.flat[k]); pa in m.own && m.own[pa] == User(k.0, k.1) && pa in m.pages
  {
    assert k in m.flat ==> KeyOk(m, k) && TableOk(m, LowTable(k.0, k.1));
  }

  /** A page mapped in the range is free now (or the caller's); every other page
      keeps its owner, and its contents unless it is a table. */
  ghost predicate PageUnmapped(m: Mem, m': Mem, r: nat, v: nat, n: nat, doFree: bool, p: nat) {
    p in m.own ==>
      && p in m'.own && p in m.pages && p in m'.pages
      && (if m.own[p].User? && m.own[p].r == r && v <= m.own[p].vpn < v + n
          then m'.own[p] == (if doFree then Free else Other)
          else m'.own[p] == m.own[p] && (m.own[p] == Other || m.own[p].User? ==> m'.pages[p] == m.pages[p]))
  }

  ghost predicate Unmaps(m: Mem, m': Mem, r: nat, v: nat, n: nat, doFree: bool) {
    && m'.flat == m.flat - Keys(r, v, n)
    && m'.fixed == m.fixed - Keys(r, v, n)
    && m'.tab == m.tab && m'.cut == m.cut && m'.own.Keys == m.own.Keys
    && (forall p: nat {:trigger PageUnmapped(m, m', r, v, n, doFree, p)} :: PageUnmapped(m, m', r, v, n, doFree, p))
  }

  lemma UnmapsNone(m: Mem, r: nat, v: nat, doFree: bool)
    requires Inv(m)
    ensures Unmaps(m, m, r, v, 0, doFree)
  {
    forall p: nat ensures PageUnmapped(m, m, r, v, 0, doFree, p) { }
  }

  lemma UnmapsPage(m: Mem, m1: Mem, r: nat, v: nat, n: nat, doFree: bool, p: nat)
    requires Inv(m1) && PageUnmapped(m, m1, r, v, n, doFree, p) && m1.own.Keys == m.own.Keys
    requires doFree ==> (r, v + n) !in m1.fixed
    ensures PageUnmapped(m, UnmapOne(m1, r, v + n, doFree), r, v, n + 1, doFree, p)
  {
    hide Inv;
    UnmapOneInv(m1, r, v + n, doFree);
    MappedPage(m1, (r, v + n));
    OwnAt(m1, p);
  }

  lemma UnmapsMaps(m: Mem, m1: Mem, r: nat, v: nat, n: nat, doFree: bool)
    requires Inv(m1) && m1.flat == m.flat - Keys(r, v, n) && m1.fixed == m.fixed - Keys(r, v, n)
    requires doFree ==> (r, v + n) !in m1.fixed
    ensures var m2 := UnmapOne(m1, r, v + n, doFree);
            && m2.flat == m.flat - Keys(r, v, n + 1) && m2.fixed == m.fixed - Keys(r, v, n + 1)
            && m2.tab == m1.tab && m2.cut == m1.cut && m2.own.Keys == m1.own.Keys
  {
    UnmapOneInv(m1, r, v + n, doFree);
    MappedPage(m1, (r, v + n));
    InKeys(r, v, n, (r, v + n));
    assert m1.fixed <= m1.flat.Keys;
  }

  lemma UnmapsStep(m: Mem, m1: Mem, r: nat, v: nat, n: nat, doFree: bool)
    requires Inv(m1) && Unmaps(m, m1, r, v, n, doFree)
    requires doFree ==> (r, v + n) !in m1.fixed
    ensures Unmaps(m, UnmapOne(m1, r, v + n, doFree), r, v, n + 1, doFree)
  {
    hide Inv, UnmapOne, PageUnmapped;
    var m2, n' := UnmapOne(m1, r, v + n, doFree), n + 1;
    UnmapsMaps(m, m1, r, v, n, doFree);
    forall p: nat ensures PageUnmapped(m, m2, r, v, n', doFree, p) {
      assert PageUnmapped(m, m1, r, v, n, doFree, p);
      UnmapsPage(m, m1, r, v, n, doFree, p);
    }
  }

  lemma OwnAt(m: Mem, p: nat)
    requires Inv(m)
    ensures p in m.own ==> OwnOk(m, p)
  {
  }

  lemma RootAt(m: Mem, r: nat)
    requires Inv(m) && Root(r) in m.tab
    ensures m.tab[Root(r)] == r
  {
    assert TableOk(m, Root(r));
  }

  /** A bottom table is never without the tables above it. */
  lemma LowTablePath(m: Mem, r: nat, va: nat)
    requires Inv(m) && va < MAXVA
    ensures LowTable(r, Vpn(va)) in m.tab ==> TblOn(r, Vpn(va), 1) in m.tab
  {
    assert LowTable(r, Vpn(va)) in m.tab ==> TableOk(m, LowTable(r, Vpn(va)));
  }

  // ----- Freeing a tree of tables -----

  /** Is table `u` in the subtree of `t`? */
  ghost predicate Under(t: Tbl, u: Tbl) {
    u == t || (u.level < t.level && (Parent(u) == t || (u.level + 1 < t.level && Parent(Parent(u)) == t)))
  }

  /** Which entry of `t` leads to `u`, a table strictly below it. */
  ghost function Branch(t: Tbl, u: Tbl): nat {
    if u.level + 1 < t.level then u.pre / 512 % 512 else u.pre % 512
  }

  /** The tables freewalk on `t` has given back when it is about to look at entry
      `i`; `i` above 512 stands for the whole subtree. */
  ghost predicate Gone(t: Tbl, i: nat, u: Tbl) {
    Under(t, u) && if u == t then i > 512 else Branch(t, u) < i
  }

  lemma GoneStep(t: Tbl, i: nat, u: Tbl)
    requires 0 < t.level <= 2 && i < 512
    ensures Gone(t, i + 1, u) <==> Gone(t, i, u) || Gone(Child(t, i), 513, u)
  {
    var c := Child(t, i);
    ChildParent(t, i);
    if Under(t, u) && u != t {
      if u.level + 1 < t.level {
        assert Parent(u) == Child(t, Parent(u).pre % 512);
      } else {
        assert u == Child(t, u.pre % 512);
      }
    }
  }

  ghost predicate TabFreed(m: Mem, m': Mem, t: Tbl, i: nat, u: Tbl) {
    && (u in m'.tab <==> u in m.tab && !Gone(t, i, u))
    && (u in m'.tab ==> u in m.tab && m'.tab[u] == m.tab[u])
  }

  ghost predicate PageFreed(m: Mem, m': Mem, t: Tbl, i: nat, p: nat) {
    p in m.own ==>
      && p in m'.own && p in m.pages && p in m'.pages
      && (if m.own[p].Table? && Gone(t, i, m.own[p].t) then m'.own[p] == Free
          else m'.own[p] == m.own[p] && (m.own[p] == Other || m.own[p].User? ==> m'.pages[p] == m.pages[p]))
  }

  ghost predicate Freed(m: Mem, m': Mem, t: Tbl, i: nat) {
    && m'.flat == m.flat && m'.fixed == m.fixed && m'.cut == m.cut && m'.own.Keys == m.own.Keys
    && (forall u {:trigger TabFreed(m, m', t, i, u)} :: TabFreed(m, m', t, i, u))
    && (forall p: nat {:trigger PageFreed(m, m', t, i, p)} :: PageFreed(m, m', t, i, p))
  }

  ghost predicate LeafAway(m: Mem, t: Tbl, k: (nat, nat)) {
    k in m.flat ==> !Under(t, LowTable(k.0, k.1))
  }

  /** No page is mapped through the subtree of `t`. */
  ghost predicate NoLeaves(m: Mem, t: Tbl) {
    forall k {:trigger LeafAway(m, t, k)} :: LeafAway(m, t, k)
  }

  ghost predicate CutOk(m: Mem, t: Tbl) {
    && (t.level < 2 ==> t in m.cut)
    && (forall u {:trigger Under(t, u)} :: u in m.cut && Under(t, u) ==> u == t)
  }

  lemma FreedNone(m: Mem, t: Tbl)
    requires Inv(m)
    ensures Freed(m, m, t, 0)
  {
    forall u ensures TabFreed(m, m, t, 0, u) { }
    forall p: nat ensures PageFreed(m, m, t, 0, p) { }
  }

  /** An entry that is not valid contributes nothing. */
  lemma FreedSkip(m: Mem, m': Mem, t: Tbl, i: nat)
    requires Inv(m) && Inv(m') && Freed(m, m', t, i) && 0 < t.level <= 2 && i < 512 && Child(t, i) !in m'.tab
    ensures Freed(m, m', t, i + 1)
  {
    var c, i' := Child(t, i), i + 1;
    forall u ensures TabFreed(m, m', t, i', u) {
      assert TabFreed(m, m', t, i, u);
      GoneStep(t, i, u);
      NothingUnder(m', c, u);
    }
    forall p: nat ensures PageFreed(m, m', t, i', p) {
      assert PageFreed(m, m', t, i, p);
      if p in m.own && m.own[p].Table? {
        GoneStep(t, i, m.own[p].t);
        NothingUnder(m', c, m.own[p].t);
        assert OwnOk(m, p) && TabFreed(m, m', t, i, m.own[p].t);
      }
    }
  }

  /** Below a table that does not exist there is no table at all. */
  lemma NothingUnder(m: Mem, c: Tbl, u: Tbl)
    requires Inv(m) && c !in m.tab && c.level <= 2
    ensures Under(c, u) ==> u !in m.tab
  {
    assert u in m.tab ==> TableOk(m, u);
    assert Parent(u) in m.tab ==> TableOk(m, Parent(u));
  }

  /** The subtree of entry `i` was freed and the entry cleared. */
  lemma FreedStep(m: Mem, m1: Mem, m2: Mem, t: Tbl, i: nat)
    requires Inv(m) && Freed(m, m1, t, i) && 0 < t.level <= 2 && i < 512
    requires Child(t, i) !in m1.cut && Freed(Cut(m1, Child(t, i)), m2, Child(t, i), 513)
    requires t in m2.tab && m2.tab[t] in m2.pages && m2.tab[t] in m2.own && m2.own[m2.tab[t]].Table?
    ensures Freed(m, ClearLink(m2, t, i), t, i + 1)
  {
    var m3, c, mc, i' := ClearLink(m2, t, i), Child(t, i), Cut(m1, Child(t, i)), i + 1;
    assert m3.cut == m.cut;
    forall u ensures TabFreed(m, m3, t, i', u) {
      assert TabFreed(m, m1, t, i, u) && TabFreed(mc, m2, c, 513, u);
      GoneStep(t, i, u);
    }
    forall p: nat ensures PageFreed(m, m3, t, i', p) {
      assert PageFreed(m, m1, t, i, p) && PageFreed(mc, m2, c, 513, p);
      if p in m.own && m.own[p].Table? {
        GoneStep(t, i, m.own[p].t);
      }
    }
  }

  lemma FreedAllBelow(m: Mem, m': Mem, t: Tbl, j: nat)
    requires Freed(m, m', t, 512) && t.level <= 2 && NoLeaves(m, t) && j < 512
    ensures t.level > 0 ==> Child(t, j) !in m'.tab
    ensures t.level == 0 ==> Key(t, j) !in m'.flat
  {
    if t.level > 0 {
      ChildParent(t, j);
      assert TabFreed(m, m', t, 512, Child(t, j));
    } else {
      assert LeafAway(m, t, Key(t, j));
      assert LowTable(t.r, t.pre * 512 + j) == t;
    }
  }

  lemma FreedLast(m: Mem, m': Mem, t: Tbl)
    requires Inv(m') && Freed(m, m', t, 512) && t in m'.tab && t.level <= 2
    ensures Freed(m, DropTable(m', t, JunkFreed()), t, 513)
  {
    var m2 := DropTable(m', t, JunkFreed());
    assert TableOk(m', t);
    forall u ensures TabFreed(m, m2, t, 513, u) {
      assert TabFreed(m, m', t, 512, u);
      assert Branch(t, u) < 512;
    }
    forall p: nat ensures PageFreed(m, m2, t, 513, p) {
      assert PageFreed(m, m', t, 512, p);
      assert p in m'.own ==> OwnOk(m', p);
      assert p in m.own && m.own[p].Table? ==> Branch(t, m.own[p].t) < 512;
    }
  }

  /** What freewalk reads from a table with no leaves below it: links, each to a
      table that is there, or invalid entries. */
  lemma TableEntry(m: Mem, t: Tbl, i: nat)
    requires Inv(m) && t in m.tab && i < 512 && NoLeaves(m, t) && CutOk(m, t)
    ensures m.tab[t] in m.pages && m.tab[t] in m.own && m.own[m.tab[t]] == Table(t)
    ensures t.level <= 2
    ensures var pte := m.pages[m.tab[t]][i];
            if t.level > 0 && Child(t, i) in m.tab
            then IsValid(pte) && !IsLeaf(pte) && PteToPa(pte) == m.tab[Child(t, i)]
            else !IsValid(pte)
  {
    assert TableOk(m, t);
    if t.level > 0 {
      assert LinkOk(m, t, i);
      ChildParent(t, i);
      assert Under(t, Child(t, i));
      if Child(t, i) in m.tab {
        assert TableOk(m, Child(t, i)) && OwnOk(m, m.tab[Child(t, i)]);
        PteRoundTrip(m.tab[Child(t, i)], PTE_V);
      }
    } else {
      assert LeafOk(m, t, i) && LeafAway(m, t, Key(t, i));
      assert LowTable(t.r, t.pre * 512 + i) == t;
    }
  }

  /** What the loop of freewalk needs again after a round. */
  lemma FreedKeeps(m: Mem, m': Mem, t: Tbl, i: nat)
    requires Freed(m, m', t, i) && NoLeaves(m, t) && CutOk(m, t)
    ensures NoLeaves(m', t) && CutOk(m', t)
  {
    forall k ensures LeafAway(m', t, k) { assert LeafAway(m, t, k); }
  }

  lemma ChildReady(m: Mem, t: Tbl, i: nat)
    requires Inv(m) && t in m.tab && 0 < t.level <= 2 && i < 512 && NoLeaves(m, t) && CutOk(m, t)
    ensures var mc, c := Cut(m, Child(t, i)), Child(t, i); c !in m.cut && NoLeaves(mc, c) && CutOk(mc, c) && Inv(mc)
  {
    var mc, c := Cut(m, Child(t, i)), Child(t, i);
    ChildParent(t, i);
    assert Under(t, c);
    CutInv(m, c);
    forall k ensures LeafAway(mc, c, k) {
      assert LeafAway(m, t, k);
      UnderTrans(t, i, LowTable(k.0, k.1));
    }
    forall u | u in mc.cut && Under(c, u) ensures u == c {
      UnderTrans(t, i, u);
    }
  }

  lemma UnderTrans(t: Tbl, i: nat, u: Tbl)
    requires 0 < t.level <= 2 && i < 512
    ensures Under(Child(t, i), u) ==> Under(t, u) && u != t
  {
    ChildParent(t, i);
  }

  lemma AfterChild(mc: Mem, m2: Mem, t: Tbl, i: nat)
    requires t in mc.tab && 0 < t.level <= 2 && i < 512
    requires Inv(m2) && Freed(mc, m2, Child(t, i), 513)
    ensures t in m2.tab && m2.tab[t] == mc.tab[t] && Child(t, i) !in m2.tab
    ensures m2.tab[t] in m2.pages && m2.tab[t] in m2.own && m2.own[m2.tab[t]] == Table(t)
  {
    var c := Child(t, i);
    assert TabFreed(mc, m2, c, 513, t) && TabFreed(mc, m2, c, 513, c);
    assert TableOk(m2, t);
  }

  lemma FreedLevel0(m: Mem, m': Mem, t: Tbl, i: nat)
    requires Freed(m, m', t, i) && t.level == 0 && i < 512
    ensures Freed(m, m', t, i + 1)
  {
    var i' := i + 1;
    forall u ensures TabFreed(m, m', t, i', u) { assert TabFreed(m, m', t, i, u); }
    forall p: nat ensures PageFreed(m, m', t, i', p) { assert PageFreed(m, m', t, i, p); }
  }

  lemma ReadyToDrop(m: Mem, m': Mem, t: Tbl)
    requires Freed(m, m', t, 512) && t.level <= 2 && NoLeaves(m, t)
    ensures Childless(m', t)
  {
    forall j: nat | t.level > 0 && j < 512 ensures Child(t, j) !in m'.tab { FreedAllBelow(m, m', t, j); }
    forall j: nat | t.level == 0 && j < 512 ensures Key(t, j) !in m'.flat { FreedAllBelow(m, m', t, j); }
  }

  // ----- The end of an address space -----

  ghost predicate TabErased(m: Mem, m': Mem, r: nat, u: Tbl) {
    && (u in m'.tab <==> u in m.tab && u.r != r)
    && (u in m'.tab ==> u in m.tab && m'.tab[u] == m.tab[u])
  }

  ghost predicate PageErased(m: Mem, m': Mem, r: nat, p: nat) {
    p in m.own ==>
      && p in m'.own && p in m.pages && p in m'.pages
      && (if (m.own[p].Table? && m.own[p].t.r == r) || (m.own[p].User? && m.own[p].r == r) then m'.own[p] == Free
          else m'.own[p] == m.own[p] && (m.own[p] == Other || m.own[p].User? ==> m'.pages[p] == m.pages[p]))
  }

  ghost predicate KeyErased(m: Mem, m': Mem, r: nat, k: (nat, nat)) {
    && (k in m'.flat <==> k in m.flat && k.0 != r)
    && (k in m'.flat ==> k in m.flat && m'.flat[k] == m.flat[k])
    && (k in m'.fixed <==> k in m.fixed && k.0 != r)
  }

  /** Everything of address space `r` is free again, nothing else changed. */
  ghost predicate Erased(m: Mem, m': Mem, r: nat) {
    && m'.cut == m.cut && m'.own.Keys == m.own.Keys
    && (forall k {:trigger KeyErased(m, m', r, k)} :: KeyErased(m, m', r, k))
    && (forall u {:trigger TabErased(m, m', r, u)} :: TabErased(m, m', r, u))
    && (forall p: nat {:trigger PageErased(m, m', r, p)} :: PageErased(m, m', r, p))
  }

  lemma AllUnderRoot(m: Mem, r: nat, u: Tbl)
    requires Inv(m) && u in m.tab
    ensures Under(Root(r), u) <==> u.r == r
  {
    assert TableOk(m, u);
    assert u.level < 2 ==> TableOk(m, Parent(u));
    assert u.level < 1 ==> TableOk(m, Parent(Parent(u)));
  }

  /** Once the user pages are gone no leaf is left below the root. */
  lemma EmptySpace(m: Mem, m': Mem, r: nat, n: nat)
    requires Inv(m) && Unmaps(m, m', r, 0, n, true) && Space(m, r, n) && Inv(m')
    requires forall k :: k in m.fixed ==> k.0 != r
    ensures NoLeaves(m', Root(r))
    ensures forall k :: k in m'.flat <==> k in m.flat && k.0 != r
  {
    forall k ensures k in m'.flat <==> k in m.flat && k.0 != r {
      InKeys(r, 0, n, k);
      assert SpaceAt(m, r, n, k);
    }
    forall k ensures LeafAway(m', Root(r), k) {
      if k in m'.flat {
        assert KeyOk(m', k);
        AllUnderRoot(m', r, LowTable(k.0, k.1));
      }
    }
  }

  lemma UnmapFreeErased(m: Mem, m1: Mem, m2: Mem, r: nat, n: nat)
    requires Inv(m) && Inv(m1) && Unmaps(m, m1, r, 0, n, true) && Freed(m1, m2, Root(r), 513) && Space(m, r, n)
    requires forall k :: k in m.fixed ==> k.0 != r
    ensures Erased(m, m2, r)
  {
    EmptySpace(m, m1, r, n);
    forall k ensures KeyErased(m, m2, r, k) { InKeys(r, 0, n, k); }
    forall u ensures TabErased(m, m2, r, u) {
      assert TabFreed(m1, m2, Root(r), 513, u);
      if u in m.tab {
        AllUnderRoot(m, r, u);
        assert TableOk(m, u) && Branch(Root(r), u) < 512;
      }
    }
    forall p: nat ensures PageErased(m, m2, r, p) {
      ErasePage(m, m1, m2, r, n, p);
    }
  }

  lemma ErasePage(m: Mem, m1: Mem, m2: Mem, r: nat, n: nat, p: nat)
    requires Inv(m) && Unmaps(m, m1, r, 0, n, true) && Freed(m1, m2, Root(r), 513) && Space(m, r, n)
    ensures PageErased(m, m2, r, p)
  {
    assert PageUnmapped(m, m1, r, 0, n, true, p) && PageFreed(m1, m2, Root(r), 513, p);
    if p in m.own {
      assert OwnOk(m, p);
      match m.own[p] {
        case Table(t) =>
          AllUnderRoot(m, r, t);
          assert Branch(Root(r), t) < 512;
        case User(q, v) =>
          assert SpaceAt(m, r, n, (q, v));
        case Free =>
        case Other =>
      }
    }
  }

  // ----- A new address space -----

  ghost predicate PageCreated(m: Mem, m': Mem, r: nat, p: nat) {
    p in m.own ==>
      && p in m'.own && p in m.pages && p in m'.pages
      && (if p == r then m.own[p] == Free && m'.own[p] == Table(Root(r)) else m'.own[p] == m.own[p])
      && (m.own[p] == Other || m.own[p].User? ==> m'.pages[p] == m.pages[p])
  }

  /** A free page has become the root of an address space with nothing in it. */
  ghost predicate Created(m: Mem, m': Mem, r: nat) {
    && m'.flat == m.flat && m'.fixed == m.fixed && m'.cut == m.cut && m'.own.Keys == m.own.Keys
    && r in m.own && r > 0
    && m'.tab == m.tab[Root(r) := r] && (forall t :: t in m.tab ==> t.r != r) && (forall k :: k in m.flat ==> k.0 != r)
    && (forall p: nat {:trigger PageCreated(m, m', r, p)} :: PageCreated(m, m', r, p))
  }

  lemma NoTrace(m: Mem, r: nat)
    requires Inv(m) && Root(r) !in m.tab
    ensures forall t :: t in m.tab ==> t.r != r
    ensures forall k :: k in m.flat ==> k.0 != r
  {
    forall t | t in m.tab ensures t.r != r {
      NothingUnder(m, Root(r), t);
      AllUnderRoot(m, r, t);
    }
    forall k | k in m.flat ensures k.0 != r { assert KeyOk(m, k); }
  }

  lemma CreatedFrom(m: Mem, m1: Mem, r: nat)
    requires Inv(m) && m.free != [] && r == m.free[0] && r in m.own && m.own[r] == Free
    requires m1 == Fill(PageTables.Kalloc(m, JunkAllocated()), r, Zeros()) && Inv(m1) && Root(r) !in m1.tab
    ensures Created(m, NewRoot(m1, r), r)
  {
    NoTrace(m1, r);
    var m' := NewRoot(m1, r);
    assert OwnOk(m, r);
    forall p: nat ensures PageCreated(m, m', r, p) { }
  }
}
