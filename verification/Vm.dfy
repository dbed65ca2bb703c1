/** kernel/kalloc.c and the user side of kernel/vm.c, over memory that is updated
    in place. `g` is the bookkeeping of PageTables for the current memory; each
    method states what it does to the flat map and to the owner of every page. */
module Vm {
  import opened Basics
  import opened PageTables
  import opened VmEffects
  import opened PageCount

  class Memory {
    var pages: map<nat, Page>
    var freelist: seq<nat>
    ghost var g: Mem

    ghost predicate Valid()
      reads this
    {
      g.pages == pages && g.free == freelist && Inv(g) && g.cut == {}
    }

    // ----- kalloc.c -----

    /** kinit: all memory between `paStart` and `paEnd` in whole pages is free. */
    constructor (paStart: nat, paEnd: nat)
      requires paStart > 0
      ensures Valid() && g.tab == map[] && g.flat == map[]
      ensures forall p: nat :: p in g.own <==> p % 4096 == 0 && paStart <= p && p + 4096 <= paEnd
      ensures forall p: nat :: p in g.own ==> g.own[p] == Free
    {
      hide Inv;
      pages, freelist := map[], [];
      g := Mem(map[], [], map[], map[], map[], {}, {});
      new;
      NoMemoryInv();
      var p := PgRoundUp(paStart);
      while p + 4096 <= paEnd
        invariant p % 4096 == 0 && p >= paStart
        invariant Valid() && g.tab == map[] && g.flat == map[]
        invariant forall q: nat :: q in g.own <==> q % 4096 == 0 && paStart <= q < p && q + 4096 <= paEnd
        invariant forall q: nat :: q in g.own ==> g.own[q] == Free
        decreases paEnd - p
      {
        AddPageInv(g, p, JunkFreed());
        PushFree(p);
        g := PageTables.Kfree(g, p, JunkFreed());
        p := p + 4096;
      }
    }

    method Kalloc() returns (r: Option<nat>)
      requires Valid()
      modifies this
      ensures Valid()
      ensures r.None? <==> old(freelist) == []
      ensures r.None? ==> g == old(g)
      ensures r.Some? ==> r.value == old(freelist)[0] && g == PageTables.Kalloc(old(g), JunkAllocated())
    {
      if freelist == [] {
        return None;
      }
      KallocInv(g, JunkAllocated());
      var p := freelist[0];
      freelist := freelist[1..];
      pages := pages[p := JunkAllocated()];
      g := PageTables.Kalloc(g, JunkAllocated());
      r := Some(p);
    }

    /** What kfree does to memory: junk in the page, the page on the free list. */
    method PushFree(p: nat)
      modifies this`pages, this`freelist
      ensures pages == old(pages)[p := JunkFreed()] && freelist == [p] + old(freelist)
    {
      pages := pages[p := JunkFreed()];
      freelist := [p] + freelist;
    }

    method Kfree(p: nat)
      requires Valid() && p in g.own && g.own[p] == Other
      modifies this
      ensures Valid() && g == PageTables.Kfree(old(g), p, JunkFreed())
    {
      KfreeInv(g, p, JunkFreed());
      PushFree(p);
      g := PageTables.Kfree(g, p, JunkFreed());
    }

    /** memset or memmove of a whole page. */
    method FillPage(p: nat, data: Page)
      requires Valid() && p in g.own && g.own[p] == Other
      modifies this
      ensures Valid() && g == Fill(old(g), p, data)
    {
      FillInv(g, p, data);
      pages := pages[p := data];
      g := Fill(g, p, data);
    }

    // ----- walk -----

    /** One level of walk: follow entry `idx` of `table`, linking in a new table
        if there is none and `alloc` says so. */
    method WalkStep(ghost t: Tbl, table: nat, idx: nat, alloc: bool) returns (next: Option<nat>)
      requires Valid() && t in g.tab && g.tab[t] == table && t.level > 0 && idx < 512
      modifies this
      ensures Valid() && Grows(old(g), g, t.r)
      ensures next.Some? ==> Child(t, idx) in g.tab && g.tab[Child(t, idx)] == next.value
      ensures g.tab.Keys <= old(g).tab.Keys + {Child(t, idx)}
      ensures Child(t, idx) in old(g).tab || !alloc || next.None? ==> g == old(g)
      ensures next.None? <==> Child(t, idx) !in old(g).tab && (!alloc || old(freelist) == [])
    {
      FetchLink(g, t, idx);
      assert TableOk(g, t) && LinkOk(g, t, idx);
      GrowsRefl(g, t.r);
      var pte := pages[table][idx];
      if IsValid(pte) {
        return Some(PteToPa(pte));
      }
      if !alloc {
        return None;
      }
      next := AllocTable(t, table, idx);
    }

    /** kalloc, memset and the link, for an entry that is not valid. */
    method AllocTable(ghost t: Tbl, table: nat, idx: nat) returns (next: Option<nat>)
      requires Valid() && t in g.tab && g.tab[t] == table && t.level > 0 && idx < 512
      requires Child(t, idx) !in g.tab
      modifies this
      ensures Valid() && Grows(old(g), g, t.r)
      ensures next.None? <==> old(freelist) == []
      ensures next.None? ==> g == old(g)
      ensures next.Some? ==> Child(t, idx) in g.tab && g.tab[Child(t, idx)] == next.value
      ensures g.tab.Keys <= old(g).tab.Keys + {Child(t, idx)}
    {
      hide Inv;
      ghost var m := g;
      next := Kalloc();
      if next.None? {
        GrowsRefl(g, t.r);
        return;
      }
      NewTableInv(m, t, idx);
      NewTableGrows(m, t, idx);
      FillPage(next.value, Zeros());
      pages := pages[table := pages[table][idx := PaToPte(next.value) + PTE_V]];
      g := NewTable(m, t, idx);
    }

    /** The page that holds the leaf entry of `va` (at index Px(0, va)). No table is made
        that is not on the way to it. */
    method Walk(r: nat, va: nat, alloc: bool) returns (pt: Option<nat>)
      requires Valid() && Root(r) in g.tab && va < MAXVA
      modifies this
      ensures Valid() && Grows(old(g), g, r)
      ensures pt.Some? ==> LowTable(r, Vpn(va)) in g.tab && g.tab[LowTable(r, Vpn(va))] == pt.value
      ensures !alloc ==> g == old(g) && (pt.None? <==> LowTable(r, Vpn(va)) !in g.tab)
      ensures g.tab.Keys <= old(g).tab.Keys + Path((r, Vpn(va)))
      ensures pt.None? ==> LowTable(r, Vpn(va)) !in g.tab && (alloc ==> freelist == [])
    {
      hide Inv;
      GrowsRefl(g, r);
      RootAt(g, r);
      var pagetable := r;
      var level := 2;
      while level > 0
        invariant 0 <= level <= 2
        invariant Valid() && Grows(old(g), g, r)
        invariant TblOn(r, Vpn(va), level) in g.tab && g.tab[TblOn(r, Vpn(va), level)] == pagetable
        invariant g.tab.Keys <= old(g).tab.Keys + Path((r, Vpn(va)))
        invariant !alloc ==> g == old(g)
      {
        PathStep(r, va, level);
        ghost var m := g;
        var next := WalkStep(TblOn(r, Vpn(va), level), pagetable, Px(level, va), alloc);
        GrowsTrans(old(g), m, g, r);
        if next.None? {
          LowTablePath(g, r, va);
          return None;
        }
        pagetable := next.value;
        level := level - 1;
      }
      pt := Some(pagetable);
    }

    // ----- mappages and uvmunmap -----

    /** Maps one page: the body of mappages' loop. */
    method MapPage(r: nat, va: nat, pa: nat, perm: nat, ghost fix: bool) returns (res: MapResult)
      requires Valid() && Root(r) in g.tab && va < MAXVA && pa % 4096 == 0 && GoodPerm(perm)
      requires !fix ==> pa in g.own && g.own[pa] == Other
      modifies this
      ensures Valid()
      ensures res.PanicRemap? <==> (r, Vpn(va)) in old(g).flat
      ensures res.NoMemory? ==> freelist == [] && LowTable(r, Vpn(va)) !in g.tab
      ensures !res.Mapped? ==> Grows(old(g), g, r)
      ensures g.tab.Keys <= old(g).tab.Keys + Path((r, Vpn(va)))
      ensures res.Mapped? ==> Maps(old(g), g, r, Vpn(va), pa, Entry(pa, perm), fix)
    {
      hide Inv;
      ghost var m := g;
      LeafTable(m, r, Vpn(va));
      var pt := Walk(r, va, true);
      if pt.None? {
        assert TabGrows(m, g, r, LowTable(r, Vpn(va)));
        return NoMemory;
      }
      PathEnd(r, va);
      ghost var t := LowTable(r, Vpn(va));
      LeafEntry(g, t, Px(0, va));
      var pte := pages[pt.value][Px(0, va)];
      if IsValid(pte) {
        return PanicRemap;
      }
      ghost var m1 := g;
      EntryFacts(pa, perm);
      assert PageGrows(m, m1, r, pa);
      MapLeafInv(m1, t, Px(0, va), Entry(pa, perm), fix);
      MapsAfterGrows(m, m1, t, Px(0, va), pa, Entry(pa, perm), fix);
      pages := pages[pt.value := pages[pt.value][Px(0, va) := Entry(pa, perm)]];
      g := MapLeaf(m1, t, Px(0, va), Entry(pa, perm), fix);
      res := Mapped;
    }

    /** Maps `size` bytes at `va` to the physical memory at `pa`. When memory runs
        out for a table, or a page turns out to be mapped already, the `done` pages
        before it stay mapped. */
    method Mappages(r: nat, va: nat, size: nat, pa: nat, perm: nat, ghost fix: bool)
      returns (res: MapResult, ghost done: nat)
      requires Valid() && Root(r) in g.tab && GoodPerm(perm)
      requires va % 4096 == 0 && size % 4096 == 0 && size > 0 && pa % 4096 == 0 && va + size <= MAXVA
      requires !fix ==> forall i: nat {:trigger OtherAt(g, pa, i)} :: i < size / 4096 ==> OtherAt(g, pa, i)
      modifies this
      ensures Valid() && done <= size / 4096 && MapsRange(old(g), g, r, Vpn(va), pa, perm, done, fix)
      ensures res.Mapped? <==> done == size / 4096
      ensures res.PanicRemap? ==> (r, Vpn(va) + done) in old(g).flat
      ensures res.NoMemory? ==>
                freelist == [] && (r, Vpn(va) + done) !in old(g).flat && LowTable(r, Vpn(va) + done) !in g.tab
      ensures TabsFor(old(g), g, Keys(r, Vpn(va), size / 4096))
    {
      hide Inv, Path, TabsFor, MapsRange, Maps, Grows;
      var a, p := va, pa;
      var last := va + size - PGSIZE;
      ghost var n, k := size / 4096, 0;
      MapsNone(g, r, Vpn(va), pa, perm, fix);
      NoTabs(g, Keys(r, Vpn(va), n));
      while true
        invariant k < n && a == va + k * 4096 && p == pa + k * 4096 && Vpn(a) == Vpn(va) + k
        invariant Valid() && MapsRange(old(g), g, r, Vpn(va), pa, perm, k, fix)
        invariant TabsFor(old(g), g, Keys(r, Vpn(va), n))
        decreases n - k
      {
        ghost var m := g;
        assert !fix ==> OtherAt(old(g), pa, k);
        StillOther(old(g), m, r, Vpn(va), pa, perm, k, fix);
        InKeys(r, Vpn(va), n, (r, Vpn(va) + k));
        res := MapPage(r, a, p, perm, fix);
        TabsForPath(old(g), m, g, (r, Vpn(va) + k), Keys(r, Vpn(va), n));
        if !res.Mapped? {
          done := k;
          MapsRangeGrows(old(g), m, g, r, Vpn(va), pa, perm, k, fix);
          return;
        }
        MapsRangeStep(old(g), m, g, r, Vpn(va), pa, perm, k, fix);
        k := k + 1;
        if a == last {
          break;
        }
        a := a + PGSIZE;
        p := p + PGSIZE;
      }
      done := k;
    }

    /** Removes one mapping: the body of uvmunmap's loop. */
    method UnmapPage(r: nat, va: nat, doFree: bool)
      requires Valid() && Root(r) in g.tab && va < MAXVA
      requires doFree ==> (r, Vpn(va)) !in g.fixed
      modifies this
      ensures Valid() && g == UnmapOne(old(g), r, Vpn(va), doFree)
    {
      hide Inv;
      LeafTable(g, r, Vpn(va));
      MappedPage(g, (r, Vpn(va)));
      UnmapOneInv(g, r, Vpn(va), doFree);
      var pt := Walk(r, va, false);
      if pt.None? {
        return;
      }
      PathEnd(r, va);
      ghost var m, t := g, LowTable(r, Vpn(va));
      PxDigits(va);
      LeafEntry(m, t, Px(0, va));
      var pte := pages[pt.value][Px(0, va)];
      if !IsValid(pte) {
        return;
      }
      if doFree {
        PushFree(PteToPa(pte));
      }
      pages := pages[pt.value := pages[pt.value][Px(0, va) := 0]];
      g := UnmapOne(m, r, Vpn(va), doFree);
    }

    method Uvmunmap(r: nat, va: nat, npages: nat, doFree: bool)
      requires Valid() && Root(r) in g.tab && va % 4096 == 0 && va + npages * 4096 <= MAXVA
      requires doFree ==> Keys(r, Vpn(va), npages) !! g.fixed
      modifies this
      ensures Valid() && Unmaps(old(g), g, r, Vpn(va), npages, doFree)
    {
      hide Inv;
      var a := va;
      ghost var k := 0;
      UnmapsNone(g, r, Vpn(va), doFree);
      while a < va + npages * 4096
        invariant k <= npages && a == va + k * 4096 && Vpn(a) == Vpn(va) + k
        invariant Valid() && Unmaps(old(g), g, r, Vpn(va), k, doFree)
        decreases npages - k
      {
        ghost var m := g;
        InKeys(r, Vpn(va), npages, (r, Vpn(va) + k));
        UnmapPage(r, a, doFree);
        UnmapsStep(old(g), m, r, Vpn(va), k, doFree);
        k := k + 1;
        a := a + 4096;
      }
    }

    // ----- Growing and shrinking an address space -----

    /** kalloc, fill the page, mappages; kfree again if there is no memory for a
        table. The common part of uvmalloc, uvmcopy and vmfault. It fails exactly if
        the free pages do not suffice for the page and the tables it lacks, and never
        panics with "remap". */
    method AllocPage(r: nat, va: nat, perm: nat, data: Page) returns (ok: bool, mem: nat)
      requires Valid() && Root(r) in g.tab && va % 4096 == 0 && va < MAXVA && GoodPerm(perm)
      requires (r, Vpn(va)) !in g.flat
      modifies this
      ensures Valid()
      ensures ok ==> Alloced(old(g), g, r, {(r, Vpn(va))}) && NewLeaf(g, (r, Vpn(va)), perm, data)
      ensures ok ==> PteToPa(g.flat[(r, Vpn(va))]) == mem && mem > 0
      ensures !ok ==> Grows(old(g), g, r)
      ensures TabsFor(old(g), g, {(r, Vpn(va))})
      ensures ok <==> |old(freelist)| >= Need(old(g), {(r, Vpn(va))})
    {
      hide Inv, Paths;
      ghost var m, k := g, (r, Vpn(va));
      PathsOf(k);
      var p := Kalloc();
      if p.None? {
        GrowsRefl(m, r);
        return false, 0;
      }
      KallocInv(m, JunkAllocated());
      mem := p.value;
      FillPage(p.value, data);
      ghost var m1 := g;
      OnePage(m1, p.value);
      var res;
      ghost var done;
      res, done := Mappages(r, va, 4096, p.value, perm, false);
      OneKey(r, Vpn(va));
      match res {
        case Mapped =>
          MapsOne(m1, g, r, Vpn(va), p.value, perm, false);
          FreshPageMapped(m, m1, g, p.value, r, Vpn(va), perm, data);
          Enough(m, g, r, {k});
          ok := true;
        case NoMemory =>
          MapsZero(m1, g, r, Vpn(va), p.value, perm, false);
          assert PageGrows(m1, g, r, p.value);
          FreshPageReturned(m, m1, g, p.value, r, data);
          Short(m, m1, g, p.value, r, k, data);
          Kfree(p.value);
          ok := false;
        case PanicRemap =>
          assert false;
      }
    }

    method Uvmdealloc(r: nat, oldsz: nat, newsz: nat) returns (sz: nat)
      requires Valid() && Root(r) in g.tab && oldsz <= TRAPFRAME && FixedHigh(g, r)
      modifies this
      ensures Valid()
      ensures sz == if newsz >= oldsz then oldsz else newsz
      ensures newsz >= oldsz ==> g == old(g)
      ensures newsz < oldsz ==> Unmaps(old(g), g, r, PagesFor(newsz), PagesFor(oldsz) - PagesFor(newsz), true)
    {
      hide Inv;
      if newsz >= oldsz {
        return oldsz;
      }
      if PgRoundUp(newsz) < PgRoundUp(oldsz) {
        var npages := (PgRoundUp(oldsz) - PgRoundUp(newsz)) / 4096;
        NoFixedBelow(g, r, PagesFor(newsz), npages);
        Uvmunmap(r, PgRoundUp(newsz), npages, true);
      } else {
        UnmapsNone(g, r, PagesFor(newsz), true);
      }
      sz := newsz;
    }

    /** Grows the address space from `oldsz` to `newsz`, exactly if the free pages
        suffice. On failure every page it had mapped is gone again; only tables may
        have been added. */
    method Uvmalloc(r: nat, oldsz: nat, newsz: nat, xperm: nat) returns (sz: nat, ghost ok: bool)
      requires Valid() && Root(r) in g.tab && oldsz <= TRAPFRAME && newsz <= TRAPFRAME
      requires xperm in {0, PTE_W, PTE_X, PTE_W + PTE_X}
      requires Space(g, r, PagesFor(oldsz))
      modifies this
      ensures Valid()
      ensures newsz < oldsz ==> ok && sz == oldsz && g == old(g)
      ensures newsz >= oldsz && ok ==> sz == newsz
      ensures newsz >= oldsz && ok ==>
                && Alloced(old(g), g, r, Keys(r, PagesFor(oldsz), PagesFor(newsz) - PagesFor(oldsz)))
                && Zeroed(g, r, PagesFor(oldsz), PagesFor(newsz), PTE_R + PTE_U + xperm)
      ensures !ok ==> sz == 0 && Grows(old(g), g, r)
      ensures newsz >= oldsz ==>
                (ok <==> |old(freelist)| >= Need(old(g), Keys(r, PagesFor(oldsz), PagesFor(newsz) - PagesFor(oldsz))))
    {
      hide Inv, Alloced, Space, Grows, Need, TabsFor, Zeroed, PagesFor, PgRoundUp, GoodPerm;
      if newsz < oldsz {
        return oldsz, true;
      }
      ghost var v, n, perm := PagesFor(oldsz), PagesFor(newsz) - PagesFor(oldsz), PTE_R + PTE_U + xperm;
      var start := PgRoundUp(oldsz);
      var a := start;
      ghost var k := 0;
      MorePages(oldsz, newsz);
      PageBounds(oldsz, v);
      UserPerm(xperm);
      AllocedNone(g, r);
      NoTabs(g, {});
      ZeroedNone(g, r, v, perm);
      while a < newsz
        invariant k <= n && a == (v + k) * 4096
        invariant Valid() && Alloced(old(g), g, r, Keys(r, v, k)) && TabsFor(old(g), g, Keys(r, v, k))
        invariant Zeroed(g, r, v, v + k, perm)
        decreases newsz + 4096 - a
      {
        ghost var m := g;
        PageBounds(newsz, v + k);
        AllocAllows(old(g), m, r, v, k);
        var got, _ := AllocPage(r, a, PTE_R + PTE_U + xperm, Zeros());
        if !got {
          RangeShort(old(g), m, r, v, k, n);
          AllocedGrows(old(g), m, g, r, Keys(r, v, k));
          UndoAlloc(old(g), r, a, start, k);
          return 0, false;
        }
        AllocedStep(old(g), m, g, r, Keys(r, v, k), {(r, v + k)});
        TabsForStep(old(g), m, g, Keys(r, v, k), {(r, v + k)});
        ZeroedStep(m, g, r, v, v + k, perm);
        k := k + 1;
        a := a + 4096;
      }
      PageBounds(newsz, v + k);
      Enough(old(g), g, r, Keys(r, v, n));
      sz := newsz;
      ok := true;
    }

    /** uvmalloc's way out when memory runs out at address `a`. */
    method UndoAlloc(ghost m: Mem, r: nat, a: nat, start: nat, ghost k: nat)
      requires Valid() && Inv(m) && Root(r) in m.tab && start % 4096 == 0 && a == start + k * 4096 && a < TRAPFRAME
      requires Space(m, r, start / 4096) && Alloced(m, g, r, Keys(r, start / 4096, k))
      modifies this
      ensures Valid() && Grows(m, g, r)
    {
      hide Inv;
      ghost var v, m1 := start / 4096, g;
      SpaceAllows(m, m1, r, v, k);
      NoFixedBelow(m, r, v, k);
      var _ := Uvmdealloc(r, a, start);
      if k == 0 {
        UnmapsNone(m1, r, v, true);
      }
      RollBack(m, m1, g, r, Keys(r, v, k), v, k);
    }

    // ----- Freeing an address space -----

    ghost predicate Consistent()
      reads this
    {
      g.pages == pages && g.free == freelist && Inv(g)
    }

    /** Frees the table `t` at `pagetable` and everything below it. False is
        returned where the source panics on a leaf. */
    method Freewalk(ghost t: Tbl, pagetable: nat) returns (ok: bool)
      requires Consistent() && t in g.tab && g.tab[t] == pagetable && t.level <= 2
      requires NoLeaves(g, t) && CutOk(g, t)
      modifies this
      ensures Consistent() && ok && Freed(old(g), g, t, 513)
      decreases t.level, 1
    {
      hide Inv;
      FreedNone(g, t);
      ghost var m := g;
      for i := 0 to 512
        invariant Consistent() && Freed(m, g, t, i) && t in g.tab && g.tab[t] == pagetable
      {
        FreedKeeps(m, g, t, i);
        TableEntry(g, t, i);
        var pte := pages[pagetable][i];
        if IsValid(pte) && !IsLeaf(pte) {
          ok := FreeChild(m, t, pagetable, i, PteToPa(pte));
        } else if IsValid(pte) {
          return false;
        } else {
          if t.level > 0 {
            FreedSkip(m, g, t, i);
          } else {
            FreedLevel0(m, g, t, i);
          }
        }
      }
      FreedKeeps(m, g, t, 512);
      ReadyToDrop(m, g, t);
      DropTableInv(g, t, JunkFreed());
      FreedLast(m, g, t);
      PushFree(pagetable);
      g := DropTable(g, t, JunkFreed());
      ok := true;
    }

    /** freewalk on the table below entry `i`, then the entry is cleared. */
    method FreeChild(ghost m: Mem, ghost t: Tbl, pagetable: nat, i: nat, child: nat) returns (ok: bool)
      requires Consistent() && t in g.tab && g.tab[t] == pagetable && 0 < t.level <= 2 && i < 512
      requires Child(t, i) in g.tab && g.tab[Child(t, i)] == child
      requires Inv(m) && Freed(m, g, t, i) && NoLeaves(g, t) && CutOk(g, t)
      modifies this
      ensures Consistent() && ok && Freed(m, g, t, i + 1) && t in g.tab && g.tab[t] == pagetable
      decreases t.level, 0
    {
      hide Inv;
      ghost var m1, c := g, Child(t, i);
      ChildReady(m1, t, i);
      g := Cut(g, c);
      ok := Freewalk(c, child);
      ghost var m2 := g;
      AfterChild(Cut(m1, c), m2, t, i);
      ClearLinkInv(m2, t, i);
      FreedStep(m, m1, m2, t, i);
      pages := pages[pagetable := pages[pagetable][i := 0]];
      g := ClearLink(m2, t, i);
    }

    // ----- fork and page faults -----

    /** Copies the first `sz` bytes of address space `o` into the new address
        space `c`, exactly if the free pages suffice. On failure every page mapped in
        `c` is gone again. */
    method Uvmcopy(o: nat, c: nat, sz: nat) returns (ok: bool)
      requires Valid() && Root(o) in g.tab && Root(c) in g.tab && o != c && sz <= TRAPFRAME
      requires Space(g, o, PagesFor(sz)) && Space(g, c, 0)
      modifies this
      ensures Valid()
      ensures ok ==>
                Alloced(old(g), g, c, CopyKeys(old(g), o, c, PagesFor(sz))) && Copies(old(g), g, o, c, PagesFor(sz))
      ensures !ok ==> Grows(old(g), g, c)
      ensures ok <==> |old(freelist)| >= Need(old(g), CopyKeys(old(g), o, c, PagesFor(sz)))
    {
      hide Inv, Alloced, Need, TabsFor;
      ghost var m, k := g, 0;
      var i := 0;
      AllocedNone(g, c);
      NoTabs(g, {});
      while i < sz
        invariant i == k * 4096 && k <= PagesFor(sz)
        invariant Valid() && Alloced(m, g, c, CopyKeys(m, o, c, k)) && Copies(m, g, o, c, k)
        invariant TabsFor(m, g, CopyKeys(m, o, c, k))
        decreases sz + 4096 - i
      {
        ok := CopyPage(m, o, c, k, i, PagesFor(sz));
        if !ok {
          UndoCopy(m, o, c, k, i);
          return;
        }
        k := k + 1;
        i := i + 4096;
      }
      Enough(m, g, c, CopyKeys(m, o, c, k));
      ok := true;
    }

    /** One round of uvmcopy's loop: pages the parent does not have are skipped. */
    method CopyPage(ghost m: Mem, o: nat, c: nat, ghost k: nat, i: nat, ghost n: nat) returns (ok: bool)
      requires Valid() && Inv(m) && Root(o) in m.tab && Root(c) in m.tab && o != c && i == k * 4096 && k < HIGH
      requires k < n && TabsFor(m, g, CopyKeys(m, o, c, k))
      requires FixedHigh(m, o) && Space(m, c, 0)
      requires Alloced(m, g, c, CopyKeys(m, o, c, k)) && Copies(m, g, o, c, k)
      modifies this
      ensures Valid()
      ensures ok ==> Alloced(m, g, c, CopyKeys(m, o, c, k + 1)) && Copies(m, g, o, c, k + 1)
      ensures ok ==> TabsFor(m, g, CopyKeys(m, o, c, k + 1))
      ensures !ok ==> Alloced(m, g, c, CopyKeys(m, o, c, k)) && |m.free| < Need(m, CopyKeys(m, o, c, n))
    {
      hide Inv, TabsFor, Need;
      ghost var m1 := g;
      CopySource(m, m1, o, c, k);
      LeafTable(m1, o, k);
      PathEnd(o, i);
      var pt := Walk(o, i, false);
      if pt.None? {
        CopySkip(m, m1, o, c, k);
        return true;
      }
      LeafEntry(m1, LowTable(o, k), Px(0, i));
      var pte := pages[pt.value][Px(0, i)];
      if !IsValid(pte) {
        CopySkip(m, m1, o, c, k);
        return true;
      }
      MappedPage(m1, (o, k));
      LeafFlags(m1, (o, k));
      var mapped, _ := AllocPage(c, i, FlagsOf(pte), pages[PteToPa(pte)]);
      ok := mapped;
      if ok {
        CopyStep(m, m1, g, o, c, k);
        TabsForStep(m, m1, g, CopyKeys(m, o, c, k), {(c, k)});
      } else {
        CopyShort(m, m1, o, c, k, n);
        AllocedGrows(m, m1, g, c, CopyKeys(m, o, c, k));
      }
    }

    /** uvmcopy's way out when memory runs out at address `i`. */
    method UndoCopy(ghost m: Mem, o: nat, c: nat, ghost k: nat, i: nat)
      requires Valid() && Inv(m) && Root(c) in m.tab && i == k * 4096 && k < HIGH && Space(m, c, 0)
      requires Alloced(m, g, c, CopyKeys(m, o, c, k))
      modifies this
      ensures Valid() && Grows(m, g, c)
    {
      hide Inv;
      ghost var m1 := g;
      CopyRollBack(m, m1, o, c, k);
      Uvmunmap(c, 0, i / 4096, true);
      RollBack(m, m1, g, c, CopyKeys(m, o, c, k), 0, k);
    }

    /** Allocates a page that sys_sbrk promised but did not map: exactly if the address
        is below `sz`, its page is not mapped and the free pages suffice. */
    method Vmfault(r: nat, va: nat, sz: nat) returns (pa: Option<nat>)
      requires Valid() && Root(r) in g.tab && sz <= TRAPFRAME && FixedHigh(g, r)
      modifies this
      ensures Valid()
      ensures pa.Some? <==>
                va < sz && (r, Vpn(va)) !in old(g).flat && |old(freelist)| >= Need(old(g), {(r, Vpn(va))})
      ensures pa.Some? ==>
                && Alloced(old(g), g, r, {(r, Vpn(va))})
                && NewLeaf(g, (r, Vpn(va)), PTE_W + PTE_U + PTE_R, Zeros())
                && PteToPa(g.flat[(r, Vpn(va))]) == pa.value
      ensures pa.None? ==> Grows(old(g), g, r)
      ensures va >= sz || (r, Vpn(va)) in old(g).flat ==> g == old(g)
    {
      hide Inv, Need, Alloced, TabsFor;
      GrowsRefl(g, r);
      if va >= sz {
        return None;
      }
      var va0 := va / 4096 * 4096;
      var mapped := IsMapped(r, va0);
      if mapped {
        return None;
      }
      var ok, mem := AllocPage(r, va0, PTE_W + PTE_U + PTE_R, Zeros());
      pa := if ok then Some(mem) else None;
    }

    method IsMapped(r: nat, va: nat) returns (b: bool)
      requires Valid() && Root(r) in g.tab && va < MAXVA
      modifies this
      ensures Valid() && g == old(g)
      ensures b <==> (r, Vpn(va)) in g.flat
    {
      hide Inv;
      LeafTable(g, r, Vpn(va));
      PathEnd(r, va);
      var pt := Walk(r, va, false);
      if pt.None? {
        return false;
      }
      LeafEntry(g, LowTable(r, Vpn(va)), Px(0, va));
      b := IsValid(pages[pt.value][Px(0, va)]);
    }

    method Uvmfree(r: nat, sz: nat) returns (ok: bool)
      requires Valid() && Root(r) in g.tab && sz <= TRAPFRAME && Space(g, r, PagesFor(sz))
      requires forall k :: k in g.fixed ==> k.0 != r
      modifies this
      ensures Valid() && ok && Erased(old(g), g, r)
    {
      hide Inv;
      ghost var m := g;
      if sz > 0 {
        NoFixedBelow(g, r, 0, PagesFor(sz));
        Uvmunmap(r, 0, PgRoundUp(sz) / 4096, true);
      } else {
        UnmapsNone(g, r, 0, true);
      }
      ghost var m1 := g;
      EmptySpace(m, m1, r, PagesFor(sz));
      RootAt(m1, r);
      ok := Freewalk(Root(r), r);
      UnmapFreeErased(m, m1, g, r, PagesFor(sz));
    }

    /** An empty address space, or None if there is no memory for its root. */
    method Uvmcreate() returns (r: Option<nat>)
      requires Valid()
      modifies this
      ensures Valid()
      ensures r.None? <==> old(freelist) == []
      ensures r.None? ==> g == old(g)
      ensures r.Some? ==> Created(old(g), g, r.value) && |freelist| == |old(freelist)| - 1
    {
      hide Inv;
      ghost var m := g;
      r := Kalloc();
      if r.None? {
        return;
      }
      KallocInv(m, JunkAllocated());
      FillPage(r.value, Zeros());
      NewRootInv(g, r.value);
      CreatedFrom(m, g, r.value);
      g := NewRoot(g, r.value);
    }
  }
}
