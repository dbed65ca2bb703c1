/** What programs can touch: the accesses the hardware lets through, on the page tables of
    a kernel whose processes are in order. */
module Isolation {
  import opened Basics
  import opened PageTables
  import opened VmEffects
  import opened Mmu
  import opened AddressSpaces

  /** The upper half of the address range uses the upper half of the root table. */
  lemma HighPage(b: nat)
    requires b < 0x40_0000_0000
    ensures Page39(0xffff_ffc0_0000_0000 + b) >= 0x400_0000
  {
    assert (0xffff_ffc0_0000_0000 + b) / 4096 == 0x1ff_ffff * 0x800_0000 + (0x400_0000 + b / 4096);
  }

  lemma LowAddress(va: nat)
    requires Canonical(va) && Page39(va) < 0x400_0000
    ensures va < MAXVA && Page39(va) == va / 4096
  {
    if va >= MAXVA {
      HighPage(va - 0xffff_ffc0_0000_0000);
      assert false;
    }
  }

  lemma TopBits(m: Mem, pr: Proc, tramp: nat)
    requires TopsMapped(m, pr, tramp)
    ensures var pte := m.flat[(pr.root, Vpn(TRAMPOLINE))]; Usable(pte) && Executable(pte) && !ForUser(pte)
    ensures var pte := m.flat[(pr.root, Vpn(TRAPFRAME))];
            Usable(pte) && Readable(pte) && Writable(pte) && !ForUser(pte)
  {
    FlagBits(m.flat[(pr.root, Vpn(TRAMPOLINE))]);
    FlagBits(m.flat[(pr.root, Vpn(TRAPFRAME))]);
  }

  lemma TopsNotForUser(m: Mem, pr: Proc, tramp: nat, k: (nat, nat))
    requires TopsMapped(m, pr, tramp) && k.0 == pr.root && (k.1 == HIGH || k.1 == HIGH + 1)
    ensures k in m.flat && !ForUser(m.flat[k])
  {
    TopBits(m, pr, tramp);
  }

  /** Every user access that does not fault falls in the process's own memory, at the same
      place in a page that this address space alone owns. */
  lemma UserReaches(m: Mem, pr: Proc, tramp: nat, va: nat, a: Access)
    requires Inv(m) && m.cut == {} && ProcOk(m, pr) && TopsMapped(m, pr, tramp)
    ensures var pa := Reach(m.pages, pr.root, va, a, true);
            pa.Some? ==>
              && va < PgRoundUp(pr.sz)
              && pa.value == Base(pa.value) + va % 4096
              && Base(pa.value) in m.own && m.own[Base(pa.value)] == User(pr.root, va / 4096)
  {
    hide Inv, Reach, Space, Canonical, FlagsOf, Page39, PagesFor, PgRoundUp, Base, Usable, ForUser, Allows;
    var k, pa := (pr.root, Page39(va)), Reach(m.pages, pr.root, va, a, true);
    ReachFlat(m, pr.root, va, a, true);
    if pa.Some? {
      OwnPage(m, pr, tramp, k);
      LowAddress(va);
      BelowRound(pr.sz, va);
      PageAndOffset(m.flat[k] / 1024, va % 4096);
    }
  }

  lemma BelowRound(sz: nat, va: nat)
    requires va / 4096 < PagesFor(sz)
    ensures va < PgRoundUp(sz)
  {
    PageBounds(sz, va / 4096);
  }

  /** A mapping for user mode is one of the process's own pages. */
  lemma OwnPage(m: Mem, pr: Proc, tramp: nat, k: (nat, nat))
    requires Inv(m) && ProcOk(m, pr) && TopsMapped(m, pr, tramp) && k in m.flat && k.0 == pr.root && ForUser(m.flat[k])
    ensures k.1 < PagesFor(pr.sz) <= HIGH && PteToPa(m.flat[k]) in m.own && m.own[PteToPa(m.flat[k])] == User(k.0, k.1)
  {
    assert TwoFixed(m, pr.root, k);
    if k in m.fixed {
      TopsNotForUser(m, pr, tramp, k);
      assert false;
    }
    assert KeyOk(m, k) && SpaceAt(m, pr.root, PagesFor(pr.sz), k);
  }

  /** No two places that user programs can reach are the same byte of memory, be they in
      two processes or in one; and none is in a page table, a trapframe, a free page or a
      page the kernel keeps. */
  lemma Isolated(m: Mem, procs: map<nat, Proc>, kept: set<nat>, tramp: nat, p: nat, q: nat, va: nat, vb: nat,
                 a: Access, b: Access)
    requires Inv(m) && m.cut == {} && AllOk(m, procs, kept, tramp) && p in procs && q in procs
    ensures var x, y := Reach(m.pages, procs[p].root, va, a, true), Reach(m.pages, procs[q].root, vb, b, true);
            && (x.Some? && x == y ==> p == q && va == vb)
            && (x.Some? ==>
                  && Base(x.value) in m.own && !m.own[Base(x.value)].Table?
                  && Base(x.value) !in m.free && Base(x.value) !in kept && !Holds(procs, Base(x.value)))
  {
    assert ProcOk(m, procs[p]) && ProcOk(m, procs[q]);
    assert TopsMapped(m, procs[p], tramp) && TopsMapped(m, procs[q], tramp);
    UserReaches(m, procs[p], tramp, va, a);
    UserReaches(m, procs[q], tramp, vb, b);
    var x := Reach(m.pages, procs[p].root, va, a, true);
    assert Separate(procs, p, q);
    if x.Some? {
      NotOtherwiseUsed(m, procs, kept, tramp, Base(x.value));
    }
  }

  lemma NotOtherwiseUsed(m: Mem, procs: map<nat, Proc>, kept: set<nat>, tramp: nat, p: nat)
    requires Inv(m) && AllOk(m, procs, kept, tramp) && p in m.own && m.own[p].User?
    ensures p !in m.free && p !in kept && !Holds(procs, p)
  {
    assert PageKept(m, procs, kept, p);
    forall i: nat | i < |m.free| ensures m.free[i] != p { assert FreeOk(m, i); }
    forall pid | pid in procs ensures procs[pid].trapframe != p { assert ProcOk(m, procs[pid]); }
  }

  /** In every address space the supervisor runs the trampoline code at TRAMPOLINE and finds
      the process's trapframe at TRAPFRAME, and user mode can use neither. */
  lemma TopsReached(m: Mem, pr: Proc, tramp: nat, off: nat, a: Access)
    requires Inv(m) && m.cut == {} && ProcOk(m, pr) && TopsMapped(m, pr, tramp) && off < 4096
    ensures Reach(m.pages, pr.root, TRAMPOLINE + off, Execute, false) == Some(tramp + off)
    ensures a != Execute ==> Reach(m.pages, pr.root, TRAPFRAME + off, a, false) == Some(pr.trapframe + off)
    ensures Reach(m.pages, pr.root, TRAMPOLINE + off, a, true) == None
    ensures Reach(m.pages, pr.root, TRAPFRAME + off, a, true) == None
  {
    hide Inv, Reach, Space, FlagsOf, Usable, Readable, Writable, Executable, ForUser;
    TopBits(m, pr, tramp);
    TopReach(m, pr.root, TRAMPOLINE, off, Execute, false);
    TopReach(m, pr.root, TRAMPOLINE, off, a, true);
    TopReach(m, pr.root, TRAPFRAME, off, a, false);
    TopReach(m, pr.root, TRAPFRAME, off, a, true);
  }

  lemma SamePage(q: nat, off: nat)
    requires off < 4096
    ensures Vpn(q * 4096 + off) == Vpn(q * 4096) == q && (q * 4096 + off) % 4096 == off
  {
  }

  lemma TopReach(m: Mem, r: nat, base: nat, off: nat, a: Access, user: bool)
    requires Inv(m) && m.cut == {} && Root(r) in m.tab && (r, Vpn(base)) in m.flat && base % 4096 == 0
    requires base + off < MAXVA && off < 4096
    ensures var pte := m.flat[(r, Vpn(base))];
            Reach(m.pages, r, base + off, a, user) ==
            if Usable(pte) && ForUser(pte) == user && Allows(pte, a) then Some(PteToPa(pte) + off) else None
  {
    hide Inv, Reach;
    SamePage(base / 4096, off);
    LowPage(base + off);
    ReachFlat(m, r, base + off, a, user);
  }

  /** What one process's system calls do to its own address space, no other process can
      see: every access goes where it went, to a page with the same contents. */
  lemma OthersSee(m: Mem, m': Mem, r: nat, tf: nat, pr: Proc, tramp: nat, va: nat, a: Access)
    requires Inv(m) && m.cut == {} && ProcOk(m, pr) && TopsMapped(m, pr, tramp) && pr.root != r
    requires Inv(m') && m'.cut == {} && Confined(m, m', r, tf) && (tf in m.own ==> !m.own[tf].User?)
    ensures var pa := Reach(m.pages, pr.root, va, a, true);
            && Reach(m'.pages, pr.root, va, a, true) == pa
            && (pa.Some? ==>
                  Base(pa.value) in m.pages && Base(pa.value) in m'.pages
                  && m'.pages[Base(pa.value)] == m.pages[Base(pa.value)])
  {
    hide Inv, Reach, Canonical;
    var k, pa := (pr.root, Page39(va)), Reach(m.pages, pr.root, va, a, true);
    assert TabApart(m, m', r, Root(pr.root)) && KeyApart(m, m', r, k);
    ReachFlat(m, pr.root, va, a, true);
    ReachFlat(m', pr.root, va, a, true);
    UserReaches(m, pr, tramp, va, a);
    if pa.Some? {
      assert PageApart(m, m', r, tf, Base(pa.value));
    }
  }

  /** After a fork the child can make exactly the accesses the parent could before, and
      each finds the same page contents. */
  lemma ChildSees(m: Mem, m': Mem, o: Proc, c: Proc, tramp: nat, va: nat, a: Access)
    requires Inv(m) && m.cut == {} && ProcOk(m, o) && TopsMapped(m, o, tramp)
    requires Inv(m') && m'.cut == {} && ProcOk(m', c) && TopsMapped(m', c, tramp)
    requires c.sz == o.sz && Copies(m, m', o.root, c.root, PagesFor(o.sz))
    requires forall v: nat :: v < HIGH ==> ((c.root, v) in m'.flat <==> (o.root, v) in m.flat)
    ensures var x, y := Reach(m.pages, o.root, va, a, true), Reach(m'.pages, c.root, va, a, true);
            && (x.Some? <==> y.Some?)
            && (x.Some? ==>
                  Base(x.value) in m.pages && Base(y.value) in m'.pages
                  && m'.pages[Base(y.value)] == m.pages[Base(x.value)])
  {
    hide Inv, Reach, Space, Canonical, FlagsOf, Page39, PagesFor, Base, Usable, ForUser, Allows;
    var k, l := (o.root, Page39(va)), (c.root, Page39(va));
    ReachFlat(m, o.root, va, a, true);
    ReachFlat(m', c.root, va, a, true);
    if k in m.flat && ForUser(m.flat[k]) {
      OwnPage(m, o, tramp, k);
      CopiedEntry(m, m', o.root, c.root, PagesFor(o.sz), k.1);
      PageAndOffset(m.flat[k] / 1024, va % 4096);
    }
    if l in m'.flat && ForUser(m'.flat[l]) {
      OwnPage(m', c, tramp, l);
      CopiedEntry(m, m', o.root, c.root, PagesFor(o.sz), l.1);
      PageAndOffset(m'.flat[l] / 1024, va % 4096);
    }
  }

  lemma CopiedEntry(m: Mem, m': Mem, o: nat, c: nat, n: nat, v: nat)
    requires Inv(m) && Copies(m, m', o, c, n) && (o, v) in m.flat && v < n
    ensures (c, v) in m'.flat
    ensures var x, y := m.flat[(o, v)], m'.flat[(c, v)];
            && (Usable(x) <==> Usable(y)) && (ForUser(x) <==> ForUser(y))
            && (forall a :: Allows(x, a) <==> Allows(y, a))
            && PteToPa(x) in m.pages && PteToPa(y) in m'.pages && m'.pages[PteToPa(y)] == m.pages[PteToPa(x)]
  {
    assert CopyOf(m, m', o, c, v);
    LeafFlags(m, (o, v));
    FlagBits(m.flat[(o, v)]);
    FlagBits(m'.flat[(c, v)]);
  }
}
