/** The address spaces of all processes, under every sequence of sbrk (eager and
    lazy), page fault, fork and exit: kernel/proc.c and kernel/sysproc.c on top
    of kernel/vm.c. */
module AddressSpaces {
  import opened Basics
  import opened PageTables
  import opened VmEffects
  import opened Mmu
  import opened PageCount
  import opened Vm

  datatype Proc = Proc(root: nat, trapframe: nat, sz: nat)

  // ----- Changes confined to one address space -----

  ghost predicate KeyApart(m: Mem, m': Mem, r: nat, k: (nat, nat)) {
    k.0 != r ==>
      && (k in m'.flat <==> k in m.flat) && (k in m.flat ==> k in m'.flat && m'.flat[k] == m.flat[k])
      && (k in m'.fixed <==> k in m.fixed)
  }

  ghost predicate TabApart(m: Mem, m': Mem, r: nat, t: Tbl) {
    t.r != r ==> (t in m'.tab <==> t in m.tab) && (t in m.tab ==> t in m'.tab && m'.tab[t] == m.tab[t])
  }

  /** A page that belongs to neither `r` nor the free list nor is `tf` stays put, and no
      page but `tf` is left in nobody's hands. */
  ghost predicate PageApart(m: Mem, m': Mem, r: nat, tf: nat, p: nat) {
    p in m.own ==>
      && p in m'.own && p in m.pages && p in m'.pages
      && (p != tf && (m.own[p] == Other || (m.own[p].User? && m.own[p].r != r)) ==>
            m'.own[p] == m.own[p] && m'.pages[p] == m.pages[p])
      && (p != tf && m'.own[p] == Other ==> m.own[p] == Other)
  }

  /** Only address space `r`, the free list and the page `tf` may have changed. */
  ghost predicate Confined(m: Mem, m': Mem, r: nat, tf: nat) {
    && m'.own.Keys == m.own.Keys
    && (forall k {:trigger KeyApart(m, m', r, k)} :: KeyApart(m, m', r, k))
    && (forall t {:trigger TabApart(m, m', r, t)} :: TabApart(m, m', r, t))
    && (forall p: nat {:trigger PageApart(m, m', r, tf, p)} :: PageApart(m, m', r, tf, p))
  }

  lemma ConfinedRefl(m: Mem, r: nat, tf: nat)
    requires Inv(m)
    ensures Confined(m, m, r, tf)
  {
    forall k ensures KeyApart(m, m, r, k) { }
    forall t ensures TabApart(m, m, r, t) { }
    forall p: nat ensures PageApart(m, m, r, tf, p) { }
  }

  lemma GrowsConfined(m: Mem, m': Mem, r: nat, tf: nat)
    requires Grows(m, m', r)
    ensures Confined(m, m', r, tf)
  {
    forall k ensures KeyApart(m, m', r, k) { }
    forall t ensures TabApart(m, m', r, t) { assert TabGrows(m, m', r, t); }
    forall p: nat ensures PageApart(m, m', r, tf, p) { assert PageGrows(m, m', r, p); }
  }

  lemma AllocedConfined(m: Mem, m': Mem, r: nat, ks: set<(nat, nat)>, tf: nat)
    requires Alloced(m, m', r, ks) && forall k :: k in ks ==> k.0 == r
    ensures Confined(m, m', r, tf)
  {
    forall k ensures KeyApart(m, m', r, k) { }
    forall t ensures TabApart(m, m', r, t) { assert TabGrows(m, m', r, t); }
    forall p: nat ensures PageApart(m, m', r, tf, p) { assert PageAlloced(m, m', r, ks, p); }
  }

  lemma UnmapsConfined(m: Mem, m': Mem, r: nat, v: nat, n: nat, tf: nat)
    requires Unmaps(m, m', r, v, n, true)
    ensures Confined(m, m', r, tf)
  {
    forall k ensures KeyApart(m, m', r, k) { InKeys(r, v, n, k); }
    forall t ensures TabApart(m, m', r, t) { }
    forall p: nat ensures PageApart(m, m', r, tf, p) { assert PageUnmapped(m, m', r, v, n, true, p); }
  }

  // ----- What holds of every process -----

  ghost predicate TwoFixed(m: Mem, r: nat, k: (nat, nat)) {
    k.0 == r && k in m.fixed ==> k.1 == HIGH || k.1 == HIGH + 1
  }

  /** Every user page lies below sz rounded up, sz stays below the trapframe, and
      the only other mappings are the trapframe and the trampoline. */
  ghost predicate ProcOk(m: Mem, pr: Proc) {
    && Root(pr.root) in m.tab
    && pr.sz <= TRAPFRAME
    && Space(m, pr.root, PagesFor(pr.sz))
    && (forall k {:trigger TwoFixed(m, pr.root, k)} :: TwoFixed(m, pr.root, k))
    && pr.trapframe in m.own && m.own[pr.trapframe] == Other
  }

  /** The entry at `k` leads to the page `pa` with exactly the flags `flags`. */
  ghost predicate Leads(m: Mem, k: (nat, nat), pa: nat, flags: nat) {
    k in m.flat && k in m.fixed && PteToPa(m.flat[k]) == pa && FlagsOf(m.flat[k]) == flags
  }

  /** The trampoline code is mapped at TRAMPOLINE, executable, and the process's trapframe
      page below it at TRAPFRAME, writable; neither for user mode. */
  ghost predicate TopsMapped(m: Mem, pr: Proc, tramp: nat) {
    && Leads(m, (pr.root, Vpn(TRAMPOLINE)), tramp, PTE_V + PTE_R + PTE_X)
    && Leads(m, (pr.root, Vpn(TRAPFRAME)), pr.trapframe, PTE_V + PTE_R + PTE_W)
  }

  lemma FixedLeads(m: Mem, k: (nat, nat), pa: nat, perm: nat)
    requires k in m.flat && k in m.fixed && m.flat[k] == Entry(pa, perm)
    requires pa % 4096 == 0 && GoodPerm(perm) && perm % 2 == 0
    ensures Leads(m, k, pa, PTE_V + perm)
  {
    EntryFacts(pa, perm);
  }

  lemma TopsAlloced(m: Mem, m': Mem, pr: Proc, ks: set<(nat, nat)>, tramp: nat)
    requires TopsMapped(m, pr, tramp) && Alloced(m, m', pr.root, ks)
    ensures TopsMapped(m', pr, tramp)
  {
  }

  lemma TopsAnySize(m: Mem, pr: Proc, sz: nat, tramp: nat)
    ensures TopsMapped(m, pr.(sz := sz), tramp) <==> TopsMapped(m, pr, tramp)
  {
  }

  lemma TopsShrank(m: Mem, m': Mem, pr: Proc, v: nat, n: nat, tramp: nat)
    requires TopsMapped(m, pr, tramp) && Unmaps(m, m', pr.root, v, n, true) && v + n <= HIGH
    ensures TopsMapped(m', pr, tramp)
  {
    InKeys(pr.root, v, n, (pr.root, HIGH));
    InKeys(pr.root, v, n, (pr.root, HIGH + 1));
  }

  lemma TopsOther(m: Mem, m': Mem, r: nat, tf: nat, pr: Proc, tramp: nat)
    requires TopsMapped(m, pr, tramp) && Confined(m, m', r, tf) && pr.root != r
    ensures TopsMapped(m', pr, tramp)
  {
    assert KeyApart(m, m', r, (pr.root, Vpn(TRAMPOLINE))) && KeyApart(m, m', r, (pr.root, Vpn(TRAPFRAME)));
  }

  lemma OthersKept(m: Mem, m': Mem, r: nat, tf: nat, pr: Proc)
    requires Inv(m) && ProcOk(m, pr) && Confined(m, m', r, tf) && pr.root != r && pr.trapframe != tf
    ensures ProcOk(m', pr)
  {
    var n := PagesFor(pr.sz);
    assert TabApart(m, m', r, Root(pr.root)) && PageApart(m, m', r, tf, pr.trapframe);
    forall k ensures FixedAt(m', pr.root, k) { assert KeyApart(m, m', r, k) && FixedAt(m, pr.root, k); }
    forall k ensures SpaceAt(m', pr.root, n, k) { assert KeyApart(m, m', r, k) && SpaceAt(m, pr.root, n, k); }
    forall k ensures TwoFixed(m', pr.root, k) { assert KeyApart(m, m', r, k) && TwoFixed(m, pr.root, k); }
  }

  /** The process itself, when its address space grew or shrank to `sz` bytes. */
  lemma ProcAlloced(m: Mem, m': Mem, pr: Proc, ks: set<(nat, nat)>, sz: nat)
    requires ProcOk(m, pr) && Alloced(m, m', pr.root, ks) && pr.sz <= sz <= TRAPFRAME
    requires forall k :: k in ks ==> k.1 < PagesFor(sz)
    requires pr.trapframe in m.pages && m'.own.Keys == m.own.Keys
    ensures ProcOk(m', pr.(sz := sz))
  {
    var r, n, n' := pr.root, PagesFor(pr.sz), PagesFor(sz);
    assert n <= n' <= HIGH;
    assert TabGrows(m, m', r, Root(r)) && PageAlloced(m, m', r, ks, pr.trapframe);
    forall k ensures FixedAt(m', r, k) { assert FixedAt(m, r, k); }
    forall k ensures SpaceAt(m', r, n', k) { assert SpaceAt(m, r, n, k); }
    forall k ensures TwoFixed(m', r, k) { assert TwoFixed(m, r, k); }
  }

  lemma ProcGrew(m: Mem, m': Mem, pr: Proc, tramp: nat)
    requires ProcOk(m, pr) && TopsMapped(m, pr, tramp) && Grows(m, m', pr.root)
    ensures ProcOk(m', pr) && TopsMapped(m', pr, tramp)
  {
    var r, n := pr.root, PagesFor(pr.sz);
    assert TabGrows(m, m', r, Root(r)) && PageGrows(m, m', r, pr.trapframe);
    forall k ensures FixedAt(m', r, k) { assert FixedAt(m, r, k); }
    forall k ensures SpaceAt(m', r, n, k) { assert SpaceAt(m, r, n, k); }
    forall k ensures TwoFixed(m', r, k) { assert TwoFixed(m, r, k); }
  }

  lemma ProcShrank(m: Mem, m': Mem, pr: Proc, sz: nat)
    requires ProcOk(m, pr) && sz <= pr.sz
    requires Unmaps(m, m', pr.root, PagesFor(sz), PagesFor(pr.sz) - PagesFor(sz), true)
    ensures ProcOk(m', pr.(sz := sz))
  {
    var r, n, v := pr.root, PagesFor(pr.sz), PagesFor(sz);
    assert PageUnmapped(m, m', r, v, n - v, true, pr.trapframe);
    forall k ensures FixedAt(m', r, k) { assert FixedAt(m, r, k); }
    forall k ensures SpaceAt(m', r, v, k) { assert SpaceAt(m, r, n, k); InKeys(r, v, n - v, k); }
    forall k ensures TwoFixed(m', r, k) { assert TwoFixed(m, r, k); }
  }

  ghost predicate Live(procs: map<nat, Proc>, r: nat) {
    exists pid :: pid in procs && procs[pid].root == r
  }

  ghost predicate TableLive(m: Mem, procs: map<nat, Proc>, t: Tbl) {
    t in m.tab ==> Live(procs, t.r)
  }

  ghost predicate Separate(procs: map<nat, Proc>, a: nat, b: nat) {
    a in procs && b in procs && a != b ==>
      procs[a].root != procs[b].root && procs[a].trapframe != procs[b].trapframe
  }

  ghost predicate Holds(procs: map<nat, Proc>, p: nat) {
    exists pid :: pid in procs && procs[pid].trapframe == p
  }

  /** A page in use that is neither a table nor a user page is a trapframe or one of the
      pages `kept` by the kernel, not both; the kernel's pages stay in use. */
  ghost predicate PageKept(m: Mem, procs: map<nat, Proc>, kept: set<nat>, p: nat) {
    && (p in m.own && m.own[p] == Other ==> p in kept || Holds(procs, p))
    && (p in kept ==> p in m.own && m.own[p] == Other && !Holds(procs, p))
  }

  /** Every process is well formed with its two fixed pages where they belong, no two
      share anything else, every page-table page (so every mapping) belongs to a process,
      and so does every other page in use that is not the kernel's. */
  ghost predicate AllOk(m: Mem, procs: map<nat, Proc>, kept: set<nat>, tramp: nat) {
    && (forall pid {:trigger ProcOk(m, procs[pid])} :: pid in procs ==> ProcOk(m, procs[pid]))
    && (forall pid {:trigger TopsMapped(m, procs[pid], tramp)} :: pid in procs ==> TopsMapped(m, procs[pid], tramp))
    && (forall a, b {:trigger Separate(procs, a, b)} :: Separate(procs, a, b))
    && (forall t {:trigger TableLive(m, procs, t)} :: TableLive(m, procs, t))
    && (forall p: nat {:trigger PageKept(m, procs, kept, p)} :: PageKept(m, procs, kept, p))
  }

  /** The owner of a page of process `pid`. */
  ghost predicate Keeper(m: Mem, procs: map<nat, Proc>, p: nat, pid: nat) {
    && pid in procs && p in m.own
    && var pr := procs[pid];
       || p == pr.trapframe
       || (m.own[p].Table? && m.own[p].t.r == pr.root)
       || (m.own[p].User? && m.own[p].r == pr.root && (pr.root, m.own[p].vpn) in m.flat
           && PteToPa(m.flat[(pr.root, m.own[p].vpn)]) == p)
  }

  lemma LiveTable(m: Mem, procs: map<nat, Proc>, kept: set<nat>, tramp: nat, t: Tbl) returns (pid: nat)
    requires AllOk(m, procs, kept, tramp) && t in m.tab
    ensures pid in procs && procs[pid].root == t.r
  {
    assert TableLive(m, procs, t);
    pid :| pid in procs && procs[pid].root == t.r;
  }

  /** No page is lost or shared: each is on the free list, or the kernel's, or has exactly
      one process as its keeper, and that is the only one of the three. */
  lemma EveryPageKept(m: Mem, procs: map<nat, Proc>, kept: set<nat>, tramp: nat, p: nat)
    requires Inv(m) && AllOk(m, procs, kept, tramp) && p in m.own
    ensures p in m.free || p in kept || exists pid :: Keeper(m, procs, p, pid)
    ensures p in m.free ==> p !in kept && forall pid :: !Keeper(m, procs, p, pid)
    ensures p in kept ==> forall pid :: !Keeper(m, procs, p, pid)
    ensures forall a, b :: Keeper(m, procs, p, a) && Keeper(m, procs, p, b) ==> a == b
  {
    assert OwnOk(m, p) && PageKept(m, procs, kept, p);
    if p in m.free {
      var i: nat :| i < |m.free| && m.free[i] == p;
      assert FreeOk(m, i);
    }
    forall a | a in procs ensures ProcOk(m, procs[a]) { }
    forall a, b | Keeper(m, procs, p, a) && Keeper(m, procs, p, b) ensures a == b {
      assert Separate(procs, a, b);
    }
    match m.own[p] {
      case Free =>
      case Other =>
        if p !in kept {
          var pid :| pid in procs && procs[pid].trapframe == p;
          assert Keeper(m, procs, p, pid);
        }
      case Table(t) =>
        var pid := LiveTable(m, procs, kept, tramp, t);
        assert Keeper(m, procs, p, pid);
      case User(r, v) =>
        assert KeyOk(m, (r, v));
        var pid := LiveTable(m, procs, kept, tramp, LowTable(r, v));
        assert Keeper(m, procs, p, pid);
    }
  }

  /** One process changed, inside its own address space. */
  lemma AllKept(m: Mem, m': Mem, procs: map<nat, Proc>, kept: set<nat>, tramp: nat, pid: nat, pr: Proc)
    requires Inv(m) && AllOk(m, procs, kept, tramp) && pid in procs
    requires pr == procs[pid].(sz := pr.sz) && ProcOk(m', pr) && Confined(m, m', pr.root, 0)
    requires TopsMapped(m', pr, tramp)
    ensures AllOk(m', procs[pid := pr], kept, tramp)
  {
    var procs' := procs[pid := pr];
    forall q | q in procs' ensures ProcOk(m', procs'[q]) {
      if q != pid {
        assert ProcOk(m, procs[q]) && Separate(procs, q, pid);
        assert OwnOk(m, procs[q].trapframe);
        OthersKept(m, m', pr.root, 0, procs[q]);
      }
    }
    forall q | q in procs' ensures TopsMapped(m', procs'[q], tramp) {
      if q != pid {
        assert TopsMapped(m, procs[q], tramp) && Separate(procs, q, pid);
        TopsOther(m, m', pr.root, 0, procs[q], tramp);
      }
    }
    forall a, b ensures Separate(procs', a, b) { assert Separate(procs, a, b); }
    forall t ensures TableLive(m', procs', t) {
      assert TabApart(m, m', pr.root, t) && TableLive(m, procs, t);
      if t in m'.tab {
        if t.r == pr.root {
          assert procs'[pid].root == t.r;
        } else {
          var q :| q in procs && procs[q].root == t.r;
          assert procs'[q].root == t.r;
        }
      }
    }
    forall p: nat ensures PageKept(m', procs', kept, p) {
      assert PageApart(m, m', pr.root, 0, p) && PageKept(m, procs, kept, p);
      assert p in m.own ==> OwnOk(m, p);
      SameTrapframes(procs, pid, pr, p);
    }
  }

  lemma SameTrapframes(procs: map<nat, Proc>, pid: nat, pr: Proc, p: nat)
    requires pid in procs && pr.trapframe == procs[pid].trapframe
    ensures Holds(procs[pid := pr], p) <==> Holds(procs, p)
  {
    var procs' := procs[pid := pr];
    if q :| q in procs && procs[q].trapframe == p {
      assert procs'[q].trapframe == p;
    }
    if q :| q in procs' && procs'[q].trapframe == p {
      assert procs[q].trapframe == p;
    }
  }

  /** Grown memory is there for user programs to read and write, and reads as 0. */
  ghost predicate AllReadWrite(pages: map<nat, Page>, r: nat, lo: nat, hi: nat) {
    forall va: nat {:trigger ReadWrite(pages, r, va)} ::
      lo <= va < hi ==> ReadWrite(pages, r, va) && ReadsZero(pages, r, va)
  }

  lemma GrownUsable(m: Mem, r: nat, sz: nat, sz': nat)
    requires Inv(m) && m.cut == {} && Root(r) in m.tab && sz <= sz' <= TRAPFRAME
    requires Zeroed(m, r, PagesFor(sz), PagesFor(sz'), PTE_R + PTE_U + PTE_W)
    ensures AllReadWrite(m.pages, r, PgRoundUp(sz), sz')
  {
    hide Inv, ReadWrite, ReadsZero;
    forall va: nat | PgRoundUp(sz) <= va < sz' ensures ReadWrite(m.pages, r, va) && ReadsZero(m.pages, r, va) {
      PageBounds(sz, 0);
      PageBounds(sz', va / 4096);
      assert NewLeaf(m, (r, Vpn(va)), PTE_R + PTE_U + PTE_W, Zeros());
      DataPage(m, r, va);
      ZeroPage(m, r, va);
    }
  }

  class Kernel {
    const mem: Memory
    const trampoline: nat
    /** Pages the kernel itself took before the first process. */
    ghost const kept: set<nat>
    var procs: map<nat, Proc>

    ghost predicate Valid()
      reads this, mem
    {
      mem.Valid() && trampoline % 4096 == 0 && AllOk(mem.g, procs, kept, trampoline)
    }

    constructor (mem: Memory, trampoline: nat)
      requires mem.Valid() && mem.g.tab == map[] && trampoline % 4096 == 0
      ensures Valid() && procs == map[] && this.mem == mem && this.trampoline == trampoline
      ensures kept == Others(mem.g)
    {
      this.mem, this.trampoline, procs, kept := mem, trampoline, map[], Others(mem.g);
    }

    /** Grow or shrink user memory by `n` bytes, at once. Growing fails exactly if the
        memory would reach the trapframe or the free pages do not suffice. */
    method Growproc(pid: nat, n: int) returns (ok: bool)
      requires Valid() && pid in procs && -0x8000_0000 <= n < 0x8000_0000
      modifies this, mem
      ensures Valid()
      ensures var r, sz := old(procs)[pid].root, old(procs)[pid].sz;
              && (ok <==>
                    n <= 0 || (sz + n <= TRAPFRAME && |old(mem.freelist)| >= Need(old(mem.g), Grown(r, sz, sz + n))))
              && (!ok ==> procs == old(procs) && Grows(old(mem.g), mem.g, r))
              && (ok && n > 0 ==>
                    && procs == old(procs)[pid := old(procs)[pid].(sz := sz + n)]
                    && Alloced(old(mem.g), mem.g, r, Grown(r, sz, sz + n))
                    && Zeroed(mem.g, r, PagesFor(sz), PagesFor(sz + n), PTE_R + PTE_U + PTE_W)
                    && AllReadWrite(mem.pages, r, PgRoundUp(sz), sz + n))
              && (n < 0 <= sz + n ==>
                    && procs == old(procs)[pid := old(procs)[pid].(sz := sz + n)]
                    && Unmaps(old(mem.g), mem.g, r, PagesFor(sz + n), PagesFor(sz) - PagesFor(sz + n), true))
              && (n == 0 || sz + n < 0 ==> procs == old(procs) && mem.g == old(mem.g))
    {
      hide Inv, Need, AllOk, AllReadWrite;
      if n > 0 {
        ok := GrowBy(pid, n);
      } else if n < 0 {
        ShrinkBy(pid, -n);
        ok := true;
      } else {
        ok := true;
      }
    }

    method GrowBy(pid: nat, n: nat) returns (ok: bool)
      requires Valid() && pid in procs && 0 < n < 0x8000_0000
      modifies this, mem
      ensures Valid()
      ensures var r, sz := old(procs)[pid].root, old(procs)[pid].sz;
              && (ok <==> sz + n <= TRAPFRAME && |old(mem.freelist)| >= Need(old(mem.g), Grown(r, sz, sz + n)))
              && (!ok ==> procs == old(procs) && Grows(old(mem.g), mem.g, r))
              && (ok ==>
                    && procs == old(procs)[pid := old(procs)[pid].(sz := sz + n)]
                    && Alloced(old(mem.g), mem.g, r, Grown(r, sz, sz + n))
                    && Zeroed(mem.g, r, PagesFor(sz), PagesFor(sz + n), PTE_R + PTE_U + PTE_W)
                    && AllReadWrite(mem.pages, r, PgRoundUp(sz), sz + n))
    {
      hide Inv, Need, TopsMapped, Confined, Alloced, Zeroed, Grows, AllReadWrite;
      ghost var m := mem.g;
      assert ProcOk(m, procs[pid]) && TopsMapped(m, procs[pid], trampoline);
      var p := procs[pid];
      if p.sz + n > TRAPFRAME {
        GrowsRefl(m, p.root);
        return false;
      }
      var newsz: nat;
      ghost var done: bool;
      newsz, done := mem.Uvmalloc(p.root, p.sz, p.sz + n, PTE_W);
      if newsz == 0 {
        ProcGrew(m, mem.g, p, trampoline);
        GrowsConfined(m, mem.g, p.root, 0);
        AllKept(m, mem.g, procs, kept, trampoline, pid, p);
        assert procs[pid := p] == procs;
        return false;
      }
      GrewOk(m, mem.g, p, p.sz + n, trampoline);
      GrownUsable(mem.g, p.root, p.sz, p.sz + n);
      AllKept(m, mem.g, procs, kept, trampoline, pid, p.(sz := p.sz + n));
      procs := procs[pid := p.(sz := newsz)];
      ok := true;
    }

    /** Sizes are unsigned 64-bit numbers: shrinking below 0 wraps, and then uvmdealloc
        finds nothing to do. */
    method ShrinkBy(pid: nat, n: nat)
      requires Valid() && pid in procs && 0 < n <= 0x8000_0000
      modifies this, mem
      ensures Valid()
      ensures var r, sz := old(procs)[pid].root, old(procs)[pid].sz;
              if n <= sz then
                && procs == old(procs)[pid := old(procs)[pid].(sz := sz - n)]
                && Unmaps(old(mem.g), mem.g, r, PagesFor(sz - n), PagesFor(sz) - PagesFor(sz - n), true)
              else procs == old(procs) && mem.g == old(mem.g)
    {
      hide Inv, TopsMapped, Confined, Unmaps;
      ghost var m := mem.g;
      assert ProcOk(m, procs[pid]) && TopsMapped(m, procs[pid], trampoline);
      var p := procs[pid];
      var newsz := if p.sz >= n then p.sz - n else p.sz - n + 0x1_0000_0000_0000_0000;
      var sz := mem.Uvmdealloc(p.root, p.sz, newsz);
      ShrankOk(m, mem.g, p, newsz, trampoline);
      AllKept(m, mem.g, procs, kept, trampoline, pid, p.(sz := sz));
      procs := procs[pid := p.(sz := sz)];
    }

    /** sbrk: the old size, or -1. Lazy growth only promises the memory. */
    method Sbrk(pid: nat, n: int, eager: bool) returns (addr: int)
      requires Valid() && pid in procs && -0x8000_0000 <= n < 0x8000_0000
      modifies this, mem
      ensures Valid()
      ensures var r, sz := old(procs)[pid].root, old(procs)[pid].sz;
              && (addr == sz || addr == -1)
              && (addr == -1 <==>
                    && n > 0
                    && (|| sz + n > TRAPFRAME
                        || (eager && |old(mem.freelist)| < Need(old(mem.g), Grown(r, sz, sz + n)))))
              && (addr == -1 ==> procs == old(procs) && Grows(old(mem.g), mem.g, r))
              && (addr != -1 ==>
                    procs == old(procs)[pid := old(procs)[pid].(sz := if sz + n < 0 then sz else sz + n)])
              && (addr != -1 && n >= 0 && !eager ==> mem.g == old(mem.g))
              && (addr != -1 && n > 0 && eager ==>
                    && Alloced(old(mem.g), mem.g, r, Grown(r, sz, sz + n))
                    && Zeroed(mem.g, r, PagesFor(sz), PagesFor(sz + n), PTE_R + PTE_U + PTE_W)
                    && AllReadWrite(mem.pages, r, PgRoundUp(sz), sz + n))
              && (n < 0 <= sz + n ==>
                    Unmaps(old(mem.g), mem.g, r, PagesFor(sz + n), PagesFor(sz) - PagesFor(sz + n), true))
              && (n == 0 || sz + n < 0 ==> mem.g == old(mem.g))
    {
      hide Inv, Need, TopsMapped;
      ghost var m := mem.g;
      assert ProcOk(m, procs[pid]) && TopsMapped(m, procs[pid], trampoline);
      addr := procs[pid].sz;
      if eager || n < 0 {
        var ok := Growproc(pid, n);
        if !ok {
          return -1;
        }
      } else {
        if addr + n > TRAPFRAME {
          GrowsRefl(m, procs[pid].root);
          return -1;
        }
        LazyOk(m, procs[pid], addr + n, trampoline);
        ConfinedRefl(m, procs[pid].root, 0);
        AllKept(m, m, procs, kept, trampoline, pid, procs[pid].(sz := addr + n));
        procs := procs[pid := procs[pid].(sz := addr + n)];
      }
    }

    /** A user page fault at `va`: true when the access can be retried, exactly if the
        address is in the process, its page is not mapped and the free pages suffice. */
    method Fault(pid: nat, va: nat) returns (ok: bool)
      requires Valid() && pid in procs
      modifies mem
      ensures Valid()
      ensures var r, sz, m := procs[pid].root, procs[pid].sz, old(mem.g);
              && (ok <==> va < sz && (r, Vpn(va)) !in m.flat && |old(mem.freelist)| >= Need(m, {(r, Vpn(va))}))
              && (ok ==> Alloced(m, mem.g, r, {(r, Vpn(va))})
                         && NewLeaf(mem.g, (r, Vpn(va)), PTE_W + PTE_U + PTE_R, Zeros())
                         && ReadWrite(mem.pages, r, va) && ReadsZero(mem.pages, r, va))
              && (!ok ==> Grows(m, mem.g, r))
              && (va >= sz || (r, Vpn(va)) in m.flat ==> mem.g == m)
    {
      hide Inv, Need, TopsMapped, ReadWrite, ReadsZero;
      ghost var m := mem.g;
      var p := procs[pid];
      assert ProcOk(m, p) && TopsMapped(m, p, trampoline);
      var pa := mem.Vmfault(p.root, va, p.sz);
      ok := pa.Some?;
      if ok {
        FaultOk(m, mem.g, p, va, trampoline);
        DataPage(mem.g, p.root, va);
        ZeroPage(mem.g, p.root, va);
      } else {
        ProcGrew(m, mem.g, p, trampoline);
        GrowsConfined(m, mem.g, p.root, 0);
      }
      AllKept(m, mem.g, procs, kept, trampoline, pid, p);
      assert procs[pid := p] == procs;
    }

    // ----- Creating and destroying address spaces -----

    /** An address space with only the trampoline and the trapframe `tf` mapped, made of
        three pages; None, with nothing left behind, exactly if there are fewer. `m` is
        memory before `tf` was allocated. */
    method ProcPagetable(ghost m: Mem, tf: nat) returns (r: Option<nat>)
      requires mem.Valid() && trampoline % 4096 == 0 && Inv(m) && Scratch(m, mem.g, 0, tf)
      requires tf in mem.g.own && mem.g.own[tf] == Other
      modifies mem
      ensures mem.Valid() && tf in mem.g.own && mem.g.own[tf] == Other
      ensures r.None? ==> Scratch(m, mem.g, 0, tf)
      ensures r.Some? ==> r.value > 0 && Scratch(m, mem.g, r.value, tf) && Only(mem.g, r.value, {HIGH, HIGH + 1})
      ensures r.None? <==> |old(mem.freelist)| < 3
      ensures r.Some? ==> |mem.freelist| == |old(mem.freelist)| - 3 && TopTabs(mem.g, r.value)
      ensures r.Some? ==> TopsMapped(mem.g, Proc(r.value, tf, 0), trampoline)
    {
      hide Inv, Path, TopTabs, Scratch, Only, Created, TopsMapped, Leads;
      ghost var m1 := mem.g;
      r := mem.Uvmcreate();
      if r.None? {
        return;
      }
      ScratchCreated(m, m1, mem.g, r.value, tf);
      RootOnly(m1, mem.g, r.value);
      ghost var m2 := mem.g;
      var ok := MapFixed(m, r.value, tf, {}, TRAMPOLINE, trampoline, PTE_R + PTE_X);
      if !ok {
        FreeEmpty(m, r.value, tf);
        return None;
      }
      TopsLinked(m1, m2, mem.g, r.value);
      FixedLeads(mem.g, (r.value, Vpn(TRAMPOLINE)), trampoline, PTE_R + PTE_X);
      assert {} + {Vpn(TRAMPOLINE)} == {HIGH + 1};
      MapTrapframe(m, r.value, tf);
    }

    /** Mapping the trapframe below the trampoline takes no table of its own, so it
        cannot fail; proc_pagetable's branch for that case is dead. */
    method MapTrapframe(ghost m: Mem, r: nat, tf: nat)
      requires mem.Valid() && Inv(m) && Scratch(m, mem.g, r, tf) && Only(mem.g, r, {HIGH + 1}) && TopTabs(mem.g, r)
      requires tf in mem.g.own && mem.g.own[tf] == Other
      requires Leads(mem.g, (r, Vpn(TRAMPOLINE)), trampoline, PTE_V + PTE_R + PTE_X)
      modifies mem
      ensures mem.Valid() && Scratch(m, mem.g, r, tf) && tf in mem.g.own && mem.g.own[tf] == Other
      ensures TopsMapped(mem.g, Proc(r, tf, 0), trampoline)
      ensures Only(mem.g, r, {HIGH, HIGH + 1}) && TopTabs(mem.g, r) && |mem.freelist| == |old(mem.freelist)|
    {
      hide Inv, Path, TopTabs, Scratch;
      ghost var m1 := mem.g;
      TopsThere(m1, r);
      AlignedOther(m1, tf);
      var ok := MapFixed(m, r, tf, {HIGH + 1}, TRAPFRAME, tf, PTE_R + PTE_W);
      if !ok {
        assert false;
      }
      SameTops(m1, mem.g, r);
      FixedLeads(mem.g, (r, Vpn(TRAPFRAME)), tf, PTE_R + PTE_W);
      assert {HIGH + 1} + {Vpn(TRAPFRAME)} == {HIGH, HIGH + 1};
    }

    /** mappages of one page the address space will not own: it fails exactly if there
        are not enough free pages for the tables it lacks, and never with "remap". */
    method MapFixed(ghost m: Mem, r: nat, tf: nat, ghost fs: set<nat>, va: nat, pa: nat, perm: nat) returns (ok: bool)
      requires mem.Valid() && Inv(m) && Scratch(m, mem.g, r, tf) && Only(mem.g, r, fs) && Vpn(va) !in fs
      requires tf in mem.g.own && mem.g.own[tf] == Other
      requires va % 4096 == 0 && va < MAXVA && pa % 4096 == 0 && GoodPerm(perm)
      modifies mem
      ensures mem.Valid() && Scratch(m, mem.g, r, tf) && tf in mem.g.own && mem.g.own[tf] == Other
      ensures Only(mem.g, r, if ok then fs + {Vpn(va)} else fs)
      ensures ok <==> |old(mem.freelist)| >= |Path((r, Vpn(va))) - old(mem.g).tab.Keys|
      ensures ok ==>
                && |mem.freelist| == |old(mem.freelist)| - |Path((r, Vpn(va))) - old(mem.g).tab.Keys|
                && mem.g.tab.Keys == old(mem.g).tab.Keys + Path((r, Vpn(va)))
      ensures mem.g.flat == if ok then old(mem.g).flat[(r, Vpn(va)) := Entry(pa, perm)] else old(mem.g).flat
      ensures mem.g.fixed == if ok then old(mem.g).fixed + {(r, Vpn(va))} else old(mem.g).fixed
    {
      hide Inv, Paths, Path;
      ghost var m1, k := mem.g, (r, Vpn(va));
      OnlyAt(m1, r, fs, k);
      OneKey(r, Vpn(va));
      PathsOf(k);
      var res;
      ghost var n;
      res, n := mem.Mappages(r, va, PGSIZE, pa, perm, true);
      FixedMapped(m, m1, mem.g, r, tf, fs, Vpn(va), pa, perm, n);
      match res {
        case Mapped =>
          Aligned(m1);
          MapsOne(m1, mem.g, r, Vpn(va), pa, perm, true);
          FixedEnough(m1, mem.g, r, Vpn(va), pa, Entry(pa, perm));
          ok := true;
        case NoMemory =>
          MapsZero(m1, mem.g, r, Vpn(va), pa, perm, true);
          Starved(m1, mem.g, r, k);
          ok := false;
        case PanicRemap =>
          assert false;
      }
    }

    /** uvmfree of an address space with nothing mapped. */
    method FreeEmpty(ghost m: Mem, r: nat, tf: nat)
      requires mem.Valid() && Inv(m) && Scratch(m, mem.g, r, tf) && Only(mem.g, r, {})
      requires tf in mem.g.own && mem.g.own[tf] in {Other, Free}
      modifies mem
      ensures mem.Valid() && Scratch(m, mem.g, 0, tf) && tf in mem.g.own && mem.g.own[tf] == old(mem.g).own[tf]
    {
      hide Inv;
      ghost var m1 := mem.g;
      OnlyNone(m1, r);
      var ok := mem.Uvmfree(r, 0);
      ScratchErased(m, m1, mem.g, r, tf);
    }

    /** Unmaps trampoline and trapframe, then frees user pages and tables. */
    method ProcFreepagetable(r: nat, sz: nat)
      requires mem.Valid() && Root(r) in mem.g.tab && sz <= TRAPFRAME && Space(mem.g, r, PagesFor(sz))
      requires forall k {:trigger TwoFixed(mem.g, r, k)} :: TwoFixed(mem.g, r, k)
      modifies mem
      ensures mem.Valid() && Erased(old(mem.g), mem.g, r)
    {
      hide Inv;
      ghost var m := mem.g;
      mem.Uvmunmap(r, TRAMPOLINE, 1, false);
      ghost var m1 := mem.g;
      mem.Uvmunmap(r, TRAPFRAME, 1, false);
      ghost var m2 := mem.g;
      BothUnmapped(m, m1, m2, r, PagesFor(sz));
      var ok := mem.Uvmfree(r, sz);
      ErasedAfterUnmap(m, m1, m2, mem.g, r, PagesFor(sz));
    }

    /** The memory side of fork. It succeeds exactly if the free pages suffice for a copy
        of the parent; then the child has a copy of the parent's memory. On failure no
        page, table or mapping is left behind. */
    method Fork(pid: nat, child: nat) returns (ok: bool)
      requires Valid() && pid in procs && child !in procs
      modifies this, mem
      ensures Valid()
      ensures ok <==>
                |old(mem.freelist)| >= CopySize(old(mem.g), old(procs)[pid].root, PagesFor(old(procs)[pid].sz))
      ensures !ok ==> procs == old(procs) && Restored(old(mem.g), mem.g)
      ensures ok ==>
                && procs.Keys == old(procs).Keys + {child} && procs == old(procs)[child := procs[child]]
                && procs[child].sz == procs[pid].sz
                && Copies(old(mem.g), mem.g, procs[pid].root, procs[child].root, PagesFor(procs[pid].sz))
                && (forall v: nat :: v < HIGH ==>
                     ((procs[child].root, v) in mem.g.flat <==> (procs[pid].root, v) in old(mem.g).flat))
                && Confined(old(mem.g), mem.g, procs[child].root, procs[child].trapframe)
    {
      hide Inv, Need, TopTabs, CopySize, TopsMapped;
      ghost var m := mem.g;
      assert ProcOk(m, procs[pid]);
      var np := Allocproc();
      if np.None? {
        CopySizeMin(m, procs[pid].root, PagesFor(procs[pid].sz));
        KeptByRestored(m, mem.g, procs, kept, trampoline);
        return false;
      }
      var (r, tf) := np.value;
      ok := ForkCopy(m, pid, r, tf);
      if ok {
        ForkOk(m, mem.g, procs, kept, trampoline, child, Proc(r, tf, procs[pid].sz));
        procs := procs[child := Proc(r, tf, procs[pid].sz)];
      } else {
        KeptByRestored(m, mem.g, procs, kept, trampoline);
      }
    }

    /** The memory side of allocproc: a trapframe page and an address space with
        no user memory; None exactly if there are fewer than four free pages. */
    method Allocproc() returns (np: Option<(nat, nat)>)
      requires mem.Valid() && trampoline % 4096 == 0
      modifies mem
      ensures mem.Valid()
      ensures np.None? ==> Restored(old(mem.g), mem.g)
      ensures np.Some? ==>
                var (r, tf) := np.value;
                && r > 0 && Scratch(old(mem.g), mem.g, r, tf) && Only(mem.g, r, {HIGH, HIGH + 1})
                && tf in mem.g.own && mem.g.own[tf] == Other
                && |mem.freelist| == |old(mem.freelist)| - 4 && TopTabs(mem.g, r)
                && TopsMapped(mem.g, Proc(r, tf, 0), trampoline)
      ensures np.None? <==> |old(mem.freelist)| < 4
    {
      hide Inv, TopTabs, TopsMapped;
      ghost var m := mem.g;
      var tf := mem.Kalloc();
      if tf.None? {
        RestoredRefl(m);
        return None;
      }
      KallocInv(m, JunkAllocated());
      ScratchKalloc(m, tf.value);
      var r := ProcPagetable(m, tf.value);
      if r.None? {
        ScratchFreed(m, mem.g, 0, tf.value);
        mem.Kfree(tf.value);
        ScratchDone(m, mem.g, tf.value);
        return None;
      }
      np := Some((r.value, tf.value));
    }

    /** The first process starts with no user memory. */
    method Userinit(pid: nat) returns (ok: bool)
      requires Valid() && pid !in procs
      modifies this, mem
      ensures Valid()
      ensures ok <==> |old(mem.freelist)| >= 4
      ensures if ok then pid in procs && procs == old(procs)[pid := procs[pid]] && procs[pid].sz == 0
              else procs == old(procs) && Restored(old(mem.g), mem.g)
    {
      hide Inv, TopTabs, TopsMapped;
      ghost var m := mem.g;
      var np := Allocproc();
      if np.None? {
        KeptByRestored(m, mem.g, procs, kept, trampoline);
        return false;
      }
      var (r, tf) := np.value;
      OnlySpace(mem.g, r);
      ForkOk(m, mem.g, procs, kept, trampoline, pid, Proc(r, tf, 0));
      procs := procs[pid := Proc(r, tf, 0)];
      ok := true;
    }

    /** uvmcopy and, when it fails, freeproc. */
    method ForkCopy(ghost m: Mem, pid: nat, r: nat, tf: nat) returns (ok: bool)
      requires mem.Valid() && pid in procs && Inv(m) && ProcOk(m, procs[pid]) && r > 0
      requires Scratch(m, mem.g, r, tf) && Only(mem.g, r, {HIGH, HIGH + 1}) && tf in mem.g.own && mem.g.own[tf] == Other
      requires TopTabs(mem.g, r) && TopsMapped(mem.g, Proc(r, tf, 0), trampoline)
      modifies mem
      ensures mem.Valid()
      ensures ok <==> |old(mem.freelist)| + 4 >= CopySize(m, procs[pid].root, PagesFor(procs[pid].sz))
      ensures ok ==> Scratch(m, mem.g, r, tf) && ProcOk(mem.g, Proc(r, tf, procs[pid].sz))
      ensures ok ==> TopsMapped(mem.g, Proc(r, tf, procs[pid].sz), trampoline)
      ensures ok ==> Copies(m, mem.g, procs[pid].root, r, PagesFor(procs[pid].sz))
      ensures ok ==> forall v: nat :: v < HIGH ==> ((r, v) in mem.g.flat <==> (procs[pid].root, v) in m.flat)
      ensures !ok ==> Restored(m, mem.g)
    {
      hide Inv, Need, TopTabs, CopySize, TopsMapped;
      ghost var m1 := mem.g;
      var p := procs[pid];
      ForkReady(m, m1, p, r, tf);
      ForkNeed(m, m1, p.root, r, tf, PagesFor(p.sz));
      ok := mem.Uvmcopy(p.root, r, p.sz);
      if ok {
        ForkCopied(m, m1, mem.g, p, r, tf);
        TopsAlloced(m1, mem.g, Proc(r, tf, 0), CopyKeys(m1, p.root, r, PagesFor(p.sz)), trampoline);
        TopsAnySize(mem.g, Proc(r, tf, 0), p.sz, trampoline);
      } else {
        ForkFailed(m, m1, mem.g, r, tf);
        ghost var m2 := mem.g;
        ScratchFreed(m, m2, r, tf);
        mem.Kfree(tf);
        OnlyFreed(m2, r, tf);
        ghost var m3 := mem.g;
        ProcFreepagetable(r, 0);
        ScratchErased(m, m3, mem.g, r, tf);
        ScratchDone(m, mem.g, tf);
      }
    }

    /** The memory side of freeproc: the process's pages, tables and trapframe are
        free again, everything else is untouched. */
    method Freeproc(pid: nat)
      requires Valid() && pid in procs
      modifies this, mem
      ensures Valid() && procs == old(procs) - {pid}
      ensures var p := old(procs)[pid];
              && (forall q: nat {:trigger PageGone(old(mem.g), mem.g, p, q)} :: PageGone(old(mem.g), mem.g, p, q))
              && Confined(old(mem.g), mem.g, p.root, p.trapframe)
    {
      hide Inv;
      ghost var m := mem.g;
      var p := procs[pid];
      assert ProcOk(m, p);
      mem.Kfree(p.trapframe);
      ghost var m1 := mem.g;
      FreedTrapframe(m, p);
      ProcFreepagetable(p.root, p.sz);
      ExitOk(m, m1, mem.g, procs, kept, trampoline, pid);
      procs := procs - {pid};
    }
  }

  /** The pages by which an address space grows from `sz` to `sz'` bytes. */
  ghost function Grown(r: nat, sz: nat, sz': nat): set<(nat, nat)>
    requires sz <= sz'
  {
    Keys(r, PagesFor(sz), PagesFor(sz') - PagesFor(sz))
  }

  // ----- Counting the tables of a new address space -----

  lemma Aligned(m: Mem)
    requires Inv(m)
    ensures forall p: nat :: p in m.own ==> p % 4096 == 0
  {
    forall p: nat | p in m.own ensures p % 4096 == 0 { assert OwnOk(m, p); }
  }

  /** A new root has no tables below it: mapping at the top takes two. */
  lemma RootOnly(m: Mem, m': Mem, r: nat)
    requires Created(m, m', r)
    ensures |Path((r, HIGH + 1)) - m'.tab.Keys| == 2
  {
    TopPath(r);
    assert Path((r, HIGH + 1)) - m'.tab.Keys == Path((r, HIGH));
  }

  lemma TopsLinked(m: Mem, m1: Mem, m2: Mem, r: nat)
    requires Created(m, m1, r) && m2.tab.Keys == m1.tab.Keys + Path((r, HIGH + 1))
    ensures TopTabs(m2, r)
  {
    TopPath(r);
    forall t ensures TopTab(m2, r, t) { }
  }

  lemma TopsThere(m: Mem, r: nat)
    requires TopTabs(m, r)
    ensures Path((r, HIGH)) - m.tab.Keys == {} && m.tab.Keys + Path((r, HIGH)) == m.tab.Keys
  {
  }

  lemma SameTops(m: Mem, m': Mem, r: nat)
    requires TopTabs(m, r) && m'.tab.Keys == m.tab.Keys
    ensures TopTabs(m', r)
  {
    forall t ensures TopTab(m', r, t) { assert TopTab(m, r, t); }
  }

  lemma ForkNeed(m: Mem, m1: Mem, o: nat, r: nat, tf: nat, n: nat)
    requires Scratch(m, m1, r, tf) && o != r && TopTabs(m1, r)
    ensures CopySize(m, o, n) == 4 + Need(m1, CopyKeys(m1, o, r, n))
  {
    forall i: nat | i < n ensures SameKey(m, m1, (o, i)) { assert ScratchKey(m, m1, r, (o, i)); }
    CopyNeed(m, m1, o, r, n);
  }

  // ----- Work in progress on a new address space -----

  ghost predicate ScratchKey(m: Mem, m': Mem, r: nat, k: (nat, nat)) {
    KeyApart(m, m', r, k) && (k.0 == r ==> k !in m.flat)
  }

  ghost predicate ScratchTab(m: Mem, m': Mem, r: nat, t: Tbl) {
    TabApart(m, m', r, t) && (t.r == r ==> t !in m.tab)
  }

  ghost predicate ScratchPage(m: Mem, m': Mem, r: nat, tf: nat, p: nat) {
    p in m.own ==>
      && p in m'.own && p in m.pages && p in m'.pages
      && (p == tf ==> m.own[p] == Free)
      && (p != tf && m.own[p] == Free ==>
            || m'.own[p] == Free || (m'.own[p].Table? && m'.own[p].t.r == r) || (m'.own[p].User? && m'.own[p].r == r))
      && (m.own[p] != Free ==> m'.own[p] == m.own[p])
      && (m.own[p] == Other || m.own[p].User? ==> m'.pages[p] == m.pages[p])
  }

  /** Since `m` only free pages have been used: for address space `r`, which did not
      exist then, and for the page `tf`. No address space has root 0, so `r` is 0
      when there is no new one. */
  ghost predicate Scratch(m: Mem, m': Mem, r: nat, tf: nat) {
    && m'.cut == m.cut && m'.own.Keys == m.own.Keys && tf in m.own
    && (forall k {:trigger ScratchKey(m, m', r, k)} :: ScratchKey(m, m', r, k))
    && (forall t {:trigger ScratchTab(m, m', r, t)} :: ScratchTab(m, m', r, t))
    && (forall p: nat {:trigger ScratchPage(m, m', r, tf, p)} :: ScratchPage(m, m', r, tf, p))
  }

  ghost predicate OnlyKey(m: Mem, r: nat, fs: set<nat>, k: (nat, nat)) {
    k in m.flat && k.0 == r ==> k in m.fixed && k.1 in fs
  }

  /** All that is mapped in address space `r` is fixed, at the pages `fs`. */
  ghost predicate Only(m: Mem, r: nat, fs: set<nat>) {
    Root(r) in m.tab && forall k {:trigger OnlyKey(m, r, fs, k)} :: OnlyKey(m, r, fs, k)
  }

  lemma OnlyAt(m: Mem, r: nat, fs: set<nat>, k: (nat, nat))
    requires Only(m, r, fs) && k.0 == r && k.1 !in fs
    ensures k !in m.flat
  {
    assert OnlyKey(m, r, fs, k);
  }

  lemma OnlyNone(m: Mem, r: nat)
    requires Inv(m) && Only(m, r, {})
    ensures Space(m, r, 0) && forall k :: k in m.fixed ==> k.0 != r
  {
    forall k | k in m.fixed ensures k.0 != r { assert OnlyKey(m, r, {}, k); }
    forall k ensures FixedAt(m, r, k) { }
    forall k ensures SpaceAt(m, r, 0, k) { assert OnlyKey(m, r, {}, k); }
  }

  lemma AlignedOther(m: Mem, p: nat)
    requires Inv(m) && p in m.own
    ensures p % 4096 == 0 && p > 0
  {
    assert OwnOk(m, p);
  }

  lemma ScratchCreated(m: Mem, m1: Mem, m2: Mem, r: nat, tf: nat)
    requires Inv(m) && Inv(m1) && Scratch(m, m1, 0, tf) && Created(m1, m2, r) && tf in m1.own && m1.own[tf] == Other
    ensures r > 0 && Scratch(m, m2, r, tf) && Only(m2, r, {}) && tf in m2.own && m2.own[tf] == Other
  {
    assert PageCreated(m1, m2, r, tf);
    forall k ensures ScratchKey(m, m2, r, k) { assert ScratchKey(m, m1, 0, k); NoZeroKey(m, k); NoZeroKey(m1, k); }
    forall t ensures ScratchTab(m, m2, r, t) { assert ScratchTab(m, m1, 0, t); NoZeroRoot(m, t); NoZeroRoot(m1, t); }
    forall p: nat ensures ScratchPage(m, m2, r, tf, p) {
      assert ScratchPage(m, m1, 0, tf, p) && PageCreated(m1, m2, r, p);
      NoZeroPage(m1, p);
    }
    forall k ensures OnlyKey(m2, r, {}, k) { }
  }

  lemma NoZeroRoot(m: Mem, t: Tbl)
    requires Inv(m)
    ensures t in m.tab ==> t.r > 0
  {
    if t in m.tab {
      assert TableOk(m, t);
      assert t.level < 2 ==> TableOk(m, Parent(t));
      assert t.level < 1 ==> TableOk(m, Parent(Parent(t)));
      assert Root(t.r) in m.tab;
      assert TableOk(m, Root(t.r)) && OwnOk(m, t.r);
    }
  }

  lemma NoZeroKey(m: Mem, k: (nat, nat))
    requires Inv(m)
    ensures k in m.flat ==> k.0 > 0
  {
    assert k in m.flat ==> KeyOk(m, k);
    NoZeroRoot(m, LowTable(k.0, k.1));
  }

  lemma NoZeroPage(m: Mem, p: nat)
    requires Inv(m)
    ensures p in m.own && m.own[p].Table? ==> m.own[p].t.r > 0
    ensures p in m.own && m.own[p].User? ==> m.own[p].r > 0
  {
    if p in m.own {
      assert OwnOk(m, p);
      match m.own[p] {
        case Table(t) => NoZeroRoot(m, t);
        case User(r, v) =>
          NoZeroKey(m, (r, v));
        case Free =>
        case Other =>
      }
    }
  }

  lemma FixedMapped(m: Mem, m1: Mem, m2: Mem, r: nat, tf: nat, fs: set<nat>, v: nat, pa: nat, perm: nat, n: nat)
    requires Inv(m1) && Scratch(m, m1, r, tf) && Only(m1, r, fs) && tf in m1.own && m1.own[tf] == Other
    requires MapsRange(m1, m2, r, v, pa, perm, n, true) && n <= 1
    ensures Scratch(m, m2, r, tf) && tf in m2.own && m2.own[tf] == Other
    ensures Only(m2, r, if n == 1 then fs + {v} else fs)
  {
    var fs' := if n == 1 then fs + {v} else fs;
    assert TabGrows(m1, m2, r, Root(r)) && PageGrows(m1, m2, r, tf);
    forall k ensures ScratchKey(m, m2, r, k) {
      assert ScratchKey(m, m1, r, k);
      InMapRange(m1.flat, r, v, pa, perm, n, k);
      InKeys(r, v, n, k);
    }
    forall t ensures ScratchTab(m, m2, r, t) { assert ScratchTab(m, m1, r, t) && TabGrows(m1, m2, r, t); }
    forall p: nat ensures ScratchPage(m, m2, r, tf, p) {
      assert ScratchPage(m, m1, r, tf, p) && PageGrows(m1, m2, r, p);
    }
    forall k ensures OnlyKey(m2, r, fs', k) {
      assert OnlyKey(m1, r, fs, k);
      InMapRange(m1.flat, r, v, pa, perm, n, k);
      InKeys(r, v, n, k);
    }
  }

  lemma ScratchErased(m: Mem, m1: Mem, m2: Mem, r: nat, tf: nat)
    requires Inv(m) && Scratch(m, m1, r, tf) && Erased(m1, m2, r) && tf in m1.own && m1.own[tf] in {Other, Free}
    ensures Scratch(m, m2, 0, tf) && tf in m2.own && m2.own[tf] == m1.own[tf]
  {
    assert PageErased(m1, m2, r, tf);
    forall k ensures ScratchKey(m, m2, 0, k) {
      assert ScratchKey(m, m1, r, k) && KeyErased(m1, m2, r, k);
      NoZeroKey(m, k);
    }
    forall t ensures ScratchTab(m, m2, 0, t) {
      assert ScratchTab(m, m1, r, t) && TabErased(m1, m2, r, t);
      NoZeroRoot(m, t);
    }
    forall p: nat ensures ScratchPage(m, m2, 0, tf, p) {
      assert ScratchPage(m, m1, r, tf, p) && PageErased(m1, m2, r, p);
      assert p in m.own ==> OwnOk(m, p);
      if p in m.own && m.own[p].User? { assert ScratchKey(m, m1, r, (m.own[p].r, m.own[p].vpn)); }
      if p in m.own && m.own[p].Table? { assert ScratchTab(m, m1, r, m.own[p].t); }
    }
  }

  lemma GrewOk(m: Mem, m': Mem, pr: Proc, sz: nat, tramp: nat)
    requires Inv(m) && ProcOk(m, pr) && TopsMapped(m, pr, tramp) && pr.sz <= sz <= TRAPFRAME
    requires Alloced(m, m', pr.root, Keys(pr.root, PagesFor(pr.sz), PagesFor(sz) - PagesFor(pr.sz)))
    ensures ProcOk(m', pr.(sz := sz)) && TopsMapped(m', pr.(sz := sz), tramp) && Confined(m, m', pr.root, 0)
  {
    hide TopsMapped;
    var v := PagesFor(pr.sz);
    var ks := Keys(pr.root, v, PagesFor(sz) - v);
    forall k | k in ks ensures k.0 == pr.root && k.1 < PagesFor(sz) { InKeys(pr.root, v, PagesFor(sz) - v, k); }
    ProcAlloced(m, m', pr, ks, sz);
    AllocedConfined(m, m', pr.root, ks, 0);
    TopsAlloced(m, m', pr, ks, tramp);
    TopsAnySize(m', pr, sz, tramp);
  }

  lemma FaultOk(m: Mem, m': Mem, pr: Proc, va: nat, tramp: nat)
    requires Inv(m) && ProcOk(m, pr) && TopsMapped(m, pr, tramp)
    requires va < pr.sz && Alloced(m, m', pr.root, {(pr.root, Vpn(va))})
    ensures ProcOk(m', pr) && TopsMapped(m', pr, tramp) && Confined(m, m', pr.root, 0)
  {
    TopsAlloced(m, m', pr, {(pr.root, Vpn(va))}, tramp);
    ProcAlloced(m, m', pr, {(pr.root, Vpn(va))}, pr.sz);
    AllocedConfined(m, m', pr.root, {(pr.root, Vpn(va))}, 0);
  }

  lemma ShrankOk(m: Mem, m': Mem, pr: Proc, newsz: nat, tramp: nat)
    requires Inv(m) && ProcOk(m, pr) && TopsMapped(m, pr, tramp)
    requires newsz >= pr.sz ==> m' == m
    requires newsz < pr.sz ==> Unmaps(m, m', pr.root, PagesFor(newsz), PagesFor(pr.sz) - PagesFor(newsz), true)
    ensures ProcOk(m', pr.(sz := if newsz >= pr.sz then pr.sz else newsz)) && Confined(m, m', pr.root, 0)
    ensures TopsMapped(m', pr.(sz := if newsz >= pr.sz then pr.sz else newsz), tramp)
  {
    hide TopsMapped;
    TopsAnySize(m', pr, if newsz >= pr.sz then pr.sz else newsz, tramp);
    if newsz < pr.sz {
      ProcShrank(m, m', pr, newsz);
      TopsShrank(m, m', pr, PagesFor(newsz), PagesFor(pr.sz) - PagesFor(newsz), tramp);
      UnmapsConfined(m, m', pr.root, PagesFor(newsz), PagesFor(pr.sz) - PagesFor(newsz), 0);
    } else {
      ConfinedRefl(m, pr.root, 0);
    }
  }

  lemma LazyOk(m: Mem, pr: Proc, sz: nat, tramp: nat)
    requires ProcOk(m, pr) && TopsMapped(m, pr, tramp) && pr.sz <= sz <= TRAPFRAME
    ensures ProcOk(m, pr.(sz := sz)) && TopsMapped(m, pr.(sz := sz), tramp)
  {
    var r, n, n' := pr.root, PagesFor(pr.sz), PagesFor(sz);
    forall k ensures SpaceAt(m, r, n', k) { assert SpaceAt(m, r, n, k); }
  }

  // ----- Lemmas for fork and exit -----

  /** Nothing is left of a failed attempt. */
  ghost predicate Restored(m: Mem, m': Mem) {
    && m'.flat == m.flat && m'.fixed == m.fixed && m'.tab == m.tab && m'.own == m.own && m'.cut == m.cut
    && (forall p: nat :: p in m.own && (m.own[p] == Other || m.own[p].User?) ==>
          p in m.pages && p in m'.pages && m'.pages[p] == m.pages[p])
  }

  lemma RestoredRefl(m: Mem)
    requires Inv(m)
    ensures Restored(m, m)
  {
  }

  lemma KeptByRestored(m: Mem, m': Mem, procs: map<nat, Proc>, kept: set<nat>, tramp: nat)
    requires AllOk(m, procs, kept, tramp) && Restored(m, m')
    ensures AllOk(m', procs, kept, tramp)
  {
    forall pid | pid in procs ensures ProcOk(m', procs[pid]) {
      var pr := procs[pid];
      var n := PagesFor(pr.sz);
      assert ProcOk(m, pr);
      forall k ensures FixedAt(m', pr.root, k) { assert FixedAt(m, pr.root, k); }
      forall k ensures SpaceAt(m', pr.root, n, k) { assert SpaceAt(m, pr.root, n, k); }
      forall k ensures TwoFixed(m', pr.root, k) { assert TwoFixed(m, pr.root, k); }
    }
    forall pid | pid in procs ensures TopsMapped(m', procs[pid], tramp) { assert TopsMapped(m, procs[pid], tramp); }
    forall t ensures TableLive(m', procs, t) { assert TableLive(m, procs, t); }
    forall p: nat ensures PageKept(m', procs, kept, p) { assert PageKept(m, procs, kept, p); }
  }

  lemma ScratchKalloc(m: Mem, tf: nat)
    requires Inv(m) && m.free != [] && tf == m.free[0] && tf in m.own && m.own[tf] == Free
    ensures Scratch(m, PageTables.Kalloc(m, JunkAllocated()), 0, tf)
  {
    var m' := PageTables.Kalloc(m, JunkAllocated());
    forall k ensures ScratchKey(m, m', 0, k) { NoZeroKey(m, k); }
    forall t ensures ScratchTab(m, m', 0, t) { NoZeroRoot(m, t); }
    forall p: nat ensures ScratchPage(m, m', 0, tf, p) { }
  }

  lemma ScratchFreed(m: Mem, m1: Mem, r: nat, tf: nat)
    requires Scratch(m, m1, r, tf) && tf in m1.own && m1.own[tf] == Other
    ensures Scratch(m, PageTables.Kfree(m1, tf, JunkFreed()), r, tf)
  {
    var m2 := PageTables.Kfree(m1, tf, JunkFreed());
    forall k ensures ScratchKey(m, m2, r, k) { assert ScratchKey(m, m1, r, k); }
    forall t ensures ScratchTab(m, m2, r, t) { assert ScratchTab(m, m1, r, t); }
    forall p: nat ensures ScratchPage(m, m2, r, tf, p) { assert ScratchPage(m, m1, r, tf, p); }
  }

  lemma ScratchDone(m: Mem, m': Mem, tf: nat)
    requires Inv(m) && Inv(m') && Scratch(m, m', 0, tf) && tf in m'.own && m'.own[tf] == Free
    ensures Restored(m, m')
  {
    forall k ensures (k in m'.flat <==> k in m.flat) && (k in m.flat ==> m'.flat[k] == m.flat[k])
                     && (k in m'.fixed <==> k in m.fixed)
    {
      assert ScratchKey(m, m', 0, k);
      NoZeroKey(m, k);
      NoZeroKey(m', k);
    }
    forall t ensures (t in m'.tab <==> t in m.tab) && (t in m.tab ==> m'.tab[t] == m.tab[t]) {
      assert ScratchTab(m, m', 0, t);
      NoZeroRoot(m, t);
      NoZeroRoot(m', t);
    }
    forall p: nat | p in m.own
      ensures m'.own[p] == m.own[p]
      ensures m.own[p] == Other || m.own[p].User? ==> p in m.pages && p in m'.pages && m'.pages[p] == m.pages[p]
    {
      assert ScratchPage(m, m', 0, tf, p);
      NoZeroPage(m', p);
    }
  }

  lemma OnlySpace(m: Mem, r: nat)
    requires Inv(m) && Only(m, r, {HIGH, HIGH + 1})
    ensures Space(m, r, 0) && forall k {:trigger TwoFixed(m, r, k)} :: TwoFixed(m, r, k)
  {
    var fs := {HIGH, HIGH + 1};
    forall k ensures FixedAt(m, r, k) && SpaceAt(m, r, 0, k) && TwoFixed(m, r, k) { assert OnlyKey(m, r, fs, k); }
  }

  lemma ForkReady(m: Mem, m1: Mem, p: Proc, r: nat, tf: nat)
    requires Inv(m) && Inv(m1) && ProcOk(m, p) && r > 0
    requires Scratch(m, m1, r, tf) && Only(m1, r, {HIGH, HIGH + 1})
    ensures p.root != r && Root(p.root) in m1.tab && Space(m1, p.root, PagesFor(p.sz)) && Space(m1, r, 0)
  {
    OnlySpace(m1, r);
    var n := PagesFor(p.sz);
    assert ScratchTab(m, m1, r, Root(p.root));
    forall k ensures FixedAt(m1, p.root, k) { assert ScratchKey(m, m1, r, k) && FixedAt(m, p.root, k); }
    forall k ensures SpaceAt(m1, p.root, n, k) { assert ScratchKey(m, m1, r, k) && SpaceAt(m, p.root, n, k); }
  }

  lemma ScratchAlloced(m: Mem, m1: Mem, m2: Mem, r: nat, tf: nat, ks: set<(nat, nat)>)
    requires Scratch(m, m1, r, tf) && Alloced(m1, m2, r, ks) && forall k :: k in ks ==> k.0 == r
    requires tf in m1.own && m1.own[tf] == Other
    ensures Scratch(m, m2, r, tf) && tf in m2.own && m2.own[tf] == Other
  {
    assert PageAlloced(m1, m2, r, ks, tf);
    forall k ensures ScratchKey(m, m2, r, k) { assert ScratchKey(m, m1, r, k); }
    forall t ensures ScratchTab(m, m2, r, t) { assert ScratchTab(m, m1, r, t) && TabGrows(m1, m2, r, t); }
    forall p: nat ensures ScratchPage(m, m2, r, tf, p) {
      assert ScratchPage(m, m1, r, tf, p) && PageAlloced(m1, m2, r, ks, p);
    }
  }

  lemma ForkCopied(m: Mem, m1: Mem, m2: Mem, p: Proc, r: nat, tf: nat)
    requires Inv(m) && Inv(m1) && ProcOk(m, p) && r > 0 && p.root != r
    requires Scratch(m, m1, r, tf) && Only(m1, r, {HIGH, HIGH + 1}) && tf in m1.own && m1.own[tf] == Other
    requires Alloced(m1, m2, r, CopyKeys(m1, p.root, r, PagesFor(p.sz))) && Copies(m1, m2, p.root, r, PagesFor(p.sz))
    ensures Scratch(m, m2, r, tf) && ProcOk(m2, Proc(r, tf, p.sz)) && Copies(m, m2, p.root, r, PagesFor(p.sz))
    ensures forall v: nat :: v < HIGH ==> ((r, v) in m2.flat <==> (p.root, v) in m.flat)
  {
    hide Inv;
    var n := PagesFor(p.sz);
    var ks, o := CopyKeys(m1, p.root, r, n), p.root;
    forall k | k in ks ensures k.0 == r && k.1 < n { InCopyKeys(m1, o, r, n, k); }
    ScratchAlloced(m, m1, m2, r, tf, ks);
    OnlySpace(m1, r);
    assert TabGrows(m1, m2, r, Root(r));
    forall k ensures FixedAt(m2, r, k) { assert FixedAt(m1, r, k); }
    forall k ensures SpaceAt(m2, r, n, k) { assert SpaceAt(m1, r, 0, k); }
    forall k ensures TwoFixed(m2, r, k) { assert TwoFixed(m1, r, k); }
    forall i: nat | i < n ensures CopyOf(m, m2, o, r, i) { CopyFromScratch(m, m1, m2, o, r, tf, n, i); }
    forall v: nat | v < HIGH ensures (r, v) in m2.flat <==> (o, v) in m.flat {
      InCopyKeys(m1, o, r, n, (r, v));
      assert ScratchKey(m, m1, r, (o, v)) && OnlyKey(m1, r, {HIGH, HIGH + 1}, (r, v));
      assert SpaceAt(m, o, n, (o, v)) && FixedAt(m, o, (o, v));
    }
  }

  lemma CopyFromScratch(m: Mem, m1: Mem, m2: Mem, o: nat, r: nat, tf: nat, n: nat, i: nat)
    requires Inv(m) && Scratch(m, m1, r, tf) && o != r && Copies(m1, m2, o, r, n) && i < n <= HIGH && FixedHigh(m, o)
    ensures CopyOf(m, m2, o, r, i)
  {
    assert CopyOf(m1, m2, o, r, i) && ScratchKey(m, m1, r, (o, i)) && FixedAt(m, o, (o, i));
    if (o, i) in m.flat {
      assert KeyOk(m, (o, i)) && ScratchPage(m, m1, r, tf, PteToPa(m.flat[(o, i)]));
    }
  }

  lemma ForkFailed(m: Mem, m1: Mem, m2: Mem, r: nat, tf: nat)
    requires Inv(m1) && Scratch(m, m1, r, tf) && Only(m1, r, {HIGH, HIGH + 1}) && tf in m1.own && m1.own[tf] == Other
    requires Grows(m1, m2, r)
    ensures Scratch(m, m2, r, tf) && tf in m2.own && m2.own[tf] == Other && Only(m2, r, {HIGH, HIGH + 1})
  {
    var fs := {HIGH, HIGH + 1};
    assert TabGrows(m1, m2, r, Root(r)) && PageGrows(m1, m2, r, tf);
    forall k ensures ScratchKey(m, m2, r, k) { assert ScratchKey(m, m1, r, k); }
    forall t ensures ScratchTab(m, m2, r, t) { assert ScratchTab(m, m1, r, t) && TabGrows(m1, m2, r, t); }
    forall p: nat ensures ScratchPage(m, m2, r, tf, p) {
      assert ScratchPage(m, m1, r, tf, p) && PageGrows(m1, m2, r, p);
    }
    forall k ensures OnlyKey(m2, r, fs, k) { assert OnlyKey(m1, r, fs, k); }
  }

  lemma OnlyFreed(m: Mem, r: nat, tf: nat)
    requires Inv(m) && Only(m, r, {HIGH, HIGH + 1})
    ensures var m' := PageTables.Kfree(m, tf, JunkFreed());
            && Root(r) in m'.tab && Space(m', r, 0)
            && forall k {:trigger TwoFixed(m', r, k)} :: TwoFixed(m', r, k)
  {
    OnlySpace(m, r);
    var m' := PageTables.Kfree(m, tf, JunkFreed());
    forall k ensures FixedAt(m', r, k) { assert FixedAt(m, r, k); }
    forall k ensures SpaceAt(m', r, 0, k) { assert SpaceAt(m, r, 0, k); }
    forall k ensures TwoFixed(m', r, k) { assert TwoFixed(m, r, k); }
  }

  lemma BothUnmapped(m: Mem, m1: Mem, m2: Mem, r: nat, n: nat)
    requires Space(m, r, n) && Unmaps(m, m1, r, HIGH + 1, 1, false) && Unmaps(m1, m2, r, HIGH, 1, false)
    requires forall k {:trigger TwoFixed(m, r, k)} :: TwoFixed(m, r, k)
    ensures Space(m2, r, n) && m2.tab == m.tab && forall k :: k in m2.fixed ==> k.0 != r
  {
    forall k ensures FixedAt(m2, r, k) && SpaceAt(m2, r, n, k) {
      assert FixedAt(m, r, k) && SpaceAt(m, r, n, k);
      InKeys(r, HIGH + 1, 1, k);
      InKeys(r, HIGH, 1, k);
    }
    forall k | k in m2.fixed ensures k.0 != r {
      assert TwoFixed(m, r, k);
      InKeys(r, HIGH + 1, 1, k);
      InKeys(r, HIGH, 1, k);
    }
  }

  lemma ErasedAfterUnmap(m: Mem, m1: Mem, m2: Mem, m3: Mem, r: nat, n: nat)
    requires Inv(m) && Space(m, r, n) && Unmaps(m, m1, r, HIGH + 1, 1, false) && Unmaps(m1, m2, r, HIGH, 1, false)
    requires Erased(m2, m3, r)
    ensures Erased(m, m3, r)
  {
    forall k ensures KeyErased(m, m3, r, k) {
      assert KeyErased(m2, m3, r, k);
      InKeys(r, HIGH + 1, 1, k);
      InKeys(r, HIGH, 1, k);
    }
    forall t ensures TabErased(m, m3, r, t) { assert TabErased(m2, m3, r, t); }
    var h := HIGH + 1;
    forall p: nat ensures PageErased(m, m3, r, p) {
      assert PageUnmapped(m, m1, r, h, 1, false, p) && PageUnmapped(m1, m2, r, HIGH, 1, false, p);
      assert PageErased(m2, m3, r, p);
      if p in m.own && m.own[p].User? {
        assert OwnOk(m, p) && SpaceAt(m, r, n, (m.own[p].r, m.own[p].vpn));
      }
    }
  }

  lemma ForkOk(m: Mem, m': Mem, procs: map<nat, Proc>, kept: set<nat>, tramp: nat, child: nat, pr: Proc)
    requires Inv(m) && AllOk(m, procs, kept, tramp) && child !in procs
    requires ProcOk(m', pr) && TopsMapped(m', pr, tramp) && Scratch(m, m', pr.root, pr.trapframe)
    ensures AllOk(m', procs[child := pr], kept, tramp) && Confined(m, m', pr.root, pr.trapframe)
  {
    var procs', r, tf := procs[child := pr], pr.root, pr.trapframe;
    forall k ensures KeyApart(m, m', r, k) { assert ScratchKey(m, m', r, k); }
    forall t ensures TabApart(m, m', r, t) { assert ScratchTab(m, m', r, t); }
    forall p: nat ensures PageApart(m, m', r, tf, p) { assert ScratchPage(m, m', r, tf, p); }
    forall q | q in procs ensures procs[q].root != r && procs[q].trapframe != tf {
      assert ProcOk(m, procs[q]);
      assert ScratchTab(m, m', r, Root(r)) && ScratchPage(m, m', r, tf, tf);
    }
    forall q | q in procs' ensures ProcOk(m', procs'[q]) {
      if q != child {
        assert ProcOk(m, procs[q]);
        OthersKept(m, m', r, tf, procs[q]);
      }
    }
    forall q | q in procs' ensures TopsMapped(m', procs'[q], tramp) {
      if q != child {
        assert TopsMapped(m, procs[q], tramp);
        TopsOther(m, m', r, tf, procs[q], tramp);
      }
    }
    forall a, b ensures Separate(procs', a, b) { assert Separate(procs, a, b); }
    forall t ensures TableLive(m', procs', t) {
      assert ScratchTab(m, m', r, t) && TableLive(m, procs, t);
      if t in m'.tab {
        if t.r == r {
          assert procs'[child].root == t.r;
        } else {
          var q :| q in procs && procs[q].root == t.r;
          assert procs'[q].root == t.r;
        }
      }
    }
    forall p: nat ensures PageKept(m', procs', kept, p) {
      assert ScratchPage(m, m', r, tf, p) && PageKept(m, procs, kept, p);
      NewTrapframe(procs, child, pr, p);
    }
  }

  lemma NewTrapframe(procs: map<nat, Proc>, child: nat, pr: Proc, p: nat)
    requires child !in procs
    ensures Holds(procs[child := pr], p) <==> Holds(procs, p) || p == pr.trapframe
  {
    var procs' := procs[child := pr];
    if q :| q in procs && procs[q].trapframe == p {
      assert procs'[q].trapframe == p;
    }
    if p == pr.trapframe {
      assert procs'[child].trapframe == p;
    }
  }

  /** Exactly the pages of the process are free that were not before. */
  ghost predicate PageGone(m: Mem, m': Mem, pr: Proc, p: nat) {
    p in m.own ==>
      && p in m'.own
      && m'.own[p] == if p == pr.trapframe || (m.own[p].Table? && m.own[p].t.r == pr.root)
                         || (m.own[p].User? && m.own[p].r == pr.root)
                      then Free else m.own[p]
  }

  lemma FreedTrapframe(m: Mem, p: Proc)
    requires ProcOk(m, p)
    ensures var m' := PageTables.Kfree(m, p.trapframe, JunkFreed());
            && Root(p.root) in m'.tab && Space(m', p.root, PagesFor(p.sz))
            && forall k {:trigger TwoFixed(m', p.root, k)} :: TwoFixed(m', p.root, k)
  {
    var m', r, n := PageTables.Kfree(m, p.trapframe, JunkFreed()), p.root, PagesFor(p.sz);
    forall k ensures FixedAt(m', r, k) { assert FixedAt(m, r, k); }
    forall k ensures SpaceAt(m', r, n, k) { assert SpaceAt(m, r, n, k); }
    forall k ensures TwoFixed(m', r, k) { assert TwoFixed(m, r, k); }
  }

  lemma ExitOk(m: Mem, m1: Mem, m2: Mem, procs: map<nat, Proc>, kept: set<nat>, tramp: nat, pid: nat)
    requires Inv(m) && AllOk(m, procs, kept, tramp) && pid in procs
    requires procs[pid].trapframe in m.own && m.own[procs[pid].trapframe] == Other
    requires m1 == PageTables.Kfree(m, procs[pid].trapframe, JunkFreed()) && Erased(m1, m2, procs[pid].root)
    ensures AllOk(m2, procs - {pid}, kept, tramp)
    ensures Confined(m, m2, procs[pid].root, procs[pid].trapframe)
    ensures forall q: nat {:trigger PageGone(m, m2, procs[pid], q)} :: PageGone(m, m2, procs[pid], q)
  {
    var procs', pr := procs - {pid}, procs[pid];
    var r, tf := pr.root, pr.trapframe;
    forall k ensures KeyApart(m, m2, r, k) { assert KeyErased(m1, m2, r, k); }
    forall t ensures TabApart(m, m2, r, t) { assert TabErased(m1, m2, r, t); }
    forall p: nat ensures PageApart(m, m2, r, tf, p) { assert PageErased(m1, m2, r, p); }
    forall p: nat ensures PageGone(m, m2, pr, p) { assert PageErased(m1, m2, r, p); }
    forall q | q in procs' ensures ProcOk(m2, procs'[q]) {
      assert ProcOk(m, procs[q]) && Separate(procs, q, pid);
      OthersKept(m, m2, r, tf, procs[q]);
    }
    forall q | q in procs' ensures TopsMapped(m2, procs'[q], tramp) {
      assert TopsMapped(m, procs[q], tramp) && Separate(procs, q, pid);
      TopsOther(m, m2, r, tf, procs[q], tramp);
    }
    forall a, b ensures Separate(procs', a, b) { assert Separate(procs, a, b); }
    forall t ensures TableLive(m2, procs', t) {
      assert TabErased(m1, m2, r, t) && TableLive(m, procs, t);
      if t in m2.tab {
        var q :| q in procs && procs[q].root == t.r;
        assert q in procs' && procs'[q].root == t.r;
      }
    }
    forall p: nat ensures PageKept(m2, procs', kept, p) {
      assert PageErased(m1, m2, r, p) && PageKept(m, procs, kept, p);
      GoneTrapframe(procs, pid, p);
    }
  }

  lemma GoneTrapframe(procs: map<nat, Proc>, pid: nat, p: nat)
    requires pid in procs && forall a, b {:trigger Separate(procs, a, b)} :: Separate(procs, a, b)
    ensures Holds(procs - {pid}, p) <==> Holds(procs, p) && p != procs[pid].trapframe
  {
    var procs' := procs - {pid};
    if q :| q in procs && procs[q].trapframe == p && p != procs[pid].trapframe {
      assert q in procs' && procs'[q].trapframe == p;
    }
    if q :| q in procs' && procs'[q].trapframe == p {
      assert q in procs && procs[q].trapframe == p && Separate(procs, q, pid);
    }
  }
}
