/** The memory management unit: Sv39 translation by the rules of the RISC-V privileged
    architecture, on the words in memory and without the kernel's macros, and what it
    finds in the tables the kernel builds. */
module Mmu {
  import opened Basics
  import opened PageTables

  // ----- The hardware -----

  datatype Access = Load | Store | Execute

  predicate Present(pte: nat) { pte % 2 == 1 }

  predicate Readable(pte: nat) { pte / 2 % 2 == 1 }

  predicate Writable(pte: nat) { pte / 4 % 2 == 1 }

  predicate Executable(pte: nat) { pte / 8 % 2 == 1 }

  predicate ForUser(pte: nat) { pte / 16 % 2 == 1 }

  /** The entry is a leaf that takes part in translation. */
  predicate Usable(pte: nat) { Present(pte) && (Readable(pte) || Executable(pte)) && (Writable(pte) ==> Readable(pte)) }

  predicate Allows(pte: nat, a: Access) {
    match a
    case Load => Readable(pte)
    case Store => Writable(pte)
    case Execute => Executable(pte)
  }

  /** Bits 63 to 39 of an address repeat bit 38. */
  predicate Canonical(va: nat) { va < 0x40_0000_0000 || 0xffff_ffc0_0000_0000 <= va < 0x1_0000_0000_0000_0000 }

  /** The bytes under one entry of a table at `level`. */
  function Span(level: nat): nat
    requires level <= 2
  {
    if level == 2 then 0x4000_0000 else if level == 1 then 0x20_0000 else 0x1000
  }

  /** The leaf entry for `va` and its level. A readable or executable entry is a leaf at
      any level; writable without readable is reserved. */
  function Walk(pages: map<nat, Page>, table: nat, va: nat, level: nat): (r: Option<(nat, nat)>)
    requires level <= 2
    ensures r.Some? ==> r.value.1 <= level && Usable(r.value.0)
    decreases level
  {
    if table !in pages then None
    else
      var pte := pages[table][va / Span(level) % 512];
      if !Present(pte) || (Writable(pte) && !Readable(pte)) then None
      else if Readable(pte) || Executable(pte) then Some((pte, level))
      else if level == 0 then None
      else Walk(pages, pte / 1024 * 4096, va, level - 1)
  }

  /** The physical address an access to `va` goes to; None is a page fault. User mode may
      only use entries marked for it, and the supervisor only the others. */
  function Reach(pages: map<nat, Page>, root: nat, va: nat, a: Access, user: bool): Option<nat> {
    if !Canonical(va) then None
    else
      match Walk(pages, root, va, 2)
      case None => None
      case Some((pte, level)) =>
        var base := pte / 1024 * 4096;
        if base % Span(level) != 0 || ForUser(pte) != user || !Allows(pte, a) then None
        else Some(base + va % Span(level))
  }

  /** The page of a physical address, and the word in it. */
  function Base(pa: nat): nat { pa / 4096 * 4096 }

  function WordAt(pages: map<nat, Page>, pa: nat): Option<nat> {
    if Base(pa) in pages then Some(pages[Base(pa)][pa % 4096 / 8]) else None
  }

  // ----- The kernel's tables -----

  /** The number of the page of `va` among those a table tree can map. */
  function Page39(va: nat): nat { va / 4096 % 0x800_0000 }

  lemma Digits(va: nat)
    ensures var i2, i1, i0 := va / 0x4000_0000 % 512, va / 0x20_0000 % 512, va / 0x1000 % 512;
            Page39(va) == (i2 * 512 + i1) * 512 + i0
  {
    var v := va / 4096;
    assert va / 0x20_0000 == v / 512 && va / 0x4000_0000 == v / 512 / 512;
    var i0, i1, u := v % 512, v / 512 % 512, v / 512 / 512;
    assert v == (u * 512 + i1) * 512 + i0;
    TopDigit(u, i1, i0);
  }

  lemma TopDigit(u: nat, i1: nat, i0: nat)
    requires i1 < 512 && i0 < 512
    ensures ((u * 512 + i1) * 512 + i0) % 0x800_0000 == (u % 512 * 512 + i1) * 512 + i0
  {
    var q, i2 := u / 512, u % 512;
    assert u == q * 512 + i2;
    var low := (i2 * 512 + i1) * 512 + i0;
    assert (u * 512 + i1) * 512 + i0 == q * 0x800_0000 + low;
    LowDigits(q, low);
  }

  lemma LowDigits(q: nat, low: nat)
    requires low < 0x800_0000
    ensures (q * 0x800_0000 + low) % 0x800_0000 == low
  {
  }

  lemma WholePage(q: nat)
    ensures q * 4096 % 4096 == 0
  {
  }

  lemma LinkBits(q: nat)
    ensures var pte := q * 1024 + 1;
            Present(pte) && !Readable(pte) && !Writable(pte) && !Executable(pte) && pte / 1024 == q
  {
    var pte := q * 1024 + 1;
    assert pte / 2 == 2 * (256 * q) && pte / 4 == 2 * (128 * q) && pte / 8 == 2 * (64 * q);
  }

  /** One step down an upper table: to the table below, or a fault. */
  lemma StepDown(m: Mem, t: Tbl, va: nat)
    requires Inv(m) && m.cut == {} && t in m.tab && 0 < t.level <= 2
    ensures var u := Child(t, va / Span(t.level) % 512);
            Walk(m.pages, m.tab[t], va, t.level) ==
            if u in m.tab then Walk(m.pages, m.tab[u], va, t.level - 1) else None
  {
    var idx := va / Span(t.level) % 512;
    var u := Child(t, idx);
    assert LinkOk(m, t, idx);
    if u in m.tab {
      assert TableOk(m, u) && OwnOk(m, m.tab[u]);
      LinkBits(m.tab[u] / 4096);
    }
  }

  lemma Bottom(m: Mem, t: Tbl, va: nat)
    requires Inv(m) && t in m.tab && t.level == 0
    ensures var k := Key(t, va / 4096 % 512);
            Walk(m.pages, m.tab[t], va, 0) ==
            if k in m.flat && Usable(m.flat[k]) then Some((m.flat[k], 0)) else None
  {
    assert LeafOk(m, t, va / 4096 % 512);
  }

  /** The radix tree in memory is the flat map, on every 64-bit address. */
  lemma TranslateIsFlat(m: Mem, r: nat, va: nat)
    requires Inv(m) && m.cut == {} && Root(r) in m.tab
    ensures var k := (r, Page39(va));
            Walk(m.pages, r, va, 2) == if k in m.flat && Usable(m.flat[k]) then Some((m.flat[k], 0)) else None
  {
    var i2, i1, i0 := va / 0x4000_0000 % 512, va / 0x20_0000 % 512, va / 0x1000 % 512;
    var t1 := Child(Root(r), i2);
    var t0 := Child(t1, i1);
    var k := Key(t0, i0);
    Digits(va);
    assert k == (r, Page39(va)) && LowTable(r, k.1) == t0;
    assert TableOk(m, Root(r));
    StepDown(m, Root(r), va);
    ChildParent(t1, i1);
    if k in m.flat {
      assert KeyOk(m, k) && TableOk(m, t0);
    }
    if t1 in m.tab {
      StepDown(m, t1, va);
      if t0 in m.tab {
        Bottom(m, t0, va);
      }
    }
  }

  // ----- What an entry lets through -----

  /** The flags are the low bits of the entry. */
  lemma FlagBits(pte: nat)
    ensures var f := FlagsOf(pte);
            && (Present(pte) <==> Present(f)) && (Readable(pte) <==> Readable(f)) && (Writable(pte) <==> Writable(f))
            && (Executable(pte) <==> Executable(f)) && (ForUser(pte) <==> ForUser(f))
  {
    var q, f := pte / 1024, pte % 1024;
    BitTwo(q, f);
    BitFour(q, f);
    BitEight(q, f);
    BitSixteen(q, f);
  }

  lemma BitTwo(q: nat, f: nat)
    ensures (1024 * q + f) % 2 == f % 2 && (1024 * q + f) / 2 % 2 == f / 2 % 2
  {
    assert 1024 * q + f == 2 * (512 * q) + f;
    DivTwo(512 * q, f);
    DivTwo(256 * q, f / 2);
  }

  lemma BitFour(q: nat, f: nat)
    ensures (1024 * q + f) / 4 % 2 == f / 4 % 2
  {
    assert (1024 * q + f) / 4 == 256 * q + f / 4;
    DivTwo(128 * q, f / 4);
  }

  lemma BitEight(q: nat, f: nat)
    ensures (1024 * q + f) / 8 % 2 == f / 8 % 2
  {
    assert (1024 * q + f) / 8 == 128 * q + f / 8;
    DivTwo(64 * q, f / 8);
  }

  lemma BitSixteen(q: nat, f: nat)
    ensures (1024 * q + f) / 16 % 2 == f / 16 % 2
  {
    assert (1024 * q + f) / 16 == 64 * q + f / 16;
    DivTwo(32 * q, f / 16);
  }

  /** Where an access goes, from the flat map. */
  lemma ReachFlat(m: Mem, r: nat, va: nat, a: Access, user: bool)
    requires Inv(m) && m.cut == {} && Root(r) in m.tab
    ensures var k := (r, Page39(va));
            Reach(m.pages, r, va, a, user) ==
            if Canonical(va) && k in m.flat && Usable(m.flat[k]) && ForUser(m.flat[k]) == user && Allows(m.flat[k], a)
            then Some(PteToPa(m.flat[k]) + va % 4096) else None
  {
    hide Inv, Walk, Usable, Canonical, Page39, ForUser, Allows;
    TranslateIsFlat(m, r, va);
    var k := (r, Page39(va));
    if k in m.flat {
      WholePage(m.flat[k] / 1024);
    }
  }

  lemma LowPage(va: nat)
    requires va < MAXVA
    ensures Canonical(va) && Page39(va) == Vpn(va)
  {
  }

  /** A user program can read and write at `va` but not run code there. */
  predicate ReadWrite(pages: map<nat, Page>, r: nat, va: nat) {
    var pa := Reach(pages, r, va, Load, true);
    pa.Some? && Reach(pages, r, va, Store, true) == pa && Reach(pages, r, va, Execute, true) == None
  }

  /** What it reads there is 0. */
  predicate ReadsZero(pages: map<nat, Page>, r: nat, va: nat) {
    var pa := Reach(pages, r, va, Load, true);
    pa.Some? && WordAt(pages, pa.value) == Some(0)
  }

  lemma ZeroPage(m: Mem, r: nat, va: nat)
    requires Inv(m) && m.cut == {} && Root(r) in m.tab && va < MAXVA && (r, Vpn(va)) in m.flat
    requires ReadWrite(m.pages, r, va)
    requires var p := PteToPa(m.flat[(r, Vpn(va))]); p in m.pages && m.pages[p] == Zeros()
    ensures ReadsZero(m.pages, r, va)
  {
    hide Inv, Reach;
    LowPage(va);
    ReachFlat(m, r, va, Load, true);
    PageAndOffset(m.flat[(r, Vpn(va))] / 1024, va % 4096);
  }

  lemma PageAndOffset(q: nat, o: nat)
    requires o < 4096
    ensures Base(q * 4096 + o) == q * 4096 && (q * 4096 + o) % 4096 == o
  {
  }

  lemma DataPage(m: Mem, r: nat, va: nat)
    requires Inv(m) && m.cut == {} && Root(r) in m.tab && va < MAXVA && (r, Vpn(va)) in m.flat
    requires FlagsOf(m.flat[(r, Vpn(va))]) == PTE_V + PTE_R + PTE_W + PTE_U
    ensures ReadWrite(m.pages, r, va)
  {
    hide Inv, Reach;
    LowPage(va);
    FlagBits(m.flat[(r, Vpn(va))]);
    ReachFlat(m, r, va, Load, true);
    ReachFlat(m, r, va, Store, true);
    ReachFlat(m, r, va, Execute, true);
  }
}
