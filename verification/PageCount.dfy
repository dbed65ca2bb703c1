/** How many pages are what, and how many free pages an allocation takes. */
module PageCount {
  import opened Basics
  import opened PageTables
  import opened VmEffects

  // ----- Every page is exactly one thing -----

  ghost function Others(m: Mem): set<nat> { set p | p in m.own && m.own[p] == Other }

  ghost function TablePages(m: Mem): set<nat> { set p | p in m.own && m.own[p].Table? }

  ghost function UserPages(m: Mem): set<nat> { set p | p in m.own && m.own[p].User? }

  ghost function FreePages(m: Mem): set<nat> { set p | p in m.own && m.own[p] == Free }

  lemma FreeListed(m: Mem, p: nat)
    requires Inv(m)
    ensures p in m.free <==> p in FreePages(m)
  {
    if p in m.free {
      var i: nat :| i < |m.free| && m.free[i] == p;
      assert FreeOk(m, i);
    }
    assert p in m.own ==> OwnOk(m, p);
  }

  lemma FreeApart(m: Mem)
    requires Inv(m)
    ensures Distinct(m.free)
  {
    forall i, j | 0 <= i < j < |m.free| ensures m.free[i] != m.free[j] { assert Apart(m, i, j); }
  }

  lemma FreeCount(m: Mem)
    requires Inv(m)
    ensures |FreePages(m)| == |m.free|
  {
    hide Inv, FreePages;
    FreeApart(m);
    forall p: nat ensures p in Elements(m.free) <==> p in FreePages(m) { FreeListed(m, p); }
    assert Elements(m.free) == FreePages(m);
  }

  lemma TableCount(m: Mem)
    requires Inv(m)
    ensures |TablePages(m)| == |m.tab|
  {
    forall t | t in m.tab.Keys ensures m.tab[t] in TablePages(m) { assert TableOk(m, t); }
    forall t, u | t in m.tab.Keys && u in m.tab.Keys && t != u ensures m.tab[t] != m.tab[u] {
      assert TableOk(m, t) && TableOk(m, u);
    }
    forall p | p in TablePages(m) ensures exists t :: t in m.tab.Keys && m.tab[t] == p {
      assert OwnOk(m, p);
      assert m.own[p].t in m.tab.Keys;
    }
    ImageSize(m.tab.Keys, m.tab, TablePages(m));
  }

  lemma UserCount(m: Mem)
    requires Inv(m)
    ensures |UserPages(m)| == |m.flat.Keys - m.fixed|
  {
    var ks := m.flat.Keys - m.fixed;
    var f := map k | k in ks :: PteToPa(m.flat[k]);
    forall k | k in ks ensures f[k] in UserPages(m) && m.own[f[k]] == User(k.0, k.1) { assert KeyOk(m, k); }
    forall p | p in UserPages(m) ensures exists k :: k in ks && f[k] == p {
      assert OwnOk(m, p);
      assert (m.own[p].r, m.own[p].vpn) in ks;
    }
    ImageSize(ks, f, UserPages(m));
  }

  /** Conservation: the pages are those on the free list, one for each table, one for
      each mapping that owns its page, and those somebody outside the tables has. */
  lemma Conservation(m: Mem)
    requires Inv(m)
    ensures |m.own| == |m.free| + |m.tab| + |m.flat.Keys - m.fixed| + |Others(m)|
  {
    FreeCount(m);
    TableCount(m);
    UserCount(m);
    Partition(m);
  }

  lemma Partition(m: Mem)
    ensures |m.own| == |FreePages(m)| + |TablePages(m)| + |UserPages(m)| + |Others(m)|
  {
    var a, b, c, d := FreePages(m), TablePages(m), UserPages(m), Others(m);
    assert m.own.Keys == a + b + c + d;
    UnionSize(a, b);
    UnionSize(a + b, c);
    UnionSize(a + b + c, d);
  }

  /** The mappings that own their page. */
  ghost function Owning(m: Mem): set<(nat, nat)> { m.flat.Keys - m.fixed }

  lemma Balance(m: Mem, m': Mem)
    requires Inv(m) && Inv(m') && m'.own.Keys == m.own.Keys
    ensures |m'.free| + |m'.tab| + |Owning(m')| + |Others(m')| == |m.free| + |m.tab| + |Owning(m)| + |Others(m)|
  {
    hide Inv;
    Conservation(m);
    Conservation(m');
  }

  /** New tables are made of free pages. */
  lemma GrowsCount(m: Mem, m': Mem, r: nat)
    requires Inv(m) && Inv(m') && Grows(m, m', r)
    ensures |m'.free| + |m'.tab| == |m.free| + |m.tab|
  {
    hide Inv;
    Balance(m, m');
    forall p: nat ensures p in Others(m') <==> p in Others(m) { assert PageGrows(m, m', r, p); }
    assert Others(m') == Others(m);
  }

  lemma MapsOthers(m: Mem, m': Mem, r: nat, v: nat, pa: nat, pte: nat, fix: bool)
    requires Maps(m, m', r, v, pa, pte, fix)
    ensures fix ==> Others(m') == Others(m)
    ensures !fix ==> pa in Others(m) && Others(m') == Others(m) - {pa}
  {
    forall p: nat ensures p in Others(m') <==> p in Others(m) && (fix || p != pa) {
      assert fix || p != pa ==> PageGrows(m, m', r, p);
    }
  }

  lemma MapsOwning(m: Mem, m': Mem, r: nat, v: nat, pa: nat, pte: nat, fix: bool)
    requires Maps(m, m', r, v, pa, pte, fix) && m.fixed <= m.flat.Keys
    ensures Owning(m') == if fix then Owning(m) else Owning(m) + {(r, v)}
    ensures (r, v) !in Owning(m)
  {
  }

  lemma MapsCount(m: Mem, m': Mem, r: nat, v: nat, pa: nat, pte: nat, fix: bool)
    requires Inv(m) && Inv(m') && Maps(m, m', r, v, pa, pte, fix)
    ensures |m'.free| + |m'.tab| == |m.free| + |m.tab|
  {
    hide Inv, Owning, Others;
    FixedAreMapped(m);
    Balance(m, m');
    MapsOthers(m, m', r, v, pa, pte, fix);
    MapsOwning(m, m', r, v, pa, pte, fix);
  }

  lemma FixedAreMapped(m: Mem)
    requires Inv(m)
    ensures m.fixed <= m.flat.Keys
  {
  }

  lemma AllocedOthers(m: Mem, m': Mem, r: nat, ks: set<(nat, nat)>)
    requires Alloced(m, m', r, ks)
    ensures Others(m') == Others(m)
  {
    forall p: nat ensures p in Others(m') <==> p in Others(m) { assert PageAlloced(m, m', r, ks, p); }
  }

  lemma AllocedOwning(m: Mem, m': Mem, ks: set<(nat, nat)>)
    requires m.fixed <= m.flat.Keys && m'.fixed == m.fixed && ks !! m.flat.Keys && m'.flat.Keys == m.flat.Keys + ks
    ensures |Owning(m')| == |Owning(m)| + |ks|
  {
    assert Owning(m') == Owning(m) + ks;
    UnionSize(Owning(m), ks);
  }

  lemma AllocedCount(m: Mem, m': Mem, r: nat, ks: set<(nat, nat)>)
    requires Inv(m) && Inv(m') && Alloced(m, m', r, ks)
    ensures |m'.free| + |m'.tab| + |ks| == |m.free| + |m.tab|
  {
    hide Inv, Owning, Others;
    FixedAreMapped(m);
    Balance(m, m');
    AllocedOthers(m, m', r, ks);
    AllocedOwning(m, m', ks);
  }

  // ----- What mapping pages takes -----

  /** The tables below the root on the way to a page. */
  ghost function Path(k: (nat, nat)): set<Tbl> { {TblOn(k.0, k.1, 1), TblOn(k.0, k.1, 0)} }

  ghost function Paths(ks: set<(nat, nat)>): set<Tbl> {
    (set k | k in ks :: TblOn(k.0, k.1, 1)) + (set k | k in ks :: TblOn(k.0, k.1, 0))
  }

  ghost function Lacking(m: Mem, ks: set<(nat, nat)>): set<Tbl> { Paths(ks) - m.tab.Keys }

  /** The free pages it takes to map the pages `ks`: one for each, and one for each
      table on the way that does not exist. */
  ghost function Need(m: Mem, ks: set<(nat, nat)>): nat { |ks| + |Lacking(m, ks)| }

  /** Are the tables of `m'` those of `m` and some on the way to the pages `ks`? */
  ghost predicate TabsFor(m: Mem, m': Mem, ks: set<(nat, nat)>) { m'.tab.Keys <= m.tab.Keys + Paths(ks) }

  lemma OnPath(m: Mem, k: (nat, nat))
    requires Inv(m) && k in m.flat
    ensures Path(k) <= m.tab.Keys
  {
    assert KeyOk(m, k) && TableOk(m, LowTable(k.0, k.1));
  }

  lemma PathsOf(k: (nat, nat))
    ensures Paths({k}) == Path(k)
  {
    assert k in {k};
    assert forall t :: t in Paths({k}) ==> t in Path(k);
  }

  lemma TabsForPath(m: Mem, m1: Mem, m2: Mem, k: (nat, nat), ks: set<(nat, nat)>)
    requires TabsFor(m, m1, ks) && k in ks && m2.tab.Keys <= m1.tab.Keys + Path(k)
    ensures TabsFor(m, m2, ks)
  {
    assert Path(k) <= Paths(ks);
  }

  lemma OneKey(r: nat, v: nat)
    ensures Keys(r, v, 1) == {(r, v)}
  {
    assert Keys(r, v, 0) == {};
  }

  lemma PathsUnion(ks: set<(nat, nat)>, ls: set<(nat, nat)>)
    ensures Paths(ks + ls) == Paths(ks) + Paths(ls)
  {
    forall k | k in ks || k in ls ensures k in ks + ls { }
    assert forall t :: t in Paths(ks + ls) ==> t in Paths(ks) + Paths(ls);
    assert forall t :: t in Paths(ks) + Paths(ls) ==> t in Paths(ks + ls);
  }

  lemma MappedPaths(m: Mem, ks: set<(nat, nat)>)
    requires Inv(m) && ks <= m.flat.Keys
    ensures Paths(ks) <= m.tab.Keys
  {
    hide Inv;
    forall k | k in ks ensures Path(k) <= m.tab.Keys { OnPath(m, k); }
  }

  lemma TabsKept(m: Mem, m': Mem, r: nat)
    requires forall t {:trigger TabGrows(m, m', r, t)} :: TabGrows(m, m', r, t)
    ensures m.tab.Keys <= m'.tab.Keys
  {
    forall t | t in m.tab ensures t in m'.tab { assert TabGrows(m, m', r, t); }
  }

  /** Mapping pages took exactly what it needs. */
  lemma Enough(m: Mem, m': Mem, r: nat, ks: set<(nat, nat)>)
    requires Inv(m) && Inv(m') && Alloced(m, m', r, ks) && TabsFor(m, m', ks)
    ensures m'.tab.Keys == m.tab.Keys + Paths(ks)
    ensures |m.free| == |m'.free| + Need(m, ks)
  {
    hide Inv, Paths;
    AllocedCount(m, m', r, ks);
    MappedPaths(m', ks);
    TabsKept(m, m', r);
    GrownSize(m.tab.Keys, m'.tab.Keys, Paths(ks));
  }

  /** Tables were made until no page was left, and the last table is missing. */
  lemma Starved(m: Mem, m': Mem, r: nat, k: (nat, nat))
    requires Inv(m) && Inv(m') && Grows(m, m', r) && m'.tab.Keys <= m.tab.Keys + Path(k)
    requires m'.free == [] && TblOn(k.0, k.1, 0) !in m'.tab
    ensures |m.free| < |Path(k) - m.tab.Keys|
  {
    hide Inv;
    GrowsCount(m, m', r);
    TabsKept(m, m', r);
    GrownSize(m.tab.Keys, m'.tab.Keys, Path(k));
  }

  lemma Short(m: Mem, m1: Mem, m2: Mem, p: nat, r: nat, k: (nat, nat), data: Page)
    requires Inv(m) && Inv(m1) && Inv(m2) && m.free != []
    requires m1 == Fill(PageTables.Kalloc(m, JunkAllocated()), p, data) && Grows(m1, m2, r)
    requires m2.free == [] && TblOn(k.0, k.1, 0) !in m2.tab && m2.tab.Keys <= m1.tab.Keys + Path(k)
    ensures |m.free| < Need(m, {k})
  {
    hide Inv, Paths;
    Starved(m1, m2, r, k);
    PathsOf(k);
  }

  lemma NeedMore(m: Mem, ks: set<(nat, nat)>, all: set<(nat, nat)>)
    requires ks <= all
    ensures Need(m, ks) <= Need(m, all)
  {
    hide Paths;
    SubsetSize(ks, all);
    PathsUnion(ks, all);
    assert ks + all == all;
    SubsetSize(Lacking(m, ks), Lacking(m, all));
  }

  lemma NeedStep(m: Mem, m1: Mem, ks: set<(nat, nat)>, k: (nat, nat))
    requires m1.tab.Keys == m.tab.Keys + Paths(ks) && k !in ks
    ensures Need(m, ks + {k}) == Need(m, ks) + Need(m1, {k})
  {
    hide Paths;
    PathsUnion(ks, {k});
    assert Lacking(m, ks + {k}) == Lacking(m, ks) + Lacking(m1, {k});
    UnionSize(Lacking(m, ks), Lacking(m1, {k}));
    UnionSize(ks, {k});
  }

  /** Memory ran out at page `k`, after the pages `ks`, of all the pages wanted. */
  lemma ShortLater(m: Mem, m1: Mem, r: nat, ks: set<(nat, nat)>, k: (nat, nat), all: set<(nat, nat)>)
    requires Inv(m) && Inv(m1) && Alloced(m, m1, r, ks) && TabsFor(m, m1, ks)
    requires |m1.free| < Need(m1, {k}) && k !in ks && ks + {k} <= all
    ensures |m.free| < Need(m, all)
  {
    hide Inv;
    Enough(m, m1, r, ks);
    NeedStep(m, m1, ks, k);
    NeedMore(m, ks + {k}, all);
  }

  lemma NoTabs(m: Mem, ks: set<(nat, nat)>)
    ensures TabsFor(m, m, ks)
  {
  }

  lemma TabsForStep(m: Mem, m1: Mem, m2: Mem, ks: set<(nat, nat)>, ls: set<(nat, nat)>)
    requires TabsFor(m, m1, ks) && TabsFor(m1, m2, ls)
    ensures TabsFor(m, m2, ks + ls)
  {
    hide Paths;
    PathsUnion(ks, ls);
  }

  lemma RangeShort(m: Mem, m1: Mem, r: nat, v: nat, k: nat, n: nat)
    requires Inv(m) && Inv(m1) && Alloced(m, m1, r, Keys(r, v, k)) && TabsFor(m, m1, Keys(r, v, k)) && k < n
    requires |m1.free| < Need(m1, {(r, v + k)})
    ensures |m.free| < Need(m, Keys(r, v, n))
  {
    hide Inv, Alloced, Need, Paths;
    InKeys(r, v, k, (r, v + k));
    forall x | x in Keys(r, v, k) + {(r, v + k)} ensures x in Keys(r, v, n) {
      InKeys(r, v, k, x);
      InKeys(r, v, n, x);
    }
    ShortLater(m, m1, r, Keys(r, v, k), (r, v + k), Keys(r, v, n));
  }

  lemma CopyShort(m: Mem, m1: Mem, o: nat, c: nat, k: nat, n: nat)
    requires Inv(m) && Inv(m1) && Alloced(m, m1, c, CopyKeys(m, o, c, k)) && TabsFor(m, m1, CopyKeys(m, o, c, k))
    requires k < n && (o, k) in m.flat && |m1.free| < Need(m1, {(c, k)})
    ensures |m.free| < Need(m, CopyKeys(m, o, c, n))
  {
    hide Inv, Alloced, Need, Paths;
    InCopyKeys(m, o, c, k, (c, k));
    forall x | x in CopyKeys(m, o, c, k) + {(c, k)} ensures x in CopyKeys(m, o, c, n) {
      InCopyKeys(m, o, c, k, x);
      InCopyKeys(m, o, c, n, x);
    }
    ShortLater(m, m1, c, CopyKeys(m, o, c, k), (c, k), CopyKeys(m, o, c, n));
  }

  /** Mapping a page that is nobody's to give takes only tables. */
  lemma FixedEnough(m: Mem, m': Mem, r: nat, v: nat, pa: nat, pte: nat)
    requires Inv(m) && Inv(m') && Maps(m, m', r, v, pa, pte, true) && TabsFor(m, m', {(r, v)})
    ensures m'.tab.Keys == m.tab.Keys + Path((r, v))
    ensures |m.free| == |m'.free| + |Path((r, v)) - m.tab.Keys|
  {
    hide Inv, Paths;
    MapsCount(m, m', r, v, pa, pte, true);
    OnPath(m', (r, v));
    PathsOf((r, v));
    TabsKept(m, m', r);
    GrownSize(m.tab.Keys, m'.tab.Keys, Path((r, v)));
  }

  // ----- The size of a whole address space -----

  /** Where every process has trapframe and trampoline. */
  ghost function Tops(r: nat): set<(nat, nat)> { {(r, HIGH), (r, HIGH + 1)} }

  lemma TopPath(r: nat)
    ensures Path((r, HIGH + 1)) == Path((r, HIGH)) && |Path((r, HIGH))| == 2
    ensures Paths(Tops(r)) == Path((r, HIGH))
  {
    assert (HIGH + 1) / 512 == HIGH / 512;
    PathsUnion({(r, HIGH)}, {(r, HIGH + 1)});
    PathsOf((r, HIGH));
    PathsOf((r, HIGH + 1));
    assert Tops(r) == {(r, HIGH)} + {(r, HIGH + 1)};
  }

  /** The pages it takes to copy the first `n` pages of `o` to a new process: trapframe,
      root, the tables on the way to what is mapped, and the pages themselves. */
  ghost function CopySize(m: Mem, o: nat, n: nat): nat {
    2 + |Paths(CopyKeys(m, o, o, n) + Tops(o))| + |CopyKeys(m, o, o, n)|
  }

  ghost predicate SameKey(m: Mem, m': Mem, k: (nat, nat)) { k in m.flat <==> k in m'.flat }

  ghost predicate Renamed(ks: set<(nat, nat)>, ls: set<(nat, nat)>, o: nat, c: nat) {
    && (forall k :: k in ks ==> k.0 == o && (c, k.1) in ls)
    && (forall l :: l in ls ==> l.0 == c && (o, l.1) in ks)
  }

  lemma RenamedSize(ks: set<(nat, nat)>, ls: set<(nat, nat)>, o: nat, c: nat)
    requires Renamed(ks, ls, o, c)
    ensures |ls| == |ks|
  {
    var f := map k | k in ks :: (c, k.1);
    forall l | l in ls ensures exists k :: k in ks && f[k] == l { assert f[(o, l.1)] == l; }
    ImageSize(ks, f, ls);
  }

  lemma PathRenamed(o: nat, c: nat, v: nat, t: Tbl)
    requires t in Path((o, v))
    ensures t.r == o && Tbl(c, t.level, t.pre) in Path((c, v))
  {
  }

  lemma InPaths(ks: set<(nat, nat)>, t: Tbl)
    ensures t in Paths(ks) <==> exists k :: k in ks && t in Path(k)
  {
  }

  lemma PathsRenamed(ks: set<(nat, nat)>, ls: set<(nat, nat)>, o: nat, c: nat, t: Tbl)
    requires Renamed(ks, ls, o, c) && t in Paths(ks)
    ensures t.r == o && Tbl(c, t.level, t.pre) in Paths(ls)
  {
    hide Paths, Path;
    InPaths(ks, t);
    var k :| k in ks && t in Path(k);
    PathRenamed(o, c, k.1, t);
    InPaths(ls, Tbl(c, t.level, t.pre));
  }

  lemma RenamedPaths(ks: set<(nat, nat)>, ls: set<(nat, nat)>, o: nat, c: nat)
    requires Renamed(ks, ls, o, c)
    ensures |Paths(ls)| == |Paths(ks)|
  {
    hide Paths;
    var f := map t | t in Paths(ks) :: Tbl(c, t.level, t.pre);
    forall t | t in Paths(ks) ensures f[t] in Paths(ls) && t.r == o { PathsRenamed(ks, ls, o, c, t); }
    forall u | u in Paths(ls) ensures exists t :: t in Paths(ks) && f[t] == u {
      PathsRenamed(ls, ks, c, o, u);
      assert f[Tbl(o, u.level, u.pre)] == u;
    }
    ImageSize(Paths(ks), f, Paths(ls));
  }

  lemma CopyRenamed(m: Mem, m': Mem, o: nat, c: nat, n: nat)
    requires forall i: nat {:trigger SameKey(m, m', (o, i))} :: i < n ==> SameKey(m, m', (o, i))
    ensures Renamed(CopyKeys(m, o, o, n), CopyKeys(m', o, c, n), o, c)
  {
    forall k | k in CopyKeys(m, o, o, n) ensures k.0 == o && (c, k.1) in CopyKeys(m', o, c, n) {
      InCopyKeys(m, o, o, n, k);
      assert SameKey(m, m', (o, k.1));
      InCopyKeys(m', o, c, n, (c, k.1));
    }
    forall k | k in CopyKeys(m', o, c, n) ensures k.0 == c && (o, k.1) in CopyKeys(m, o, o, n) {
      InCopyKeys(m', o, c, n, k);
      assert SameKey(m, m', (o, k.1));
      InCopyKeys(m, o, o, n, (o, k.1));
    }
  }

  ghost predicate TopTab(m: Mem, r: nat, t: Tbl) { t in m.tab && t.r == r ==> t == Root(r) || t in Path((r, HIGH)) }

  /** The tables of a process with no user memory. */
  ghost predicate TopTabs(m: Mem, r: nat) {
    Path((r, HIGH)) <= m.tab.Keys && forall t {:trigger TopTab(m, r, t)} :: TopTab(m, r, t)
  }

  lemma WithTops(ks: set<(nat, nat)>, ls: set<(nat, nat)>, o: nat, c: nat)
    requires Renamed(ks, ls, o, c)
    ensures Renamed(ks + Tops(o), ls + Tops(c), o, c)
  {
  }

  lemma PathsWithTops(ks: set<(nat, nat)>, c: nat)
    ensures |Paths(ks + Tops(c))| == |Paths(ks) - Path((c, HIGH))| + 2
  {
    hide Paths, Path, Tops;
    var a, top := Paths(ks), Path((c, HIGH));
    TopPath(c);
    PathsUnion(ks, Tops(c));
    assert a + top == (a - top) + top;
    UnionSize(a - top, top);
  }

  lemma CopyNeed(m: Mem, m1: Mem, o: nat, c: nat, n: nat)
    requires forall i: nat {:trigger SameKey(m, m1, (o, i))} :: i < n ==> SameKey(m, m1, (o, i))
    requires TopTabs(m1, c)
    ensures CopySize(m, o, n) == 4 + Need(m1, CopyKeys(m1, o, c, n))
  {
    hide Paths, Path, Renamed, Tops, CopyKeys, TopTabs, Lacking;
    var ks := CopyKeys(m1, o, c, n);
    CopyRenamed(m, m1, o, c, n);
    RenamedSize(CopyKeys(m, o, o, n), ks, o, c);
    WithTops(CopyKeys(m, o, o, n), ks, o, c);
    RenamedPaths(CopyKeys(m, o, o, n) + Tops(o), ks + Tops(c), o, c);
    PathsWithTops(ks, c);
    CopyLacking(m1, o, c, n);
  }

  lemma CopyLacking(m: Mem, o: nat, c: nat, n: nat)
    requires TopTabs(m, c)
    ensures Lacking(m, CopyKeys(m, o, c, n)) == Paths(CopyKeys(m, o, c, n)) - Path((c, HIGH))
  {
    var ks := CopyKeys(m, o, c, n);
    forall t | t in Paths(ks) ensures t in m.tab <==> t in Path((c, HIGH)) {
      var k :| k in ks && t in Path(k);
      InCopyKeys(m, o, c, n, k);
      assert TopTab(m, c, t);
    }
  }

  lemma CopySizeMin(m: Mem, o: nat, n: nat)
    ensures CopySize(m, o, n) >= 4
  {
    TopPath(o);
    PathsUnion(CopyKeys(m, o, o, n), Tops(o));
    SubsetSize(Path((o, HIGH)), Paths(CopyKeys(m, o, o, n) + Tops(o)));
  }
}
