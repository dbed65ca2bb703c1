/** The block and inode operations of kernel/fs.c and the file write loop of
    kernel/file.c, as methods that update the bitmap, the blocks and the inodes. */
module FsOps {
  import opened FsBlocks
  import opened FsFiles
  import opened Params
  import Basics
  import LogSpace

  ghost function AddrSet(addr: nat): set<nat> { if addr == 0 then {} else {addr} }

  /** Was a block added where there was none? */
  function Fresh(p: nat, p': nat): nat { if p == 0 && p' != 0 then 1 else 0 }

  /** The number of blocks of a file that `n` bytes from `off` on lie in. */
  function Touched(off: nat, n: nat): nat { (off % 1024 + n + 1023) / 1024 }

  /** Does the 32-bit sum fall below its first operand? */
  predicate Wraps(off: nat, n: nat): (w: bool)
    requires off < 0x1_0000_0000 && n < 0x1_0000_0000
    ensures w <==> off + n >= 0x1_0000_0000
  {
    (off + n) % 0x1_0000_0000 < off
  }

  /** The block an offset lies in, and where in it. */
  function Locate(o: nat): (r: (nat, nat))
    ensures o == 1024 * r.0 + r.1 && r.1 < 1024
  {
    (o / 1024, o % 1024)
  }

  /** How much of the `left` bytes fits in a block from byte `lo` on. */
  function Chunk(lo: nat, left: nat): (m: nat)
    requires 0 < left && lo < 1024
    ensures 0 < m <= left && lo + m <= 1024 && (m == left || lo + m == 1024)
  {
    if left < 1024 - lo then left else 1024 - lo
  }

  /** No block is free. */
  ghost predicate Full(used: seq<bool>) { forall c :: 0 <= c < |used| ==> used[c] }

  /** The first `k` bytes of the data are in the file. */
  ghost predicate WrittenUpTo(s: Fs, s': Fs, i: nat, off: nat, data: seq<Byte>, k: nat) {
    k <= |data| && FileWritten(s, s', i, off, data[..k])
  }

  /** Why a write of `n` bytes at `off0` stopped at `off`: it started past the end of the
      file, the next transaction would pass the largest file size, or the disk is full. */
  ghost predicate WriteFails(s: Fs, i: nat, off0: nat, off: nat, n: int, used: seq<bool>) {
    && i in s.inodes && off0 <= off < off0 + n
    && (|| off0 > s.inodes[i].size
        || off + (if n - (off - off0) < 3072 then n - (off - off0) else 3072) > MAXBYTES
        || Full(used))
  }

  // ----- The order of log_write calls -----

  /** If all but the last call stay below, so does every one. */
  lemma LastIsSparing(log: seq<nat>)
    requires log == [] || |LogSpace.Listed(log[..|log| - 1])| < MAXOPBLOCKS
    ensures LogSpace.Sparing(log)
  {
    forall k: nat | k < |log| ensures |LogSpace.Listed(log[..k])| < MAXOPBLOCKS {
      assert log[..|log| - 1][..k] == log[..k];
      Basics.SubsetSize(LogSpace.Listed(log[..k]), LogSpace.Listed(log[..|log| - 1]));
    }
  }

  /** Every transaction kept to the blocks reserved for it. */
  ghost predicate AllFit(ops: seq<seq<nat>>) {
    forall t :: 0 <= t < |ops| ==> |LogSpace.Listed(ops[t])| <= MAXOPBLOCKS && LogSpace.Sparing(ops[t])
  }

  lemma AllFitNone()
    ensures AllFit([])
  {
  }

  lemma AllFitAppend(ops: seq<seq<nat>>, w: seq<nat>)
    requires AllFit(ops) && |LogSpace.Listed(w)| <= MAXOPBLOCKS && LogSpace.Sparing(w)
    ensures AllFit(ops + [w])
  {
  }

  /** How many blocks a writei of `n` bytes at `off` logs at most: data blocks, a bitmap
      block for each that is new, the indirect block and its bitmap block, the inode. */
  function LogBound(off: nat, n: nat): nat {
    2 * Touched(off, n) - (if off % 1024 != 0 then 1 else 0) + 3
  }

  /** The blocks logged so far by a writei: the data blocks of `turns` turns of its loop
      and the bitmap blocks `bits`. */
  datatype Tally = Tally(data: set<nat>, bits: set<nat>, turns: nat)

  /** `logged'` grew from `logged` while the indirect pointer went from `p` to `p'` and
      `tot` of `n` bytes at `off` were written. */
  ghost predicate Accounts(logged: set<nat>, p: nat, logged': set<nat>, p': nat, off: nat, n: nat, tot: nat, y: Tally) {
    && logged' <= logged + y.data + AddrSet(p') + y.bits
    && (p != 0 ==> p' == p)
    && |y.data| <= y.turns
    && |y.bits| + (if y.turns > 0 && off % 1024 != 0 then 1 else 0) <= y.turns + Fresh(p, p')
    && (y.turns == 0 ==> tot == 0)
    && (y.turns > 0 ==> off % 1024 + tot == 1024 * y.turns || (tot == n && y.turns <= Touched(off, n)))
  }

  /** One turn: bmap gives `addr`, new or not, and logs `bits`; then the block is logged.
      A failed bmap, which ends the loop, may still have added the indirect block. */
  lemma AccountsTurn(L: set<nat>, p: nat, L1: set<nat>, p1: nat, L2: set<nat>, p2: nat,
                     off: nat, n: nat, tot: nat, bn: nat, lo: nat, y: Tally, addr: nat, bits: set<nat>, isNew: bool)
    requires Accounts(L, p, L1, p1, off, n, tot, y) && (p1 != 0 ==> p2 == p1)
    requires L2 <= L1 + AddrSet(addr) + AddrSet(p2) + bits
    requires |bits| <= (if isNew && addr != 0 then 1 else 0) + Fresh(p1, p2)
    requires isNew ==> y.turns > 0 || off % 1024 == 0
    requires tot < n && lo < 1024 && off + tot == 1024 * bn + lo
    ensures addr == 0 ==> Accounts(L, p, L2, p2, off, n, tot, y.(bits := y.bits + bits))
    ensures addr != 0 ==>
              Accounts(L, p, L2 + {addr}, p2, off, n, tot + Chunk(lo, n - tot),
                       Tally(y.data + {addr}, y.bits + bits, y.turns + 1))
  {
    if addr != 0 {
      TurnEnds(off, n, tot, bn, lo, y.turns);
    }
  }

  lemma FirstTurn(L: set<nat>, p: nat, L': set<nat>, p': nat, off: nat, n: nat, tot: nat, y: Tally)
    requires Accounts(L, p, L', p', off, n, tot, y)
    ensures y.turns == 0 ==> tot == 0
  {
  }

  lemma TurnEnds(off: nat, n: nat, tot: nat, bn: nat, lo: nat, turns: nat)
    requires turns == 0 ==> tot == 0
    requires turns > 0 ==> off % 1024 + tot == 1024 * turns || (tot == n && turns <= Touched(off, n))
    requires tot < n && lo < 1024 && off + tot == 1024 * bn + lo
    ensures var m := Chunk(lo, n - tot);
            off % 1024 + tot + m == 1024 * (turns + 1) || (tot + m == n && turns + 1 <= Touched(off, n))
  {
    assert turns == 0 ==> lo == off % 1024;
    assert turns > 0 ==> lo == 0;
  }

  /** Before the inode is logged there is room for one block more. */
  lemma AccountsBound(L: set<nat>, p: nat, L': set<nat>, p': nat, off: nat, n: nat, tot: nat, y: Tally)
    requires Accounts(L, p, L', p', off, n, tot, y) && tot <= n
    ensures L' <= L + (y.data + AddrSet(p') + y.bits)
    ensures |y.data + AddrSet(p') + y.bits| < LogBound(off, n)
  {
    assert y.turns <= Touched(off, n);
  }

  ghost predicate Writing(s: Fs, s': Fs, i: nat, off: nat, data: seq<Byte>, tot: nat, y: Tally) {
    && tot <= |data| && WriteDone(s, s', i, off, data[..tot])
    && Accounts(s.logged, Ptr(s, i, 12), s'.logged, Ptr(s', i, 12), off, |data|, tot, y)
  }

  lemma DoneGrown(s: Fs, t: Fs, u: Fs, i: nat, off: nat, d: seq<Byte>)
    requires WriteDone(s, t, i, off, d) && Quiet(t, i) && Grown(t, u, i)
    ensures WriteDone(s, u, i, off, d)
  {
    WrittenGrown(s, t, u, i, off, d);
    forall bn: nat | bn < MAXFILE && 1024 * bn < off + |d| ensures Mapped(u, i, bn) {
      assert Mapped(t, i, bn) && Trusted(t, i, DataSlot(bn));
      assert Kept(t, u, i, i, DataSlot(bn));
    }
  }

  lemma DoneStore(s: Fs, t: Fs, i: nat, off: nat, d: seq<Byte>, bn: nat, lo: nat, e: seq<Byte>)
    requires WriteDone(s, t, i, off, d) && Inv(t) && Quiet(t, i)
    requires off + |d| == 1024 * bn + lo && lo + |e| <= 1024 && off + |d| + |e| <= MAXBYTES && lo < 1024
    requires bn < MAXFILE && Mapped(t, i, bn)
    ensures WriteDone(s, Stored(t, i, bn, lo, e), i, off, d + e)
  {
    WrittenStore(s, t, i, off, d, bn, lo, e);
    StoredSlots(t, i, bn, lo, e);
    var u := Stored(t, i, bn, lo, e);
    forall b: nat | b < MAXFILE && 1024 * b < off + |d + e| ensures Mapped(u, i, b) {
      assert SamePtr(t, u, i, DataSlot(b));
      assert 1024 * b < off + |d| || b == bn;
      assert Mapped(t, i, b);
    }
  }

  lemma IndirectKept(t: Fs, u: Fs, i: nat)
    requires Quiet(t, i) && Grown(t, u, i)
    ensures IsFile(u, i) && (Ptr(t, i, 12) != 0 ==> Ptr(u, i, 12) == Ptr(t, i, 12))
  {
    assert Trusted(t, i, 12) && Kept(t, u, i, i, 12);
  }

  /** A write that starts inside a block finds that block. */
  lemma FirstBlockMapped(s: Fs, t: Fs, i: nat, off: nat, d: seq<Byte>)
    requires WriteDone(s, t, i, off, d) && off % 1024 != 0
    ensures off / 1024 < MAXFILE && Mapped(t, i, off / 1024)
  {
    assert Mapped(s, i, off / 1024) && Trusted(s, i, DataSlot(off / 1024));
    assert PtrKept(s, t, i, i, DataSlot(off / 1024));
  }

  /** What bmap reports of the turn that starts with `t`, for block `bn`. */
  ghost predicate TurnMap(s: Fs, t: Fs, u: Fs, i: nat, off: nat, data: seq<Byte>, tot: nat,
                          bn: nat, lo: nat, y: Tally, addr: nat, bits: set<nat>)
  {
    && Writing(s, t, i, off, data, tot, y) && tot < |data| && off + |data| <= MAXBYTES
    && off + tot == 1024 * bn + lo && lo < 1024 && bn < MAXFILE
    && Quiet(t, i) && Quiet(u, i) && Inv(u) && Grown(t, u, i)
    && addr == Ptr(u, i, DataSlot(bn))
    && u.logged <= t.logged + AddrSet(addr) + AddrSet(Ptr(u, i, 12)) + bits
    && |bits| <= (if !Mapped(t, i, bn) && addr != 0 then 1 else 0) + Fresh(Ptr(t, i, 12), Ptr(u, i, 12))
  }

  lemma TurnAccounts(s: Fs, t: Fs, u: Fs, i: nat, off: nat, data: seq<Byte>, tot: nat,
                     bn: nat, lo: nat, y: Tally, addr: nat, bits: set<nat>)
    requires TurnMap(s, t, u, i, off, data, tot, bn, lo, y, addr, bits)
    ensures addr == 0 ==>
              Accounts(s.logged, Ptr(s, i, 12), u.logged, Ptr(u, i, 12), off, |data|, tot, y.(bits := y.bits + bits))
    ensures addr != 0 ==> Accounts(s.logged, Ptr(s, i, 12), u.logged + {addr}, Ptr(u, i, 12), off, |data|,
                                   tot + Chunk(lo, |data| - tot), Tally(y.data + {addr}, y.bits + bits, y.turns + 1))
  {
    hide Inv, Grown, Accounts, Chunk, Written;
    FirstTurn(s.logged, Ptr(s, i, 12), t.logged, Ptr(t, i, 12), off, |data|, tot, y);
    if y.turns == 0 && off % 1024 != 0 {
      FirstBlockMapped(s, t, i, off, data[..tot]);
      SameBlock(bn, lo, 0, off);
      assert off / 1024 == bn;
    }
    IndirectKept(t, u, i);
    AccountsTurn(s.logged, Ptr(s, i, 12), t.logged, Ptr(t, i, 12), u.logged, Ptr(u, i, 12), off, |data|, tot,
                 bn, lo, y, addr, bits, !Mapped(t, i, bn));
  }

  lemma TurnMapped(s: Fs, t: Fs, u: Fs, i: nat, off: nat, data: seq<Byte>, tot: nat,
                   bn: nat, lo: nat, y: Tally, addr: nat, bits: set<nat>)
    requires TurnMap(s, t, u, i, off, data, tot, bn, lo, y, addr, bits) && addr == 0
    ensures Writing(s, u, i, off, data, tot, y.(bits := y.bits + bits))
  {
    TurnAccounts(s, t, u, i, off, data, tot, bn, lo, y, addr, bits);
    DoneGrown(s, t, u, i, off, data[..tot]);
  }

  lemma TurnStored(s: Fs, t: Fs, u: Fs, i: nat, off: nat, data: seq<Byte>, tot: nat,
                   bn: nat, lo: nat, y: Tally, addr: nat, bits: set<nat>, m: nat)
    requires TurnMap(s, t, u, i, off, data, tot, bn, lo, y, addr, bits) && addr != 0
    requires m == Chunk(lo, |data| - tot)
    ensures Writing(s, Stored(u, i, bn, lo, data[tot..tot + m]), i, off, data, tot + m,
                    Tally(y.data + {addr}, y.bits + bits, y.turns + 1))
  {
    hide Inv, Grown, Accounts, Written, Chunk;
    TurnAccounts(s, t, u, i, off, data, tot, bn, lo, y, addr, bits);
    DoneGrown(s, t, u, i, off, data[..tot]);
    DoneStore(s, u, i, off, data[..tot], bn, lo, data[tot..tot + m]);
    StoredSlots(u, i, bn, lo, data[tot..tot + m]);
    assert SamePtr(u, Stored(u, i, bn, lo, data[tot..tot + m]), i, 12);
    assert data[..tot] + data[tot..tot + m] == data[..tot + m];
  }

  lemma WritingStart(s: Fs, i: nat, off: nat, data: seq<Byte>)
    requires FileOk(s, i) && Quiet(s, i) && off <= s.inodes[i].size
    ensures Writing(s, s, i, off, data, 0, Tally({}, {}, 0))
  {
    assert data[..0] == [];
    WrittenNone(s, i, off);
    forall bn: nat | bn < MAXFILE && 1024 * bn < off ensures Mapped(s, i, bn) {
      assert 1024 * bn < s.inodes[i].size;
    }
  }

  /** writei after its loop: the size grows if the file did, and the inode is logged. */
  ghost function WriteEnd(t: Fs, i: nat, end: nat): Fs
    requires i in t.inodes
  {
    var u := Sized(t, i, GrownSize(t.inodes[i].size, end));
    u.(logged := u.logged + {IBlock(u, i)})
  }

  lemma WriteEnds(s: Fs, t: Fs, i: nat, off: nat, data: seq<Byte>, tot: nat, y: Tally)
    requires Writing(s, t, i, off, data, tot, y) && Quiet(t, i) && Inv(t)
    ensures Inv(Sized(t, i, GrownSize(t.inodes[i].size, off + tot)))
    ensures var w := WriteEnd(t, i, off + tot);
            && Inv(w) && Quiet(w, i) && FileOk(w, i)
            && Contents(w, i) == Splice(Contents(s, i), off, data[..tot])
  {
    hide Inv, Written, FileOk, Contents;
    var u := Sized(t, i, GrownSize(t.inodes[i].size, off + tot));
    FinishMapped(s, t, i, off, data[..tot]);
    FinishContents(s, t, i, off, data[..tot]);
    ResizeInv(t, i, GrownSize(t.inodes[i].size, off + tot));
    SizedQuiet(t, i, GrownSize(t.inodes[i].size, off + tot));
    RelogInv(u, u.logged + {IBlock(u, i)});
    RelogFile(u, u.logged + {IBlock(u, i)}, i);
  }

  lemma SizedQuiet(t: Fs, i: nat, size: nat)
    requires Quiet(t, i)
    ensures Quiet(Sized(t, i, size), i)
  {
    forall l: nat | l < NSLOT ensures Trusted(Sized(t, i, size), i, l) { assert Trusted(t, i, l); }
  }

  lemma WriteEndsOthers(s: Fs, t: Fs, i: nat, off: nat, d: seq<Byte>, j: nat)
    requires Written(s, t, i, off, d) && i != j
    ensures SameFile(s, WriteEnd(t, i, off + |d|), j)
  {
    var u := Sized(t, i, GrownSize(t.inodes[i].size, off + |d|));
    OthersSame(s, t, i, off, d, GrownSize(t.inodes[i].size, off + |d|), j);
    hide Written, FileOk, Contents;
    if Quiet(s, j) && FileOk(s, j) {
      RelogFile(u, u.logged + {IBlock(u, i)}, j);
    }
  }

  lemma WriteSummary(s: Fs, t: Fs, i: nat, off: nat, data: seq<Byte>, tot: nat, y: Tally, w: Fs)
    returns (extra: set<nat>)
    requires Writing(s, t, i, off, data, tot, y) && Quiet(t, i) && Inv(t) && w == WriteEnd(t, i, off + tot)
    ensures Inv(Sized(t, i, GrownSize(t.inodes[i].size, off + tot)))
    ensures Inv(w) && Quiet(w, i) && FileOk(w, i)
    ensures Contents(w, i) == Splice(Contents(s, i), off, data[..tot])
    ensures forall j: nat {:trigger SameFile(s, w, j)} :: j != i ==> SameFile(s, w, j)
    ensures t.logged <= s.logged + extra && |extra| < LogBound(off, |data|)
  {
    hide Inv, Quiet, FileOk, Contents, SameFile, LogBound, Splice;
    WriteEnds(s, t, i, off, data, tot, y);
    forall j: nat | j != i ensures SameFile(s, w, j) {
      WriteEndsOthers(s, t, i, off, data[..tot], j);
    }
    extra := y.data + AddrSet(Ptr(t, i, 12)) + y.bits;
    AccountsBound(s.logged, Ptr(s, i, 12), t.logged, Ptr(t, i, 12), off, |data|, tot, y);
  }

  /** Three blocks of data, aligned or not, always fit a transaction. */
  lemma ThreeBlocksFit(off: nat, n: nat)
    requires n <= 3072
    ensures LogBound(off, n) <= MAXOPBLOCKS
  {
  }

  lemma OpStart(s: Fs, i: nat)
    requires Inv(s) && Quiet(s, i) && FileOk(s, i)
    ensures var t := s.(logged := {});
            && Inv(t) && Quiet(t, i) && FileOk(t, i) && Contents(t, i) == Contents(s, i)
            && (forall j: nat {:trigger SameFile(s, t, j)} :: SameFile(s, t, j))
            && (forall j: nat {:trigger SameFile(s, s, j)} :: SameFile(s, s, j))
  {
    var t := s.(logged := {});
    RelogInv(s, {});
    RelogFile(s, {}, i);
    forall j: nat ensures SameFile(s, t, j) {
      if IsFile(s, j) { RelogFile(s, {}, j); }
    }
  }

  lemma NothingWritten(s: Fs, i: nat, off: nat, data: seq<Byte>)
    requires Inv(s) && Quiet(s, i) && FileOk(s, i)
    ensures WrittenUpTo(s, s, i, off, data, 0) && i in s.inodes
  {
    OpStart(s, i);
    WrittenNothing(s, s, i, off);
    assert data[..0] == [];
  }

  lemma OpEnd(s: Fs, t: Fs, u: Fs, i: nat, off: nat, d: seq<Byte>, r: int, extra: set<nat>, log: seq<nat>)
    requires t == s.(logged := {}) && FileOk(s, i) && FileOk(t, i) && Contents(t, i) == Contents(s, i)
    requires FileOk(u, i) && |d| <= 3072
    requires forall j: nat {:trigger SameFile(s, t, j)} :: SameFile(s, t, j)
    requires forall j: nat {:trigger SameFile(t, u, j)} :: j != i ==> SameFile(t, u, j)
    requires r == -1 <==> off > s.inodes[i].size || off + |d| > MAXBYTES
    requires r == -1 ==> u == t
    requires r != -1 ==> 0 <= r <= |d| && Contents(u, i) == Splice(Contents(t, i), off, d[..r])
    requires r == -1 ==> log == []
    requires r != -1 ==>
               log != [] && LogSpace.Listed(log[..|log| - 1]) <= t.logged + extra && |extra| < LogBound(off, |d|)
    ensures FileWritten(s, u, i, off, d[..if r > 0 then r else 0])
    ensures LogSpace.Sparing(log) && |LogSpace.Listed(log)| <= MAXOPBLOCKS
  {
    ThreeBlocksFit(off, |d|);
    if r != -1 {
      Basics.SubsetSize(LogSpace.Listed(log[..|log| - 1]), extra);
      LogSpace.ListedStep(log[..|log| - 1], log[|log| - 1]);
      assert log[..|log| - 1] + [log[|log| - 1]] == log;
    }
    LastIsSparing(log);
    hide Contents, FileOk, SameFile;
    forall j: nat | j != i ensures SameFile(s, u, j) {
      assert SameFile(s, t, j) && SameFile(t, u, j);
      SameFileTrans(s, t, u, j);
    }
    assert d[..0] == [];
    if r == -1 {
      WrittenNothing(s, u, i, off);
    }
  }

  class FileSystem {
    const meta: nat
    const bmapstart: nat
    const inodestart: nat
    var used: seq<bool>
    var blocks: seq<Block>
    var inodes: map<nat, Inode>
    var dinodes: map<nat, Inode>
    ghost var g: Fs
    /** The log_write calls of the current transaction, in order. */
    ghost var log: seq<nat>

    ghost predicate Valid()
      reads this
    {
      && g.meta == meta && g.bmapstart == bmapstart && g.inodestart == inodestart
      && g.used == used && g.blocks == blocks && g.inodes == inodes
      && g.logged == LogSpace.Listed(log) && Inv(g)
    }

    /** A file system as mkfs lays it out: every file is empty. */
    constructor (meta: nat, bmapstart: nat, inodestart: nat, size: nat, ninodes: nat)
      requires 0 < meta <= size < 0x1_0000_0000
      ensures Valid() && Mkfs(g) && log == [] && dinodes == inodes
      ensures forall i: nat {:trigger FileOk(g, i)} :: i < ninodes ==>
                FileOk(g, i) && Quiet(g, i) && Contents(g, i) == []
    {
      this.meta, this.bmapstart, this.inodestart := meta, bmapstart, inodestart;
      used := seq(size, b => b < meta);
      blocks := seq(size, b => Zeros());
      var none := NoFiles(ninodes);
      inodes, dinodes, log := none, none, [];
      g := Fs(meta, bmapstart, inodestart, seq(size, b => b < meta), seq(size, b => Zeros()), none, map[], {}, {});
      new;
      MkfsInv(g);
      forall i: nat | i < ninodes ensures FileOk(g, i) && Quiet(g, i) && Contents(g, i) == [] { EmptyFile(g, i); }
    }

    /** The first free block is marked in use and zeroed; 0 only if there is none. */
    method Balloc(ghost i: nat) returns (b: nat)
      requires Valid()
      modifies `used, `blocks, `g, `log
      ensures Valid()
      ensures b == 0 ==> g == old(g) && log == old(log) && Full(used)
      ensures b != 0 ==>
                && meta <= b < |old(used)| && !old(used)[b] && (forall c :: 0 <= c < b ==> old(used)[c])
                && g == Take(old(g), i, b) && log == old(log) + [b / 8192 + bmapstart, b]
                && used == old(used)[b := true] && blocks == old(blocks)[b := Zeros()]
    {
      assert UsedOk(g, 0);
      var base := 0;
      while base < |used|
        invariant Valid() && g == old(g) && log == old(log)
        invariant forall c :: 0 <= c < base && c < |used| ==> used[c]
      {
        var bi := 0;
        while bi < 8192 && base + bi < |used|
          invariant Valid() && g == old(g) && log == old(log) && bi <= 8192
          invariant forall c :: 0 <= c < base + bi && c < |used| ==> used[c]
        {
          if !used[base + bi] {
            b := base + bi;
            TakeInv(g, i, b);
            used := used[b := true];
            blocks := blocks[b := Zeros()];
            log := log + [BBlock(g, b), b];
            g := Take(g, i, b);
            return;
          }
          bi := bi + 1;
        }
        base := base + 8192;
      }
      b := 0;
    }

    /** The block is given back. The branch in which its bit is clear is never taken. */
    method Bfree(b: nat, ghost i: nat, ghost k: nat)
      requires Valid() && CanRelease(g, i, k) && b == Ptr(g, i, k)
      modifies `used, `g, `log
      ensures Valid() && b < |old(used)| && g == Release(old(g), i, k) && log == old(log) + [b / 8192 + bmapstart]
      ensures used == old(used)[b := false]
      ensures ChangesLogged(old(g), g)
    {
      ReleaseInv(g, i, k);
      ReleaseLogs(g, i, k);
      if !used[b] {
        assert false;
      }
      used := used[b := false];
      log := log + [BBlock(g, b)];
      g := Release(g, i, k);
    }

    /** A block is allocated and entered as the k-th of inode `i`, in the inode or in
        its indirect block. */
    method AddBlock(i: nat, k: nat) returns (addr: nat)
      requires Valid() && Quiet(g, i) && k < NSLOT && Ptr(g, i, k) == 0 && (k > 12 ==> Ptr(g, i, 12) != 0)
      modifies `used, `blocks, `inodes, `g, `log
      ensures Valid() && Quiet(g, i) && Grown(old(g), g, i) && ChangesLogged(old(g), g)
      ensures addr == Ptr(g, i, k)
      ensures forall l: nat {:trigger SamePtr(old(g), g, i, l)} :: l != k ==> SamePtr(old(g), g, i, l)
      ensures addr == 0 ==> g == old(g) && Full(used)
      ensures g.logged <= old(g).logged + {addr, BBlock(g, addr)} + if k > 12 then {Ptr(g, i, 12)} else {}
    {
      addr := Balloc(i);
      if addr == 0 {
        GrownSelf(g, i);
        return;
      }
      TakeThenLink(old(g), i, k, addr);
      AddedKeeps(old(g), i, k, addr);
      AddedInv(old(g), i, k, addr);
      AddedLogs(old(g), i, k, addr);
      if k <= 12 {
        inodes := inodes[i := inodes[i].(addrs := inodes[i].addrs[k := addr])];
      } else {
        var x := inodes[i].addrs[12];
        blocks := blocks[x := SetWord(blocks[x], k - 13, addr)];
        LogSpace.ListedStep(log, x);
        log := log + [x];
      }
      g := Link(g, i, k, addr);
      assert k > 12 ==> SamePtr(old(g), g, i, 12);
    }

    /** The address of block `bn` of the file, allocated if it was missing. Contents of
        files do not change; `bits` are the bitmap blocks that were logged. */
    method Bmap(i: nat, bn: nat) returns (addr: nat, ghost bits: set<nat>)
      requires Valid() && Quiet(g, i) && bn < MAXFILE
      modifies `used, `blocks, `inodes, `g, `log
      ensures Valid() && Quiet(g, i) && Grown(old(g), g, i) && ChangesLogged(old(g), g)
      ensures addr == Ptr(g, i, DataSlot(bn))
      ensures Mapped(old(g), i, bn) ==> g == old(g) && bits == {}
      ensures addr == 0 ==> Full(used)
      ensures g.logged <= old(g).logged + AddrSet(addr) + AddrSet(Ptr(g, i, 12)) + bits
      ensures |bits| <=
              (if !Mapped(old(g), i, bn) && addr != 0 then 1 else 0) + Fresh(Ptr(old(g), i, 12), Ptr(g, i, 12))
    {
      hide Inv, Grown, Quiet;
      if bn < 12 {
        bits := {};
        GrownSelf(g, i);
        addr := inodes[i].addrs[bn];
        if addr == 0 {
          addr := AddBlock(i, bn);
          bits := if addr == 0 then {} else {BBlock(g, addr)};
          assert SamePtr(old(g), g, i, 12);
        }
      } else {
        var x;
        x, bits := LoadIndirect(i);
        assert SamePtr(old(g), g, i, DataSlot(bn));
        if x == 0 {
          addr := 0;
          return;
        }
        ghost var t := g;
        addr, bits := Entry(i, bn, x, bits);
        GrownTrans(old(g), t, g, i);
        ChangesJoin(old(g), t, g);
      }
    }

    method LoadIndirect(i: nat) returns (x: nat, ghost bits: set<nat>)
      requires Valid() && Quiet(g, i)
      modifies `used, `blocks, `inodes, `g, `log
      ensures Valid() && Quiet(g, i) && Grown(old(g), g, i) && ChangesLogged(old(g), g)
      ensures x == Ptr(g, i, 12)
      ensures Ptr(old(g), i, 12) != 0 || x == 0 ==> g == old(g) && bits == {}
      ensures forall l: nat {:trigger SamePtr(old(g), g, i, l)} :: l != 12 ==> SamePtr(old(g), g, i, l)
      ensures x == 0 ==> Full(used)
      ensures g.logged <= old(g).logged + AddrSet(Ptr(g, i, 12)) + bits
      ensures |bits| <= Fresh(Ptr(old(g), i, 12), Ptr(g, i, 12))
    {
      hide Inv, Grown, Quiet;
      bits := {};
      GrownSelf(g, i);
      x := inodes[i].addrs[12];
      if x == 0 {
        x := AddBlock(i, 12);
        bits := if x == 0 then {} else {BBlock(g, x)};
      }
    }

    /** The rest of bmap once the indirect block `x` is there. */
    method Entry(i: nat, bn: nat, x: nat, ghost bits: set<nat>) returns (addr: nat, ghost bits': set<nat>)
      requires Valid() && Quiet(g, i) && 12 <= bn < MAXFILE && x == Ptr(g, i, 12) != 0
      modifies `used, `blocks, `inodes, `g, `log
      ensures Valid() && Quiet(g, i) && Grown(old(g), g, i) && ChangesLogged(old(g), g)
      ensures addr == Ptr(g, i, DataSlot(bn)) && Ptr(g, i, 12) == x
      ensures Mapped(old(g), i, bn) ==> g == old(g) && bits' == bits
      ensures addr == 0 ==> Full(used)
      ensures g.logged <= old(g).logged + AddrSet(addr) + {x} + bits' && bits <= bits'
      ensures |bits'| <= |bits| + if !Mapped(old(g), i, bn) && addr != 0 then 1 else 0
    {
      hide Inv, Grown;
      bits' := bits;
      GrownSelf(g, i);
      IndirectInRange(g, i);
      addr := Word(blocks[x], bn - 12);
      if addr == 0 {
        addr := AddBlock(i, bn + 1);
        assert SamePtr(old(g), g, i, 12);
        if addr != 0 {
          bits' := bits + {BBlock(g, addr)};
        }
      }
    }

    /** The inode is copied to its disk block. */
    method Iupdate(i: nat)
      requires Valid() && i in inodes
      modifies `dinodes, `g, `log
      ensures Valid() && dinodes == old(dinodes)[i := inodes[i]] && log == old(log) + [i / 16 + inodestart]
      ensures g == old(g).(logged := old(g).logged + {IBlock(old(g), i)})
    {
      RelogInv(g, g.logged + {IBlock(g, i)});
      LogSpace.ListedStep(log, IBlock(g, i));
      log := log + [IBlock(g, i)];
      dinodes := dinodes[i := inodes[i]];
      g := g.(logged := g.logged + {IBlock(g, i)});
    }

    /** One turn of writei's loop: `m` bytes more, or none when the disk is full. */
    method WriteBlock(i: nat, off: nat, data: seq<Byte>, tot: nat, ghost s: Fs, ghost y: Tally)
      returns (m: nat, ghost y': Tally)
      requires Valid() && Quiet(g, i) && tot < |data| && off + |data| <= MAXBYTES
      requires Writing(s, g, i, off, data, tot, y)
      modifies `used, `blocks, `inodes, `g, `log
      ensures Valid() && Quiet(g, i) && ChangesLogged(old(g), g)
      ensures tot + m <= |data| && Writing(s, g, i, off, data, tot + m, y')
      ensures m == 0 ==> Full(used)
    {
      hide Inv, Grown, Quiet, Writing, Patch, Chunk, Locate, Stored, ChangesLogged, LogSpace.Listed;
      var (bn, lo) := Locate(off + tot);
      ghost var t := g;
      var addr;
      ghost var bits;
      addr, bits := Bmap(i, bn);
      if addr == 0 {
        TurnMapped(s, t, g, i, off, data, tot, bn, lo, y, addr, bits);
        return 0, y.(bits := y.bits + bits);
      }
      m := Chunk(lo, |data| - tot);
      ghost var u := g;
      TurnStored(s, t, u, i, off, data, tot, bn, lo, y, addr, bits, m);
      y' := Tally(y.data + {addr}, y.bits + bits, y.turns + 1);
      PutBytes(i, bn, lo, data[tot..tot + m], addr);
      ChangesJoin(t, u, g);
    }

    /** `e` is copied into block `bn` at byte `lo`, and the block is logged. */
    method PutBytes(i: nat, bn: nat, lo: nat, e: seq<Byte>, addr: nat)
      requires Valid() && Quiet(g, i) && bn < MAXFILE && Mapped(g, i, bn)
      requires addr == Ptr(g, i, DataSlot(bn)) && lo + |e| <= 1024
      modifies `blocks, `g, `log
      ensures Valid() && Quiet(g, i) && g == Stored(old(g), i, bn, lo, e) && ChangesLogged(old(g), g)
    {
      hide Inv, Quiet, Patch, Stored, ChangesLogged, LogSpace.Listed;
      StoredSlots(g, i, bn, lo, e);
      StoredLogs(g, i, bn, lo, e);
      LogSpace.ListedStep(log, addr);
      log := log + [addr];
      g := Stored(g, i, bn, lo, e);
      blocks := blocks[addr := Patch(blocks[addr], lo, e)];
    }

    /** Writes the data into the file at `off`, extending it if need be; `extra` are the
        blocks logged before the inode's. Fewer bytes are written only when the disk is
        full. Every block that changed has been logged. */
    method Writei(i: nat, off: nat, data: seq<Byte>) returns (r: int, ghost extra: set<nat>)
      requires Valid() && Quiet(g, i) && FileOk(g, i) && off < 0x1_0000_0000 && |data| < 0x1_0000_0000
      modifies `used, `blocks, `inodes, `dinodes, `g, `log
      ensures Valid() && Quiet(g, i) && FileOk(g, i)
      ensures r == -1 <==> off > old(inodes)[i].size || off + |data| > MAXBYTES
      ensures r == -1 ==> g == old(g) && dinodes == old(dinodes) && log == old(log)
      ensures r != -1 ==>
                && 0 <= r <= |data| && dinodes == old(dinodes)[i := inodes[i]]
                && Contents(g, i) == Splice(Contents(old(g), i), off, data[..r])
      ensures 0 <= r < |data| ==> Full(used)
      ensures forall j: nat {:trigger SameFile(old(g), g, j)} :: j != i ==> SameFile(old(g), g, j)
      ensures ChangesLogged(old(g), g)
      ensures r != -1 ==>
                && log != [] && log[|log| - 1] == IBlock(g, i)
                && LogSpace.Listed(log[..|log| - 1]) <= old(g).logged + extra && |extra| < LogBound(off, |data|)
    {
      hide Inv, Grown, Quiet, FileOk, Contents, Writing, Splice, LogBound, SameFile, ChangesLogged, Wraps;
      NothingChanged(g);
      ContentsSize(g, i);
      if off > inodes[i].size || Wraps(off, |data|) || off + |data| > MAXBYTES {
        NothingSame(g);
        return -1, {};
      }
      var tot;
      ghost var y;
      tot, y := WriteBlocks(i, off, data);
      ghost var t := g;
      QuietIsFile(t, i);
      extra := WriteInode(i, off, data, tot, old(g), y);
      ChangesJoin(old(g), t, g);
      r := tot;
    }

    /** The loop of writei. */
    method WriteBlocks(i: nat, off: nat, data: seq<Byte>) returns (tot: nat, ghost y: Tally)
      requires Valid() && Quiet(g, i) && FileOk(g, i) && off <= inodes[i].size && off + |data| <= MAXBYTES
      modifies `used, `blocks, `inodes, `g, `log
      ensures ChangesLogged(old(g), g)
      ensures Valid() && Quiet(g, i) && tot <= |data| && Writing(old(g), g, i, off, data, tot, y)
      ensures tot < |data| ==> Full(used)
    {
      hide Inv, Quiet, Writing;
      tot, y := 0, Tally({}, {}, 0);
      WritingStart(g, i, off, data);
      NothingChanged(g);
      while tot < |data|
        invariant Valid() && Quiet(g, i) && tot <= |data| && Writing(old(g), g, i, off, data, tot, y)
        invariant ChangesLogged(old(g), g)
      {
        var m;
        ghost var t := g;
        m, y := WriteBlock(i, off, data, tot, old(g), y);
        ChangesJoin(old(g), t, g);
        if m == 0 {
          break;
        }
        tot := tot + m;
      }
    }

    /** What writei does after its loop. */
    method WriteInode(i: nat, off: nat, data: seq<Byte>, tot: nat, ghost s: Fs, ghost y: Tally)
      returns (ghost extra: set<nat>)
      requires Valid() && i in inodes && Quiet(g, i) && Writing(s, g, i, off, data, tot, y)
      modifies `inodes, `dinodes, `g, `log
      ensures Valid() && Quiet(g, i) && FileOk(g, i)
      ensures dinodes == old(dinodes)[i := inodes[i]]
      ensures Contents(g, i) == Splice(Contents(s, i), off, data[..tot])
      ensures forall j: nat {:trigger SameFile(s, g, j)} :: j != i ==> SameFile(s, g, j)
      ensures ChangesLogged(old(g), g) && log == old(log) + [IBlock(g, i)]
      ensures LogSpace.Listed(old(log)) <= s.logged + extra && |extra| < LogBound(off, |data|)
    {
      hide Inv, Quiet, FileOk, Contents, Writing, Splice, LogBound, SameFile, AddrSet;
      ghost var t := g;
      extra := WriteSummary(s, t, i, off, data, tot, y, WriteEnd(t, i, off + tot));
      if off + tot > inodes[i].size {
        inodes := inodes[i := inodes[i].(size := off + tot)];
      }
      g := Sized(t, i, GrownSize(t.inodes[i].size, off + tot));
      Iupdate(i);
      SameBlocks(t, g);
    }

    /** All the inode's blocks are freed, each exactly once; the file is empty, and no
        other file has changed. */
    method Itrunc(i: nat)
      requires Valid() && Quiet(g, i)
      modifies `used, `inodes, `dinodes, `g, `log
      ensures Valid() && Quiet(g, i) && inodes[i].size == 0 && dinodes == old(dinodes)[i := inodes[i]]
      ensures Emptied(old(g), g, i) && ChangesLogged(old(g), g) && IBlock(g, i) in g.logged
    {
      hide Inv, Quiet, Trimming, Trimmed, Emptied, AllGone, NoBlocks, ChangesLogged;
      ghost var gone := TrimDirects(i);
      ghost var t := g;
      if inodes[i].addrs[12] != 0 {
        gone := TrimIndirects(i, old(g), gone);
        ChangesJoin(old(g), t, g);
      } else {
        gone := TrimNoIndirect(old(g), g, i, gone);
      }
      t := g;
      TrimEmptied(old(g), t, i, gone);
      EmptiedEnd(old(g), t, i);
      inodes := inodes[i := inodes[i].(size := 0)];
      g := Sized(g, i, 0);
      Iupdate(i);
      SameBlocks(t, g);
      ChangesJoin(old(g), t, g);
    }

    /** The indirect block's entries are freed, then the block itself. */
    method TrimIndirects(i: nat, ghost s: Fs, ghost gone0: set<nat>) returns (ghost gone: set<nat>)
      requires Valid() && IsFile(g, i) && IsFile(s, i) && Trimming(s, g, i, 12, gone0) && Ptr(g, i, 12) != 0
      modifies `used, `inodes, `g, `log
      ensures Valid() && IsFile(g, i) && ChangesLogged(old(g), g)
      ensures inodes.Keys == old(inodes).Keys && Trimmed(s, g, i, gone) && AllGone(gone) && NoBlocks(g, i)
    {
      hide Inv, Trimming, Trimmed, AllGone, NoBlocks, ChangesLogged;
      var x := inodes[i].addrs[12];
      gone := TrimEntries(i, x, s, gone0);
      ghost var t := g;
      TrimIndirect(s, g, i, gone);
      Bfree(x, i, 12);
      ChangesJoin(old(g), t, g);
      t := g;
      inodes := inodes[i := inodes[i].(addrs := inodes[i].addrs[12 := 0])];
      g := Clear(g, i, 12);
      SameBlocks(t, g);
      ChangesJoin(old(g), t, g);
      gone := gone + {12};
    }

    method TrimDirects(i: nat) returns (ghost gone: set<nat>)
      requires Valid() && Quiet(g, i)
      modifies `used, `inodes, `g, `log
      ensures Valid() && IsFile(g, i) && IsFile(old(g), i) && Trimming(old(g), g, i, 12, gone)
      ensures ChangesLogged(old(g), g)
    {
      hide Inv, Quiet, Trimming, Trimmed, ChangesLogged;
      gone := {};
      TrimStart(g, i);
      NothingChanged(g);
      for k := 0 to 12
        invariant Valid() && IsFile(g, i) && Trimming(old(g), g, i, k, gone) && ChangesLogged(old(g), g)
      {
        var b := inodes[i].addrs[k];
        if b != 0 {
          ghost var t := g;
          TrimDirect(old(g), g, i, k, gone);
          Bfree(b, i, k);
          ChangesJoin(old(g), t, g);
          t := g;
          inodes := inodes[i := inodes[i].(addrs := inodes[i].addrs[k := 0])];
          g := Clear(g, i, k);
          SameBlocks(t, g);
          ChangesJoin(old(g), t, g);
        } else {
          TrimSkip(old(g), g, i, k, gone);
        }
        gone := gone + {k};
      }
    }

    method TrimEntries(i: nat, x: nat, ghost s: Fs, ghost gone0: set<nat>) returns (ghost gone: set<nat>)
      requires Valid() && IsFile(g, i) && Trimming(s, g, i, 12, gone0) && x == Ptr(g, i, 12) != 0
      modifies `used, `g, `log
      ensures Valid() && Trimming(s, g, i, NSLOT, gone) && ChangesLogged(old(g), g)
    {
      hide Inv, Quiet, Trimming, Trimmed, ChangesLogged;
      gone := gone0;
      TrimPastIndirect(s, g, i, gone);
      NothingChanged(g);
      for j := 0 to 256
        invariant ChangesLogged(old(g), g)
        invariant Valid() && blocks == old(blocks) && inodes == old(inodes) && Trimming(s, g, i, 13 + j, gone)
      {
        var b := Word(blocks[x], j);
        if b != 0 {
          ghost var t := g;
          TrimEntry(s, g, i, 13 + j, gone);
          Bfree(b, i, 13 + j);
          ChangesJoin(old(g), t, g);
        } else {
          TrimSkip(s, g, i, 13 + j, gone);
        }
        gone := gone + {13 + j};
      }
    }

    /** One transaction of filewrite: begin_op, writei, end_op. Its log_write calls `w`
        stay within the allowance of a call, and cover every block that changed. */
    method WriteOp(i: nat, off: nat, d: seq<Byte>) returns (r: int, ghost w: seq<nat>)
      requires Valid() && Quiet(g, i) && FileOk(g, i) && off < 0x1_0000_0000 && |d| <= 3072
      modifies `used, `blocks, `inodes, `dinodes, `g, `log
      ensures Valid() && Quiet(g, i) && FileOk(g, i)
      ensures r == -1 <==> off > old(inodes)[i].size || off + |d| > MAXBYTES
      ensures -1 <= r <= |d| && FileWritten(old(g), g, i, off, d[..if r > 0 then r else 0])
      ensures 0 <= r < |d| ==> Full(used)
      ensures LogSpace.Sparing(w) && |LogSpace.Listed(w)| <= MAXOPBLOCKS
      ensures ChangesLogged(old(g).(logged := {}), g) && g.logged == LogSpace.Listed(w)
      ensures r != -1 ==> IBlock(g, i) in LogSpace.Listed(w)
    {
      hide Inv, Quiet, FileOk, SameFile, Contents, LogBound, Splice;
      OpStart(g, i);
      ghost var t := g.(logged := {});
      g, log := t, [];
      ghost var extra;
      r, extra := Writei(i, off, d);
      w := log;
      OpEnd(old(g), t, g, i, off, d, r, extra, w);
    }

    /** A further transaction of a write, of which `k` bytes are done. */
    method WriteNext(i: nat, off0: nat, data: seq<Byte>, k: nat, n1: nat, ghost s: Fs)
      returns (r: int, ghost w: seq<nat>)
      requires off0 + k < 0x1_0000_0000 && n1 <= 3072 && k + n1 <= |data|
      requires Valid() && Quiet(g, i) && WrittenUpTo(s, g, i, off0, data, k)
      modifies `used, `blocks, `inodes, `dinodes, `g, `log
      ensures Valid() && Quiet(g, i) && -1 <= r <= n1
      ensures WrittenUpTo(s, g, i, off0, data, k + if r > 0 then r else 0)
      ensures 0 <= r ==> off0 + k + n1 <= MAXBYTES
      ensures 0 <= r < n1 ==> Full(used)
      ensures r == -1 ==> off0 > s.inodes[i].size || off0 + k + n1 > MAXBYTES
      ensures LogSpace.Sparing(w) && |LogSpace.Listed(w)| <= MAXOPBLOCKS
    {
      hide Inv, Quiet, FileOk, Contents, SameFile, Splice, Full;
      ghost var t := g;
      r, w := WriteOp(i, off0 + k, data[k..k + n1]);
      FileWrittenNext(s, t, g, i, off0, data, k, n1, if r > 0 then r else 0);
    }

    /** Writes `n` bytes at `off0`, in transactions of at most 3072 bytes; `ops` are the
        blocks each of them logged. */
    method Filewrite(i: nat, off0: nat, data: seq<Byte>, n: int) returns (ret: int, off: nat, ghost ops: seq<seq<nat>>)
      requires Valid() && Quiet(g, i) && FileOk(g, i) && off0 < 0x1_0000_0000 && n <= |data| && n < 0x8000_0000
      modifies `used, `blocks, `inodes, `dinodes, `g, `log
      ensures Valid() && Quiet(g, i)
      ensures off0 <= off && off - off0 <= |data| && ret == if off - off0 == n then n else -1
      ensures WrittenUpTo(old(g), g, i, off0, data, off - off0)
      ensures ret == -1 && n >= 0 ==> WriteFails(old(g), i, off0, off, n, used)
      ensures AllFit(ops)
    {
      hide Inv, Quiet, FileOk, WrittenUpTo, AllFit, Full;
      NothingWritten(g, i, off0, data);
      ops := [];
      off := off0;
      AllFitNone();
      var k := 0;
      while k < n
        invariant Valid() && Quiet(g, i)
        invariant 0 <= k && (n >= 0 ==> k <= n) && off == off0 + k && off < 0x1_0000_0000
        invariant k <= |data| && WrittenUpTo(old(g), g, i, off0, data, k)
        invariant AllFit(ops)
      {
        var n1 := if n - k > 3072 then 3072 else n - k;
        var r;
        ghost var w;
        r, w := WriteNext(i, off0, data, k, n1, old(g));
        AllFitAppend(ops, w);
        ops := ops + [w];
        if r > 0 {
          off := off + r;
        }
        if r != n1 {
          break;
        }
        k := k + r;
      }
      ret := if k == n then n else -1;
    }

    /** The bytes of the file from `off` on, as many as it has. Nothing changes: bmap
        finds every block. */
    method Readi(i: nat, off: nat, n: nat) returns (dst: seq<Byte>)
      requires Valid() && Quiet(g, i) && FileOk(g, i) && off < 0x1_0000_0000 && n < 0x1_0000_0000
      modifies `used, `blocks, `inodes, `g, `log
      ensures Valid() && g == old(g)
      ensures dst ==
              if off > inodes[i].size || off + n >= 0x1_0000_0000 then []
              else Contents(g, i)[off..if off + n > inodes[i].size then inodes[i].size else off + n]
    {
      hide Inv, Quiet, FileOk, Contents, Wraps;
      ContentsSize(g, i);
      if off > inodes[i].size || Wraps(off, n) {
        return [];
      }
      var k := if off + n > inodes[i].size then inodes[i].size - off else n;
      dst := ReadBlocks(i, off, k);
    }

    /** The loop of readi. */
    method ReadBlocks(i: nat, off: nat, k: nat) returns (dst: seq<Byte>)
      requires Valid() && Quiet(g, i) && FileOk(g, i) && off + k <= inodes[i].size
      modifies `used, `blocks, `inodes, `g, `log
      ensures Valid() && g == old(g)
      ensures |Contents(g, i)| == g.inodes[i].size && dst == Contents(g, i)[off..off + k]
    {
      hide Inv, Quiet, FileOk, Contents;
      ContentsSize(g, i);
      ghost var c := Contents(g, i);
      var tot := 0;
      dst := [];
      while tot < k
        invariant Valid() && g == old(g) && tot <= k
        invariant dst == c[off..off + tot]
      {
        var e := ReadBlock(i, off + tot, k - tot);
        SliceConcat(c, off, off + tot, off + tot + |e|);
        dst, tot := dst + e, tot + |e|;
      }
    }

    /** One turn of readi's loop. Bmap never fails here, so the loop is never left early. */
    method ReadBlock(i: nat, o: nat, left: nat) returns (e: seq<Byte>)
      requires Valid() && Quiet(g, i) && FileOk(g, i) && o + left <= inodes[i].size && 0 < left
      modifies `used, `blocks, `inodes, `g, `log
      ensures Valid() && g == old(g)
      ensures 0 < |e| <= left && o + |e| <= |Contents(g, i)| && e == Contents(g, i)[o..o + |e|]
    {
      hide Inv, Grown, Quiet, FileOk, Contents, Chunk, Locate;
      var (bn, lo) := Locate(o);
      var m := Chunk(lo, left);
      ReadTurn(g, i, bn, lo, m);
      var addr, bits := Bmap(i, bn);
      if addr == 0 {
        assert false;
      }
      e := blocks[addr][lo..lo + m];
    }
  }

  lemma QuietIsFile(s: Fs, i: nat)
    requires Quiet(s, i)
    ensures IsFile(s, i)
  {
  }

  lemma NothingSame(s: Fs)
    ensures forall j: nat {:trigger SameFile(s, s, j)} :: SameFile(s, s, j)
  {
  }

  function NoFiles(n: nat): (m: map<nat, Inode>)
    ensures forall i: nat {:trigger i in m} :: i in m <==> i < n
    ensures forall i {:trigger m[i]} :: i in m ==> m[i] == NoFile()
  {
    if n == 0 then map[] else NoFiles(n - 1)[n - 1 := NoFile()]
  }

  lemma EmptyFile(s: Fs, i: nat)
    requires Mkfs(s) && i in s.inodes
    ensures FileOk(s, i) && Quiet(s, i) && Contents(s, i) == []
  {
    forall k: nat | k < NSLOT ensures Trusted(s, i, k) { }
  }

  lemma AddedLogs(s: Fs, i: nat, k: nat, b: nat)
    requires Inv(s) && Quiet(s, i) && CanAdd(s, i, k, b)
    ensures ChangesLogged(s, Added(s, i, k, b))
  {
    TakeThenLink(s, i, k, b);
    var u := Added(s, i, k, b);
    forall c: nat ensures BlockLogged(s, u, c) { }
  }

  lemma ReleaseLogs(s: Fs, i: nat, k: nat)
    requires i in s.inodes && |s.inodes[i].addrs| == 13 && k < NSLOT && Ptr(s, i, k) < |s.used|
    ensures ChangesLogged(s, Release(s, i, k))
  {
    var u := Release(s, i, k);
    forall c: nat ensures BlockLogged(s, u, c) { }
  }

  lemma StoredLogs(t: Fs, i: nat, bn: nat, lo: nat, e: seq<Byte>)
    requires Inv(t) && Quiet(t, i) && bn < MAXFILE && Mapped(t, i, bn) && lo + |e| <= 1024
    ensures ChangesLogged(t, Stored(t, i, bn, lo, e))
  {
    MappedInRange(t, i, bn);
    var u := Stored(t, i, bn, lo, e);
    forall c: nat ensures BlockLogged(t, u, c) { }
  }

  lemma SameBlocks(s: Fs, s': Fs)
    requires s'.blocks == s.blocks && s'.used == s.used && s'.bmapstart == s.bmapstart && s.logged <= s'.logged
    ensures ChangesLogged(s, s')
  {
    forall c: nat ensures BlockLogged(s, s', c) { }
  }

  lemma TrimPastIndirect(s: Fs, t: Fs, i: nat, gone: set<nat>)
    requires Trimming(s, t, i, 12, gone) && Ptr(t, i, 12) != 0
    ensures Trimming(s, t, i, 13, gone) && Ptr(t, i, 12) < |t.blocks|
  {
    assert Trusted(t, i, 12) && PtrOk(t, i, 12);
    assert OwnOk(t, Ptr(t, i, 12));
    forall l: nat | l < 13 && l != 12 ensures Dead(t, i, l) { assert l < 12; assert Dead(t, i, l); }
  }

  lemma EmptiedEnd(s: Fs, t: Fs, i: nat)
    requires Emptied(s, t, i) && i in s.inodes
    ensures Inv(Sized(t, i, 0))
    ensures var w := Sized(t, i, 0).(logged := t.logged + {IBlock(t, i)}); Emptied(s, w, i) && Quiet(w, i)
  {
    var u := Sized(t, i, 0);
    var w := u.(logged := t.logged + {IBlock(t, i)});
    ResizeInv(t, i, 0);
    RelogInv(u, w.logged);
    SizedQuiet(t, i, 0);
    RelogFile(u, w.logged, i);
    forall l: nat | l < NSLOT ensures Ptr(w, i, l) == 0 { assert Ptr(t, i, l) == 0; }
    forall b: nat ensures Freed(s, w, i, b) { assert Freed(s, t, i, b); }
    forall j: nat | j != i ensures SameFile(s, w, j) {
      assert SameFile(s, t, j);
      SizedSame(t, i, 0, w.logged, j);
      SameFileTrans(s, t, w, j);
    }
  }

  lemma SizedSame(t: Fs, i: nat, size: nat, logged: set<nat>, j: nat)
    requires i in t.inodes && i != j
    ensures SameFile(t, Sized(t, i, size).(logged := logged), j)
  {
    var w := Sized(t, i, size).(logged := logged);
    if Quiet(t, j) && FileOk(t, j) {
      forall l: nat | l < NSLOT
        ensures Trusted(w, j, l) && Ptr(w, j, l) == Ptr(t, j, l) && SlotBlock(w, j, l) == SlotBlock(t, j, l)
      {
        assert Trusted(t, j, l);
      }
      forall bn: nat | bn < MAXFILE && 1024 * bn < w.inodes[j].size ensures Mapped(w, j, bn) {
        assert Mapped(t, j, bn);
      }
      assert Contents(w, j) == Contents(t, j);
    }
  }

  lemma GrownSelf(s: Fs, i: nat)
    requires Quiet(s, i)
    ensures Grown(s, s, i) && IsFile(s, i)
  {
  }

  lemma IndirectInRange(s: Fs, i: nat)
    requires Inv(s) && Quiet(s, i) && Ptr(s, i, 12) != 0
    ensures Ptr(s, i, 12) < |s.blocks|
  {
    assert Trusted(s, i, 12) && PtrOk(s, i, 12);
    assert OwnOk(s, Ptr(s, i, 12));
  }

  lemma SliceConcat(c: seq<Byte>, x: nat, y: nat, z: nat)
    requires x <= y <= z <= |c|
    ensures c[x..y] + c[y..z] == c[x..z]
  {
  }

  lemma ReadTurn(s: Fs, i: nat, bn: nat, lo: nat, m: nat)
    requires Inv(s) && Quiet(s, i) && FileOk(s, i) && 1024 * bn + lo + m <= s.inodes[i].size && lo + m <= 1024 && 0 < m
    ensures bn < MAXFILE && Mapped(s, i, bn)
    ensures |Contents(s, i)| == s.inodes[i].size
    ensures 0 < Ptr(s, i, DataSlot(bn)) < |s.blocks|
    ensures s.blocks[Ptr(s, i, DataSlot(bn))][lo..lo + m] == Contents(s, i)[1024 * bn + lo..1024 * bn + lo + m]
  {
    assert Mapped(s, i, bn);
    MappedInRange(s, i, bn);
    BlockOfFile(s, i, bn, lo, m);
  }

  /** Bytes of one block are a slice of the file. */
  lemma BlockOfFile(s: Fs, i: nat, bn: nat, lo: nat, m: nat)
    requires FileOk(s, i) && 1024 * bn + lo + m <= s.inodes[i].size && lo + m <= 1024 && 0 < m
    requires 0 < Ptr(s, i, DataSlot(bn)) < |s.blocks|
    ensures s.blocks[Ptr(s, i, DataSlot(bn))][lo..lo + m] == Contents(s, i)[1024 * bn + lo..1024 * bn + lo + m]
  {
    var b := s.blocks[Ptr(s, i, DataSlot(bn))][lo..lo + m];
    var c := Contents(s, i)[1024 * bn + lo..1024 * bn + lo + m];
    forall x: nat | x < |c| ensures c[x] == b[x] {
      SameBlock(bn, lo, m, 1024 * bn + lo + x);
      assert Contents(s, i)[1024 * bn + lo + x] == FileByte(s, i, 1024 * bn + lo + x);
    }
  }
}
