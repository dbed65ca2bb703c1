/** Blocks and inodes of kernel/fs.c: the free bitmap, direct and indirect block
    pointers, and who owns which block, at the grain of the single steps that
    operations on different inodes can interleave at. */
module FsBlocks {

  // An inode has 12 direct pointers and an indirect block of 256.
  const MAXFILE: nat := 268
  const MAXBYTES: nat := 274432
  const NSLOT: nat := 269

  type Byte = x: int | 0 <= x < 256
  type Block = b: seq<Byte> | |b| == 1024 witness seq(1024, i => 0)

  function Zeros(): Block { seq(1024, i => 0) }

  // ----- Indirect blocks -----

  /** The j-th unsigned 32-bit word of a block, little endian. */
  function Word(b: Block, j: nat): nat
    requires j < 256
  {
    var b0: int, b1: int, b2: int, b3: int := b[4 * j], b[4 * j + 1], b[4 * j + 2], b[4 * j + 3];
    b0 + 0x100 * b1 + 0x1_0000 * b2 + 0x100_0000 * b3
  }

  function SetWord(b: Block, j: nat, v: nat): Block
    requires j < 256 && v < 0x1_0000_0000
  {
    var low := b[4 * j := v % 0x100][4 * j + 1 := v / 0x100 % 0x100];
    low[4 * j + 2 := v / 0x1_0000 % 0x100][4 * j + 3 := v / 0x100_0000]
  }

  lemma WordOfSetWord(b: Block, j: nat, v: nat, l: nat)
    requires j < 256 && l < 256 && v < 0x1_0000_0000
    ensures Word(SetWord(b, j, v), l) == if l == j then v else Word(b, l)
  {
    if l == j {
      Digits(v);
    }
  }

  lemma Digits(v: nat)
    requires v < 0x1_0000_0000
    ensures v == v % 0x100 + 0x100 * (v / 0x100 % 0x100)
                 + 0x1_0000 * (v / 0x1_0000 % 0x100) + 0x100_0000 * (v / 0x100_0000)
  {
    assert v / 0x100 / 0x100 == v / 0x1_0000;
    assert v / 0x1_0000 / 0x100 == v / 0x100_0000;
  }

  // ----- State -----

  /** An inode's block pointers and its size in bytes. */
  datatype Inode = Inode(addrs: seq<nat>, size: nat)

  /** Who a block in use belongs to: a pointer of an inode (0 to 11 direct, 12 the
      indirect block, 13 and up the entries of the indirect block), or an operation
      on inode `i` that has allocated it and not linked it yet. */
  datatype Owner = Pending(i: nat) | Slot(i: nat, k: nat)

  /** `meta` is the number of blocks that are never allocated. `stale` are pointers
      whose block itrunc has freed but which it has not cleared yet. `logged` are the
      blocks passed to log_write in the current transaction. */
  datatype Fs = Fs(
    meta: nat, bmapstart: nat, inodestart: nat,
    used: seq<bool>,
    blocks: seq<Block>,
    inodes: map<nat, Inode>,
    own: map<nat, Owner>,
    stale: set<(nat, nat)>,
    logged: set<nat>)

  function BBlock(s: Fs, b: nat): nat { b / 8192 + s.bmapstart }

  function IBlock(s: Fs, i: nat): nat { i / 16 + s.inodestart }

  /** The k-th pointer of inode `i`; 0 if there is no such block. */
  function Ptr(s: Fs, i: nat, k: nat): nat
    requires i in s.inodes && |s.inodes[i].addrs| == 13 && k < NSLOT
  {
    var ip := s.inodes[i];
    if k <= 12 then ip.addrs[k]
    else if 0 < ip.addrs[12] < |s.blocks| then Word(s.blocks[ip.addrs[12]], k - 13)
    else 0
  }

  /** May the pointer be followed? */
  ghost predicate Trusted(s: Fs, i: nat, k: nat) {
    (i, k) !in s.stale && (k > 12 ==> (i, 12) !in s.stale)
  }

  ghost predicate InodeOk(s: Fs, i: nat) {
    i in s.inodes ==> |s.inodes[i].addrs| == 13
  }

  /** A pointer that is not zero owns its block. */
  ghost predicate PtrOk(s: Fs, i: nat, k: nat)
    requires i in s.inodes && k < NSLOT
  {
    && |s.inodes[i].addrs| == 13
    && (Trusted(s, i, k) && Ptr(s, i, k) != 0 ==> Ptr(s, i, k) in s.own && s.own[Ptr(s, i, k)] == Slot(i, k))
  }

  /** An owned block is in use, and its owner is real. */
  ghost predicate OwnOk(s: Fs, b: nat)
    requires b in s.own
  {
    && s.meta <= b < |s.used| == |s.blocks| && s.used[b]
    && match s.own[b]
       case Pending(i) => s.blocks[b] == Zeros()
       case Slot(i, k) =>
         i in s.inodes && |s.inodes[i].addrs| == 13 && k < NSLOT && Trusted(s, i, k) && Ptr(s, i, k) == b
  }

  /** The bitmap marks exactly the metadata blocks and the owned blocks. */
  ghost predicate UsedOk(s: Fs, b: nat) {
    b < |s.used| ==> (s.used[b] <==> b < s.meta || b in s.own)
  }

  ghost predicate Inv(s: Fs) {
    && 0 < s.meta <= |s.used| == |s.blocks| < 0x1_0000_0000
    && (forall i {:trigger InodeOk(s, i)} :: InodeOk(s, i))
    && (forall i, k: nat {:trigger PtrOk(s, i, k)} :: i in s.inodes && k < NSLOT ==> PtrOk(s, i, k))
    && (forall b {:trigger OwnOk(s, b)} :: b in s.own ==> OwnOk(s, b))
    && (forall b: nat {:trigger UsedOk(s, b)} :: UsedOk(s, b))
  }

  /** The pointer still leads where it did, to a block with the same contents. */
  ghost predicate SlotSame(s: Fs, s': Fs, i: nat, k: nat) {
    i in s.inodes && k < NSLOT && |s.inodes[i].addrs| == 13 && Trusted(s, i, k) ==>
      && i in s'.inodes && |s'.inodes[i].addrs| == 13 && Trusted(s', i, k)
      && Ptr(s', i, k) == Ptr(s, i, k)
      && (k != 12 && 0 < Ptr(s, i, k) < |s.blocks| ==>
            |s'.blocks| == |s.blocks| && s'.blocks[Ptr(s, i, k)] == s.blocks[Ptr(s, i, k)])
  }

  // ----- balloc -----

  /** Block `b` is taken from the bitmap and zeroed. */
  function Take(s: Fs, i: nat, b: nat): Fs
    requires b < |s.used| && b < |s.blocks|
  {
    s.(used := s.used[b := true], blocks := s.blocks[b := Zeros()], own := s.own[b := Pending(i)],
       logged := s.logged + {BBlock(s, b), b})
  }

  lemma TakeInv(s: Fs, i: nat, b: nat)
    requires Inv(s) && b < |s.used| && !s.used[b]
    ensures Inv(Take(s, i, b)) && b !in s.own && b >= s.meta
    ensures forall j: nat, k: nat {:trigger SlotSame(s, Take(s, i, b), j, k)} :: SlotSame(s, Take(s, i, b), j, k)
  {
    var s' := Take(s, i, b);
    assert UsedOk(s, b);
    forall j: nat, k: nat ensures SlotSame(s, s', j, k) {
      if j in s.inodes && k < NSLOT {
        assert PtrOk(s, j, k) && PtrOk(s, j, 12);
      }
    }
    forall j ensures InodeOk(s', j) { assert InodeOk(s, j); }
    forall j: nat, k: nat | j in s'.inodes && k < NSLOT ensures PtrOk(s', j, k) {
      assert PtrOk(s, j, k) && SlotSame(s, s', j, k);
    }
    forall c | c in s'.own ensures OwnOk(s', c) {
      if c != b {
        assert OwnOk(s, c);
        match s.own[c] {
          case Pending(_) =>
          case Slot(j, k) => assert SlotSame(s, s', j, k);
        }
      }
    }
    forall c: nat ensures UsedOk(s', c) { assert UsedOk(s, c); }
  }

  // ----- Linking a block -----

  /** The pending block `b` becomes the k-th block of inode `i`. */
  function Link(s: Fs, i: nat, k: nat, b: nat): Fs
    requires i in s.inodes && |s.inodes[i].addrs| == 13 && k < NSLOT && b < 0x1_0000_0000
    requires k > 12 ==> 0 < s.inodes[i].addrs[12] < |s.blocks|
  {
    var own := s.own[b := Slot(i, k)];
    var ip := s.inodes[i];
    if k <= 12 then
      s.(inodes := s.inodes[i := ip.(addrs := ip.addrs[k := b])], own := own)
    else
      var x := ip.addrs[12];
      s.(blocks := s.blocks[x := SetWord(s.blocks[x], k - 13, b)], own := own, logged := s.logged + {x})
  }

  ghost predicate CanLink(s: Fs, i: nat, k: nat, b: nat) {
    && i in s.inodes && |s.inodes[i].addrs| == 13 && k < NSLOT && Trusted(s, i, k)
    && Ptr(s, i, k) == 0
    && (k > 12 ==> s.inodes[i].addrs[12] != 0)
    && b in s.own && s.own[b] == Pending(i)
  }

  lemma ZeroWords()
    ensures forall j: nat {:trigger Word(Zeros(), j)} :: j < 256 ==> Word(Zeros(), j) == 0
  {
  }

  lemma LinkRange(s: Fs, i: nat, k: nat, b: nat)
    requires Inv(s) && CanLink(s, i, k, b)
    ensures k > 12 ==> 0 < s.inodes[i].addrs[12] < |s.blocks|
    ensures b < 0x1_0000_0000
  {
    assert OwnOk(s, b) && PtrOk(s, i, 12);
    assert k > 12 ==> OwnOk(s, s.inodes[i].addrs[12]);
  }

  lemma LinkPtr(s: Fs, i: nat, k: nat, b: nat)
    requires Inv(s) && CanLink(s, i, k, b)
    requires (k > 12 ==> 0 < s.inodes[i].addrs[12] < |s.blocks|) && b < 0x1_0000_0000
    ensures Ptr(Link(s, i, k, b), i, k) == b
  {
    if k > 12 {
      WordOfSetWord(s.blocks[s.inodes[i].addrs[12]], k - 13, b, k - 13);
    }
  }

  lemma LinkOther(s: Fs, i: nat, k: nat, b: nat, j: nat, l: nat)
    requires Inv(s) && CanLink(s, i, k, b) && (j, l) != (i, k)
    requires (k > 12 ==> 0 < s.inodes[i].addrs[12] < |s.blocks|) && b < 0x1_0000_0000
    ensures SlotSame(s, Link(s, i, k, b), j, l)
  {
    hide Word, SetWord;
    if j in s.inodes && l < NSLOT && Trusted(s, j, l) {
      assert PtrOk(s, i, 12) && OwnOk(s, b);
      assert PtrOk(s, j, l) && PtrOk(s, j, 12);
      if k > 12 && l > 12 {
        WordOfSetWord(s.blocks[s.inodes[i].addrs[12]], k - 13, b, l - 13);
      } else if k == 12 && l > 12 {
        ZeroWords();
      }
    }
  }

  lemma LinkSlots(s: Fs, i: nat, k: nat, b: nat)
    requires Inv(s) && CanLink(s, i, k, b)
    ensures k > 12 ==> 0 < s.inodes[i].addrs[12] < |s.blocks|
    ensures b < 0x1_0000_0000
    ensures Ptr(Link(s, i, k, b), i, k) == b
    ensures forall j: nat, l: nat {:trigger SlotSame(s, Link(s, i, k, b), j, l)} ::
              (j, l) != (i, k) ==> SlotSame(s, Link(s, i, k, b), j, l)
  {
    hide Inv, SlotSame, Link;
    LinkRange(s, i, k, b);
    LinkPtr(s, i, k, b);
    forall j: nat, l: nat | (j, l) != (i, k) ensures SlotSame(s, Link(s, i, k, b), j, l) {
      LinkOther(s, i, k, b, j, l);
    }
  }

  lemma LinkInv(s: Fs, i: nat, k: nat, b: nat)
    requires Inv(s) && CanLink(s, i, k, b)
    ensures k > 12 ==> 0 < s.inodes[i].addrs[12] < |s.blocks|
    ensures b < 0x1_0000_0000
    ensures Inv(Link(s, i, k, b))
  {
    LinkSlots(s, i, k, b);
    var s' := Link(s, i, k, b);
    forall j ensures InodeOk(s', j) { assert InodeOk(s, j); }
    forall j: nat, l: nat | j in s'.inodes && l < NSLOT ensures PtrOk(s', j, l) {
      assert PtrOk(s, j, l);
      assert (j, l) != (i, k) ==> SlotSame(s, s', j, l);
    }
    forall c | c in s'.own ensures OwnOk(s', c) {
      assert OwnOk(s, c);
      if c != b && s.own[c].Slot? {
        assert SlotSame(s, s', s.own[c].i, s.own[c].k);
      }
      assert k > 12 ==> PtrOk(s, i, 12);
    }
    forall c: nat ensures UsedOk(s', c) { assert UsedOk(s, c); }
    assert OwnOk(s, b);
  }

  // ----- Freeing a block and clearing its pointer -----

  /** bfree of the block the k-th pointer leads to. */
  function Release(s: Fs, i: nat, k: nat): Fs
    requires i in s.inodes && |s.inodes[i].addrs| == 13 && k < NSLOT
    requires Ptr(s, i, k) < |s.used|
  {
    var b := Ptr(s, i, k);
    s.(used := s.used[b := false], own := s.own - {b}, stale := s.stale + {(i, k)}, logged := s.logged + {BBlock(s, b)})
  }

  /** Has the block of the pointer been given back already? */
  ghost predicate Dead(s: Fs, i: nat, k: nat) {
    i in s.inodes && |s.inodes[i].addrs| == 13 && k < NSLOT ==> Ptr(s, i, k) == 0 || (i, k) in s.stale
  }

  ghost predicate CanRelease(s: Fs, i: nat, k: nat) {
    && i in s.inodes && |s.inodes[i].addrs| == 13 && k < NSLOT && Trusted(s, i, k)
    && Ptr(s, i, k) != 0
    && (k == 12 ==> forall l: nat {:trigger Dead(s, i, l)} :: 12 < l < NSLOT ==> Dead(s, i, l))
  }

  /** bfree never finds its block free. */
  lemma ReleaseInv(s: Fs, i: nat, k: nat)
    requires Inv(s) && CanRelease(s, i, k)
    ensures Ptr(s, i, k) < |s.used| && s.used[Ptr(s, i, k)]
    ensures Inv(Release(s, i, k))
    ensures forall j: nat, l: nat {:trigger SlotSame(s, Release(s, i, k), j, l)} ::
              (j, l) != (i, k) && !(k == 12 && j == i && l > 12) ==> SlotSame(s, Release(s, i, k), j, l)
  {
    assert PtrOk(s, i, k);
    var b := Ptr(s, i, k);
    assert OwnOk(s, b);
    var s' := Release(s, i, k);
    forall j: nat, l: nat | (j, l) != (i, k) && !(k == 12 && j == i && l > 12) ensures SlotSame(s, s', j, l) {
    }
    forall j ensures InodeOk(s', j) { assert InodeOk(s, j); }
    forall j: nat, l: nat | j in s'.inodes && l < NSLOT ensures PtrOk(s', j, l) {
      assert PtrOk(s, j, l);
    }
    forall c | c in s'.own ensures OwnOk(s', c) {
      assert OwnOk(s, c);
      if s.own[c].Slot? {
        var j, l := s.own[c].i, s.own[c].k;
        assert k == 12 && j == i && l > 12 ==> Dead(s, i, l);
      }
    }
    forall c: nat ensures UsedOk(s', c) { assert UsedOk(s, c); }
  }

  /** The freed pointer is set to zero, and with the indirect pointer all its entries go. */
  function Clear(s: Fs, i: nat, k: nat): Fs
    requires i in s.inodes && |s.inodes[i].addrs| == 13 && k <= 12
  {
    var ip := s.inodes[i];
    s.(inodes := s.inodes[i := ip.(addrs := ip.addrs[k := 0])],
       stale := set p | p in s.stale && p != (i, k) && !(k == 12 && p.0 == i && p.1 > 12))
  }

  lemma ClearInv(s: Fs, i: nat, k: nat)
    requires Inv(s) && i in s.inodes && k <= 12 && (i, k) in s.stale
    ensures |s.inodes[i].addrs| == 13
    ensures Inv(Clear(s, i, k))
    ensures Trusted(Clear(s, i, k), i, k) && Ptr(Clear(s, i, k), i, k) == 0
    ensures forall j: nat, l: nat {:trigger SlotSame(s, Clear(s, i, k), j, l)} :: SlotSame(s, Clear(s, i, k), j, l)
  {
    assert InodeOk(s, i);
    var s' := Clear(s, i, k);
    forall j: nat, l: nat ensures SlotSame(s, s', j, l) {
    }
    forall j ensures InodeOk(s', j) { assert InodeOk(s, j); }
    forall j: nat, l: nat | j in s'.inodes && l < NSLOT ensures PtrOk(s', j, l) {
      assert PtrOk(s, j, l);
    }
    forall c | c in s'.own ensures OwnOk(s', c) {
      assert OwnOk(s, c);
      if s.own[c].Slot? {
        assert SlotSame(s, s', s.own[c].i, s.own[c].k);
      }
    }
    forall c: nat ensures UsedOk(s', c) { assert UsedOk(s, c); }
  }

  // ----- Writing data -----

  /** The k-th block of inode `i` gets new contents. */
  function Store(s: Fs, i: nat, k: nat, v: Block): Fs
    requires i in s.inodes && |s.inodes[i].addrs| == 13 && k < NSLOT
    requires Ptr(s, i, k) < |s.blocks|
  {
    var b := Ptr(s, i, k);
    s.(blocks := s.blocks[b := v], logged := s.logged + {b})
  }

  lemma StoreInv(s: Fs, i: nat, k: nat, v: Block)
    requires Inv(s) && i in s.inodes && |s.inodes[i].addrs| == 13 && k < NSLOT && k != 12
    requires Trusted(s, i, k) && Ptr(s, i, k) != 0
    ensures Ptr(s, i, k) < |s.blocks|
    ensures Inv(Store(s, i, k, v))
    ensures forall j: nat, l: nat {:trigger SlotSame(s, Store(s, i, k, v), j, l)} ::
              (j, l) != (i, k) ==> SlotSame(s, Store(s, i, k, v), j, l)
    ensures Trusted(Store(s, i, k, v), i, k) && Ptr(Store(s, i, k, v), i, k) == Ptr(s, i, k)
  {
    assert PtrOk(s, i, k) && PtrOk(s, i, 12);
    assert OwnOk(s, Ptr(s, i, k));
    var s' := Store(s, i, k, v);
    forall j: nat, l: nat | (j, l) != (i, k) ensures SlotSame(s, s', j, l) {
      if j in s.inodes && l < NSLOT {
        assert PtrOk(s, j, l) && PtrOk(s, j, 12);
      }
    }
    forall j ensures InodeOk(s', j) { assert InodeOk(s, j); }
    forall j: nat, l: nat | j in s'.inodes && l < NSLOT ensures PtrOk(s', j, l) {
      assert PtrOk(s, j, l) && ((j, l) != (i, k) ==> SlotSame(s, s', j, l));
    }
    forall c | c in s'.own ensures OwnOk(s', c) {
      assert OwnOk(s, c);
      if s.own[c].Slot? {
        var j, l := s.own[c].i, s.own[c].k;
        assert (j, l) != (i, k) ==> SlotSame(s, s', j, l);
      }
    }
    forall c: nat ensures UsedOk(s', c) { assert UsedOk(s, c); }
  }

  // ----- Interleavings -----

  /** One step of bmap, writei or itrunc on inode `i`; each is atomic under the lock of
      the buffer it works on, and the inode lock keeps two operations off one inode. */
  datatype Step =
    | Alloc(i: nat, b: nat)
    | Connect(i: nat, k: nat, b: nat)
    | Bfree(i: nat, k: nat)
    | Zero(i: nat, k: nat)
    | Put(i: nat, k: nat, v: Block)
    | Resize(i: nat, size: nat)

  ghost predicate Enabled(s: Fs, t: Step) {
    match t
    case Alloc(i, b) => b < |s.used| && b < |s.blocks| && !s.used[b]
    case Connect(i, k, b) => CanLink(s, i, k, b)
    case Bfree(i, k) => CanRelease(s, i, k)
    case Zero(i, k) => i in s.inodes && |s.inodes[i].addrs| == 13 && k <= 12 && (i, k) in s.stale
    case Put(i, k, v) =>
      i in s.inodes && |s.inodes[i].addrs| == 13 && k < NSLOT && k != 12 && Trusted(s, i, k) && Ptr(s, i, k) != 0
    case Resize(i, size) => i in s.inodes
  }

  ghost function Next(s: Fs, t: Step): Fs
    requires Inv(s) && Enabled(s, t)
  {
    match t
    case Alloc(i, b) => Take(s, i, b)
    case Connect(i, k, b) => LinkSlots(s, i, k, b); Link(s, i, k, b)
    case Bfree(i, k) => ReleaseInv(s, i, k); Release(s, i, k)
    case Zero(i, k) => Clear(s, i, k)
    case Put(i, k, v) => StoreInv(s, i, k, v); Store(s, i, k, v)
    case Resize(i, size) => s.(inodes := s.inodes[i := s.inodes[i].(size := size)])
  }

  lemma ResizeInv(s: Fs, i: nat, size: nat)
    requires Inv(s) && i in s.inodes
    ensures var s' := s.(inodes := s.inodes[i := s.inodes[i].(size := size)]);
            Inv(s') && forall j: nat, l: nat {:trigger SlotSame(s, s', j, l)} :: SlotSame(s, s', j, l)
  {
    var s' := s.(inodes := s.inodes[i := s.inodes[i].(size := size)]);
    forall j: nat, l: nat ensures SlotSame(s, s', j, l) {
    }
    forall j ensures InodeOk(s', j) { assert InodeOk(s, j); }
    forall j: nat, l: nat | j in s'.inodes && l < NSLOT ensures PtrOk(s', j, l) {
      assert PtrOk(s, j, l);
    }
    forall c | c in s'.own ensures OwnOk(s', c) { assert OwnOk(s, c); }
    forall c: nat ensures UsedOk(s', c) { assert UsedOk(s, c); }
  }

  lemma NextInv(s: Fs, t: Step)
    requires Inv(s) && Enabled(s, t)
    ensures Inv(Next(s, t))
  {
    hide Inv;
    match t {
      case Alloc(i, b) => TakeInv(s, i, b);
      case Connect(i, k, b) => LinkInv(s, i, k, b);
      case Bfree(i, k) => ReleaseInv(s, i, k);
      case Zero(i, k) => ClearInv(s, i, k);
      case Put(i, k, v) => StoreInv(s, i, k, v);
      case Resize(i, size) => ResizeInv(s, i, size);
    }
  }

  /** A step of another inode's operation neither moves a pointer of inode `i`, nor
      changes what its blocks hold, nor makes it stale. */
  lemma NextLeavesOthers(s: Fs, t: Step, i: nat, k: nat)
    requires Inv(s) && Enabled(s, t) && i in s.inodes && i != t.i && k < NSLOT
    ensures i in Next(s, t).inodes && Next(s, t).inodes[i] == s.inodes[i]
    ensures SlotSame(s, Next(s, t), i, k)
    ensures (i, k) in Next(s, t).stale <==> (i, k) in s.stale
  {
    match t {
      case Alloc(j, b) => TakeInv(s, j, b); assert SlotSame(s, Take(s, j, b), i, k);
      case Connect(j, l, b) => LinkSlots(s, j, l, b); assert SlotSame(s, Link(s, j, l, b), i, k);
      case Bfree(j, l) => ReleaseInv(s, j, l); assert SlotSame(s, Release(s, j, l), i, k);
      case Zero(j, l) => ClearInv(s, j, l); assert SlotSame(s, Clear(s, j, l), i, k);
      case Put(j, l, v) => StoreInv(s, j, l, v); assert SlotSame(s, Store(s, j, l, v), i, k);
      case Resize(j, size) =>
    }
  }

  /** A step one inode's operation is about to take is still possible after a step of
      another inode's operation, unless both would take the same free block. */
  lemma StepsCommuteIntoEnabled(s: Fs, t: Step, u: Step)
    requires Inv(s) && Enabled(s, t) && Enabled(s, u) && t.i != u.i
    requires !(t.Alloc? && u.Alloc? && t.b == u.b)
    ensures Enabled(Next(s, t), u)
  {
    var s' := Next(s, t);
    match u {
      case Alloc(i, b) => FreeKept(s, t, b);
      case Connect(i, k, b) =>
        NextLeavesOthers(s, t, i, k);
        NextLeavesOthers(s, t, i, 12);
        PendingKept(s, t, i, b);
      case Bfree(i, k) =>
        NextLeavesOthers(s, t, i, k);
        forall l: nat | k == 12 && 12 < l < NSLOT ensures Dead(s', i, l) {
          assert Dead(s, i, l);
          NextLeavesOthers(s, t, i, l);
          NextLeavesOthers(s, t, i, 12);
        }
      case Zero(i, k) => NextLeavesOthers(s, t, i, k);
      case Put(i, k, v) => NextLeavesOthers(s, t, i, k);
      case Resize(i, size) => NextLeavesOthers(s, t, i, 0);
    }
  }

  lemma FreeKept(s: Fs, t: Step, b: nat)
    requires Inv(s) && Enabled(s, t) && b < |s.used| && !s.used[b] && !(t.Alloc? && t.b == b)
    ensures b < |Next(s, t).used| == |Next(s, t).blocks| && !Next(s, t).used[b]
  {
    match t {
      case Alloc(j, c) =>
      case Connect(j, l, c) => LinkSlots(s, j, l, c);
      case Bfree(j, l) => ReleaseInv(s, j, l);
      case Zero(j, l) =>
      case Put(j, l, v) => StoreInv(s, j, l, v);
      case Resize(j, size) =>
    }
  }

  lemma PendingKept(s: Fs, t: Step, i: nat, b: nat)
    requires Inv(s) && Enabled(s, t) && t.i != i && b in s.own && s.own[b] == Pending(i)
    ensures b in Next(s, t).own && Next(s, t).own[b] == Pending(i)
  {
    assert OwnOk(s, b);
    match t {
      case Alloc(j, c) => assert UsedOk(s, c);
      case Connect(j, l, c) =>
      case Bfree(j, l) => assert PtrOk(s, j, l);
      case Zero(j, l) =>
      case Put(j, l, v) =>
      case Resize(j, size) =>
    }
  }

  ghost predicate Runs(s: Fs, steps: seq<Step>, s': Fs)
    requires Inv(s)
    decreases |steps|
  {
    if steps == [] then s' == s
    else
      Enabled(s, steps[0]) && (NextInv(s, steps[0]); Runs(Next(s, steps[0]), steps[1..], s'))
  }

  /** After any interleaving: a block is marked in use exactly when it is metadata or
      has one owner, a pointer that may be followed owns its block, and no two such
      pointers, of one inode or of two, lead to the same block. */
  lemma {:induction false} RunsKeepInv(s: Fs, steps: seq<Step>, s': Fs)
    requires Inv(s) && Runs(s, steps, s')
    ensures Inv(s')
    decreases |steps|
  {
    if steps != [] {
      NextInv(s, steps[0]);
      RunsKeepInv(Next(s, steps[0]), steps[1..], s');
    }
  }

  lemma NoSharedBlock(s: Fs, i: nat, k: nat, j: nat, l: nat)
    requires Inv(s) && i in s.inodes && j in s.inodes && k < NSLOT && l < NSLOT && (i, k) != (j, l)
    requires |s.inodes[i].addrs| == 13 && |s.inodes[j].addrs| == 13
    requires Trusted(s, i, k) && Trusted(s, j, l) && Ptr(s, i, k) != 0
    ensures Ptr(s, i, k) != Ptr(s, j, l)
    ensures s.meta <= Ptr(s, i, k) < |s.used| && s.used[Ptr(s, i, k)]
  {
    assert PtrOk(s, i, k) && PtrOk(s, j, l);
    assert OwnOk(s, Ptr(s, i, k));
  }

  // ----- A new file system -----

  /** As mkfs lays it out, before it adds files: metadata in use, everything else free. */
  ghost predicate Mkfs(s: Fs) {
    && 0 < s.meta <= |s.used| == |s.blocks| < 0x1_0000_0000 && s.own == map[] && s.stale == {}
    && (forall b: nat {:trigger s.used[b]} :: b < |s.used| ==> (s.used[b] <==> b < s.meta))
    && (forall i {:trigger s.inodes[i]} :: i in s.inodes ==> s.inodes[i] == NoFile())
  }

  function NoFile(): Inode { Inode(seq(13, k => 0), 0) }

  lemma MkfsInv(s: Fs)
    requires Mkfs(s)
    ensures Inv(s)
  {
    forall i ensures InodeOk(s, i) { }
    forall i, k: nat | i in s.inodes && k < NSLOT ensures PtrOk(s, i, k) { }
    forall b: nat ensures UsedOk(s, b) { }
  }

  /** From a new file system on, no interleaving makes two pointers share a block, or
      lets a pointer that may be followed lead to a block not in use. */
  lemma RunsFromMkfs(s: Fs, steps: seq<Step>, s': Fs, i: nat, k: nat, j: nat, l: nat)
    requires Mkfs(s) && (MkfsInv(s); Runs(s, steps, s'))
    requires i in s'.inodes && j in s'.inodes && k < NSLOT && l < NSLOT && (i, k) != (j, l)
    requires |s'.inodes[i].addrs| == 13 && |s'.inodes[j].addrs| == 13
    requires Trusted(s', i, k) && Trusted(s', j, l) && Ptr(s', i, k) != 0
    ensures Ptr(s', i, k) != Ptr(s', j, l)
    ensures s'.meta <= Ptr(s', i, k) < |s'.used| && s'.used[Ptr(s', i, k)]
  {
    MkfsInv(s);
    RunsKeepInv(s, steps, s');
    NoSharedBlock(s', i, k, j, l);
  }

  // ----- Write-ahead -----

  /** Block `b`, and its bit in the bitmap, changed only if they were logged. */
  ghost predicate BlockLogged(s: Fs, s': Fs, b: nat) {
    && (b < |s.blocks| == |s'.blocks| && s'.blocks[b] != s.blocks[b] ==> b in s'.logged)
    && (b < |s.used| == |s'.used| && s'.used[b] != s.used[b] ==> BBlock(s, b) in s'.logged)
  }

  /** Every block of data, indirect block and bitmap block that changed has been logged. */
  ghost predicate ChangesLogged(s: Fs, s': Fs) {
    && s'.bmapstart == s.bmapstart && |s'.blocks| == |s.blocks| && |s'.used| == |s.used| && s.logged <= s'.logged
    && forall b: nat {:trigger BlockLogged(s, s', b)} :: BlockLogged(s, s', b)
  }

  lemma NothingChanged(s: Fs)
    ensures ChangesLogged(s, s)
  {
    forall b: nat ensures BlockLogged(s, s, b) { }
  }

  lemma ChangesJoin(s: Fs, t: Fs, u: Fs)
    requires ChangesLogged(s, t) && ChangesLogged(t, u)
    ensures ChangesLogged(s, u)
  {
    forall b: nat ensures BlockLogged(s, u, b) { assert BlockLogged(s, t, b) && BlockLogged(t, u, b); }
  }

  lemma NextLogs(s: Fs, t: Step)
    requires Inv(s) && Enabled(s, t)
    ensures ChangesLogged(s, Next(s, t))
  {
    var s' := Next(s, t);
    match t {
      case Connect(i, k, b) => LinkSlots(s, i, k, b);
      case Bfree(i, k) => ReleaseInv(s, i, k);
      case Put(i, k, v) => StoreInv(s, i, k, v);
      case _ =>
    }
    forall b: nat ensures BlockLogged(s, s', b) { }
  }

  /** In every interleaving, what has changed since its start is in the log. */
  lemma {:induction false} RunsLog(s: Fs, steps: seq<Step>, s': Fs)
    requires Inv(s) && Runs(s, steps, s')
    ensures ChangesLogged(s, s')
    decreases |steps|
  {
    hide Inv, Enabled, ChangesLogged;
    NothingChanged(s);
    if steps != [] {
      NextInv(s, steps[0]);
      NextLogs(s, steps[0]);
      RunsLog(Next(s, steps[0]), steps[1..], s');
      ChangesJoin(s, Next(s, steps[0]), s');
    }
  }
}
