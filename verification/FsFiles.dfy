/** Files as byte sequences over the blocks of kernel/fs.c: what allocation, storing
    and truncation mean for the contents of every inode. */
module FsFiles {
  import opened FsBlocks
  import Basics

  /** The pointer that leads to the bn-th block of a file. */
  function DataSlot(bn: nat): nat { if bn < 12 then bn else bn + 1 }

  /** What a pointer's block holds; a missing block reads as zeros. */
  function SlotBlock(s: Fs, i: nat, k: nat): Block
    requires i in s.inodes && |s.inodes[i].addrs| == 13 && k < NSLOT
  {
    if 0 < Ptr(s, i, k) < |s.blocks| then s.blocks[Ptr(s, i, k)] else Zeros()
  }

  ghost predicate IsFile(s: Fs, i: nat) { i in s.inodes && |s.inodes[i].addrs| == 13 }

  /** Byte `o` of the file. */
  function FileByte(s: Fs, i: nat, o: nat): Byte
    requires i in s.inodes && |s.inodes[i].addrs| == 13 && o < MAXBYTES
  {
    SlotBlock(s, i, DataSlot(o / 1024))[o % 1024]
  }

  ghost function Contents(s: Fs, i: nat): seq<Byte>
    requires IsFile(s, i) && s.inodes[i].size <= MAXBYTES
  {
    seq(s.inodes[i].size, o requires 0 <= o < s.inodes[i].size => FileByte(s, i, o))
  }

  ghost predicate Mapped(s: Fs, i: nat, bn: nat)
    requires IsFile(s, i) && bn < MAXFILE
  {
    Ptr(s, i, DataSlot(bn)) != 0
  }

  /** A file is at most as long as an inode can reach, and has no holes. */
  ghost predicate FileOk(s: Fs, i: nat) {
    && IsFile(s, i) && s.inodes[i].size <= MAXBYTES
    && forall bn: nat {:trigger Mapped(s, i, bn)} :: bn < MAXFILE && 1024 * bn < s.inodes[i].size ==> Mapped(s, i, bn)
  }

  /** No operation on the inode is under way. */
  ghost predicate Quiet(s: Fs, i: nat) {
    && IsFile(s, i)
    && (forall k: nat {:trigger Trusted(s, i, k)} :: k < NSLOT ==> Trusted(s, i, k))
    && (forall b {:trigger s.own[b]} :: b in s.own ==> s.own[b] != Pending(i))
  }

  // ----- Growing: blocks are added to one inode, and no file changes -----

  ghost predicate Kept(s: Fs, s': Fs, i: nat, j: nat, l: nat) {
    IsFile(s, j) && l < NSLOT && Trusted(s, j, l) ==>
      && IsFile(s', j) && Trusted(s', j, l)
      && (j != i || Ptr(s, j, l) != 0 ==> Ptr(s', j, l) == Ptr(s, j, l))
      && (l != 12 ==> SlotBlock(s', j, l) == SlotBlock(s, j, l))
  }

  ghost predicate SameDisk(s: Fs, s': Fs) {
    && s'.meta == s.meta && s'.bmapstart == s.bmapstart && s'.inodestart == s.inodestart
    && |s'.used| == |s.used|
    && s'.inodes.Keys == s.inodes.Keys
  }

  /** No other inode's operation has a new block in hand. */
  ghost predicate NoNewPending(s: Fs, s': Fs, i: nat) {
    forall b {:trigger s'.own[b]} ::
      b in s'.own && s'.own[b].Pending? && s'.own[b].i != i ==> b in s.own && s.own[b] == s'.own[b]
  }

  ghost predicate Grown(s: Fs, s': Fs, i: nat) {
    && SameDisk(s, s')
    && (forall j {:trigger s'.inodes[j]} :: j in s.inodes && j != i ==> s'.inodes[j] == s.inodes[j])
    && i in s.inodes && s'.inodes[i].size == s.inodes[i].size
    && s'.stale == s.stale && NoNewPending(s, s', i)
    && s.logged <= s'.logged
    && (forall j: nat, l: nat {:trigger Kept(s, s', i, j, l)} :: Kept(s, s', i, j, l))
  }

  lemma GrownTrans(s: Fs, t: Fs, u: Fs, i: nat)
    requires Grown(s, t, i) && Grown(t, u, i)
    ensures Grown(s, u, i)
  {
    forall j: nat, l: nat ensures Kept(s, u, i, j, l) {
      assert Kept(s, t, i, j, l) && Kept(t, u, i, j, l);
    }
  }

  ghost predicate SamePtr(s: Fs, s': Fs, i: nat, l: nat) {
    IsFile(s, i) && IsFile(s', i) && l < NSLOT ==> Ptr(s', i, l) == Ptr(s, i, l)
  }

  ghost predicate CanAdd(s: Fs, i: nat, k: nat, b: nat) {
    && b < |s.used| && !s.used[b] && k < NSLOT && IsFile(s, i) && Ptr(s, i, k) == 0
    && (k > 12 ==> s.inodes[i].addrs[12] != 0)
  }

  /** balloc, then the new block is entered as the k-th of inode `i`. */
  ghost function Added(s: Fs, i: nat, k: nat, b: nat): Fs
    requires Inv(s) && Quiet(s, i) && CanAdd(s, i, k, b)
  {
    TakeThenLink(s, i, k, b);
    Link(Take(s, i, b), i, k, b)
  }

  lemma TakeThenLink(s: Fs, i: nat, k: nat, b: nat)
    requires Inv(s) && Quiet(s, i) && CanAdd(s, i, k, b)
    ensures Inv(Take(s, i, b)) && CanLink(Take(s, i, b), i, k, b)
    ensures k > 12 ==> 0 < s.inodes[i].addrs[12] < |s.blocks|
    ensures b < 0x1_0000_0000
  {
    TakeInv(s, i, b);
    assert Trusted(s, i, k) && Trusted(s, i, 12);
    assert SlotSame(s, Take(s, i, b), i, k) && SlotSame(s, Take(s, i, b), i, 12);
    LinkSlots(Take(s, i, b), i, k, b);
  }

  lemma AddedKeeps(s: Fs, i: nat, k: nat, b: nat)
    requires Inv(s) && Quiet(s, i) && CanAdd(s, i, k, b)
    ensures Grown(s, Added(s, i, k, b), i)
    ensures Ptr(Added(s, i, k, b), i, k) == b
    ensures forall l: nat {:trigger SamePtr(s, Added(s, i, k, b), i, l)} :: l != k ==>
              SamePtr(s, Added(s, i, k, b), i, l)
  {
    TakeThenLink(s, i, k, b);
    var t, u := Take(s, i, b), Added(s, i, k, b);
    TakeInv(s, i, b);
    LinkSlots(t, i, k, b);
    forall j: nat, l: nat ensures Kept(s, u, i, j, l) {
      if IsFile(s, j) && l < NSLOT && Trusted(s, j, l) {
        assert PtrOk(s, j, l) && SlotSame(s, t, j, l);
        if (j, l) != (i, k) { assert SlotSame(t, u, j, l); }
        if Ptr(s, j, l) != 0 { assert OwnOk(s, Ptr(s, j, l)); }
        if k > 12 { assert PtrOk(t, i, 12); }
      }
    }
    forall l: nat | l != k ensures SamePtr(s, u, i, l) {
      if l < NSLOT { assert Trusted(s, i, l); }
      assert SlotSame(s, t, i, l) && SlotSame(t, u, i, l);
    }
  }

  lemma AddedInv(s: Fs, i: nat, k: nat, b: nat)
    requires Inv(s) && Quiet(s, i) && CanAdd(s, i, k, b)
    ensures Inv(Added(s, i, k, b)) && Quiet(Added(s, i, k, b), i)
    ensures Added(s, i, k, b).logged == s.logged + {BBlock(s, b), b} + if k > 12 then {s.inodes[i].addrs[12]} else {}
  {
    TakeThenLink(s, i, k, b);
    LinkInv(Take(s, i, b), i, k, b);
    var u := Added(s, i, k, b);
    forall l: nat | l < NSLOT ensures Trusted(u, i, l) { assert Trusted(s, i, l); }
  }

  // ----- Writing: bytes of one file are replaced -----

  /** Pointers of inode `i` stay once they are set; other inodes keep pointers and blocks. */
  ghost predicate PtrKept(s: Fs, s': Fs, i: nat, j: nat, l: nat) {
    IsFile(s, j) && l < NSLOT && Trusted(s, j, l) ==>
      && IsFile(s', j) && Trusted(s', j, l)
      && (j != i || Ptr(s, j, l) != 0 ==> Ptr(s', j, l) == Ptr(s, j, l))
      && (j != i && l != 12 ==> SlotBlock(s', j, l) == SlotBlock(s, j, l))
  }

  ghost predicate ByteIs(s: Fs, s': Fs, i: nat, off: nat, d: seq<Byte>, o: nat) {
    IsFile(s, i) && IsFile(s', i) && o < MAXBYTES ==>
      FileByte(s', i, o) == if off <= o < off + |d| then d[o - off] else FileByte(s, i, o)
  }

  ghost predicate Written(s: Fs, s': Fs, i: nat, off: nat, d: seq<Byte>) {
    && SameDisk(s, s') && IsFile(s, i) && IsFile(s', i)
    && (forall j {:trigger s'.inodes[j]} :: j in s.inodes && j != i ==> s'.inodes[j] == s.inodes[j])
    && s'.inodes[i].size == s.inodes[i].size
    && s'.stale == s.stale && NoNewPending(s, s', i)
    && s.logged <= s'.logged
    && (forall j: nat, l: nat {:trigger PtrKept(s, s', i, j, l)} :: PtrKept(s, s', i, j, l))
    && (forall o: nat {:trigger ByteIs(s, s', i, off, d, o)} :: ByteIs(s, s', i, off, d, o))
  }

  lemma WrittenNone(s: Fs, i: nat, off: nat)
    requires IsFile(s, i)
    ensures Written(s, s, i, off, [])
  {
  }

  lemma WrittenGrown(s: Fs, t: Fs, u: Fs, i: nat, off: nat, d: seq<Byte>)
    requires Written(s, t, i, off, d) && Grown(t, u, i) && Quiet(t, i)
    ensures Written(s, u, i, off, d)
  {
    assert Trusted(t, i, 0) && Kept(t, u, i, i, 0);
    forall j: nat, l: nat ensures PtrKept(s, u, i, j, l) {
      assert PtrKept(s, t, i, j, l) && Kept(t, u, i, j, l);
    }
    forall o: nat ensures ByteIs(s, u, i, off, d, o) {
      assert ByteIs(s, t, i, off, d, o);
      if o < MAXBYTES {
        assert Trusted(t, i, DataSlot(o / 1024));
        assert Kept(t, u, i, i, DataSlot(o / 1024));
      }
    }
  }

  /** `e` copied over the block from byte `lo` on. */
  function Patch(b: Block, lo: nat, e: seq<Byte>): Block
    requires lo + |e| <= 1024
  {
    b[..lo] + e + b[lo + |e|..]
  }

  lemma StoreSlots(t: Fs, i: nat, k: nat, v: Block)
    requires Inv(t) && Quiet(t, i) && k < NSLOT && k != 12 && Ptr(t, i, k) != 0
    ensures Ptr(t, i, k) < |t.blocks|
    ensures Inv(Store(t, i, k, v)) && Quiet(Store(t, i, k, v), i)
    ensures SlotBlock(Store(t, i, k, v), i, k) == v && Ptr(Store(t, i, k, v), i, 12) == Ptr(t, i, 12)
    ensures forall l: nat {:trigger Trusted(t, i, l)} :: l < NSLOT ==>
              && Ptr(Store(t, i, k, v), i, l) == Ptr(t, i, l)
              && (l != 12 && l != k ==> SlotBlock(Store(t, i, k, v), i, l) == SlotBlock(t, i, l))
    ensures forall j: nat, l: nat {:trigger PtrKept(t, Store(t, i, k, v), i, j, l)} ::
              PtrKept(t, Store(t, i, k, v), i, j, l)
  {
    assert Trusted(t, i, k);
    StoreInv(t, i, k, v);
    var u := Store(t, i, k, v);
    forall l: nat | l < NSLOT ensures Trusted(u, i, l) { assert Trusted(t, i, l); }
    forall l: nat | l < NSLOT
      ensures Ptr(u, i, l) == Ptr(t, i, l) && (l != 12 && l != k ==> SlotBlock(u, i, l) == SlotBlock(t, i, l))
    {
      assert Trusted(t, i, l);
      if l != k { assert SlotSame(t, u, i, l); }
    }
    forall j: nat, l: nat ensures PtrKept(t, u, i, j, l) {
      if (j, l) != (i, k) { assert SlotSame(t, u, j, l); }
    }
  }

  lemma SameBlock(bn: nat, lo: nat, m: nat, o: nat)
    requires lo + m <= 1024
    ensures 1024 * bn + lo <= o < 1024 * bn + lo + m <==> o / 1024 == bn && lo <= o % 1024 < lo + m
    ensures o / 1024 == bn ==> o == 1024 * bn + o % 1024
  {
  }

  /** Block `bn` of the file with `e` copied into it at byte `lo`. */
  ghost function Stored(t: Fs, i: nat, bn: nat, lo: nat, e: seq<Byte>): Fs
    requires Inv(t) && Quiet(t, i) && bn < MAXFILE && Mapped(t, i, bn) && lo + |e| <= 1024
  {
    MappedInRange(t, i, bn);
    Store(t, i, DataSlot(bn), Patch(SlotBlock(t, i, DataSlot(bn)), lo, e))
  }

  lemma MappedInRange(s: Fs, i: nat, bn: nat)
    requires Inv(s) && Quiet(s, i) && bn < MAXFILE && Mapped(s, i, bn)
    ensures Ptr(s, i, DataSlot(bn)) < |s.blocks|
  {
    assert Trusted(s, i, DataSlot(bn)) && PtrOk(s, i, DataSlot(bn));
    assert OwnOk(s, Ptr(s, i, DataSlot(bn)));
  }

  lemma StoredSlots(t: Fs, i: nat, bn: nat, lo: nat, e: seq<Byte>)
    requires Inv(t) && Quiet(t, i) && bn < MAXFILE && Mapped(t, i, bn) && lo + |e| <= 1024
    ensures Inv(Stored(t, i, bn, lo, e)) && Quiet(Stored(t, i, bn, lo, e), i)
    ensures forall l: nat {:trigger SamePtr(t, Stored(t, i, bn, lo, e), i, l)} ::
              SamePtr(t, Stored(t, i, bn, lo, e), i, l)
    ensures Ptr(t, i, DataSlot(bn)) < |t.blocks|
    ensures var addr := Ptr(t, i, DataSlot(bn));
            Stored(t, i, bn, lo, e) ==
            t.(blocks := t.blocks[addr := Patch(t.blocks[addr], lo, e)], logged := t.logged + {addr})
  {
    MappedInRange(t, i, bn);
    StoreSlots(t, i, DataSlot(bn), Patch(SlotBlock(t, i, DataSlot(bn)), lo, e));
    forall l: nat ensures SamePtr(t, Stored(t, i, bn, lo, e), i, l) {
      assert l < NSLOT ==> Trusted(t, i, l);
    }
  }

  lemma StoredByte(t: Fs, i: nat, bn: nat, lo: nat, e: seq<Byte>, o: nat)
    requires Inv(t) && Quiet(t, i) && bn < MAXFILE && Mapped(t, i, bn) && lo + |e| <= 1024 && o < MAXBYTES
    ensures IsFile(Stored(t, i, bn, lo, e), i)
    ensures FileByte(Stored(t, i, bn, lo, e), i, o) ==
            if 1024 * bn + lo <= o < 1024 * bn + lo + |e| then e[o - 1024 * bn - lo] else FileByte(t, i, o)
  {
    MappedInRange(t, i, bn);
    StoreSlots(t, i, DataSlot(bn), Patch(SlotBlock(t, i, DataSlot(bn)), lo, e));
    SameBlock(bn, lo, |e|, o);
    assert Trusted(t, i, DataSlot(o / 1024));
  }

  /** One turn of writei's loop stores the next bytes of the data. */
  lemma WrittenStore(s: Fs, t: Fs, i: nat, off: nat, d: seq<Byte>, bn: nat, lo: nat, e: seq<Byte>)
    requires Written(s, t, i, off, d) && Inv(t) && Quiet(t, i)
    requires off + |d| == 1024 * bn + lo && bn < MAXFILE && lo + |e| <= 1024 && Mapped(t, i, bn)
    ensures Written(s, Stored(t, i, bn, lo, e), i, off, d + e)
  {
    MappedInRange(t, i, bn);
    var k := DataSlot(bn);
    var v := Patch(SlotBlock(t, i, k), lo, e);
    StoreSlots(t, i, k, v);
    var u := Stored(t, i, bn, lo, e);
    assert u == Store(t, i, k, v);
    hide Inv, Quiet;
    forall j: nat, l: nat ensures PtrKept(s, u, i, j, l) {
      assert PtrKept(s, t, i, j, l) && PtrKept(t, u, i, j, l);
    }
    forall o: nat ensures ByteIs(s, u, i, off, d + e, o) {
      assert ByteIs(s, t, i, off, d, o);
      if o < MAXBYTES {
        StoredByte(t, i, bn, lo, e, o);
      }
    }
  }

  // ----- What a finished write means -----

  /** `d` written over `c` at `off`, which may extend it. */
  function Splice(c: seq<Byte>, off: nat, d: seq<Byte>): seq<Byte>
    requires off <= |c|
  {
    c[..off] + d + if off + |d| < |c| then c[off + |d|..] else []
  }

  /** Every block up to byte `upto` is there. */
  ghost predicate FullTo(s: Fs, i: nat, upto: nat) {
    IsFile(s, i) && forall bn: nat {:trigger Mapped(s, i, bn)} :: bn < MAXFILE && 1024 * bn < upto ==> Mapped(s, i, bn)
  }

  function Sized(s: Fs, i: nat, size: nat): Fs
    requires i in s.inodes
  {
    s.(inodes := s.inodes[i := s.inodes[i].(size := size)])
  }

  lemma SizedSlot(t: Fs, i: nat, size: nat, j: nat, l: nat)
    requires IsFile(t, j) && i in t.inodes && l < NSLOT
    ensures IsFile(Sized(t, i, size), j) && Ptr(Sized(t, i, size), j, l) == Ptr(t, j, l)
    ensures SlotBlock(Sized(t, i, size), j, l) == SlotBlock(t, j, l)
  {
  }

  function GrownSize(size: nat, end: nat): nat { if end > size then end else size }

  ghost predicate WriteDone(s: Fs, t: Fs, i: nat, off: nat, d: seq<Byte>) {
    && Written(s, t, i, off, d) && FileOk(s, i) && Quiet(s, i)
    && off <= s.inodes[i].size && off + |d| <= MAXBYTES && FullTo(t, i, off + |d|)
  }

  lemma FinishMapped(s: Fs, t: Fs, i: nat, off: nat, d: seq<Byte>)
    requires WriteDone(s, t, i, off, d)
    ensures FileOk(Sized(t, i, GrownSize(t.inodes[i].size, off + |d|)), i)
  {
    var size := GrownSize(t.inodes[i].size, off + |d|);
    var u := Sized(t, i, size);
    forall bn: nat | bn < MAXFILE && 1024 * bn < size ensures Mapped(u, i, bn) {
      SizedSlot(t, i, size, i, DataSlot(bn));
      if 1024 * bn < off + |d| {
        assert Mapped(t, i, bn);
      } else {
        assert Mapped(s, i, bn) && Trusted(s, i, DataSlot(bn));
        assert PtrKept(s, t, i, i, DataSlot(bn));
      }
    }
  }

  lemma FinishContents(s: Fs, t: Fs, i: nat, off: nat, d: seq<Byte>)
    requires WriteDone(s, t, i, off, d)
    ensures var u := Sized(t, i, GrownSize(t.inodes[i].size, off + |d|));
            IsFile(u, i) && u.inodes[i].size <= MAXBYTES && Contents(u, i) == Splice(Contents(s, i), off, d)
  {
    var size := GrownSize(t.inodes[i].size, off + |d|);
    var u := Sized(t, i, size);
    var c, c' := Splice(Contents(s, i), off, d), Contents(u, i);
    assert |c| == |c'|;
    forall o: nat | o < |c| ensures c[o] == c'[o] {
      SpliceAt(Contents(s, i), off, d, o);
      SizedByte(t, i, size, o);
      assert ByteIs(s, t, i, off, d, o);
    }
  }

  lemma SpliceAt(c: seq<Byte>, off: nat, d: seq<Byte>, o: nat)
    requires off <= |c| && o < |Splice(c, off, d)|
    ensures |Splice(c, off, d)| == GrownSize(|c|, off + |d|)
    ensures Splice(c, off, d)[o] == if off <= o < off + |d| then d[o - off] else c[o]
  {
  }

  lemma SizedByte(t: Fs, i: nat, size: nat, o: nat)
    requires IsFile(t, i) && o < MAXBYTES
    ensures IsFile(Sized(t, i, size), i) && FileByte(Sized(t, i, size), i, o) == FileByte(t, i, o)
  {
    SizedSlot(t, i, size, i, DataSlot(o / 1024));
  }

  /** The file of another inode, quiet at the start, is as it was. */
  ghost predicate SameFile(s: Fs, s': Fs, j: nat) {
    Quiet(s, j) && FileOk(s, j) ==>
      Quiet(s', j) && FileOk(s', j) && Contents(s', j) == Contents(s, j) && s'.inodes[j] == s.inodes[j]
  }

  lemma OthersSame(s: Fs, t: Fs, i: nat, off: nat, d: seq<Byte>, size: nat, j: nat)
    requires Written(s, t, i, off, d) && i != j
    ensures SameFile(s, Sized(t, i, size), j)
  {
    var u := Sized(t, i, size);
    if Quiet(s, j) && FileOk(s, j) {
      forall l: nat | l < NSLOT
        ensures Trusted(u, j, l) && Ptr(u, j, l) == Ptr(s, j, l)
        ensures (l != 12 ==> SlotBlock(u, j, l) == SlotBlock(s, j, l))
      {
        assert Trusted(s, j, l) && PtrKept(s, t, i, j, l);
        SizedSlot(t, i, size, j, l);
      }
      forall bn: nat | bn < MAXFILE && 1024 * bn < u.inodes[j].size ensures Mapped(u, j, bn) {
        assert Mapped(s, j, bn);
      }
      assert Contents(u, j) == Contents(s, j);
    }
  }

  lemma SameFileTrans(s: Fs, t: Fs, u: Fs, j: nat)
    requires SameFile(s, t, j) && SameFile(t, u, j)
    ensures SameFile(s, u, j)
  {
  }

  lemma SpliceSplice(c: seq<Byte>, off: nat, d: seq<Byte>, e: seq<Byte>)
    requires off <= |c|
    ensures off + |d| <= |Splice(c, off, d)|
    ensures Splice(Splice(c, off, d), off + |d|, e) == Splice(c, off, d + e)
  {
  }

  /** The file holds `d` at `off`, if `off` is in it or at its end, and nothing else
      has changed in any file. */
  ghost predicate FileWritten(s: Fs, s': Fs, i: nat, off: nat, d: seq<Byte>) {
    && FileOk(s, i) && FileOk(s', i)
    && (if off <= s.inodes[i].size then Contents(s', i) == Splice(Contents(s, i), off, d)
        else d == [] && Contents(s', i) == Contents(s, i))
    && forall j: nat {:trigger SameFile(s, s', j)} :: j != i ==> SameFile(s, s', j)
  }

  lemma FileWrittenThen(s: Fs, t: Fs, u: Fs, i: nat, off: nat, d: seq<Byte>, e: seq<Byte>)
    requires FileWritten(s, t, i, off, d) && FileWritten(t, u, i, off + |d|, e)
    ensures FileWritten(s, u, i, off, d + e)
  {
    assert |Contents(s, i)| == s.inodes[i].size && |Contents(t, i)| == t.inodes[i].size;
    if off <= s.inodes[i].size {
      SpliceSplice(Contents(s, i), off, d, e);
    }
    forall j: nat | j != i ensures SameFile(s, u, j) {
      assert SameFile(s, t, j) && SameFile(t, u, j);
      SameFileTrans(s, t, u, j);
    }
  }

  lemma WrittenEnd(s: Fs, t: Fs, i: nat, off: nat, d: seq<Byte>)
    requires FileWritten(s, t, i, off, d)
    ensures i in s.inodes && i in t.inodes
    ensures off + |d| > t.inodes[i].size ==> off > s.inodes[i].size
  {
    assert |Contents(s, i)| == s.inodes[i].size && |Contents(t, i)| == t.inodes[i].size;
  }

  lemma WrittenNothing(s: Fs, t: Fs, i: nat, off: nat)
    requires FileOk(s, i) && FileOk(t, i) && Contents(s, i) == Contents(t, i) && s.inodes == t.inodes
    requires forall j: nat {:trigger SameFile(s, t, j)} :: j != i ==> SameFile(s, t, j)
    ensures FileWritten(s, t, i, off, [])
  {
    hide Contents, FileOk, SameFile, Splice;
    ContentsSize(s, i);
    SpliceNothing(Contents(s, i), off);
  }

  lemma ContentsSize(s: Fs, i: nat)
    requires FileOk(s, i)
    ensures IsFile(s, i) && s.inodes[i].size <= MAXBYTES && |Contents(s, i)| == s.inodes[i].size
  {
  }

  lemma SpliceNothing(c: seq<Byte>, off: nat)
    ensures off <= |c| ==> Splice(c, off, []) == c
  {
  }

  /** A further write of the next bytes of the same data. */
  lemma FileWrittenNext(s: Fs, t: Fs, u: Fs, i: nat, off: nat, data: seq<Byte>, k: nat, n: nat, r: nat)
    requires k + n <= |data| && r <= n
    requires FileWritten(s, t, i, off, data[..k]) && FileWritten(t, u, i, off + k, data[k..k + n][..r])
    ensures FileWritten(s, u, i, off, data[..k + r])
    ensures i in s.inodes && i in t.inodes
    ensures off + k > t.inodes[i].size ==> off > s.inodes[i].size
  {
    hide FileWritten;
    FileWrittenThen(s, t, u, i, off, data[..k], data[k..k + n][..r]);
    WrittenEnd(s, t, i, off, data[..k]);
    assert data[..k] + data[k..k + n][..r] == data[..k + r];
  }

  /** A log_write of an inode block changes no file. */
  lemma RelogInv(s: Fs, logged: set<nat>)
    requires Inv(s)
    ensures Inv(s.(logged := logged))
  {
    var s' := s.(logged := logged);
    forall j ensures InodeOk(s', j) { assert InodeOk(s, j); }
    forall j: nat, l: nat | j in s'.inodes && l < NSLOT ensures PtrOk(s', j, l) { assert PtrOk(s, j, l); }
    forall c | c in s'.own ensures OwnOk(s', c) { assert OwnOk(s, c); }
    forall c: nat ensures UsedOk(s', c) { assert UsedOk(s, c); }
  }

  lemma RelogFile(s: Fs, logged: set<nat>, i: nat)
    requires IsFile(s, i)
    ensures IsFile(s.(logged := logged), i)
    ensures Quiet(s, i) ==> Quiet(s.(logged := logged), i)
    ensures FileOk(s, i) ==> FileOk(s.(logged := logged), i) && Contents(s.(logged := logged), i) == Contents(s, i)
  {
    var s' := s.(logged := logged);
    forall l: nat | l < NSLOT ensures Ptr(s', i, l) == Ptr(s, i, l) && SlotBlock(s', i, l) == SlotBlock(s, i, l) {
    }
    if Quiet(s, i) {
      forall l: nat | l < NSLOT ensures Trusted(s', i, l) { assert Trusted(s, i, l); }
    }
    if FileOk(s, i) {
      forall bn: nat | bn < MAXFILE && 1024 * bn < s.inodes[i].size ensures Mapped(s', i, bn) {
        assert Mapped(s, i, bn);
      }
      assert Contents(s', i) == Contents(s, i);
    }
  }

  // ----- Truncation -----

  /** Owners are as before, less the pointers of inode `i` in `gone`. */
  ghost predicate OwnWithout(own: map<nat, Owner>, own': map<nat, Owner>, i: nat, gone: set<nat>) {
    && (forall b {:trigger own[b]} {:trigger own'[b]} ::
          b in own' <==> b in own && !(own[b].Slot? && own[b].i == i && own[b].k in gone))
    && (forall b {:trigger own'[b]} :: b in own' ==> own'[b] == own[b])
  }

  /** Part of the way through itrunc: `gone` pointers have given their blocks back. */
  ghost predicate Trimmed(s: Fs, s': Fs, i: nat, gone: set<nat>) {
    && Inv(s') && SameDisk(s, s') && IsFile(s', i)
    && s'.blocks == s.blocks && s'.inodes[i].size == s.inodes[i].size
    && (forall j {:trigger s'.inodes[j]} :: j in s.inodes && j != i ==> s'.inodes[j] == s.inodes[j])
    && OwnWithout(s.own, s'.own, i, gone)
    && (forall j: nat, k: nat {:trigger (j, k) in s'.stale} :: j != i ==> ((j, k) in s'.stale <==> (j, k) in s.stale))
  }

  lemma TrimRelease(s: Fs, t: Fs, i: nat, gone: set<nat>, k: nat)
    requires Trimmed(s, t, i, gone) && CanRelease(t, i, k)
    ensures Ptr(t, i, k) < |t.used| && t.used[Ptr(t, i, k)]
    ensures Trimmed(s, Release(t, i, k), i, gone + {k})
  {
    ReleaseInv(t, i, k);
    assert PtrOk(t, i, k);
    var b := Ptr(t, i, k);
    var u := Release(t, i, k);
    forall c | c in s.own && c !in u.own ensures s.own[c].Slot? && s.own[c].i == i && s.own[c].k in gone + {k} {
      assert c in t.own ==> c == b;
    }
    forall c | c in u.own ensures !(s.own[c].Slot? && s.own[c].i == i && s.own[c].k in gone + {k}) {
      assert t.own[c] == s.own[c] && OwnOk(t, c);
    }
  }

  lemma TrimZero(s: Fs, t: Fs, i: nat, gone: set<nat>, k: nat)
    requires Trimmed(s, t, i, gone) && k < NSLOT && Trusted(t, i, k) && Ptr(t, i, k) == 0
    ensures Trimmed(s, t, i, gone + {k})
  {
    forall c | c in t.own ensures !(s.own[c].Slot? && s.own[c].i == i && s.own[c].k == k) {
      assert t.own[c] == s.own[c] && OwnOk(t, c);
    }
  }

  lemma TrimClear(s: Fs, t: Fs, i: nat, gone: set<nat>, k: nat)
    requires Trimmed(s, t, i, gone) && k <= 12 && (i, k) in t.stale
    ensures Trimmed(s, Clear(t, i, k), i, gone)
  {
    ClearInv(t, i, k);
  }

  /** The pointers of an inode before pointer `k`, leaving out the indirect one. */
  ghost predicate DoneTo(gone: set<nat>, k: nat) {
    forall l: nat {:trigger l in gone} :: l in gone <==> l < k && l != 12
  }

  /** itrunc before pointer `k`: direct pointers are cleared once freed, entries of the
      indirect block are not. */
  ghost predicate Trimming(s: Fs, s': Fs, i: nat, k: nat, gone: set<nat>) {
    && Trimmed(s, s', i, gone) && DoneTo(gone, k) && k <= NSLOT
    && (forall l: nat {:trigger Trusted(s', i, l)} :: l < NSLOT ==> Trusted(s', i, l) || 12 < l < k)
    && (forall l: nat {:trigger Dead(s', i, l)} :: l < k && l != 12 ==> Dead(s', i, l))
    && (forall l: nat {:trigger s'.inodes[i].addrs[l]} :: l < 12 && l < k ==> s'.inodes[i].addrs[l] == 0)
  }

  lemma TrimStart(s: Fs, i: nat)
    requires Inv(s) && Quiet(s, i)
    ensures Trimming(s, s, i, 0, {}) && IsFile(s, i)
  {
  }

  /** A direct pointer is freed and cleared. */
  lemma TrimDirect(s: Fs, t: Fs, i: nat, k: nat, gone: set<nat>)
    requires Trimming(s, t, i, k, gone) && k < 12 && Ptr(t, i, k) != 0
    ensures CanRelease(t, i, k) && Ptr(t, i, k) < |t.used| && IsFile(Release(t, i, k), i)
    ensures Inv(Release(t, i, k)) && Inv(Clear(Release(t, i, k), i, k))
    ensures Trimming(s, Clear(Release(t, i, k), i, k), i, k + 1, gone + {k})
  {
    assert Trusted(t, i, k);
    TrimRelease(s, t, i, gone, k);
    var u := Release(t, i, k);
    TrimClear(s, u, i, gone + {k}, k);
    var w := Clear(u, i, k);
    ReleaseInv(t, i, k);
    ClearInv(u, i, k);
    forall l: nat | l < NSLOT ensures Trusted(w, i, l) {
      assert Trusted(t, i, l);
    }
    forall l: nat | l < k + 1 ensures Dead(w, i, l) {
      if l < k { assert Dead(t, i, l) && t.inodes[i].addrs[l] == 0; }
    }
  }

  /** A pointer that is zero already. */
  lemma TrimSkip(s: Fs, t: Fs, i: nat, k: nat, gone: set<nat>)
    requires Trimming(s, t, i, k, gone) && k < NSLOT && k != 12 && Ptr(t, i, k) == 0
    ensures Trimming(s, t, i, k + 1, gone + {k})
  {
    assert Trusted(t, i, k);
    TrimZero(s, t, i, gone, k);
  }

  /** An entry of the indirect block is freed. */
  lemma TrimEntry(s: Fs, t: Fs, i: nat, k: nat, gone: set<nat>)
    requires Trimming(s, t, i, k, gone) && 12 < k < NSLOT && Ptr(t, i, k) != 0
    ensures CanRelease(t, i, k) && Ptr(t, i, k) < |t.used|
    ensures Trimming(s, Release(t, i, k), i, k + 1, gone + {k})
  {
    assert Trusted(t, i, k) && Trusted(t, i, 12);
    TrimRelease(s, t, i, gone, k);
    var u := Release(t, i, k);
    forall l: nat | l < NSLOT ensures Trusted(u, i, l) || 12 < l < k + 1 {
      assert Trusted(t, i, l) || 12 < l < k;
    }
    forall l: nat | l < k + 1 && l != 12 ensures Dead(u, i, l) {
      assert l < k ==> Dead(t, i, l);
    }
  }

  ghost predicate AllGone(gone: set<nat>) { forall l: nat {:trigger l in gone} :: l < NSLOT ==> l in gone }

  ghost predicate NoBlocks(s: Fs, i: nat) {
    IsFile(s, i) && forall l: nat {:trigger Trusted(s, i, l)} :: l < NSLOT ==> Trusted(s, i, l) && Ptr(s, i, l) == 0
  }

  /** The indirect block itself is freed after its entries, and its pointer cleared. */
  lemma TrimIndirect(s: Fs, t: Fs, i: nat, gone: set<nat>)
    requires Trimming(s, t, i, NSLOT, gone) && Ptr(t, i, 12) != 0
    ensures CanRelease(t, i, 12) && Ptr(t, i, 12) < |t.used| && IsFile(Release(t, i, 12), i)
    ensures Inv(Release(t, i, 12))
    ensures var w := Clear(Release(t, i, 12), i, 12);
            && Trimmed(s, w, i, gone + {12}) && AllGone(gone + {12})
            && NoBlocks(w, i)
  {
    assert Trusted(t, i, 12);
    TrimRelease(s, t, i, gone, 12);
    var u := Release(t, i, 12);
    TrimClear(s, u, i, gone + {12}, 12);
    ReleaseInv(t, i, 12);
    ClearInv(u, i, 12);
    var w := Clear(u, i, 12);
    forall l: nat | l < NSLOT ensures Trusted(w, i, l) && Ptr(w, i, l) == 0 {
      assert Trusted(t, i, l) || 12 < l;
      assert l < 12 ==> t.inodes[i].addrs[l] == 0;
    }
  }

  lemma TrimNoIndirect(s: Fs, t: Fs, i: nat, gone: set<nat>) returns (gone': set<nat>)
    requires Trimming(s, t, i, 12, gone) && Ptr(t, i, 12) == 0
    ensures Trimmed(s, t, i, gone') && AllGone(gone')
    ensures NoBlocks(t, i)
  {
    gone' := Basics.Below(NSLOT);
    forall l: nat | l < NSLOT ensures Trusted(t, i, l) && Ptr(t, i, l) == 0 {
      assert Trusted(t, i, l);
      assert l < 12 ==> t.inodes[i].addrs[l] == 0;
    }
    forall c | c in t.own ensures !(s.own[c].Slot? && s.own[c].i == i) {
      assert t.own[c] == s.own[c] && OwnOk(t, c);
    }
  }

  /** The inode has no block left, its blocks are free, and no other file has changed. */
  ghost predicate Emptied(s: Fs, s': Fs, i: nat) {
    && Inv(s') && SameDisk(s, s') && Quiet(s', i)
    && (forall l: nat {:trigger Ptr(s', i, l)} :: l < NSLOT ==> Ptr(s', i, l) == 0)
    && (forall b: nat {:trigger Freed(s, s', i, b)} :: Freed(s, s', i, b))
    && (forall j: nat {:trigger SameFile(s, s', j)} :: j != i ==> SameFile(s, s', j))
  }

  /** A block is in use after itrunc exactly if it was and did not belong to the inode. */
  ghost predicate Freed(s: Fs, s': Fs, i: nat, b: nat) {
    b < |s.used| == |s'.used| ==> (s'.used[b] <==> s.used[b] && !(b in s.own && s.own[b].i == i))
  }

  lemma TrimOthers(s: Fs, t: Fs, i: nat, gone: set<nat>, j: nat)
    requires Trimmed(s, t, i, gone) && j != i
    ensures SameFile(s, t, j)
  {
    if Quiet(s, j) && FileOk(s, j) {
      forall l: nat | l < NSLOT
        ensures Trusted(t, j, l) && Ptr(t, j, l) == Ptr(s, j, l) && SlotBlock(t, j, l) == SlotBlock(s, j, l)
      {
        assert Trusted(s, j, l);
      }
      forall bn: nat | bn < MAXFILE && 1024 * bn < t.inodes[j].size ensures Mapped(t, j, bn) {
        assert Mapped(s, j, bn);
      }
      assert Contents(t, j) == Contents(s, j);
    }
  }

  lemma TrimFreed(s: Fs, t: Fs, i: nat, gone: set<nat>, b: nat)
    requires Inv(s) && Quiet(s, i) && Trimmed(s, t, i, gone) && AllGone(gone)
    ensures Freed(s, t, i, b)
  {
    assert UsedOk(s, b) && UsedOk(t, b);
    if b in s.own {
      assert OwnOk(s, b);
    }
  }

  lemma TrimEmptied(s: Fs, t: Fs, i: nat, gone: set<nat>)
    requires Inv(s) && Quiet(s, i) && Trimmed(s, t, i, gone) && AllGone(gone)
    requires NoBlocks(t, i)
    ensures Emptied(s, t, i)
  {
    forall l: nat | l < NSLOT ensures Ptr(t, i, l) == 0 { assert Trusted(t, i, l); }
    forall b: nat ensures Freed(s, t, i, b) { TrimFreed(s, t, i, gone, b); }
    forall j: nat | j != i ensures SameFile(s, t, j) { TrimOthers(s, t, i, gone, j); }
  }
}
