/** A file write that logs as many blocks as a transaction may. */
module FsTight {
  import opened Params
  import opened FsBlocks
  import opened FsFiles
  import opened FsOps
  import Basics

  // ----- Steps of writei on inode 0 -----

  /** Is `b` the block balloc takes next? */
  ghost predicate FirstFree(used: seq<bool>, b: nat) { b < |used| && !used[b] && forall c :: 0 <= c < b ==> used[c] }

  /** bmap adds block `b` as the k-th. */
  ghost predicate AddStep(t: Fs, u: Fs, k: nat, b: nat) {
    Inv(t) && Quiet(t, 0) && FirstFree(t.used, b) && CanAdd(t, 0, k, b) && u == Added(t, 0, k, b)
  }

  /** `e` goes to byte `lo` of block `bn`. */
  ghost predicate PutStep(t: Fs, u: Fs, bn: nat, lo: nat, e: seq<Byte>) {
    && Inv(t) && Quiet(t, 0) && bn < MAXFILE && Mapped(t, 0, bn) && lo + |e| <= 1024
    && u == Stored(t, 0, bn, lo, e)
  }

  /** The indirect block is `x`, and the next pointers behind it are not set. */
  ghost predicate Ready(t: Fs, x: nat, from: nat) {
    && Inv(t) && Quiet(t, 0) && Ptr(t, 0, 12) == x
    && forall l: nat {:trigger Ptr(t, 0, l)} :: from <= l <= 15 ==> Ptr(t, 0, l) == 0
  }

  /** `u` has block `b` more in use and in the log, with its bitmap block and `more`. */
  ghost predicate Took(t: Fs, u: Fs, b: nat, more: set<nat>) {
    && b < |t.used| && u.used == t.used[b := true] && u.bmapstart == t.bmapstart && u.inodestart == t.inodestart
    && u.logged == t.logged + {BBlock(t, b), b} + more
  }

  lemma FreeIsNotZero(t: Fs, b: nat)
    requires Inv(t) && b < |t.used| && !t.used[b]
    ensures b > 0
  {
    assert UsedOk(t, b) && UsedOk(t, 0);
  }

  lemma AddIndirect(t: Fs, b: nat) returns (u: Fs)
    requires Ready(t, 0, 12) && FirstFree(t.used, b)
    ensures AddStep(t, u, 12, b) && Took(t, u, b, {}) && Ready(u, b, 13) && b != 0
  {
    FreeIsNotZero(t, b);
    AddedInv(t, 0, 12, b);
    AddedKeeps(t, 0, 12, b);
    u := Added(t, 0, 12, b);
    forall l: nat | 13 <= l <= 15 ensures Ptr(u, 0, l) == 0 { assert SamePtr(t, u, 0, l); }
  }

  /** One turn of the loop on block `bn`, behind the indirect block and not there yet. */
  lemma TakeTurn(t: Fs, x: nat, bn: nat, b: nat, e: seq<Byte>) returns (a: Fs, u: Fs)
    requires 12 <= bn <= 14 && x != 0 && Ready(t, x, bn + 1) && FirstFree(t.used, b) && |e| <= 1024
    ensures AddStep(t, a, bn + 1, b) && PutStep(a, u, bn, 0, e)
    ensures Took(t, u, b, {x}) && Ready(u, x, bn + 2)
  {
    FreeIsNotZero(t, b);
    assert Ptr(t, 0, bn + 1) == 0;
    AddedInv(t, 0, bn + 1, b);
    AddedKeeps(t, 0, bn + 1, b);
    a := Added(t, 0, bn + 1, b);
    StoredSlots(a, 0, bn, 0, e);
    u := Stored(a, 0, bn, 0, e);
    forall l: nat | l == 12 || bn + 2 <= l <= 15 ensures Ptr(u, 0, l) == Ptr(t, 0, l) {
      assert SamePtr(t, a, 0, l) && SamePtr(a, u, 0, l);
    }
  }

  // ----- The disk -----

  const HALF: nat := 11776    // in the middle of block 11, the last direct one

  predicate IsFree(b: int) { b == 8000 || b == 16000 || b == 24000 || b == 32000 }

  function OwnerAt(b: nat): Owner { if 101 <= b <= 112 then Slot(0, b - 101) else Pending(1) }

  /** Four bitmap blocks, each with one free block; the file fills its direct blocks up to
      the middle of the last. */
  ghost predicate Tight(s: Fs) {
    && 32000 < |s.used| == |s.blocks| < 0x1_0000_0000 && s.meta == 100 && s.bmapstart == 90 && s.inodestart == 33
    && (forall b {:trigger s.used[b]} :: 0 <= b < |s.used| ==> s.used[b] == !IsFree(b))
    && (forall b {:trigger s.blocks[b]} :: 0 <= b < |s.blocks| ==> s.blocks[b] == Zeros())
    && s.inodes == map[0 := Inode(Directs(), HALF)] && s.stale == {} && s.logged == {}
    && (forall b: nat {:trigger b in s.own} :: b in s.own <==> 100 <= b < |s.used| && !IsFree(b))
    && (forall b {:trigger s.own[b]} :: b in s.own ==> s.own[b] == OwnerAt(b))
  }

  function Directs(): (a: seq<nat>)
    ensures |a| == 13 && forall k {:trigger a[k]} :: 0 <= k < 13 ==> a[k] == if k < 12 then 101 + k else 0
  {
    seq(13, k => if 0 <= k < 12 then 101 + k else 0)
  }

  lemma TightExists(n: nat) returns (s: Fs)
    requires 32000 < n < 0x1_0000_0000
    ensures Tight(s) && |s.used| == n
  {
    var own := map b: nat | b in Basics.Below(n) && 100 <= b && !IsFree(b) :: OwnerAt(b);
    s := Fs(100, 90, 33, seq(n, b => !IsFree(b)), seq(n, b => Zeros()), map[0 := Inode(Directs(), HALF)], own, {}, {});
  }

  lemma TightOk(s: Fs)
    requires Tight(s)
    ensures Inv(s) && Quiet(s, 0) && FileOk(s, 0)
    ensures forall l: nat {:trigger Ptr(s, 0, l)} :: l < NSLOT ==> Ptr(s, 0, l) == if l < 12 then 101 + l else 0
  {
    forall l: nat | l < NSLOT ensures Ptr(s, 0, l) == if l < 12 then 101 + l else 0 {
    }
    forall l: nat | l < NSLOT ensures Trusted(s, 0, l) && PtrOk(s, 0, l) {
      assert Ptr(s, 0, l) == if l < 12 then 101 + l else 0;
    }
    forall b | b in s.own ensures OwnOk(s, b) {
      assert 101 <= b <= 112 ==> Ptr(s, 0, b - 101) == b;
    }
    forall b: nat ensures UsedOk(s, b) { }
    forall bn: nat | bn < MAXFILE && 1024 * bn < s.inodes[0].size ensures Mapped(s, 0, bn) {
      assert bn < 12 && Ptr(s, 0, bn) == 101 + bn;
    }
  }

  /** The states a write goes through. */
  datatype Trace = Trace(t0: Fs, t1: Fs, t2: Fs, t3: Fs, t4: Fs, t5: Fs, t6: Fs, t7: Fs, t8: Fs, t9: Fs)

  /** The bytes of a write by the blocks they go to. */
  datatype Parts = Parts(e0: seq<Byte>, e1: seq<Byte>, e2: seq<Byte>, e3: seq<Byte>)

  /** A write of 3072 bytes in the middle of block 11: the rest of that block, the indirect
      block, and blocks 12, 13 and 14, the last one half. */
  ghost predicate WriteRun(d: Parts, r: Trace) {
    && |d.e0| == |d.e3| == 512 && |d.e1| == |d.e2| == 1024 && Tight(r.t0)
    && PutStep(r.t0, r.t1, 11, 512, d.e0)
    && AddStep(r.t1, r.t2, 12, 8000)
    && AddStep(r.t2, r.t3, 13, 16000) && PutStep(r.t3, r.t4, 12, 0, d.e1)
    && AddStep(r.t4, r.t5, 14, 24000) && PutStep(r.t5, r.t6, 13, 0, d.e2)
    && AddStep(r.t6, r.t7, 15, 32000) && PutStep(r.t7, r.t8, 14, 0, d.e3)
    && 0 in r.t8.inodes && r.t9 == WriteEnd(r.t8, 0, HALF + 3072)
  }

  lemma FirstPut(s: Fs, e: seq<Byte>) returns (u: Fs)
    requires Tight(s) && |e| == 512
    ensures PutStep(s, u, 11, 512, e) && Ready(u, 0, 12)
    ensures u.used == s.used && u.bmapstart == 90 && u.inodestart == 33 && u.logged == {112}
  {
    TightOk(s);
    assert Ptr(s, 0, 11) == 112;
    StoredSlots(s, 0, 11, 512, e);
    u := Stored(s, 0, 11, 512, e);
    forall l: nat | 12 <= l <= 15 ensures Ptr(u, 0, l) == 0 { assert SamePtr(s, u, 0, l) && Ptr(s, 0, l) == 0; }
  }

  /** Such a write logs MAXOPBLOCKS blocks: the bound of ThreeBlocksFit is attained. */
  lemma TenBlocks(n: nat, d: Parts) returns (r: Trace)
    requires 32000 < n < 0x1_0000_0000 && |d.e0| == |d.e3| == 512 && |d.e1| == |d.e2| == 1024
    ensures WriteRun(d, r) && |r.t0.used| == n && |r.t9.logged| == MAXOPBLOCKS
  {
    hide Inv, Quiet, Ready, AddStep, PutStep, Tight, Took, FirstFree, WriteRun, WriteEnd;
    var t0 := TightExists(n);
    var t1 := FirstPut(t0, d.e0);
    TightUsed(t0);
    var t2 := AddIndirect(t1, 8000);
    TookUsed(t1, t2, 8000, {});
    var t3, t4 := TakeTurn(t2, 8000, 12, 16000, d.e1);
    TookUsed(t2, t4, 16000, {8000});
    var t5, t6 := TakeTurn(t4, 8000, 13, 24000, d.e2);
    TookUsed(t4, t6, 24000, {8000});
    var t7, t8 := TakeTurn(t6, 8000, 14, 32000, d.e3);
    ReadyFile(t8, 8000, 16);
    AllLogged(t1, t2, t4, t6, t8);
    r := Trace(t0, t1, t2, t3, t4, t5, t6, t7, t8, WriteEnd(t8, 0, HALF + 3072));
    RunMade(d, r);
    EndLogged(t8);
  }

  lemma RunMade(d: Parts, r: Trace)
    requires |d.e0| == |d.e3| == 512 && |d.e1| == |d.e2| == 1024 && Tight(r.t0) && PutStep(r.t0, r.t1, 11, 512, d.e0)
    requires AddStep(r.t1, r.t2, 12, 8000) && AddStep(r.t2, r.t3, 13, 16000) && PutStep(r.t3, r.t4, 12, 0, d.e1)
    requires AddStep(r.t4, r.t5, 14, 24000) && PutStep(r.t5, r.t6, 13, 0, d.e2)
    requires AddStep(r.t6, r.t7, 15, 32000) && PutStep(r.t7, r.t8, 14, 0, d.e3)
    requires 0 in r.t8.inodes && r.t9 == WriteEnd(r.t8, 0, HALF + 3072)
    ensures WriteRun(d, r)
  {
  }

  lemma EndLogged(t: Fs)
    requires 0 in t.inodes && t.inodestart == 33 && t.logged == {112, 90, 8000, 91, 16000, 92, 24000, 93, 32000}
    ensures |WriteEnd(t, 0, HALF + 3072).logged| == 10
  {
    var w := WriteEnd(t, 0, HALF + 3072).logged;
    assert w == {112, 90, 8000, 91, 16000, 92, 24000, 93, 32000, 33};
    TenSize(w);
  }

  lemma TookUsed(t: Fs, u: Fs, b: nat, more: set<nat>)
    requires Took(t, u, b, more)
    ensures b < |t.used| && u.used == t.used[b := true]
  {
  }

  lemma AllLogged(t1: Fs, t2: Fs, t4: Fs, t6: Fs, t8: Fs)
    requires t1.logged == {112} && t1.bmapstart == 90 && t1.inodestart == 33
    requires Took(t1, t2, 8000, {}) && Took(t2, t4, 16000, {8000})
    requires Took(t4, t6, 24000, {8000}) && Took(t6, t8, 32000, {8000})
    ensures t8.inodestart == 33 && t8.logged == {112, 90, 8000, 91, 16000, 92, 24000, 93, 32000}
  {
    assert t2.logged == {112, 90, 8000};
    assert t4.logged == {112, 90, 8000, 91, 16000};
    assert t6.logged == {112, 90, 8000, 91, 16000, 92, 24000};
  }

  lemma TightUsed(s: Fs)
    requires Tight(s)
    ensures 32000 < |s.used| && FirstFree(s.used, 8000) && FirstFree(s.used[8000 := true], 16000)
    ensures FirstFree(s.used[8000 := true][16000 := true], 24000)
    ensures FirstFree(s.used[8000 := true][16000 := true][24000 := true], 32000)
  {
  }

  lemma ReadyFile(t: Fs, x: nat, from: nat)
    requires Ready(t, x, from)
    ensures 0 in t.inodes
  {
  }

  lemma TenSize(w: set<nat>)
    requires w == {112, 90, 8000, 91, 16000, 92, 24000, 93, 32000, 33}
    ensures |w| == 10
  {
  }
}
