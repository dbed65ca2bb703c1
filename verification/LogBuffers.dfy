/** write_log, write_head, install_trans and commit of kernel/log.c on the buffer cache of
    kernel/bio.c: which buffers they read, lock, write and unpin, and what readers see. */
module LogBuffers {
  import opened Basics
  import opened Params
  import opened BufCache
  import opened Bio
  import RedoLog

  // ----- What the loops leave as it was -----

  /** Nobody's hold on a buffer is lost; a buffer whose references stay keeps its block. */
  ghost predicate BufCalm(s: Cache, s': Cache, b: nat)
    requires b < |s.bufs| == |s.uses| && |s'.bufs| == |s.bufs|
  {
    && s'.bufs[b].refcnt <= s.bufs[b].refcnt
    && (s.uses[b].users > 0 || s'.bufs[b].refcnt == s.bufs[b].refcnt > 0 ==> s'.bufs[b].key == s.bufs[b].key)
  }

  ghost predicate Calm(s: Cache, s': Cache) {
    && |s'.bufs| == |s.bufs| == |s.uses| && s'.uses == s.uses
    && forall b: nat {:trigger BufCalm(s, s', b)} :: b < |s.bufs| ==> BufCalm(s, s', b)
  }

  /** No reference was added or dropped either. */
  ghost predicate SameRefs(s: Cache, s': Cache) {
    |s'.bufs| == |s.bufs| && forall b :: 0 <= b < |s.bufs| ==> s'.bufs[b].refcnt == s.bufs[b].refcnt
  }

  lemma CalmRefl(s: Cache)
    requires |s.bufs| == |s.uses|
    ensures Calm(s, s) && SameRefs(s, s)
  {
    forall b: nat | b < |s.bufs| ensures BufCalm(s, s, b) { }
  }

  lemma CalmTrans(s: Cache, s1: Cache, s2: Cache)
    requires Calm(s, s1) && Calm(s1, s2)
    ensures Calm(s, s2)
    ensures SameRefs(s, s1) && SameRefs(s1, s2) ==> SameRefs(s, s2)
  {
    forall b: nat | b < |s.bufs| ensures BufCalm(s, s2, b) { assert BufCalm(s, s1, b) && BufCalm(s1, s2, b); }
  }

  lemma CalmNotHeld(s: Cache, s': Cache, k: Key)
    requires Inv(s) && Calm(s, s') && NotHeld(s, k)
    ensures NotHeld(s', k)
  {
    forall b: nat | b < |s'.bufs| && s'.bufs[b].key == k ensures !s'.uses[b].held {
      assert BufOk(s, b) && BufCalm(s, s', b);
    }
  }

  /** bread of `k` does not panic. */
  ghost predicate CanRead(s: Cache, k: Key) { Cached(s, k) || SomeFree(s) }

  lemma CalmCanRead(s: Cache, s': Cache, k: Key)
    requires Inv(s) && Calm(s, s') && k !in s.logged && CanRead(s, k)
    ensures CanRead(s', k)
  {
    if b: nat :| b < |s.bufs| && s.bufs[b].refcnt == 0 {
      assert BufCalm(s, s', b);
    } else {
      var b: nat :| b < |s.bufs| && s.bufs[b].key == k;
      assert BufOk(s, b) && BufCalm(s, s', b);
    }
  }

  lemma CouldRead(s: Cache, s': Cache, k: Key)
    requires Calm(s, s') && SameRefs(s, s') && CanRead(s', k)
    ensures CanRead(s, k)
  {
    if b: nat :| b < |s'.bufs| && s'.bufs[b].refcnt == 0 {
      assert s.bufs[b].refcnt == 0;
    } else {
      var b: nat :| b < |s'.bufs| && s'.bufs[b].key == k;
      assert BufCalm(s, s', b);
    }
  }

  // ----- One block copied -----

  /** What brelse does to the buffers. */
  ghost predicate Gave(s: Cache, s': Cache, r: nat) {
    && r < |s.bufs| == |s.uses| && Enabled(s, Unlock(r)) && Enabled(Next(s, Unlock(r)), Drop(r))
    && s' == Next(Next(s, Unlock(r)), Drop(r))
  }

  ghost predicate Wrote(s: Cache, s': Cache, src: nat, dst: nat) {
    && src < |s.bufs| == |s.uses| && dst < |s.bufs|
    && Enabled(s, Modify(dst, s.bufs[src].data)) && Enabled(Next(s, Modify(dst, s.bufs[src].data)), Bwrite(dst))
    && s' == Next(Next(s, Modify(dst, s.bufs[src].data)), Bwrite(dst))
  }

  lemma GaveIs(s: Cache, s': Cache, r: nat)
    requires Enabled(s, Unlock(r)) && Enabled(Next(s, Unlock(r)), Drop(r)) && s' == Next(Next(s, Unlock(r)), Drop(r))
    ensures Gave(s, s', r)
  {
  }

  /** What holds of buffer `b` between the reads of buffers `r` and `q` and their release. */
  ghost predicate BufHeld(s: Cache, s': Cache, r: nat, q: nat, b: nat)
    requires b < |s.bufs| == |s.uses| && |s'.bufs| == |s.bufs| == |s'.uses|
  {
    && s'.bufs[b].refcnt == s.bufs[b].refcnt + (if b == r || b == q then 1 else 0)
    && (s.uses[b].users > 0 || s.bufs[b].refcnt > 0 ==> s'.bufs[b].key == s.bufs[b].key)
    && s'.uses[b] == (if b == r || b == q then Use(s.uses[b].users + 1, true, false) else s.uses[b])
    && (b == r || b == q ==> !s.uses[b].held && !s.uses[b].dirty)
  }

  ghost predicate AllHeld(s: Cache, s': Cache, r: nat, q: nat) {
    && |s'.bufs| == |s.bufs| == |s.uses| == |s'.uses|
    && forall b: nat {:trigger BufHeld(s, s', r, q, b)} :: b < |s.bufs| ==> BufHeld(s, s', r, q, b)
  }

  lemma GotBoth(s: Cache, s1: Cache, s2: Cache, j: Key, r: nat, k: Key, q: nat)
    requires Inv(s) && Got(s, s1, j, r) && Got(s1, s2, k, q) && j != k
    ensures r != q && AllHeld(s, s2, r, q)
  {
    assert BufOk(s, r) && BufOk(s, q);
    forall b: nat | b < |s.bufs| ensures BufHeld(s, s2, r, q, b) { assert BufOk(s, b); }
  }

  /** The copy written and both buffers released, with `pin` the buffer unpinned between. */
  ghost predicate BufReleased(s: Cache, s': Cache, r: nat, q: nat, pin: int, b: nat)
    requires b < |s.bufs| == |s.uses| && |s'.bufs| == |s.bufs| == |s'.uses|
  {
    && s'.bufs[b].refcnt + (if b == r || b == q then 1 else 0) + (if b == pin then 1 else 0) == s.bufs[b].refcnt
    && s'.bufs[b].key == s.bufs[b].key
    && (b != r && b != q ==> s'.uses[b] == s.uses[b])
    && (b == r || b == q ==> s.uses[b].users > 0 && s'.uses[b] == Use(s.uses[b].users - 1, false, false))
  }

  ghost predicate AllReleased(s: Cache, s': Cache, r: nat, q: nat, pin: int) {
    && |s'.bufs| == |s.bufs| == |s.uses| == |s'.uses|
    && forall b: nat {:trigger BufReleased(s, s', r, q, pin, b)} :: b < |s.bufs| ==> BufReleased(s, s', r, q, pin, b)
  }

  lemma HeldThenReleased(s: Cache, s1: Cache, s2: Cache, r: nat, q: nat, pin: int)
    requires AllHeld(s, s1, r, q) && AllReleased(s1, s2, r, q, pin)
    ensures Calm(s, s2) && (pin < 0 ==> SameRefs(s, s2))
  {
    forall b: nat | b < |s.bufs| ensures BufCalm(s, s2, b) && s2.uses[b] == s.uses[b] {
      assert BufHeld(s, s1, r, q, b) && BufReleased(s1, s2, r, q, pin, b);
    }
    if pin < 0 {
      forall b: nat | b < |s.bufs| ensures s2.bufs[b].refcnt == s.bufs[b].refcnt {
        assert BufHeld(s, s1, r, q, b) && BufReleased(s1, s2, r, q, pin, b);
      }
    }
  }

  /** The states of one round of write_log: both buffers read, the copy written, both
      released. */
  ghost predicate SaveRound(s: seq<Cache>, slot: Key, home: Key, to: nat, from: nat) {
    && |s| == 6 && Got(s[0], s[1], slot, to) && Got(s[1], s[2], home, from)
    && Wrote(s[2], s[3], from, to) && Gave(s[3], s[4], from) && Gave(s[4], s[5], to)
  }

  lemma SaveReleased(s2: Cache, s3: Cache, s4: Cache, s5: Cache, to: nat, from: nat)
    requires Wrote(s2, s3, from, to) && Gave(s3, s4, from) && Gave(s4, s5, to) && to != from
    ensures AllReleased(s2, s5, to, from, -1)
    ensures s5.logged == s2.logged && s5.disk == s2.disk[s2.bufs[to].key := s2.bufs[from].data]
  {
    forall b: nat | b < |s2.bufs| ensures BufReleased(s2, s5, to, from, -1, b) { }
  }

  lemma SaveRoundEffect(s: seq<Cache>, slot: Key, home: Key, to: nat, from: nat)
    requires SaveRound(s, slot, home, to, from) && Inv(s[0]) && slot != home && home in s[0].logged
    ensures Calm(s[0], s[5]) && SameRefs(s[0], s[5])
    ensures s[5].logged == s[0].logged && s[5].disk == s[0].disk[slot := s[0].logged[home]]
  {
    hide Inv, Wrote, Gave, Calm, SameRefs, AllHeld, AllReleased;
    GotBoth(s[0], s[1], s[2], slot, to, home, from);
    SaveReleased(s[2], s[3], s[4], s[5], to, from);
    HeldThenReleased(s[0], s[2], s[5], to, from, -1);
  }

  /** The states of one round of install_trans; without unpinning when recovering. */
  ghost predicate InstallRound(s: seq<Cache>, slot: Key, home: Key, l: nat, d: nat, recovering: bool) {
    && |s| == 7 && Got(s[0], s[1], slot, l) && Got(s[1], s[2], home, d)
    && Wrote(s[2], s[3], l, d)
    && (if recovering then s[4] == s[3] else Enabled(s[3], Unpin(d)) && s[4] == Next(s[3], Unpin(d)))
    && Gave(s[4], s[5], l) && Gave(s[5], s[6], d)
  }

  lemma InstallReleased(s2: Cache, s3: Cache, s4: Cache, s5: Cache, s6: Cache, l: nat, d: nat, recovering: bool)
    requires Wrote(s2, s3, l, d) && Gave(s4, s5, l) && Gave(s5, s6, d) && l != d
    requires if recovering then s4 == s3 else Enabled(s3, Unpin(d)) && s4 == Next(s3, Unpin(d))
    ensures AllReleased(s2, s6, l, d, if recovering then -1 else d)
    ensures s6.logged == if recovering then s2.logged else s2.logged - {s2.bufs[d].key}
    ensures s6.disk == s2.disk[s2.bufs[d].key := s2.bufs[l].data]
  {
    var pin := if recovering then -1 else d;
    forall b: nat | b < |s2.bufs| ensures BufReleased(s2, s6, l, d, pin, b) { }
  }

  lemma InstallRoundEffect(s: seq<Cache>, slot: Key, home: Key, l: nat, d: nat, recovering: bool)
    requires InstallRound(s, slot, home, l, d, recovering) && Inv(s[0]) && slot != home && slot !in s[0].logged
    ensures Calm(s[0], s[6]) && slot in s[0].disk
    ensures s[6].logged == if recovering then s[0].logged else s[0].logged - {home}
    ensures s[6].disk == s[0].disk[home := s[0].disk[slot]]
  {
    hide Inv, Wrote, Gave, Calm, SameRefs, AllHeld, AllReleased, Next, Enabled;
    GotBoth(s[0], s[1], s[2], slot, l, home, d);
    InstallReleased(s[2], s[3], s[4], s[5], s[6], l, d, recovering);
    HeldThenReleased(s[0], s[2], s[6], l, d, if recovering then -1 else d);
  }

  lemma HeadRound(s0: Cache, s1: Cache, s2: Cache, s3: Cache, k: Key, b: nat, h: Data)
    requires Inv(s0) && Got(s0, s1, k, b) && k !in s0.logged
    requires Enabled(s1, Modify(b, h)) && Enabled(Next(s1, Modify(b, h)), Bwrite(b))
    requires s2 == Next(Next(s1, Modify(b, h)), Bwrite(b)) && Gave(s2, s3, b)
    ensures Calm(s0, s3) && SameRefs(s0, s3) && s3.logged == s0.logged && s3.disk == s0.disk[k := h]
  {
    assert BufOk(s0, b);
    forall c: nat | c < |s0.bufs| ensures BufCalm(s0, s3, c) && s3.bufs[c].refcnt == s0.bufs[c].refcnt {
    }
    assert s3.uses == s0.uses;
  }

  // ----- Block writes -----

  /** Writes of the log, on the device it is on. */
  ghost function OnDevice(dev: nat, ws: seq<RedoLog.Write>): seq<BlockWrite> {
    seq(|ws|, i requires 0 <= i < |ws| => BlockWrite(Key(dev, ws[i].at), ws[i].data))
  }

  lemma OnDeviceStep(dev: nat, ws: seq<RedoLog.Write>, k: nat)
    requires k < |ws|
    ensures OnDevice(dev, ws[..k + 1]) == OnDevice(dev, ws[..k]) + [BlockWrite(Key(dev, ws[k].at), ws[k].data)]
  {
    assert ws[..k + 1] == ws[..k] + [ws[k]];
  }

  // ----- The transaction in the cache -----

  ghost predicate IsBlock(d: Data) { |d| == RedoLog.BLOCKWORDS }

  /** Where the log is: its device and its header block, which LOGBLOCKS slots follow. */
  datatype Place = Place(dev: nat, start: nat) {
    function Header(): Key { Key(dev, start) }

    function Slot(i: nat): Key { Key(dev, start + i + 1) }

    ghost predicate Has(k: Key) { k.dev == dev && start <= k.blockno <= start + LOGBLOCKS }
  }

  ghost predicate AreaOk(s: Cache, at: Place, k: Key) {
    at.Has(k) ==> k in s.disk && IsBlock(s.disk[k]) && k !in s.logged && NotHeld(s, k)
  }

  ghost predicate HomeOk(s: Cache, at: Place, k: Key) { !at.Has(k) && k in s.disk && NotHeld(s, k) }

  /** The log's blocks are on the disk and none is logged; nobody holds a buffer of these
      blocks or of the blocks `lh`. */
  ghost predicate Ready(s: Cache, at: Place, lh: seq<nat>) {
    && at.dev != 0 && |lh| <= LOGBLOCKS
    && (forall k {:trigger AreaOk(s, at, k)} :: AreaOk(s, at, k))
    && (forall i: nat {:trigger lh[i]} :: i < |lh| ==> HomeOk(s, at, Key(at.dev, lh[i])))
  }

  /** The blocks `lh` from position `from` on are what is logged. */
  ghost predicate Whole(logged: map<Key, Data>, at: Place, lh: seq<nat>, from: nat)
    requires from <= |lh|
  {
    && Distinct(lh)
    && (forall i :: from <= i < |lh| ==> Key(at.dev, lh[i]) in logged && IsBlock(logged[Key(at.dev, lh[i])]))
    && (forall k {:trigger k in logged} :: k in logged ==> k.dev == at.dev && k.blockno in lh[from..])
  }

  lemma WholeAt(logged: map<Key, Data>, at: Place, lh: seq<nat>, from: nat, i: nat)
    requires from <= i < |lh| && Whole(logged, at, lh, from)
    ensures Key(at.dev, lh[i]) in logged && IsBlock(logged[Key(at.dev, lh[i])])
  {
  }

  lemma WholeStep(logged: map<Key, Data>, at: Place, lh: seq<nat>, from: nat)
    requires from < |lh| && Whole(logged, at, lh, from)
    ensures Whole(logged - {Key(at.dev, lh[from])}, at, lh, from + 1)
  {
    assert lh[from..] == [lh[from]] + lh[from + 1..];
  }

  lemma WholeEnd(logged: map<Key, Data>, at: Place, lh: seq<nat>)
    requires Whole(logged, at, lh, |lh|)
    ensures logged == map[]
  {
    assert forall k :: k in logged ==> k.blockno in lh[|lh|..];
  }

  ghost function BlockOf(logged: map<Key, Data>, k: Key): RedoLog.Block
    requires k in logged && IsBlock(logged[k])
  {
    logged[k]
  }

  /** The transaction as RedoLog has it. */
  ghost function Transaction(logged: map<Key, Data>, at: Place, lh: seq<nat>): RedoLog.Tx
    requires Whole(logged, at, lh, 0)
  {
    RedoLog.Tx(lh, seq(|lh|, i requires 0 <= i < |lh| => BlockOf(logged, Key(at.dev, lh[i]))))
  }

  /** A round that changes block `k` of the disk, to a block if it is one of the log. */
  lemma StillReady(s: Cache, s': Cache, at: Place, lh: seq<nat>, k: Key)
    requires Inv(s) && Ready(s, at, lh) && Calm(s, s') && s'.logged.Keys <= s.logged.Keys
    requires k in s'.disk && s'.disk == s.disk[k := s'.disk[k]] && (at.Has(k) ==> IsBlock(s'.disk[k]))
    ensures Ready(s', at, lh)
  {
    forall j ensures AreaOk(s', at, j) {
      assert AreaOk(s, at, j);
      if at.Has(j) { CalmNotHeld(s, s', j); }
    }
    forall i: nat | i < |lh| ensures HomeOk(s', at, Key(at.dev, lh[i])) {
      CalmNotHeld(s, s', Key(at.dev, lh[i]));
    }
  }

  lemma RoundKeys(s: Cache, at: Place, lh: seq<nat>, i: nat)
    requires Ready(s, at, lh) && i < |lh|
    ensures var slot, home := at.Slot(i), Key(at.dev, lh[i]);
            && slot != home && at.Has(slot) && slot.dev != 0 && slot in s.disk && slot !in s.logged && NotHeld(s, slot)
            && IsBlock(s.disk[slot]) && home in s.disk && NotHeld(s, home) && !at.Has(home) && |lh| <= LOGBLOCKS
  {
    assert AreaOk(s, at, at.Slot(i));
  }

  lemma HeaderKey(s: Cache, at: Place, lh: seq<nat>)
    requires Ready(s, at, lh)
    ensures var k := at.Header();
            && at.Has(k) && k.dev != 0 && k in s.disk && k !in s.logged && NotHeld(s, k) && IsBlock(s.disk[k])
            && |lh| <= LOGBLOCKS
  {
    assert AreaOk(s, at, at.Header());
  }

  lemma StillNotHeld(s: Cache, s': Cache, k: Key, r: nat, j: Key)
    requires Got(s, s', k, r) && NotHeld(s, j) && j != k
    ensures NotHeld(s', j)
  {
  }

  lemma GotSame(s: Cache, s': Cache, k: Key, r: nat)
    requires Got(s, s', k, r)
    ensures s'.disk == s.disk && s'.logged == s.logged
  {
  }

  lemma LoggedCached(s: Cache, k: Key)
    requires Inv(s)
    ensures k in s.logged ==> Cached(s, k)
  {
    assert LogOk(s, k);
  }

  /** After both reads: two buffers, held and clean, each with the latest of its block. */
  ghost predicate BothHeld(s: Cache, s': Cache, j: Key, r: nat, k: Key, q: nat) {
    && r != q && r < |s'.bufs| == |s'.uses| && q < |s'.bufs|
    && s'.disk == s.disk && s'.logged == s.logged && Known(s, j) && Known(s, k)
    && s'.uses[r].held && s'.uses[q].held && !s'.uses[r].dirty && !s'.uses[q].dirty
    && s'.bufs[r].valid && s'.bufs[r].key == j && s'.bufs[r].data == Latest(s, j)
    && s'.bufs[q].valid && s'.bufs[q].key == k && s'.bufs[q].data == Latest(s, k)
  }

  lemma HoldsBoth(s: Cache, s1: Cache, s2: Cache, j: Key, r: nat, k: Key, q: nat)
    requires Got(s, s1, j, r) && Got(s1, s2, k, q) && j != k
    ensures BothHeld(s, s2, j, r, k, q)
  {
  }

  /** Both buffers can be released after the copy, in either order. */
  lemma ReleaseBoth(s: Cache, src: nat, dst: nat)
    requires Inv(s) && src != dst && src < |s.bufs| == |s.uses| && dst < |s.bufs|
    requires s.uses[src].held && s.uses[dst].held && !s.uses[src].dirty && !s.uses[dst].dirty
    ensures Enabled(s, Unlock(src)) && Enabled(s, Unlock(dst))
    ensures forall s' :: Gave(s, s', src) ==> Enabled(s', Unlock(dst))
    ensures forall s' :: Gave(s, s', dst) ==> Enabled(s', Unlock(src))
  {
  }

  lemma AfterWrote(s: Cache, s': Cache, src: nat, dst: nat)
    requires Wrote(s, s', src, dst) && src != dst
    ensures |s'.bufs| == |s.bufs| == |s'.uses| && s'.uses[src] == s.uses[src]
    ensures s'.uses[dst] == s.uses[dst].(dirty := false)
  {
  }

  lemma WroteHome(s: Cache, s': Cache, src: nat, dst: nat)
    requires Wrote(s, s', src, dst)
    ensures |s'.bufs| == |s.bufs| && s'.bufs[dst].key == s.bufs[dst].key && s'.logged == s.logged
    ensures s'.disk == s.disk[s.bufs[dst].key := s.bufs[src].data]
  {
  }

  /** bunpin is called where the home block already holds what was logged. */
  lemma UnpinReady(s: Cache, d: nat)
    requires Inv(s) && d < |s.bufs| && s.bufs[d].key in s.logged && s.bufs[d].key in s.disk
    requires s.disk[s.bufs[d].key] == s.logged[s.bufs[d].key]
    ensures Enabled(s, Unpin(d))
  {
    assert BufOk(s, d);
  }

  lemma AfterUnpin(s: Cache, d: nat)
    requires Enabled(s, Unpin(d))
    ensures Next(s, Unpin(d)).uses == s.uses && |Next(s, Unpin(d)).bufs| == |s.bufs|
  {
  }

  class CachedLog {
    const cache: BufferCache
    const at: Place
    /** The block numbers of the transaction. */
    var lh: seq<nat>

    ghost predicate Valid()
      reads this, cache, cache.buf, cache.next, cache.prev
    {
      cache.Valid() && Ready(cache.S(), at, lh)
    }

    constructor (cache: BufferCache, at: Place)
      requires cache.Valid() && at.dev != 0 && cache.logged == map[]
      requires forall k :: at.Has(k) ==> k in cache.disk && IsBlock(cache.disk[k]) && NotHeld(cache.S(), k)
      ensures Valid() && lh == [] && Whole(cache.logged, at, lh, 0) && this.cache == cache && this.at == at
    {
      this.cache, this.at, lh := cache, at, [];
      new;
      forall k ensures AreaOk(cache.S(), at, k) { }
    }

    /** memmove from one held buffer to another, and bwrite. */
    method CopyOut(src: nat, dst: nat)
      requires cache.Valid() && src < cache.n && dst < cache.n && |cache.uses| == cache.n && src != dst
      requires cache.uses[dst].held && cache.buf[dst].valid
      requires cache.buf[dst].key in cache.logged ==> cache.logged[cache.buf[dst].key] == cache.buf[src].data
      modifies cache, cache.buf
      ensures cache.Valid()
      ensures Wrote(old(cache.S()), cache.S(), src, dst)
      ensures cache.writes == old(cache.writes) + [BlockWrite(old(cache.buf[dst]).key, old(cache.buf[src]).data)]
    {
      hide Inv, BufferCache.ListOk;
      cache.Change(dst, cache.buf[src].data);
      cache.Bwrite(dst);
    }

    /** bread of the log block and of the home block of round `tail`; false where one of
        them panics. */
    method ReadBoth(tail: nat) returns (ok: bool, l: nat, d: nat, ghost mid: Cache)
      requires Valid() && tail < |lh|
      modifies cache, cache.buf
      ensures cache.Valid() && cache.disk == old(cache.disk) && cache.writes == old(cache.writes)
      ensures cache.logged == old(cache.logged)
      ensures var s, slot, home := old(cache.S()), at.Slot(tail), Key(at.dev, lh[tail]);
              && (!CanRead(s, slot) ==> !ok && cache.S() == s)
              && (!ok && CanRead(s, slot) ==> Got(s, mid, slot, l) && !CanRead(mid, home) && home !in s.logged)
              && (ok ==> l < cache.n && d < cache.n && Got(s, mid, slot, l) && Got(mid, cache.S(), home, d))
    {
      hide Inv, BufferCache.ListOk, Ready, Got;
      ghost var s0, slot, home := cache.S(), at.Slot(tail), Key(at.dev, lh[tail]);
      RoundKeys(s0, at, lh, tail);
      l, d := 0, 0;
      var r := cache.BreadBlock(at.Slot(tail));
      mid := cache.S();
      if r == -1 {
        return false, l, d, mid;
      }
      l := r;
      GotSame(s0, mid, slot, r);
      StillNotHeld(s0, mid, slot, r, home);
      LoggedCached(mid, home);
      var q := cache.BreadBlock(Key(at.dev, lh[tail]));
      if q == -1 {
        return false, l, d, mid;
      }
      GotSame(mid, cache.S(), home, q);
      ok, d := true, q;
    }

    /** brelse of two buffers. */
    method GiveBoth(x: nat, y: nat) returns (ghost mid: Cache)
      requires cache.Valid() && x < cache.n && y < cache.n && x != y && |cache.uses| == cache.n
      requires cache.uses[x].held && cache.uses[y].held && !cache.uses[x].dirty && !cache.uses[y].dirty
      modifies cache, cache.buf, cache.next, cache.prev
      ensures cache.Valid() && cache.writes == old(cache.writes)
      ensures Gave(old(cache.S()), mid, x) && Gave(mid, cache.S(), y)
    {
      hide Inv, BufferCache.ListOk, Next, Gave;
      ReleaseBoth(cache.S(), x, y);
      ghost var s := cache.S();
      cache.Brelse(x);
      mid := cache.S();
      GaveIs(s, mid, x);
      cache.Brelse(y);
      GaveIs(mid, cache.S(), y);
    }

    /** One round of write_log; false where bread panics. */
    method SaveBlock(tail: nat) returns (ok: bool)
      requires Valid() && tail < |lh| && Whole(cache.logged, at, lh, 0)
      modifies cache, cache.buf, cache.next, cache.prev
      ensures Valid() && cache.logged == old(cache.logged)
      ensures ok <==> CanRead(old(cache.S()), at.Slot(tail))
      ensures Calm(old(cache.S()), cache.S()) && SameRefs(old(cache.S()), cache.S())
      ensures !ok ==> cache.disk == old(cache.disk) && cache.writes == old(cache.writes)
      ensures ok ==>
                var d := cache.logged[Key(at.dev, lh[tail])];
                && cache.disk == old(cache.disk)[at.Slot(tail) := d]
                && cache.writes == old(cache.writes) + [BlockWrite(at.Slot(tail), d)]
    {
      hide Inv, BufferCache.ListOk, Calm, SameRefs, Ready, Got, Gave, Wrote;
      ghost var s0, slot, home := cache.S(), at.Slot(tail), Key(at.dev, lh[tail]);
      RoundKeys(s0, at, lh, tail);
      CalmRefl(s0);
      var got, to, from;
      ghost var s1;
      got, to, from, s1 := ReadBoth(tail);
      if !got {
        return false;
      }
      ghost var s2 := cache.S();
      HoldsBoth(s0, s1, s2, slot, to, home, from);
      CopyOut(from, to);
      ghost var s3 := cache.S();
      AfterWrote(s2, s3, from, to);
      ghost var s4 := GiveBoth(from, to);
      SaveRoundEffect([s0, s1, s2, s3, s4, cache.S()], slot, home, to, from);
      StillReady(s0, cache.S(), at, lh, slot);
      ok := true;
    }

    /** write_log: exactly if every log block can be read, each then holds the contents
        logged for its block. */
    method WriteLog() returns (ok: bool)
      requires Valid() && Whole(cache.logged, at, lh, 0)
      modifies cache, cache.buf, cache.next, cache.prev
      ensures Valid() && cache.logged == old(cache.logged)
      ensures ok <==> AllReadable(old(cache.S()), at, |lh|)
      ensures Calm(old(cache.S()), cache.S()) && SameRefs(old(cache.S()), cache.S())
      ensures ok ==> Saved(old(cache.disk), cache.S(), at, lh, |lh|)
      ensures ok ==>
                cache.writes ==
                old(cache.writes) + OnDevice(at.dev, RedoLog.LogPart(at.start, Transaction(cache.logged, at, lh)))
    {
      hide Inv, BufferCache.ListOk, Calm, SameRefs, Ready, CanRead, Saved, Whole;
      ghost var s0, ws := cache.S(), RedoLog.LogPart(at.start, Transaction(cache.logged, at, lh));
      StepSize(s0);
      CalmRefl(s0);
      SavedNone(s0, at, lh);
      for tail := 0 to |lh|
        invariant Valid() && cache.logged == s0.logged && Calm(s0, cache.S()) && SameRefs(s0, cache.S())
        invariant AllReadable(s0, at, tail)
        invariant Saved(s0.disk, cache.S(), at, lh, tail)
        invariant cache.writes == old(cache.writes) + OnDevice(at.dev, ws[..tail])
      {
        ghost var s := cache.S();
        RoundKeys(s0, at, lh, tail);
        WholeAt(s0.logged, at, lh, 0, tail);
        ok := SaveBlock(tail);
        CalmTrans(s0, s, cache.S());
        if !ok {
          StillUnreadable(s0, s, at.Slot(tail));
          return;
        }
        CouldRead(s0, s, at.Slot(tail));
        SavedStep(s0.disk, s, cache.S(), at, lh, tail);
        OnDeviceStep(at.dev, ws, tail);
      }
      assert ws[..|lh|] == ws;
      ok := true;
    }

    /** install_trans. After write_log every block goes to its home and is unpinned, and
        no reader sees a difference; in recovery the blocks are written only. */
    method InstallTrans(recovering: bool) returns (ok: bool)
      requires Valid() && if recovering then cache.logged == map[] else Pending(cache.S(), at, lh, 0)
      modifies cache, cache.buf, cache.next, cache.prev
      ensures AllReadable(old(cache.S()), at, |lh|) && !recovering ==> ok
      ensures ok ==> Valid() && Calm(old(cache.S()), cache.S()) && cache.logged == map[]
      ensures ok ==> SameLog(old(cache.S()), cache.S(), at) && (!recovering ==> SameLatest(old(cache.S()), cache.S()))
      ensures ok ==>
                cache.writes ==
                old(cache.writes) + OnDevice(at.dev, RedoLog.InstallPart(OnDisk(old(cache.S()), at, lh)))
    {
      hide Inv, BufferCache.ListOk, Calm, Ready, CanRead, Pending, SameLatest, SameLog;
      ghost var s0, ws := cache.S(), RedoLog.InstallPart(OnDisk(cache.S(), at, lh));
      StepSize(s0);
      CalmRefl(s0);
      SameRefl(s0, at);
      for tail := 0 to |lh|
        invariant Valid() && Calm(s0, cache.S()) && SameLog(s0, cache.S(), at)
        invariant if recovering then cache.logged == map[]
                  else Pending(cache.S(), at, lh, tail) && SameLatest(s0, cache.S())
        invariant cache.writes == old(cache.writes) + OnDevice(at.dev, ws[..tail])
      {
        ghost var s := cache.S();
        RoundKeys(s0, at, lh, tail);
        RoundKeys(s, at, lh, tail);
        SlotKept(s0, s, at, tail);
        if !recovering {
          PendingAt(s, at, lh, tail, tail);
        }
        ok := InstallBlock(tail, recovering);
        if !ok {
          Unreadable(s0, s, at, |lh|, tail);
          return;
        }
        CalmTrans(s0, s, cache.S());
        HomeWritten(s0, s, cache.S(), at, Key(at.dev, lh[tail]));
        if !recovering {
          Installed(s0, s, cache.S(), at, lh, tail);
        }
        OnDeviceStep(at.dev, ws, tail);
      }
      if !recovering {
        NonePending(cache.S(), at, lh);
      }
      assert ws[..|lh|] == ws;
      ok := true;
    }

    /** One round of install_trans; false where bread panics. */
    method InstallBlock(tail: nat, recovering: bool) returns (ok: bool)
      requires Valid() && tail < |lh|
      requires var slot, home := at.Slot(tail), Key(at.dev, lh[tail]);
               && (!recovering ==> home in cache.logged)
               && (home in cache.logged ==> slot in cache.disk && cache.disk[slot] == cache.logged[home])
      modifies cache, cache.buf, cache.next, cache.prev
      ensures !ok ==> !CanRead(old(cache.S()), at.Slot(tail)) || recovering
      ensures ok ==> Valid() && Calm(old(cache.S()), cache.S())
      ensures ok ==>
                var slot, home := at.Slot(tail), Key(at.dev, lh[tail]);
                && slot in old(cache.disk)
                && cache.disk == old(cache.disk)[home := old(cache.disk)[slot]]
                && cache.writes == old(cache.writes) + [BlockWrite(home, old(cache.disk)[slot])]
                && cache.logged == if recovering then old(cache.logged) else old(cache.logged) - {home}
    {
      hide Inv, BufferCache.ListOk, Calm, Ready, Got, Gave, Wrote, Next, CanRead;
      ghost var s0, slot, home := cache.S(), at.Slot(tail), Key(at.dev, lh[tail]);
      RoundKeys(s0, at, lh, tail);
      var got, l, d;
      ghost var s1;
      got, l, d, s1 := ReadBoth(tail);
      if !got {
        return false;
      }
      ghost var s2 := cache.S();
      HoldsBoth(s0, s1, s2, slot, l, home, d);
      CopyOut(l, d);
      ghost var s3 := cache.S();
      AfterWrote(s2, s3, l, d);
      WroteHome(s2, s3, l, d);
      if !recovering {
        UnpinReady(s3, d);
        cache.Bunpin(d);
        AfterUnpin(s3, d);
      }
      ghost var s4 := cache.S();
      ghost var s5 := GiveBoth(l, d);
      InstallRoundEffect([s0, s1, s2, s3, s4, s5, cache.S()], slot, home, l, d, recovering);
      StillReady(s0, cache.S(), at, lh, home);
      ok := true;
    }

    /** write_head; false where bread panics. */
    method WriteHead() returns (ok: bool)
      requires Valid()
      modifies cache, cache.buf, cache.next, cache.prev
      ensures Valid() && cache.logged == old(cache.logged)
      ensures ok <==> CanRead(old(cache.S()), at.Header())
      ensures Calm(old(cache.S()), cache.S()) && SameRefs(old(cache.S()), cache.S())
      ensures at.Header() in old(cache.disk) && IsBlock(old(cache.disk)[at.Header()])
      ensures ok ==>
                var h := RedoLog.PutHeader(old(cache.disk)[at.Header()], lh);
                && cache.disk == old(cache.disk)[at.Header() := h]
                && cache.writes == old(cache.writes) + [BlockWrite(at.Header(), h)]
    {
      hide Inv, BufferCache.ListOk, Calm, SameRefs, Ready, Gave;
      ghost var s0, k := cache.S(), at.Header();
      HeaderKey(s0, at, lh);
      CalmRefl(s0);
      var b := cache.BreadBlock(at.Header());
      if b == -1 {
        return false;
      }
      ghost var s1 := cache.S();
      var h := RedoLog.PutHeader(cache.buf[b].data, lh);
      cache.Change(b, h);
      cache.Bwrite(b);
      ghost var s2 := cache.S();
      cache.Brelse(b);
      GaveIs(s2, cache.S(), b);
      HeadRound(s0, s1, s2, cache.S(), k, b, h);
      StillReady(s0, cache.S(), at, lh, k);
      ok := true;
    }

    /** The first half of commit: write_log and the header write that commits. */
    method Publish() returns (ok: bool)
      requires Valid() && Whole(cache.logged, at, lh, 0)
      modifies cache, cache.buf, cache.next, cache.prev
      ensures Valid() && cache.logged == old(cache.logged)
      ensures ok <==> LogReadable(old(cache.S()), at, |lh|)
      ensures Calm(old(cache.S()), cache.S()) && SameRefs(old(cache.S()), cache.S())
      ensures at.Header() in old(cache.disk) && IsBlock(old(cache.disk)[at.Header()]) && at.Header() in cache.disk
      ensures ok ==> Pending(cache.S(), at, lh, 0) && SameHomes(old(cache.S()), cache.S(), at)
      ensures ok ==>
                var h := RedoLog.PutHeader(old(cache.disk)[at.Header()], lh);
                && cache.disk[at.Header()] == h
                && cache.writes ==
                   old(cache.writes)
                   + OnDevice(at.dev, RedoLog.LogPart(at.start, Transaction(cache.logged, at, lh)))
                   + [BlockWrite(at.Header(), h)]
    {
      hide Inv, BufferCache.ListOk, Calm, SameRefs, Ready, Saved, Whole, Pending, CanRead, SameHomes;
      ghost var s0 := cache.S();
      HeaderKey(s0, at, lh);
      ok := WriteLog();
      ghost var s1 := cache.S();
      HeaderKey(s1, at, lh);
      if !ok {
        return;
      }
      ok := WriteHead();
      CalmTrans(s0, s1, cache.S());
      HeaderKey(cache.S(), at, lh);
      if !ok {
        StillUnreadable(s0, s1, at.Header());
        return;
      }
      CouldRead(s0, s1, at.Header());
      Published(s0, s1, cache.S(), at, lh);
    }

    /** The second half: install_trans and the header write that erases. */
    method Retire() returns (ok: bool)
      requires Valid() && Pending(cache.S(), at, lh, 0)
      modifies this`lh, cache, cache.buf, cache.next, cache.prev
      ensures LogReadable(old(cache.S()), at, old(|lh|)) ==> ok
      ensures ok ==> Valid() && lh == [] && cache.logged == map[] && Calm(old(cache.S()), cache.S())
      ensures ok ==> SameHomes(old(cache.S()), cache.S(), at)
      ensures at.Header() in old(cache.disk) && IsBlock(old(cache.disk)[at.Header()])
      ensures ok ==>
                cache.writes ==
                old(cache.writes) + OnDevice(at.dev, RedoLog.InstallPart(OnDisk(old(cache.S()), at, old(lh))))
                + [BlockWrite(at.Header(), RedoLog.PutHeader(old(cache.disk)[at.Header()], []))]
    {
      hide Inv, BufferCache.ListOk, Calm, SameRefs, Ready, Pending, CanRead, SameHomes, SameLatest, SameLog;
      ghost var s0 := cache.S();
      HeaderKey(s0, at, lh);
      ok := InstallTrans(false);
      if !ok {
        return;
      }
      ghost var s1 := cache.S();
      HeaderSame(s0, s1, at);
      NoBlocks(s1, at, lh);
      lh := [];
      ok := WriteHead();
      CalmTrans(s0, s1, cache.S());
      if !ok {
        StillUnreadable(s0, s1, at.Header());
        return;
      }
      Retired(s0, s1, cache.S(), at);
    }

    /** commit: exactly if the log's blocks can be read, every block of the transaction
        reaches its home, nothing is pinned any more, no reader of a home block sees a
        difference, and the block writes are those RedoLog proves atomic. */
    method Commit() returns (ok: bool)
      requires Valid() && Whole(cache.logged, at, lh, 0)
      modifies this`lh, cache, cache.buf, cache.next, cache.prev
      ensures ok <==> old(lh) == [] || LogReadable(old(cache.S()), at, old(|lh|))
      ensures ok ==> Valid() && lh == [] && cache.logged == map[] && Calm(old(cache.S()), cache.S())
      ensures ok ==> SameHomes(old(cache.S()), cache.S(), at)
      ensures at.Header() in old(cache.disk) && IsBlock(old(cache.disk)[at.Header()])
      ensures |old(lh)| <= LOGBLOCKS
      ensures ok ==>
                cache.writes ==
                old(cache.writes)
                + OnDevice(at.dev, RedoLog.CommitWrites(at.start, old(cache.disk)[at.Header()],
                                                        Transaction(old(cache.logged), at, old(lh))))
    {
      hide Inv, BufferCache.ListOk, Calm, SameRefs, Ready, Pending, CanRead, SameHomes;
      ghost var s0, lh0, w0 := cache.S(), lh, cache.writes;
      ghost var tx := Transaction(s0.logged, at, lh);
      HeaderKey(s0, at, lh);
      if |lh| > 0 {
        ok := Publish();
        if !ok {
          return;
        }
        ghost var s1, w1 := cache.S(), cache.writes;
        StillReadable(s0, s1, at, lh);
        SlotsAreLogged(s1, at, lh);
        ok := Retire();
        CalmTrans(s0, s1, cache.S());
        SameHomesTrans(s0, s1, cache.S(), at);
        CommitParts(at, s0.disk[at.Header()], tx);
      } else {
        NothingLogged(s0, at, lh);
        ok := true;
      }
    }
  }

  /** The first `n` log blocks hold what is logged; all other blocks are as in `disk`. */
  ghost predicate Saved(disk: map<Key, Data>, s: Cache, at: Place, lh: seq<nat>, n: nat) {
    && n <= |lh| && s.disk.Keys == disk.Keys
    && (forall i :: 0 <= i < n ==>
          && at.Slot(i) in s.disk && Key(at.dev, lh[i]) in s.logged
          && s.disk[at.Slot(i)] == s.logged[Key(at.dev, lh[i])])
    && (forall k :: k in disk && !(k.dev == at.dev && at.start < k.blockno <= at.start + n) ==> s.disk[k] == disk[k])
  }

  lemma SavedNone(s: Cache, at: Place, lh: seq<nat>)
    ensures Saved(s.disk, s, at, lh, 0)
  {
  }

  lemma SavedStep(disk: map<Key, Data>, s: Cache, s': Cache, at: Place, lh: seq<nat>, n: nat)
    requires Saved(disk, s, at, lh, n) && n < |lh| && Key(at.dev, lh[n]) in s.logged && at.Slot(n) in disk
    requires s'.logged == s.logged && s'.disk == s.disk[at.Slot(n) := s.logged[Key(at.dev, lh[n])]]
    ensures Saved(disk, s', at, lh, n + 1)
  {
  }

  lemma StillUnreadable(s: Cache, s': Cache, k: Key)
    requires Inv(s) && Calm(s, s') && k !in s.logged && !CanRead(s', k)
    ensures !CanRead(s, k)
  {
    if CanRead(s, k) {
      CalmCanRead(s, s', k);
    }
  }

  ghost predicate AllReadable(s: Cache, at: Place, n: nat) {
    forall i: nat {:trigger at.Slot(i)} :: i < n ==> CanRead(s, at.Slot(i))
  }

  /** The blocks from position `from` on are what is logged, and the log blocks hold it. */
  ghost predicate Pending(s: Cache, at: Place, lh: seq<nat>, from: nat) {
    && from <= |lh| && Whole(s.logged, at, lh, from)
    && forall i: nat {:trigger lh[i]} {:trigger at.Slot(i)} :: from <= i < |lh| ==>
         at.Slot(i) in s.disk && s.disk[at.Slot(i)] == s.logged[Key(at.dev, lh[i])]
  }

  lemma PendingAt(s: Cache, at: Place, lh: seq<nat>, from: nat, i: nat)
    requires Pending(s, at, lh, from) && from <= i < |lh|
    ensures at.Slot(i) in s.disk && Key(at.dev, lh[i]) in s.logged && s.disk[at.Slot(i)] == s.logged[Key(at.dev, lh[i])]
  {
  }

  lemma NonePending(s: Cache, at: Place, lh: seq<nat>)
    requires Pending(s, at, lh, |lh|)
    ensures s.logged == map[]
  {
    WholeEnd(s.logged, at, lh);
  }

  ghost function SlotBlock(s: Cache, at: Place, i: nat): RedoLog.Block
    requires i < LOGBLOCKS && AreaOk(s, at, at.Slot(i))
  {
    s.disk[at.Slot(i)]
  }

  /** The transaction as the log blocks on disk have it. */
  ghost function OnDisk(s: Cache, at: Place, lh: seq<nat>): RedoLog.Tx
    requires Ready(s, at, lh)
  {
    RedoLog.Tx(lh, seq(|lh|, i requires 0 <= i < |lh| => SlotBlock(s, at, i)))
  }

  lemma SlotKept(s: Cache, s': Cache, at: Place, i: nat)
    requires SameLog(s, s', at) && at.Slot(i) in s.disk && at.Has(at.Slot(i))
    ensures at.Slot(i) in s'.disk && s'.disk[at.Slot(i)] == s.disk[at.Slot(i)]
  {
  }

  lemma Unreadable(s: Cache, s': Cache, at: Place, n: nat, i: nat)
    requires Inv(s) && Calm(s, s') && i < n && at.Slot(i) !in s.logged
    ensures !CanRead(s', at.Slot(i)) ==> !AllReadable(s, at, n)
  {
    if !CanRead(s', at.Slot(i)) {
      StillUnreadable(s, s', at.Slot(i));
    }
  }

  /** Readers see what they saw. */
  ghost predicate SameLatest(s: Cache, s': Cache) {
    forall k {:trigger Known(s, k)} :: Known(s, k) ==> Known(s', k) && Latest(s', k) == Latest(s, k)
  }

  ghost predicate SameLog(s: Cache, s': Cache, at: Place) {
    forall k {:trigger k in s.disk} :: k in s.disk && at.Has(k) ==> k in s'.disk && s'.disk[k] == s.disk[k]
  }

  lemma SameRefl(s: Cache, at: Place)
    ensures SameLatest(s, s) && SameLog(s, s, at)
  {
  }

  lemma HomeWritten(s0: Cache, s: Cache, s': Cache, at: Place, home: Key)
    requires SameLog(s0, s, at) && !at.Has(home) && home in s'.disk && s'.disk == s.disk[home := s'.disk[home]]
    ensures SameLog(s0, s', at)
  {
  }

  lemma Installed(s0: Cache, s: Cache, s': Cache, at: Place, lh: seq<nat>, i: nat)
    requires Pending(s, at, lh, i) && i < |lh| <= LOGBLOCKS && SameLatest(s0, s)
    requires var slot, home := at.Slot(i), Key(at.dev, lh[i]);
             && !at.Has(home) && slot in s.disk
             && s'.logged == s.logged - {home} && s'.disk == s.disk[home := s.disk[slot]]
    ensures Pending(s', at, lh, i + 1) && SameLatest(s0, s')
  {
    WholeStep(s.logged, at, lh, i);
    forall k | Known(s0, k) ensures Known(s', k) && Latest(s', k) == Latest(s0, k) { assert Known(s, k); }
    forall j | i + 1 <= j < |lh|
      ensures at.Slot(j) in s'.disk && s'.disk[at.Slot(j)] == s'.logged[Key(at.dev, lh[j])]
    {
      assert lh[j] != lh[i] && at.Has(at.Slot(j));
    }
  }

  /** Can commit read the header and the first `n` log blocks? */
  ghost predicate LogReadable(s: Cache, at: Place, n: nat) { CanRead(s, at.Header()) && AllReadable(s, at, n) }

  /** Readers of blocks outside the log see what they saw. */
  ghost predicate SameHomes(s: Cache, s': Cache, at: Place) {
    forall k {:trigger Known(s, k)} :: Known(s, k) && !at.Has(k) ==> Known(s', k) && Latest(s', k) == Latest(s, k)
  }

  lemma SameHomesTrans(s: Cache, s1: Cache, s2: Cache, at: Place)
    ensures SameHomes(s, s1, at) && SameHomes(s1, s2, at) ==> SameHomes(s, s2, at)
  {
    if SameHomes(s, s1, at) && SameHomes(s1, s2, at) {
      forall k | Known(s, k) && !at.Has(k) ensures Known(s2, k) && Latest(s2, k) == Latest(s, k) {
        assert Known(s1, k);
      }
    }
  }

  lemma Published(s: Cache, s1: Cache, s2: Cache, at: Place, lh: seq<nat>)
    requires Whole(s.logged, at, lh, 0) && Saved(s.disk, s1, at, lh, |lh|) && |lh| <= LOGBLOCKS
    requires s1.logged == s.logged == s2.logged && at.Header() in s2.disk
    requires s2.disk == s1.disk[at.Header() := s2.disk[at.Header()]]
    ensures at.Header() in s.disk ==> s1.disk[at.Header()] == s.disk[at.Header()]
    ensures Pending(s2, at, lh, 0) && SameHomes(s, s2, at)
  {
  }

  lemma HeaderSame(s: Cache, s': Cache, at: Place)
    requires SameLog(s, s', at) && at.Header() in s.disk
    ensures at.Header() in s'.disk && s'.disk[at.Header()] == s.disk[at.Header()]
  {
  }

  lemma NoBlocks(s: Cache, at: Place, lh: seq<nat>)
    requires Ready(s, at, lh)
    ensures Ready(s, at, [])
  {
  }

  lemma Retired(s: Cache, s1: Cache, s2: Cache, at: Place)
    requires SameLatest(s, s1) && s1.logged == s2.logged == map[] && at.Header() in s2.disk
    requires s2.disk == s1.disk[at.Header() := s2.disk[at.Header()]]
    ensures SameHomes(s, s2, at)
  {
    forall k | Known(s, k) && !at.Has(k) ensures Known(s2, k) && Latest(s2, k) == Latest(s, k) { assert Known(s1, k); }
  }

  lemma StillReadable(s: Cache, s': Cache, at: Place, lh: seq<nat>)
    requires Inv(s) && Calm(s, s') && Ready(s, at, lh) && LogReadable(s, at, |lh|)
    ensures LogReadable(s', at, |lh|)
  {
    HeaderKey(s, at, lh);
    CalmCanRead(s, s', at.Header());
    forall i: nat | i < |lh| ensures CanRead(s', at.Slot(i)) {
      RoundKeys(s, at, lh, i);
      CalmCanRead(s, s', at.Slot(i));
    }
  }

  lemma SlotsAreLogged(s: Cache, at: Place, lh: seq<nat>)
    requires Ready(s, at, lh) && Pending(s, at, lh, 0)
    ensures Whole(s.logged, at, lh, 0) && OnDisk(s, at, lh) == Transaction(s.logged, at, lh)
  {
    forall i | 0 <= i < |lh| ensures OnDisk(s, at, lh).data[i] == Transaction(s.logged, at, lh).data[i] {
      PendingAt(s, at, lh, 0, i);
    }
  }

  lemma CommitParts(at: Place, hb: RedoLog.Block, tx: RedoLog.Tx)
    requires 0 < |tx.lh| == |tx.data| <= LOGBLOCKS
    ensures var h := RedoLog.PutHeader(hb, tx.lh);
            OnDevice(at.dev, RedoLog.CommitWrites(at.start, hb, tx)) ==
            OnDevice(at.dev, RedoLog.LogPart(at.start, tx)) + [BlockWrite(at.Header(), h)]
            + OnDevice(at.dev, RedoLog.InstallPart(tx)) + [BlockWrite(at.Header(), RedoLog.PutHeader(h, []))]
  {
  }

  lemma NothingLogged(s: Cache, at: Place, lh: seq<nat>)
    requires Whole(s.logged, at, lh, 0) && lh == [] && |s.bufs| == |s.uses|
    ensures s.logged == map[] && Calm(s, s) && SameHomes(s, s, at)
  {
    WholeEnd(s.logged, at, lh);
    CalmRefl(s);
  }

  // ----- When commit finds the buffers it needs -----

  ghost predicate NoUsers(s: Cache) { forall b :: 0 <= b < |s.uses| ==> s.uses[b].users == 0 }

  ghost function Keys(s: Cache): set<Key> { set b | 0 <= b < |s.bufs| :: s.bufs[b].key }

  ghost function Homes(at: Place, lh: seq<nat>): set<Key> { set i | 0 <= i < |lh| :: Key(at.dev, lh[i]) }

  lemma HomesSize(at: Place, lh: seq<nat>)
    requires Distinct(lh)
    ensures |Homes(at, lh)| == |lh|
  {
    var f := map i | i in Below(|lh|) :: Key(at.dev, lh[i]);
    forall k | k in Homes(at, lh) ensures exists i :: i in Below(|lh|) && f[i] == k {
      var i :| 0 <= i < |lh| && Key(at.dev, lh[i]) == k;
      assert f[i] == k;
    }
    ImageSize(Below(|lh|), f, Homes(at, lh));
  }

  lemma KeysSize(s: Cache)
    requires Inv(s) && forall b :: 0 <= b < |s.bufs| ==> s.bufs[b].key.dev != 0
    ensures |Keys(s)| == |s.bufs|
  {
    var f := map b | b in Below(|s.bufs|) :: s.bufs[b].key;
    forall a, b | a in f && b in f && a != b ensures f[a] != f[b] { assert Apart(s, a, b); }
    forall k | k in Keys(s) ensures exists b :: b in Below(|s.bufs|) && f[b] == k {
      var b :| 0 <= b < |s.bufs| && s.bufs[b].key == k;
      assert f[b] == k;
    }
    ImageSize(Below(|s.bufs|), f, Keys(s));
  }

  /** With nobody else at a buffer, commit goes through exactly if the transaction leaves a
      buffer unpinned. */
  lemma CommitHasRoom(s: Cache, at: Place, lh: seq<nat>)
    requires Inv(s) && Ready(s, at, lh) && Whole(s.logged, at, lh, 0) && NoUsers(s)
    ensures LogReadable(s, at, |lh|) <==> |lh| < |s.bufs|
  {
    HomesSize(at, lh);
    HeaderKey(s, at, lh);
    if |lh| < |s.bufs| {
      LeavesOneFree(s, at, lh);
    } else {
      AllPinned(s, at, lh);
    }
  }

  /** The cache has no more buffers than the log has blocks, so a full log stops commit. */
  lemma FullLogStopsCommit(s: Cache, at: Place, lh: seq<nat>)
    requires Inv(s) && Ready(s, at, lh) && Whole(s.logged, at, lh, 0) && |s.bufs| == NBUF && |lh| == LOGBLOCKS
    ensures !LogReadable(s, at, |lh|)
  {
    HomesSize(at, lh);
    HeaderKey(s, at, lh);
    AllPinned(s, at, lh);
  }

  lemma LeavesOneFree(s: Cache, at: Place, lh: seq<nat>)
    requires Inv(s) && Whole(s.logged, at, lh, 0) && NoUsers(s) && |Homes(at, lh)| < |s.bufs|
    ensures SomeFree(s)
  {
    if !SomeFree(s) {
      forall b: nat | b < |s.bufs| ensures s.bufs[b].key in s.logged && s.bufs[b].key.dev != 0 { assert BufOk(s, b); }
      KeysSize(s);
      forall k | k in Keys(s) ensures k in Homes(at, lh) {
        var i :| 0 <= i < |lh| && lh[i] == k.blockno;
        assert Key(at.dev, lh[i]) == k;
      }
      SubsetSize(Keys(s), Homes(at, lh));
    }
  }

  ghost function Pinned(s: Cache): set<int> { set b | 0 <= b < |s.bufs| && s.bufs[b].key in s.logged }

  lemma PinnedSize(s: Cache, at: Place, lh: seq<nat>)
    requires Inv(s) && Whole(s.logged, at, lh, 0)
    ensures |Pinned(s)| == |Homes(at, lh)|
  {
    var f := map b | b in Pinned(s) :: s.bufs[b].key;
    forall a, b | a in f && b in f && a != b ensures f[a] != f[b] {
      assert Apart(s, a, b) && LogOk(s, s.bufs[a].key);
    }
    forall k | k in Homes(at, lh) ensures exists b :: b in Pinned(s) && f[b] == k {
      LoggedCached(s, k);
      var b :| 0 <= b < |s.bufs| && s.bufs[b].key == k;
      assert f[b] == k;
    }
    forall b | b in Pinned(s) ensures f[b] in Homes(at, lh) {
      var k := f[b];
      var i :| 0 <= i < |lh| && lh[i] == k.blockno;
      assert Key(at.dev, lh[i]) == k;
    }
    ImageSize(Pinned(s), f, Homes(at, lh));
  }

  lemma AllPinned(s: Cache, at: Place, lh: seq<nat>)
    requires Inv(s) && Whole(s.logged, at, lh, 0) && |Homes(at, lh)| >= |s.bufs| && at.Header() !in s.logged
    ensures !CanRead(s, at.Header())
  {
    PinnedSize(s, at, lh);
    AllOf(Pinned(s), |s.bufs|);
    forall b: nat | b < |s.bufs| ensures s.bufs[b].refcnt > 0 && s.bufs[b].key != at.Header() {
      assert b in Pinned(s) && BufOk(s, b);
    }
  }

  lemma AllOf(a: set<int>, n: nat)
    requires (forall x :: x in a ==> 0 <= x < n) && |a| >= n
    ensures forall x :: 0 <= x < n ==> x in a
  {
    var all := set x: int | x in Below(n);
    assert all == Below(n);
    forall x | 0 <= x < n ensures x in a {
      if x !in a {
        SubsetSize(a, all - {x});
      }
    }
  }
}
