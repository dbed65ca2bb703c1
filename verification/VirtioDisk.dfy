/** The driver half of kernel/virtio_disk.c on the queue's arrays. */
module VirtioDisk {
  import opened VirtQueue

  class Disk {
    const free: array<bool>
    const desc: array<Desc>
    const ops: array<Op>
    const info: array<Info>
    const avail: array<nat>
    const used: array<nat>
    var availIdx: Counter
    var usedIdx: Counter
    var usedSeen: Counter
    var devSeen: Counter
    var busy: set<int>
    /** The contents of the buffers, and the bytes on the disk. */
    var data: map<int, seq<int>>
    var media: seq<int>
    ghost var reqs: map<nat, Request>
    ghost var own: seq<nat>
    ghost var availQ: seq<nat>
    ghost var usedQ: seq<nat>

    ghost predicate Sizes()
      reads this
    {
      free.Length == desc.Length == ops.Length == info.Length == avail.Length == used.Length == 8 && avail != used
    }

    ghost function Q(): Queue
      reads this, free, desc, ops, info, avail, used
    {
      Queue(free[..], desc[..], ops[..], info[..], data, media, avail[..], availIdx, devSeen,
            used[..], usedIdx, usedSeen, busy, reqs, own, availQ, usedQ)
    }

    ghost predicate Valid()
      reads this, free, desc, ops, info, avail, used
    {
      Sizes() && Inv(Q())
    }

    /** The queue as initialised: all descriptors free, both rings empty. */
    constructor (data: map<int, seq<int>>, media: seq<int>)
      ensures Valid() && fresh(free) && fresh(desc) && fresh(ops) && fresh(info) && fresh(avail) && fresh(used)
      ensures reqs == map[] && busy == {} && this.data == data && this.media == media
      ensures forall d :: 0 <= d < 8 ==> free[d]
    {
      free := new bool[8](_ => true);
      desc := new Desc[8](_ => CLEAR);
      ops := new Op[8](_ => Op(0, 0));
      info := new Info[8](_ => Info(0, 0));
      this.data, this.media := data, media;
      avail := new nat[8](_ => 0);
      used := new nat[8](_ => 0);
      availIdx, usedIdx, usedSeen, devSeen := 0, 0, 0, 0;
      busy, reqs, own, availQ, usedQ := {}, map[], [8, 8, 8, 8, 8, 8, 8, 8], [], [];
      new;
      UnusedInv(Q());
    }

    /** The first free descriptor is taken; -1 if there is none. */
    method AllocDesc() returns (i: int)
      requires Sizes()
      modifies free
      ensures i == -1 ==> free[..] == old(free[..]) && forall d :: 0 <= d < 8 ==> !free[d]
      ensures i != -1 ==>
                && 0 <= i < 8 && old(free[i]) && free[..] == old(free[..])[i := false]
                && forall d :: 0 <= d < i ==> !old(free[d])
    {
      for k := 0 to 8
        invariant free[..] == old(free[..]) && forall d :: 0 <= d < k ==> !free[d]
      {
        if free[k] {
          free[k] := false;
          return k;
        }
      }
      return -1;
    }

    /** free_desc; the panic for a descriptor that is free already is never reached. */
    method FreeDesc(i: nat)
      requires Sizes() && i < 8 && !free[i]
      modifies free, desc
      ensures free[..] == old(free[..])[i := true] && desc[..] == old(desc[..])[i := CLEAR]
    {
      if free[i] {
        assert false;
      }
      desc[i] := CLEAR;
      free[i] := true;
    }

    /** Three free descriptors, or none at all if there are not three. */
    method Alloc3Desc() returns (ok: bool, h: nat, d1: nat, d2: nat)
      requires Sizes() && forall d :: 0 <= d < 8 && free[d] ==> desc[d] == CLEAR
      modifies free, desc
      ensures desc[..] == old(desc[..])
      ensures ok <==> |FreeDescs(old(free[..]))| >= 3
      ensures ok ==> h < 8 && d1 < 8 && d2 < 8 && h != d1 && h != d2 && d1 != d2
      ensures ok ==> old(free[h]) && old(free[d1]) && old(free[d2])
      ensures ok ==> free[..] == old(free[..])[h := false][d1 := false][d2 := false]
      ensures !ok ==> free[..] == old(free[..])
    {
      ok, h, d1, d2 := false, 0, 0, 0;
      ghost var f := free[..];
      NoneFree(f);
      var i0 := AllocDesc();
      if i0 < 0 {
        return;
      }
      OneTaken(f, i0);
      ghost var f1 := free[..];
      NoneFree(f1);
      var i1 := AllocDesc();
      if i1 < 0 {
        FreeDesc(i0);
        assert free[..] == old(free[..]) && desc[..] == old(desc[..]);
        return;
      }
      OneTaken(f1, i1);
      ghost var f2 := free[..];
      NoneFree(f2);
      var i2 := AllocDesc();
      if i2 < 0 {
        FreeDesc(i0);
        FreeDesc(i1);
        assert free[..] == old(free[..]) && desc[..] == old(desc[..]);
        return;
      }
      OneTaken(f2, i2);
      return true, i0, i1, i2;
    }

    /** virtio_disk_rw up to where it waits for the device; it waits for descriptors first
        if there are not three. */
    method Start(buf: int, blockno: nat, write: bool) returns (ok: bool, h: nat, ghost r: Request)
      requires Valid() && Fresh(Q(), buf, blockno)
      modifies this, free, desc, ops, info, avail
      ensures Valid()
      ensures ok <==> |FreeDescs(old(free[..]))| >= 3
      ensures !ok ==> Q() == old(Q())
      ensures ok ==> CanSubmit(old(Q()), h, r) && Q() == Submit(old(Q()), h, r)
      ensures ok ==> r.buf == buf && r.blockno == blockno && r.write == write
    {
      hide Inv, CanSubmit, Fresh, Submit;
      FreeAreClear(Q());
      var d1, d2;
      ok, h, d1, d2 := Alloc3Desc();
      r := Request(d1, d2, buf, blockno, write, Queued);
      if !ok {
        return;
      }
      ghost var q := old(Q());
      FreeSubmit(q, h, r);
      SubmitInv(q, h, r);
      assert Q() == q.(free := q.free[h := false][d1 := false][d2 := false]);
      Issue(h, d1, d2, buf, blockno, write, q);
    }

    /** The request on three descriptors just taken is filled in and queued. */
    method Issue(h: nat, d1: nat, d2: nat, buf: int, blockno: nat, write: bool, ghost q: Queue)
      requires Sizes() && h < 8 && d1 < 8 && d2 < 8 && |q.free| == |q.desc| == |q.own| == |own| == 8
      requires Q() == q.(free := q.free[h := false][d1 := false][d2 := false])
      modifies this, desc, ops, info, avail
      ensures Q() == Submit(q, h, Request(d1, d2, buf, blockno, write, Queued))
    {
      Format(h, d1, d2, buf, blockno, write);
      Enqueue(h);
      reqs, availQ := q.reqs[h := Request(d1, d2, buf, blockno, write, Queued)], q.availQ + [h];
      own := own[h := h][d1 := h][d2 := h];
    }

    /** The request header is filled in, the three descriptors chained and the buffer
        recorded. */
    method Format(h: nat, d1: nat, d2: nat, buf: int, blockno: nat, write: bool)
      requires Sizes() && h < 8 && d1 < 8 && d2 < 8
      modifies `busy, desc, ops, info
      ensures var r := Request(d1, d2, buf, blockno, write, Queued);
              desc[..] == old(desc[..])[h := HeadDesc(h, r)][d1 := DataDesc(r)][d2 := StatusDesc(h)]
      ensures ops[..] == old(ops[..])[h := Op(if write then 1 else 0, 2 * blockno)]
      ensures info[..] == old(info[..])[h := Info(buf, 0xff)] && busy == old(busy) + {buf}
    {
      ops[h] := Op(if write then 1 else 0, blockno * (1024 / 512));
      desc[h] := Desc(HeaderOf(h), 16, 1, d1);
      var flags := if write then 0 else 2;
      desc[d1] := Desc(DataOf(buf), 1024, flags + 1, d2);
      desc[d2] := Desc(StatusOf(h), 1, 2, 0);
      info[h] := Info(buf, 0xff);
      busy := busy + {buf};
    }

    /** The head goes into the next slot of the avail ring, and the device may see it. */
    method Enqueue(h: nat)
      requires Sizes()
      modifies `availIdx, avail
      ensures avail[..] == old(avail[..])[old(availIdx) % 8 := h] && availIdx == Inc(old(availIdx))
    {
      avail[availIdx % 8] := h;
      availIdx := Inc(availIdx);
    }

    /** The device takes an entry of the avail ring, if there is one. */
    method Consume() returns (h: int)
      requires Valid()
      modifies this
      ensures Valid()
      ensures devSeen == old(devSeen) ==> h == -1 && Q() == old(Q()) && availQ == []
      ensures devSeen != old(devSeen) ==>
                old(availQ) != [] && h == old(availQ)[0] && h in old(reqs) && Q() == VirtQueue.Consume(old(Q()))
    {
      hide Inv;
      if devSeen == availIdx {
        NoEntry(Q());
        return -1;
      }
      ConsumeInv(Q());
      h := avail[devSeen % 8];
      devSeen := Inc(devSeen);
      reqs := reqs[availQ[0] := reqs[availQ[0]].(phase := InDevice)];
      availQ := availQ[1..];
    }

    /** The device completes request `h`: it follows the chain in memory. */
    method Complete(h: nat)
      requires Valid() && h in reqs && reqs[h].phase == InDevice
      modifies this, info, used
      ensures Valid() && ChainOk(old(Q()), h) && Q() == VirtQueue.Complete(old(Q()), h)
    {
      hide Inv, Serve, ChainOk;
      CompleteInv(Q(), h);
      ghost var q, s := Serve(Q(), h), VirtQueue.Complete(Q(), h);
      Move(h);
      assert Q() == q;
      used[usedIdx % 8] := h;
      usedIdx := Inc(usedIdx);
      usedQ := usedQ + [h];
      reqs := reqs[h := reqs[h].(phase := Completed)];
      assert Q() == s;
    }

    /** The data of the chain at `h` is moved and its status set. */
    method Move(h: nat)
      requires Sizes() && ChainOk(Q(), h)
      modifies `data, `media, info
      ensures Q() == Serve(old(Q()), h)
    {
      ghost var s := Serve(Q(), h);
      var head := desc[h];
      var body := desc[head.next];
      var op, buf, at := ops[head.addr.h], body.addr.buf, 512 * ops[head.addr.h].sector;
      var status := desc[body.next].addr.h;
      if at + body.len <= |media| && op.kind == 0 && DeviceWrites(body) {
        data := data[buf := media[at..at + body.len]];
        info[status] := info[status].(status := 0);
      } else if at + body.len <= |media| && op.kind == 1 && !DeviceWrites(body) {
        media := media[..at] + data[buf] + media[at + body.len..];
        info[status] := info[status].(status := 0);
      } else {
        info[status] := info[status].(status := 1);
      }
      assert Q() == s;
    }

    /** virtio_disk_intr: every entry of the used ring is taken and its owner told; the
        panic for a bad status is never reached. */
    method Intr()
      requires Valid()
      modifies this
      ensures Valid() && usedQ == [] && usedSeen == usedIdx && usedIdx == old(usedIdx) && availQ == old(availQ)
      ensures reqs.Keys == old(reqs.Keys) && data == old(data) && media == old(media)
      ensures forall h {:trigger reqs[h]} :: h in reqs ==>
                reqs[h] == if h in old(usedQ) then old(reqs)[h].(phase := Done) else old(reqs)[h]
    {
      hide Inv;
      while usedSeen != usedIdx
        invariant Valid() && usedIdx == old(usedIdx) && availQ == old(availQ) && reqs.Keys == old(reqs.Keys)
        invariant data == old(data) && media == old(media)
        invariant |usedQ| <= |old(usedQ)| && usedQ == old(usedQ)[|old(usedQ)| - |usedQ|..]
        invariant forall h {:trigger reqs[h]} :: h in reqs ==>
                    reqs[h] ==
                    if h in old(usedQ)[..|old(usedQ)| - |usedQ|] then old(reqs)[h].(phase := Done) else old(reqs)[h]
        decreases |usedQ|
      {
        TakeUsed();
      }
      NoUsed(Q());
    }

    /** One entry of the used ring. */
    method TakeUsed()
      requires Valid() && usedSeen != usedIdx
      modifies this
      ensures Valid() && old(usedQ) != [] && old(usedQ)[0] in old(reqs) && Q() == Report(old(Q()))
    {
      hide Inv;
      ReportInv(Q());
      var id := used[usedSeen % 8];
      if info[id].status != 0 {
        assert false;
      }
      busy := busy - {info[id].buf};
      usedSeen := Inc(usedSeen);
      reqs := reqs[usedQ[0] := reqs[usedQ[0]].(phase := Done)];
      usedQ := usedQ[1..];
    }

    /** virtio_disk_rw after it was told that its request is done: the chain is freed. */
    method Finish(h: nat)
      requires Valid() && h in reqs && reqs[h].phase == Done
      modifies this, free, desc, info
      ensures Valid() && h < 8 && reqs == old(reqs) - {h}
      ensures old(reqs)[h].second < 8 && old(reqs)[h].third < 8 && Q() == Retire(old(Q()), h)
    {
      ChainAt(Q(), h);
      hide Inv;
      RetireInv(Q(), h);
      ghost var s := Retire(Q(), h);
      info[h] := info[h].(buf := 0);
      FreeChain(h, reqs[h].second, reqs[h].third);
      own := own[h := 8][reqs[h].second := 8][reqs[h].third := 8];
      reqs := reqs - {h};
      assert Q() == s;
    }

    /** free_chain on a chain of three. */
    method FreeChain(h: nat, ghost d1: nat, ghost d2: nat)
      requires Sizes() && h < 8 && d1 < 8 && d2 < 8 && h != d1 && h != d2
      requires d1 != d2 && !free[h] && !free[d1] && !free[d2]
      requires HasNext(desc[h]) && desc[h].next == d1 && HasNext(desc[d1]) && desc[d1].next == d2 && !HasNext(desc[d2])
      modifies free, desc
      ensures free[..] == old(free[..])[h := true][d1 := true][d2 := true]
      ensures desc[..] == old(desc[..])[h := CLEAR][d1 := CLEAR][d2 := CLEAR]
    {
      var i := h;
      ghost var step := 0;
      while true
        invariant step < 3 && i == if step == 0 then h else if step == 1 then d1 else d2
        invariant free[..] == if step == 0 then old(free[..]) else if step == 1 then old(free[..])[h := true]
                              else old(free[..])[h := true][d1 := true]
        invariant desc[..] == if step == 0 then old(desc[..]) else if step == 1 then old(desc[..])[h := CLEAR]
                              else old(desc[..])[h := CLEAR][d1 := CLEAR]
        decreases 3 - step
      {
        assert desc[..][i] == old(desc[..])[i] && free[..][i] == old(free[..])[i];
        var d := desc[i];
        FreeDesc(i);
        if !HasNext(d) {
          break;
        }
        i := d.next;
        step := step + 1;
      }
    }
  }

  ghost function FreeDescs(f: seq<bool>): set<int> { set d | 0 <= d < |f| && f[d] }

  lemma NoneFree(f: seq<bool>)
    ensures (forall d :: 0 <= d < |f| ==> !f[d]) <==> FreeDescs(f) == {}
  {
    if d :| 0 <= d < |f| && f[d] {
      assert d in FreeDescs(f);
    }
  }

  lemma OneTaken(f: seq<bool>, i: nat)
    requires i < |f| && f[i]
    ensures |FreeDescs(f)| == |FreeDescs(f[i := false])| + 1
  {
    assert FreeDescs(f) == FreeDescs(f[i := false]) + {i};
  }

  lemma FreeAreClear(s: Queue)
    requires Inv(s)
    ensures |s.free| == |s.desc| == 8 && forall d :: 0 <= d < 8 && s.free[d] ==> s.desc[d] == CLEAR
  {
    forall d | 0 <= d < 8 && s.free[d] ensures s.desc[d] == CLEAR {
      assert DescOk(s, d);
    }
  }

  lemma FreeSubmit(s: Queue, h: nat, r: Request)
    requires Inv(s) && h < 8 && r.second < 8 && r.third < 8 && h != r.second && h != r.third && r.second != r.third
    requires s.free[h] && s.free[r.second] && s.free[r.third] && r.phase == Queued && Fresh(s, r.buf, r.blockno)
    ensures CanSubmit(s, h, r) && |s.avail| == |s.info| == |s.own| == 8
  {
  }

  lemma NoEntry(s: Queue)
    requires Inv(s) && s.devSeen == s.availIdx
    ensures s.availQ == []
  {
    RingEmpty(s.avail, s.devSeen, s.availIdx, s.availQ);
  }

  lemma NoUsed(s: Queue)
    requires Inv(s) && s.usedSeen == s.usedIdx
    ensures s.usedQ == []
  {
    RingEmpty(s.used, s.usedSeen, s.usedIdx, s.usedQ);
  }

  lemma ChainAt(s: Queue, h: nat)
    requires Inv(s) && h in s.reqs
    ensures ReqOk(s, h) && |s.free| == 8 && !s.free[h] && !s.free[s.reqs[h].second] && !s.free[s.reqs[h].third]
  {
    assert ReqOk(s, h);
    assert DescOk(s, h) && DescOk(s, s.reqs[h].second) && DescOk(s, s.reqs[h].third);
  }
}
