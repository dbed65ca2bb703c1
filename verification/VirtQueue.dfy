/** The split virtqueue between the disk driver of kernel/virtio_disk.c and its device
    (sections 2.6 and 5.2 of VIRTIO 1.1), as steps of both. */
module VirtQueue {
  import opened Basics

  type Counter = x: int | 0 <= x < 65536

  /** What a descriptor points at: the request header of a head, the data of a buffer, or
      the status byte of a head. */
  datatype Addr = Nothing | HeaderOf(h: nat) | DataOf(buf: int) | StatusOf(h: nat)

  datatype Desc = Desc(addr: Addr, len: nat, flags: nat, next: nat)

  /** A request header: read (0) or write (1), and the first 512-byte sector. */
  datatype Op = Op(kind: nat, sector: nat)

  datatype Info = Info(buf: int, status: int)

  const CLEAR: Desc := Desc(Nothing, 0, 0, 0)

  /** A request on its way: in the avail ring, with the device, in the used ring, or
      reported to its owner. */
  datatype Phase = Queued | InDevice | Completed | Done

  datatype Request = Request(second: nat, third: nat, buf: int, blockno: nat, write: bool, phase: Phase)

  /** The queue in memory with the counters of both sides, the contents of the buffers and
      the bytes on the disk. The last four fields are the requests by head, the request each
      descriptor belongs to (8 for none), and the unconsumed entries of the two rings. */
  datatype Queue = Queue(
    free: seq<bool>, desc: seq<Desc>, ops: seq<Op>, info: seq<Info>,
    data: map<int, seq<int>>, media: seq<int>,
    avail: seq<nat>, availIdx: Counter, devSeen: Counter,
    used: seq<nat>, usedIdx: Counter, usedSeen: Counter,
    busy: set<int>,
    reqs: map<nat, Request>, own: seq<nat>, availQ: seq<nat>, usedQ: seq<nat>)

  function Inc(x: Counter): Counter { (x + 1) % 65536 }

  // ----- A ring of eight entries under two 16-bit counters -----

  ghost predicate RingAt(ring: seq<nat>, from: Counter, q: seq<nat>, k: nat)
    requires |ring| == 8 && k < |q|
  {
    ring[(from + k) % 8] == q[k]
  }

  ghost predicate RingOk(ring: seq<nat>, from: Counter, to: Counter, q: seq<nat>) {
    && |ring| == 8 && |q| <= 8 && to == (from + |q|) % 65536
    && forall k: nat {:trigger RingAt(ring, from, q, k)} :: k < |q| ==> RingAt(ring, from, q, k)
  }

  lemma SlotsDiffer(a: nat, k: nat, n: nat)
    requires k < n < 8
    ensures (a + k) % 8 != (a + n) % 8
  {
  }

  lemma CounterSlot(a: nat)
    ensures a % 65536 % 8 == a % 8
  {
    CounterSlotBy(a / 65536, a % 65536 / 8, a % 65536 % 8);
  }

  lemma CounterSlotBy(q: nat, c: nat, d: nat)
    requires d < 8
    ensures (65536 * q + (8 * c + d)) % 8 == d
  {
    Eighth(8192 * q + c, d);
  }

  lemma Eighth(n: nat, d: nat)
    requires d < 8
    ensures (8 * n + d) % 8 == d
  {
  }

  /** Writing the next slot overwrites no entry the other side has not seen. */
  lemma RingPush(ring: seq<nat>, from: Counter, to: Counter, q: seq<nat>, x: nat)
    requires RingOk(ring, from, to, q) && |q| < 8
    ensures RingOk(ring[to % 8 := x], from, Inc(to), q + [x])
  {
    var ring' := ring[to % 8 := x];
    CounterSlot(from + |q|);
    forall k: nat | k < |q + [x]| ensures RingAt(ring', from, q + [x], k) {
      if k < |q| {
        assert RingAt(ring, from, q, k);
        SlotsDiffer(from, k, |q|);
      }
    }
  }

  lemma RingPop(ring: seq<nat>, from: Counter, to: Counter, q: seq<nat>)
    requires RingOk(ring, from, to, q) && q != []
    ensures ring[from % 8] == q[0] && RingOk(ring, Inc(from), to, q[1..])
  {
    assert RingAt(ring, from, q, 0);
    CounterSlot(from + 1);
    forall k: nat | k < |q[1..]| ensures RingAt(ring, Inc(from), q[1..], k) {
      assert RingAt(ring, from, q, k + 1);
      assert (Inc(from) + k) % 8 == (from + (k + 1)) % 8;
    }
  }

  /** The counters differ exactly when there is an entry to take. */
  lemma RingEmpty(ring: seq<nat>, from: Counter, to: Counter, q: seq<nat>)
    requires RingOk(ring, from, to, q)
    ensures from == to <==> q == []
  {
  }

  // ----- Invariant -----

  ghost predicate DescOk(s: Queue, d: nat)
    requires d < |s.free| == |s.own| == |s.desc|
  {
    && (s.free[d] <==> s.own[d] == 8)
    && (s.free[d] ==> s.desc[d] == CLEAR)
    && (s.own[d] != 8 ==>
          && s.own[d] in s.reqs
          && (d == s.own[d] || d == s.reqs[s.own[d]].second || d == s.reqs[s.own[d]].third))
  }

  /** The three descriptors of a request. The device writes the data of a read. */
  function HeadDesc(h: nat, r: Request): Desc { Desc(HeaderOf(h), 16, 1, r.second) }

  function DataDesc(r: Request): Desc { Desc(DataOf(r.buf), 1024, if r.write then 1 else 3, r.third) }

  function StatusDesc(h: nat): Desc { Desc(StatusOf(h), 1, 2, 0) }

  /** A request holds a chain of three descriptors and nothing else does. */
  ghost predicate ReqOk(s: Queue, h: nat)
    requires h in s.reqs
  {
    var r := s.reqs[h];
    && h < 8 && r.second < 8 && r.third < 8 && h != r.second && h != r.third && r.second != r.third
    && |s.own| == 8 && s.own[h] == h && s.own[r.second] == h && s.own[r.third] == h
    && |s.desc| == 8 && s.desc[h] == HeadDesc(h, r)
    && s.desc[r.second] == DataDesc(r) && s.desc[r.third] == StatusDesc(h)
    && |s.ops| == 8 && s.ops[h] == Op(if r.write then 1 else 0, 2 * r.blockno)
    && |s.info| == 8 && s.info[h].buf == r.buf
    && (r.phase == Completed ==> s.info[h].status == 0)
    && (r.phase == Done <==> r.buf !in s.busy)
    && (r.phase == Queued <==> h in s.availQ)
    && (r.phase == Completed <==> h in s.usedQ)
  }

  /** Block `n` of the disk. */
  function BlockAt(media: seq<int>, n: nat): seq<int>
    requires 1024 * n + 1024 <= |media|
  {
    media[1024 * n..1024 * n + 1024]
  }

  /** The buffer is there and the block on the disk; once the device has completed the
      request, they agree. */
  ghost predicate DataOk(s: Queue, h: nat)
    requires h in s.reqs
  {
    var r := s.reqs[h];
    && r.buf in s.data && |s.data[r.buf]| == 1024 && 1024 * r.blockno + 1024 <= |s.media|
    && (r.phase == Completed || r.phase == Done ==> s.data[r.buf] == BlockAt(s.media, r.blockno))
  }

  ghost predicate ReqsApart(s: Queue, g: nat, h: nat)
    requires g in s.reqs && h in s.reqs
  {
    g != h ==> s.reqs[g].buf != s.reqs[h].buf && s.reqs[g].blockno != s.reqs[h].blockno
  }

  ghost predicate Heads(s: Queue, q: seq<nat>) { Distinct(q) && forall h {:trigger h in q} :: h in q ==> h in s.reqs }

  ghost predicate Inv(s: Queue) {
    && |s.free| == |s.desc| == |s.ops| == |s.info| == |s.own| == 8
    && RingOk(s.avail, s.devSeen, s.availIdx, s.availQ) && RingOk(s.used, s.usedSeen, s.usedIdx, s.usedQ)
    && Heads(s, s.availQ) && Heads(s, s.usedQ)
    && (forall d: nat {:trigger DescOk(s, d)} :: d < 8 ==> DescOk(s, d))
    && (forall h {:trigger ReqOk(s, h)} :: h in s.reqs ==> ReqOk(s, h))
    && (forall h {:trigger DataOk(s, h)} :: h in s.reqs ==> DataOk(s, h))
    && (forall g, h {:trigger ReqsApart(s, g, h)} :: g in s.reqs && h in s.reqs ==> ReqsApart(s, g, h))
  }

  ghost predicate Unused(s: Queue) {
    && |s.free| == |s.desc| == |s.ops| == |s.info| == |s.own| == |s.avail| == |s.used| == 8
    && s.availIdx == s.devSeen && s.usedIdx == s.usedSeen && s.reqs == map[] && s.availQ == [] && s.usedQ == []
    && forall d :: 0 <= d < 8 ==> s.free[d] && s.desc[d] == CLEAR && s.own[d] == 8
  }

  lemma UnusedInv(s: Queue)
    requires Unused(s)
    ensures Inv(s)
  {
    forall d: nat | d < 8 ensures DescOk(s, d) { }
  }

  /** Distinct heads that leave one descriptor out are at most seven. */
  lemma AtMostSeven(q: seq<nat>, x: nat)
    requires Distinct(q) && x < 8 && x !in q && forall i :: 0 <= i < |q| ==> q[i] < 8
    ensures |q| < 8
  {
    LeavesOneOut(q, 8, x);
  }

  // ----- Steps -----

  /** virtio_disk_rw with three free descriptors: the chain is built and queued. */
  function Submit(s: Queue, h: nat, r: Request): Queue
    requires |s.free| == |s.desc| == |s.ops| == |s.info| == |s.own| == |s.avail| == 8
    requires h < 8 && r.second < 8 && r.third < 8
  {
    s.(free := s.free[h := false][r.second := false][r.third := false],
       own := s.own[h := h][r.second := h][r.third := h],
       desc := s.desc[h := HeadDesc(h, r)][r.second := DataDesc(r)][r.third := StatusDesc(h)],
       ops := s.ops[h := Op(if r.write then 1 else 0, 2 * r.blockno)],
       info := s.info[h := Info(r.buf, 0xff)],
       busy := s.busy + {r.buf},
       avail := s.avail[s.availIdx % 8 := h], availIdx := Inc(s.availIdx),
       reqs := s.reqs[h := r], availQ := s.availQ + [h])
  }

  /** The caller holds the lock of a buffer that is not under way, nor is another buffer for
      the same block, which the buffer cache rules out. */
  ghost predicate Fresh(s: Queue, buf: int, blockno: nat) {
    && buf in s.data && |s.data[buf]| == 1024 && 1024 * blockno + 1024 <= |s.media|
    && forall g {:trigger s.reqs[g]} :: g in s.reqs ==> s.reqs[g].buf != buf && s.reqs[g].blockno != blockno
  }

  ghost predicate CanSubmit(s: Queue, h: nat, r: Request) {
    && |s.free| == 8 && h < 8 && r.second < 8 && r.third < 8
    && h != r.second && h != r.third && r.second != r.third
    && s.free[h] && s.free[r.second] && s.free[r.third]
    && r.phase == Queued && Fresh(s, r.buf, r.blockno)
  }

  lemma SubmitRoom(s: Queue, h: nat)
    requires Inv(s) && h < 8 && s.free[h]
    ensures |s.avail| == 8 && |s.availQ| < 8 && h !in s.reqs && h !in s.availQ && h !in s.usedQ
  {
    assert DescOk(s, h);
    assert h in s.reqs ==> ReqOk(s, h);
    forall i | 0 <= i < |s.availQ| ensures s.availQ[i] < 8 {
      assert s.availQ[i] in s.availQ;
      assert ReqOk(s, s.availQ[i]);
    }
    AtMostSeven(s.availQ, h);
  }

  lemma SubmitReq(s: Queue, h: nat, r: Request, g: nat)
    requires Inv(s) && CanSubmit(s, h, r) && g in Submit(s, h, r).reqs
    ensures ReqOk(Submit(s, h, r), g)
  {
    SubmitRoom(s, h);
    assert DescOk(s, h) && DescOk(s, r.second) && DescOk(s, r.third);
    assert g != h ==> ReqOk(s, g);
  }

  lemma SubmitInv(s: Queue, h: nat, r: Request)
    requires Inv(s) && CanSubmit(s, h, r)
    ensures Inv(Submit(s, h, r))
  {
    hide ReqOk, RingOk;
    SubmitRoom(s, h);
    var s' := Submit(s, h, r);
    RingPush(s.avail, s.devSeen, s.availIdx, s.availQ, h);
    forall d: nat | d < 8 ensures DescOk(s', d) { assert DescOk(s, d); }
    forall g | g in s'.reqs ensures ReqOk(s', g) { SubmitReq(s, h, r, g); }
    forall g | g in s'.reqs ensures DataOk(s', g) { assert g != h ==> DataOk(s, g); }
    forall f, g | f in s'.reqs && g in s'.reqs ensures ReqsApart(s', f, g) {
      assert f != h && g != h ==> ReqsApart(s, f, g);
    }
  }

  /** The device takes the next entry of the avail ring. */
  function Consume(s: Queue): Queue
    requires s.availQ != [] && s.availQ[0] in s.reqs
  {
    s.(devSeen := Inc(s.devSeen), availQ := s.availQ[1..],
       reqs := s.reqs[s.availQ[0] := s.reqs[s.availQ[0]].(phase := InDevice)])
  }

  lemma ConsumeInv(s: Queue)
    requires Inv(s) && s.devSeen != s.availIdx
    ensures s.availQ != [] && s.availQ[0] in s.reqs && s.avail[s.devSeen % 8] == s.availQ[0]
    ensures Inv(Consume(s))
  {
    RingEmpty(s.avail, s.devSeen, s.availIdx, s.availQ);
    RingPop(s.avail, s.devSeen, s.availIdx, s.availQ);
    var h := s.availQ[0];
    assert h in s.availQ && ReqOk(s, h);
    var s' := Consume(s);
    assert forall g {:trigger g in s'.availQ} :: g in s'.availQ <==> g in s.availQ && g != h;
    forall d: nat | d < 8 ensures DescOk(s', d) { assert DescOk(s, d); }
    forall g | g in s'.reqs ensures ReqOk(s', g) { assert ReqOk(s, g); }
    forall g | g in s'.reqs ensures DataOk(s', g) { assert DataOk(s, g); }
    forall f, g | f in s'.reqs && g in s'.reqs ensures ReqsApart(s', f, g) { assert ReqsApart(s, f, g); }
  }

  // ----- The device -----

  predicate HasNext(d: Desc) { d.flags % 2 == 1 }

  predicate DeviceWrites(d: Desc) { d.flags / 2 % 2 == 1 }

  /** The chain at `h` is a header, data and a status byte, as section 5.2.6 of VIRTIO 1.1
      wants them. */
  predicate ChainOk(s: Queue, h: nat) {
    && |s.desc| == |s.ops| == |s.info| == 8 && h < 8
    && var head := s.desc[h];
       && HasNext(head) && !DeviceWrites(head) && head.next < 8
       && head.addr.HeaderOf? && head.addr.h < 8 && head.len == 16
       && var body := s.desc[head.next];
          && HasNext(body) && body.next < 8 && body.addr.DataOf? && body.addr.buf in s.data
          && |s.data[body.addr.buf]| == body.len
          && var tail := s.desc[body.next];
             && !HasNext(tail) && DeviceWrites(tail) && tail.addr.StatusOf? && tail.addr.h < 8 && tail.len == 1
  }

  /** The device serves the chain at `h`: it moves the data in the direction and from or to
      the sectors the header asks for, if the data descriptor lets it, and sets the status:
      0, or 1 for an error. */
  function Serve(s: Queue, h: nat): Queue
    requires ChainOk(s, h)
  {
    var head := s.desc[h];
    var body := s.desc[head.next];
    var op, buf, at := s.ops[head.addr.h], body.addr.buf, 512 * s.ops[head.addr.h].sector;
    var fits := at + body.len <= |s.media|;
    var status := s.desc[body.next].addr.h;
    if fits && op.kind == 0 && DeviceWrites(body) then
      s.(data := s.data[buf := s.media[at..at + body.len]], info := s.info[status := s.info[status].(status := 0)])
    else if fits && op.kind == 1 && !DeviceWrites(body) then
      s.(media := s.media[..at] + s.data[buf] + s.media[at + body.len..],
         info := s.info[status := s.info[status].(status := 0)])
    else
      s.(info := s.info[status := s.info[status].(status := 1)])
  }

  /** The device completes a request it has, in any order. */
  function Complete(s: Queue, h: nat): Queue
    requires h in s.reqs && ChainOk(s, h) && |s.used| == 8
  {
    Serve(s, h).(used := s.used[s.usedIdx % 8 := h], usedIdx := Inc(s.usedIdx), usedQ := s.usedQ + [h],
                 reqs := s.reqs[h := s.reqs[h].(phase := Completed)])
  }

  function WithBlock(media: seq<int>, n: nat, d: seq<int>): seq<int>
    requires 1024 * n + 1024 <= |media|
  {
    media[..1024 * n] + d + media[1024 * n + 1024..]
  }

  /** What the device does with the chain of a request is what the request asked for: read
      its block into its buffer, or write its buffer to its block. */
  lemma Served(s: Queue, h: nat)
    requires Inv(s) && h in s.reqs
    ensures ChainOk(s, h) && DataOk(s, h)
    ensures var r := s.reqs[h];
            Serve(s, h) ==
            s.(info := s.info[h := s.info[h].(status := 0)],
               data := if r.write then s.data else s.data[r.buf := BlockAt(s.media, r.blockno)],
               media := if r.write then WithBlock(s.media, r.blockno, s.data[r.buf]) else s.media)
  {
    assert ReqOk(s, h) && DataOk(s, h);
    assert 512 * (2 * s.reqs[h].blockno) == 1024 * s.reqs[h].blockno;
  }

  lemma OneBlock(media: seq<int>, n: nat, d: seq<int>, k: nat)
    requires 1024 * n + 1024 <= |media| && |d| == 1024 && 1024 * k + 1024 <= |media|
    ensures |WithBlock(media, n, d)| == |media|
    ensures BlockAt(WithBlock(media, n, d), k) == if k == n then d else BlockAt(media, k)
  {
    var e := WithBlock(media, n, d);
    if k < n {
      assert 1024 * k + 1024 <= 1024 * n;
    } else if n < k {
      assert 1024 * n + 1024 <= 1024 * k;
    }
  }

  lemma CompleteData(s: Queue, h: nat, g: nat)
    requires Inv(s) && h in s.reqs && g in s.reqs && |s.used| == 8 && ChainOk(s, h)
    ensures DataOk(Complete(s, h), g)
  {
    Served(s, h);
    assert DataOk(s, g) && ReqsApart(s, g, h);
    if s.reqs[h].write {
      OneBlock(s.media, s.reqs[h].blockno, s.data[s.reqs[h].buf], s.reqs[g].blockno);
    }
  }

  lemma CompleteInv(s: Queue, h: nat)
    requires Inv(s) && h in s.reqs && s.reqs[h].phase == InDevice
    ensures h < 8 && ChainOk(s, h) && Inv(Complete(s, h))
  {
    hide Serve, ChainOk;
    Served(s, h);
    assert ReqOk(s, h);
    forall i | 0 <= i < |s.usedQ| ensures s.usedQ[i] < 8 {
      assert s.usedQ[i] in s.usedQ;
      assert ReqOk(s, s.usedQ[i]);
    }
    AtMostSeven(s.usedQ, h);
    RingPush(s.used, s.usedSeen, s.usedIdx, s.usedQ, h);
    var s' := Complete(s, h);
    forall d: nat | d < 8 ensures DescOk(s', d) { assert DescOk(s, d); }
    forall g | g in s'.reqs ensures ReqOk(s', g) { assert ReqOk(s, g); }
    forall g | g in s'.reqs ensures DataOk(s', g) { CompleteData(s, h, g); }
    forall f, g | f in s'.reqs && g in s'.reqs ensures ReqsApart(s', f, g) { assert ReqsApart(s, f, g); }
  }

  // ----- The interrupt -----

  /** virtio_disk_intr takes one entry of the used ring. */
  function Report(s: Queue): Queue
    requires s.usedQ != [] && s.usedQ[0] in s.reqs
  {
    var h := s.usedQ[0];
    s.(usedSeen := Inc(s.usedSeen), usedQ := s.usedQ[1..], busy := s.busy - {s.reqs[h].buf},
       reqs := s.reqs[h := s.reqs[h].(phase := Done)])
  }

  /** The entry names a request that is live and was completed with status 0. */
  lemma ReportInv(s: Queue)
    requires Inv(s) && s.usedSeen != s.usedIdx
    ensures s.usedQ != [] && s.usedQ[0] in s.reqs && s.used[s.usedSeen % 8] == s.usedQ[0] < 8
    ensures s.info[s.usedQ[0]].status == 0 && s.info[s.usedQ[0]].buf == s.reqs[s.usedQ[0]].buf
    ensures Inv(Report(s))
  {
    RingEmpty(s.used, s.usedSeen, s.usedIdx, s.usedQ);
    RingPop(s.used, s.usedSeen, s.usedIdx, s.usedQ);
    var h := s.usedQ[0];
    assert h in s.usedQ && ReqOk(s, h);
    var s' := Report(s);
    assert forall g {:trigger g in s'.usedQ} :: g in s'.usedQ <==> g in s.usedQ && g != h;
    forall d: nat | d < 8 ensures DescOk(s', d) { assert DescOk(s, d); }
    forall g | g in s'.reqs ensures ReqOk(s', g) { assert ReqOk(s, g) && ReqsApart(s, g, h); }
    forall g | g in s'.reqs ensures DataOk(s', g) { assert DataOk(s, g) && (g == h ==> ReqOk(s, h)); }
    forall f, g | f in s'.reqs && g in s'.reqs ensures ReqsApart(s', f, g) { assert ReqsApart(s, f, g); }
  }

  /** The owner of a reported request frees its chain. */
  function Retire(s: Queue, h: nat): Queue
    requires h in s.reqs && |s.free| == |s.desc| == |s.info| == |s.own| == 8
    requires h < 8 && s.reqs[h].second < 8 && s.reqs[h].third < 8
  {
    var r := s.reqs[h];
    s.(free := s.free[h := true][r.second := true][r.third := true],
       own := s.own[h := 8][r.second := 8][r.third := 8],
       desc := s.desc[h := CLEAR][r.second := CLEAR][r.third := CLEAR],
       info := s.info[h := s.info[h].(buf := 0)], reqs := s.reqs - {h})
  }

  lemma RetireInv(s: Queue, h: nat)
    requires Inv(s) && h in s.reqs && s.reqs[h].phase == Done
    ensures h < 8 && s.reqs[h].second < 8 && s.reqs[h].third < 8
    ensures Inv(Retire(s, h))
  {
    assert ReqOk(s, h);
    var s' := Retire(s, h);
    forall d: nat | d < 8 ensures DescOk(s', d) { assert DescOk(s, d); }
    forall g | g in s'.reqs ensures ReqOk(s', g) { assert ReqOk(s, g); }
    forall g | g in s'.reqs ensures DataOk(s', g) { assert DataOk(s, g); }
    forall f, g | f in s'.reqs && g in s'.reqs ensures ReqsApart(s', f, g) { assert ReqsApart(s, f, g); }
  }

  // ----- All runs -----

  datatype Step =
    | OwnerStore(buf: int, d: seq<int>)
    | DriverSubmit(h: nat, r: Request)
    | DeviceConsume
    | DeviceComplete(h: nat)
    | DriverReport
    | DriverRetire(h: nat)

  ghost predicate Enabled(s: Queue, t: Step) {
    match t
    case OwnerStore(buf, d) => |d| == 1024 && forall g {:trigger s.reqs[g]} :: g in s.reqs ==> s.reqs[g].buf != buf
    case DriverSubmit(h, r) => CanSubmit(s, h, r)
    case DeviceConsume => s.devSeen != s.availIdx
    case DeviceComplete(h) => h in s.reqs && s.reqs[h].phase == InDevice
    case DriverReport => s.usedSeen != s.usedIdx
    case DriverRetire(h) => h in s.reqs && s.reqs[h].phase == Done
  }

  ghost function Next(s: Queue, t: Step): Queue
    requires Inv(s) && Enabled(s, t)
  {
    match t
    case OwnerStore(buf, d) => s.(data := s.data[buf := d])
    case DriverSubmit(h, r) => Submit(s, h, r)
    case DeviceConsume => ConsumeInv(s); Consume(s)
    case DeviceComplete(h) => CompleteInv(s, h); Complete(s, h)
    case DriverReport => ReportInv(s); Report(s)
    case DriverRetire(h) => RetireInv(s, h); Retire(s, h)
  }

  /** The owner of a buffer that is not under way may change it. */
  lemma StoreInv(s: Queue, buf: int, d: seq<int>)
    requires Inv(s) && Enabled(s, OwnerStore(buf, d))
    ensures Inv(s.(data := s.data[buf := d]))
  {
    hide RingOk;
    var s' := s.(data := s.data[buf := d]);
    forall e: nat | e < 8 ensures DescOk(s', e) { assert DescOk(s, e); }
    forall g | g in s'.reqs ensures ReqOk(s', g) { assert ReqOk(s, g); }
    forall g | g in s'.reqs ensures DataOk(s', g) { assert DataOk(s, g); }
    forall f, g | f in s'.reqs && g in s'.reqs ensures ReqsApart(s', f, g) { assert ReqsApart(s, f, g); }
  }

  lemma NextInv(s: Queue, t: Step)
    requires Inv(s) && Enabled(s, t)
    ensures Inv(Next(s, t))
  {
    hide Inv;
    match t {
      case OwnerStore(buf, d) => StoreInv(s, buf, d);
      case DriverSubmit(h, r) => SubmitInv(s, h, r);
      case DeviceConsume => ConsumeInv(s);
      case DeviceComplete(h) => CompleteInv(s, h);
      case DriverReport => ReportInv(s);
      case DriverRetire(h) => RetireInv(s, h);
    }
  }

  ghost predicate Runs(s: Queue, steps: seq<Step>, s': Queue)
    requires Inv(s)
    decreases |steps|
  {
    if steps == [] then s' == s
    else Enabled(s, steps[0]) && (NextInv(s, steps[0]); Runs(Next(s, steps[0]), steps[1..], s'))
  }

  lemma {:induction false} RunsKeepInv(s: Queue, steps: seq<Step>, s': Queue)
    requires Inv(s) && Runs(s, steps, s')
    ensures Inv(s')
    decreases |steps|
  {
    if steps != [] {
      NextInv(s, steps[0]);
      RunsKeepInv(Next(s, steps[0]), steps[1..], s');
    }
  }

  ghost function ChainOf(s: Queue, h: nat): set<nat>
    requires h in s.reqs
  {
    {h, s.reqs[h].second, s.reqs[h].third}
  }

  /** In every run the chains of requests under way are disjoint triples of descriptors
      that are not free. */
  lemma ChainsDisjoint(s: Queue, steps: seq<Step>, s': Queue, g: nat, h: nat)
    requires Inv(s) && Runs(s, steps, s') && g in s'.reqs && h in s'.reqs
    ensures |ChainOf(s', g)| == 3 && (g != h ==> ChainOf(s', g) !! ChainOf(s', h))
    ensures forall d :: d in ChainOf(s', g) ==> d < |s'.free| && !s'.free[d]
  {
    RunsKeepInv(s, steps, s');
    assert ReqOk(s', g) && ReqOk(s', h);
    var r := s'.reqs[g];
    assert DescOk(s', g) && DescOk(s', r.second) && DescOk(s', r.third);
  }

  // ----- What the disk and the buffers hold -----

  /** The disk changes only when the device completes a write, to the buffer's contents in
      the one block asked for; a buffer changes only by its owner's hand while it is not
      under way, or when the device completes a read into it. */
  lemma OnlyWhatWasAsked(s: Queue, t: Step, n: nat, b: int)
    requires Inv(s) && Enabled(s, t) && 1024 * n + 1024 <= |s.media| && b in s.data
    ensures var s' := Next(s, t);
            && |s'.media| == |s.media| && b in s'.data
            && (BlockAt(s'.media, n) != BlockAt(s.media, n) ==>
                  && t.DeviceComplete? && s.reqs[t.h].write && s.reqs[t.h].blockno == n
                  && s.reqs[t.h].buf in s.data && BlockAt(s'.media, n) == s.data[s.reqs[t.h].buf])
            && (s'.data[b] != s.data[b] ==>
                  || t == OwnerStore(b, s'.data[b])
                  || (t.DeviceComplete? && !s.reqs[t.h].write && s.reqs[t.h].buf == b
                      && 1024 * s.reqs[t.h].blockno + 1024 <= |s.media|
                      && s'.data[b] == BlockAt(s.media, s.reqs[t.h].blockno)))
  {
    hide Serve, ReqOk, DescOk, RingOk;
    if t.DeviceComplete? {
      Served(s, t.h);
      var r := s.reqs[t.h];
      if r.write {
        OneBlock(s.media, r.blockno, s.data[r.buf], n);
      }
    }
  }

  /** Request `r` is under way at head `h`, and `want` is what it moves. */
  ghost predicate Carries(s: Queue, h: nat, r: Request, want: seq<int>) {
    && h in s.reqs && s.reqs[h] == r.(phase := s.reqs[h].phase) && DataOk(s, h)
    && if r.write || s.reqs[h].phase == Completed || s.reqs[h].phase == Done then s.data[r.buf] == want
       else BlockAt(s.media, r.blockno) == want
  }

  lemma StepCarries(s: Queue, t: Step, h: nat, r: Request, want: seq<int>)
    requires Inv(s) && Enabled(s, t) && Carries(s, h, r, want) && t != DriverRetire(h)
    ensures Carries(Next(s, t), h, r, want)
  {
    hide Serve, DescOk, RingOk;
    NextInv(s, t);
    assert ReqOk(s, h);
    OnlyWhatWasAsked(s, t, r.blockno, r.buf);
    if t.DriverSubmit? {
      SubmitRoom(s, t.h);
    } else if t.DeviceComplete? {
      Served(s, t.h);
      assert ReqsApart(s, t.h, h);
    }
    assert DataOk(Next(s, t), h);
  }

  lemma {:induction false} RunCarries(s: Queue, es: seq<Step>, s': Queue, h: nat, r: Request, want: seq<int>)
    requires Inv(s) && Runs(s, es, s') && Carries(s, h, r, want) && DriverRetire(h) !in es
    ensures Carries(s', h, r, want)
    decreases |es|
  {
    hide Inv, Carries;
    if es != [] {
      StepCarries(s, es[0], h, r, want);
      NextInv(s, es[0]);
      RunCarries(Next(s, es[0]), es[1..], s', h, r, want);
    }
  }

  /** Whatever happens between the start of a request and its end, in the end its buffer and
      its block hold the same: for a write what was in the buffer when it started, and for
      a read what was on the disk. */
  lemma RequestDone(s: Queue, h: nat, r: Request, es: seq<Step>, s': Queue)
    requires Inv(s) && Runs(s, [DriverSubmit(h, r)] + es, s') && DriverRetire(h) !in es
    ensures CanSubmit(s, h, r) && Inv(s') && h in s'.reqs && DataOk(s', h)
    ensures s'.reqs[h] == r.(phase := s'.reqs[h].phase)
    ensures s'.reqs[h].phase == Done ==>
              s'.data[r.buf] == BlockAt(s'.media, r.blockno) ==
              if r.write then s.data[r.buf] else BlockAt(s.media, r.blockno)
  {
    var t := Submit(s, h, r);
    SubmitInv(s, h, r);
    assert ([DriverSubmit(h, r)] + es)[1..] == es;
    assert DataOk(t, h);
    RunCarries(t, es, s', h, r, if r.write then s.data[r.buf] else BlockAt(s.media, r.blockno));
    RunsKeepInv(t, es, s');
  }

  /** A request that has not ended always has a next step. */
  lemma NeverStuck(s: Queue, h: nat)
    requires Inv(s) && h in s.reqs
    ensures match s.reqs[h].phase
            case Queued => Enabled(s, DeviceConsume)
            case InDevice => Enabled(s, DeviceComplete(h))
            case Completed => Enabled(s, DriverReport)
            case Done => Enabled(s, DriverRetire(h))
  {
    assert ReqOk(s, h);
    RingEmpty(s.avail, s.devSeen, s.availIdx, s.availQ);
    RingEmpty(s.used, s.usedSeen, s.usedIdx, s.usedQ);
  }
}
