/** kernel/log.c: the in-memory log and its disk writes. Every method states the
    exact list of block writes it makes, so that the crash theorems of RedoLog
    apply to each prefix of that list, and the exact step of LogSpace it takes. */
module Log {
  import opened Basics
  import opened Params
  import opened RedoLog
  import LogSpace

  /** The disk as bwrite sees it, one block at a time. `trace` is every block
      write so far and `crash[k]` the contents a crash after `k` of them leaves. */
  class BlockDevice {
    var blocks: Disk
    ghost var trace: seq<Write>
    ghost var crash: seq<Disk>

    ghost predicate Valid()
      reads this
    {
      && |crash| == |trace| + 1
      && crash[|trace|] == blocks
      && (forall k :: 0 <= k < |crash| ==> |crash[k]| == |blocks|)
      && (forall k :: 0 <= k < |trace| ==> trace[k].at < |blocks|)
      && (forall k :: 0 <= k < |trace| ==> crash[k + 1] == crash[k][trace[k].at := trace[k].data])
    }

    constructor (blocks: Disk)
      ensures Valid() && this.blocks == blocks && trace == []
    {
      this.blocks, trace, crash := blocks, [], [blocks];
    }

    method WriteBlock(b: nat, data: Block)
      requires Valid() && b < |blocks|
      modifies this
      ensures Valid()
      ensures blocks == old(blocks)[b := data]
      ensures trace == old(trace) + [Write(b, data)]
      ensures crash == old(crash) + [blocks]
    {
      blocks := blocks[b := data];
      trace := trace + [Write(b, data)];
      crash := crash + [blocks];
    }

    /** The recorded contents are those the writes `ws` lead to. */
    lemma {:induction false} CrashIsApply(from: nat, ws: seq<Write>, k: nat)
      requires Valid() && from + |ws| <= |trace| && trace[from..from + |ws|] == ws && k <= |ws|
      ensures InRange(ws, |crash[from]|)
      ensures crash[from + k] == Apply(crash[from], ws[..k])
    {
      assert forall i :: 0 <= i < |ws| ==> ws[i] == trace[from + i];
      if k > 0 {
        CrashIsApply(from, ws, k - 1);
        ApplyStep(crash[from], ws, k - 1);
      } else {
        assert ws[..0] == [];
      }
    }
  }

  /** What the cache holds for the logged blocks. */
  ghost function Gather(lh: seq<nat>, cached: map<nat, Block>): Tx
    requires forall i :: 0 <= i < |lh| ==> lh[i] in cached
  {
    Tx(lh, seq(|lh|, i requires 0 <= i < |lh| => cached[lh[i]]))
  }

  class LogManager {
    const start: nat
    const device: BlockDevice
    var n: nat
    const block: array<nat>
    var outstanding: int
    var committing: bool
    /** Contents of the pinned buffers, by block number. */
    var cached: map<nat, Block>
    /** Outstanding calls and the number of blocks each has added. */
    ghost var ops: map<nat, nat>

    /** initlog: recovers whatever transaction the last boot left committed. */
    constructor (start: nat, device: BlockDevice)
      requires device.Valid() && Readable(start, device.blocks)
      modifies device
      ensures this.start == start && this.device == device && fresh(block) && Valid()
      ensures n == 0 && cached == map[] && Space() == LogSpace.INITIAL
      ensures device.blocks == Recover(start, old(device.blocks))
      ensures device.trace ==
              old(device.trace) + RecoveryWrites(start, old(device.blocks), HeaderOf(start, old(device.blocks)))
    {
      this.start := start;
      this.device := device;
      n, outstanding, committing, cached, ops := 0, 0, false, map[], map[];
      block := new nat[LOGBLOCKS];
      new;
      RecoverFromLog();
      assert block[..0] == [];
    }

    ghost predicate Shape()
      reads this, device, block
    {
      && device.Valid()
      && block.Length == LOGBLOCKS
      && n <= LOGBLOCKS
      && LogFits(device.blocks, start)
      && (forall i :: 0 <= i < n ==> IsHome(|device.blocks|, start, block[i]))
    }

    ghost predicate Valid()
      reads this, device, block
    {
      && Shape()
      && LogSpace.Inv(Space())
      && (forall b :: b in cached <==> b in block[..n])
      && Idle(start, device.blocks)
    }

    ghost function Space(): LogSpace.State
      requires n <= block.Length
      reads this, block
    {
      LogSpace.State(block[..n], outstanding, committing, ops)
    }

    // ----- Reading and writing the header -----

    method WriteHead()
      requires Shape()
      modifies device
      ensures device.Valid() && old(device.crash) <= device.crash
      ensures var h := PutHeader(old(device.blocks[start]), block[..n]);
              && device.blocks == old(device.blocks)[start := h]
              && device.trace == old(device.trace) + [Write(start, h)]
    {
      var hb := device.blocks[start];
      ghost var hb0 := hb;
      hb := hb[0 := n];
      for i := 0 to n
        invariant |hb| == BLOCKWORDS && hb[0] == n
        invariant forall j :: 0 <= j < i ==> hb[1 + j] == block[j]
        invariant hb[i + 1..] == hb0[i + 1..]
      {
        hb := hb[1 + i := block[i]];
        assert hb[i + 2..] == hb0[i + 1..][1..];
      }
      assert hb == PutHeader(hb0, block[..n]);
      device.WriteBlock(start, hb);
    }

    method ReadHead()
      requires block.Length == LOGBLOCKS && Readable(start, device.blocks)
      modifies this`n, block
      ensures n <= LOGBLOCKS && block[..n] == HeaderOf(start, device.blocks)
    {
      var hb := device.blocks[start];
      n := hb[0];
      for i := 0 to n
        invariant n == hb[0]
        invariant forall j :: 0 <= j < i ==> block[j] == hb[1 + j]
      {
        block[i] := hb[1 + i];
      }
      HeaderUnique(hb, block[..n], HeaderOf(start, device.blocks));
    }

    // ----- Copying blocks -----

    /** Copies the logged blocks home. After a commit (`recovering` false) each
        home buffer is unpinned. */
    method InstallTrans(recovering: bool)
      requires Shape()
      requires !recovering ==> forall i :: 0 <= i < n ==> block[i] in cached
      modifies this`cached, device
      ensures device.Valid() && |device.blocks| == |old(device.blocks)| && old(device.crash) <= device.crash
      ensures device.trace ==
              old(device.trace) + InstallPart(Tx(block[..n], old(device.blocks)[start + 1..start + 1 + n]))
      ensures device.blocks[start] == old(device.blocks)[start]
      ensures cached == if recovering then old(cached) else old(cached) - (set b | b in block[..n])
    {
      hide BlockDevice.Valid;
      ghost var d, lh := device.blocks, block[..n];
      ghost var ws := InstallPart(Tx(lh, d[start + 1..start + 1 + n]));
      for tail := 0 to n
        invariant device.Valid() && |device.blocks| == |d| && old(device.crash) <= device.crash
        invariant device.trace == old(device.trace) + ws[..tail]
        invariant forall b :: start <= b <= start + LOGBLOCKS ==> device.blocks[b] == d[b]
        invariant cached == if recovering then old(cached) else old(cached) - (set b | b in lh[..tail])
      {
        var lbuf := device.blocks[start + tail + 1];
        assert ws[..tail + 1] == ws[..tail] + [Write(block[tail], lbuf)];
        device.WriteBlock(block[tail], lbuf);
        if !recovering {
          assert lh[..tail + 1] == lh[..tail] + [block[tail]];
          cached := cached - {block[tail]};
        }
      }
      assert ws[..n] == ws && lh[..n] == lh;
    }

    method WriteLog()
      requires Shape() && forall i :: 0 <= i < n ==> block[i] in cached
      modifies device
      ensures device.Valid() && |device.blocks| == |old(device.blocks)| && old(device.crash) <= device.crash
      ensures device.trace == old(device.trace) + LogPart(start, Gather(block[..n], cached))
      ensures device.blocks[start] == old(device.blocks)[start]
      ensures device.blocks[start + 1..start + 1 + n] == Gather(block[..n], cached).data
    {
      ghost var d, tx := device.blocks, Gather(block[..n], cached);
      ghost var ws := LogPart(start, tx);
      for tail := 0 to n
        invariant device.Valid() && |device.blocks| == |d| && old(device.crash) <= device.crash
        invariant device.trace == old(device.trace) + ws[..tail]
        invariant device.blocks[start] == d[start]
        invariant forall i :: 0 <= i < tail ==> device.blocks[start + 1 + i] == tx.data[i]
      {
        var from := cached[block[tail]];
        assert ws[..tail + 1] == ws[..tail] + [Write(start + tail + 1, from)];
        device.WriteBlock(start + tail + 1, from);
      }
      assert ws[..n] == ws;
    }

    // ----- Commit and recovery -----

    method CommitWritesOut()
      requires Shape() && forall i :: 0 <= i < n ==> block[i] in cached
      modifies this`n, this`cached, device
      ensures n == 0 && Shape() && |device.blocks| == |old(device.blocks)| && old(device.crash) <= device.crash
      ensures device.trace ==
              old(device.trace) + CommitWrites(start, old(device.blocks)[start], Gather(old(block[..n]), old(cached)))
      ensures cached == old(cached) - (set b | b in old(block[..n]))
    {
      if n > 0 {
        ghost var lh, hb, t0 := block[..n], device.blocks[start], device.trace;
        ghost var tx := Gather(lh, cached);
        WriteTransaction();
        ghost var t1, h := device.trace, PutHeader(hb, lh);
        EraseTransaction();
        assert t1 + InstallPart(tx) + [Write(start, PutHeader(h, []))] == t0 + CommitWrites(start, hb, tx);
      }
    }

    /** The first half of commit: write_log and the header write that commits. */
    method WriteTransaction()
      requires Shape() && forall i :: 0 <= i < n ==> block[i] in cached
      modifies device
      ensures Shape() && |device.blocks| == |old(device.blocks)| && old(device.crash) <= device.crash
      ensures var tx, h := Gather(block[..n], cached), PutHeader(old(device.blocks)[start], block[..n]);
              && device.trace == old(device.trace) + LogPart(start, tx) + [Write(start, h)]
              && device.blocks[start] == h
              && device.blocks[start + 1..start + 1 + n] == tx.data
    {
      WriteLog();
      ghost var d := device.blocks;
      WriteHead();
      assert device.blocks[start + 1..start + 1 + n] == d[start + 1..start + 1 + n];
    }

    /** The second half: install_trans and the header write that erases. */
    method EraseTransaction()
      requires Shape() && forall i :: 0 <= i < n ==> block[i] in cached
      modifies this`n, this`cached, device
      ensures Shape() && n == 0 && |device.blocks| == |old(device.blocks)| && old(device.crash) <= device.crash
      ensures device.trace ==
              old(device.trace)
              + InstallPart(Tx(old(block[..n]), old(device.blocks)[start + 1..start + 1 + old(n)]))
              + [Write(start, PutHeader(old(device.blocks)[start], []))]
      ensures cached == old(cached) - (set b | b in old(block[..n]))
    {
      InstallTrans(false);
      n := 0;
      WriteHead();
    }

    method RecoverFromLog()
      requires block.Length == LOGBLOCKS && device.Valid() && Readable(start, device.blocks)
      modifies this`n, this`cached, block, device
      ensures n == 0 && cached == old(cached) && Shape() && old(device.crash) <= device.crash
      ensures device.trace ==
              old(device.trace) + RecoveryWrites(start, old(device.blocks), HeaderOf(start, old(device.blocks)))
      ensures device.blocks == Recover(start, old(device.blocks)) && Idle(start, device.blocks)
    {
      hide Recover;
      ghost var d, from := device.blocks, |device.trace|;
      ReadHead();
      InstallTrans(true);
      n := 0;
      WriteHead();
      assert device.trace[from..] == RecoveryWrites(start, d, HeaderOf(start, d));
      AfterRecovery(from, d);
    }

    /** What the writes of a whole recovery, recorded from `from` on, lead to. */
    lemma AfterRecovery(from: nat, d: Disk)
      requires device.Valid() && from <= |device.trace| && device.crash[from] == d && Readable(start, d)
      requires device.trace[from..] == RecoveryWrites(start, d, HeaderOf(start, d))
      ensures device.blocks == Recover(start, d)
    {
      var ws := RecoveryWrites(start, d, HeaderOf(start, d));
      device.CrashIsApply(from, ws, |ws|);
    }

    // ----- The interface used by file system calls -----

    /** One pass of begin_op's loop; false means the caller sleeps and retries. */
    method BeginOp(ghost op: nat) returns (admitted: bool)
      requires Valid() && op !in ops
      modifies this`outstanding, this`ops
      ensures Valid()
      ensures admitted <==> !committing && n + (old(outstanding) + 1) * MAXOPBLOCKS <= LOGBLOCKS
      ensures outstanding == old(outstanding) + (if admitted then 1 else 0)
      ensures admitted == LogSpace.Enabled(old(Space()), LogSpace.Begin(op))
      ensures Space() == if admitted then LogSpace.Next(old(Space()), LogSpace.Begin(op)) else old(Space())
    {
      if committing {
        admitted := false;
      } else if n + (outstanding + 1) * MAXOPBLOCKS > LOGBLOCKS {
        admitted := false;
      } else {
        LogSpace.NextKeepsInv(Space(), LogSpace.Begin(op));
        outstanding := outstanding + 1;
        ops := ops[op := 0];
        admitted := true;
      }
    }

    /** The slot that already records block `b`, or `n`. */
    method Find(b: nat) returns (i: nat)
      requires n <= block.Length
      ensures i <= n && b !in block[..i]
      ensures i < n ==> block[i] == b
    {
      ghost var lh := block[..n];
      i := 0;
      while i < n
        invariant 0 <= i <= n
        invariant b !in lh[..i]
      {
        if block[i] == b {
          break;
        }
        assert lh[..i + 1] == lh[..i] + [block[i]];
        i := i + 1;
      }
      assert lh[..i] == block[..i];
    }

    /** The caller, inside call `op`, has changed block `b` to `data` in the
        cache. Returns false where the source panics. */
    method LogWrite(ghost op: nat, b: nat, data: Block) returns (ok: bool)
      requires Valid() && op in ops && IsHome(|device.blocks|, start, b)
      modifies this`n, this`cached, this`ops, block
      ensures old(ops[op]) < MAXOPBLOCKS || b in old(block[..n]) ==> Valid()
      ensures Shape() && Idle(start, device.blocks) && forall c :: c in cached <==> c in block[..n]
      ensures ok == !LogSpace.Panics(old(Space()), LogSpace.LogWrite(op, b))
      ensures old(ops[op]) < MAXOPBLOCKS ==> ok
      ensures Space() == if ok then LogSpace.Next(old(Space()), LogSpace.LogWrite(op, b)) else old(Space())
      ensures cached == if ok then old(cached)[b := data] else old(cached)
      ensures ok <==> old(n) < LOGBLOCKS
      ensures block[..n] == if ok && b !in old(block[..n]) then old(block[..n]) + [b] else old(block[..n])
    {
      LogSpace.LogWriteSafeIff(Space(), op, b);
      if ops[op] < MAXOPBLOCKS {
        LogSpace.NextKeepsInv(Space(), LogSpace.LogWrite(op, b));
      }
      if n >= LOGBLOCKS {
        return false;
      }
      if outstanding < 1 {
        return false;
      }
      var i := Find(b);
      Record(op, i, b, data);
      ok := true;
    }

    method Record(ghost op: nat, i: nat, b: nat, data: Block)
      requires Shape() && op in ops && i <= n < LOGBLOCKS && IsHome(|device.blocks|, start, b)
      requires b !in block[..i] && (i < n ==> block[i] == b)
      modifies this`n, this`cached, this`ops, block
      ensures Shape() && cached == old(cached)[b := data]
      ensures Space() == LogSpace.Next(old(Space()), LogSpace.LogWrite(op, b))
    {
      ghost var lh := block[..n];
      block[i] := b;
      cached := cached[b := data];
      if i == n {
        n := n + 1;
        ops := ops[op := ops[op] + 1];
        assert block[..n] == lh + [b];
      } else {
        assert lh[i] == b;
        assert block[..n] == lh;
      }
    }

    /** end_op up to the release of log.lock; true when this was the last
        outstanding call and the caller must now commit. */
    method EndOp(ghost op: nat) returns (doCommit: bool)
      requires Valid() && op in ops
      modifies this`outstanding, this`committing, this`ops
      ensures Valid() && doCommit == committing
      ensures doCommit <==> old(outstanding) == 1
      ensures outstanding == old(outstanding) - 1
      ensures Space() == LogSpace.Next(old(Space()), LogSpace.End(op))
      ensures doCommit ==> ops == map[]
    {
      LogSpace.NoPanic(Space(), LogSpace.End(op));
      LogSpace.NextKeepsInv(Space(), LogSpace.End(op));
      outstanding := outstanding - 1;
      doCommit := false;
      ops := ops - {op};
      if outstanding == 0 {
        doCommit := true;
        committing := true;
      }
    }

    /** commit: afterwards the home blocks on disk are those of the whole
        transaction, and the log is empty again. */
    method Commit()
      requires Valid() && committing
      modifies this`n, this`cached, device
      ensures Valid() && Space() == old(Space()).(lh := [])
      ensures ValidTx(|old(device.blocks)|, start, Gather(old(block[..n]), old(cached)))
      ensures IsPost(start, old(device.blocks), Gather(old(block[..n]), old(cached)), device.blocks)
      ensures device.trace ==
              old(device.trace) + CommitWrites(start, old(device.blocks)[start], Gather(old(block[..n]), old(cached)))
    {
      hide IsPost, CommitWrites, ValidTx, Idle, BlockDevice.Valid;
      TransactionValid();
      ghost var d, tx, from := device.blocks, Gather(block[..n], cached), |device.trace|;
      DeviceAt(from);
      CommitWritesOut();
      DeviceAt(from);
      AfterCommit(from, d, tx);
      LogSpace.Emptied(old(Space()));
    }

    lemma TransactionValid()
      requires Valid()
      ensures (forall i :: 0 <= i < n ==> block[i] in cached)
      ensures ValidTx(|device.blocks|, start, Gather(block[..n], cached))
      ensures forall b :: b in cached ==> b in block[..n]
    {
      assert Distinct(block[..n]);
    }

    lemma DeviceAt(from: nat)
      requires device.Valid() && from <= |device.trace|
      ensures from < |device.crash| && |device.crash| == |device.trace| + 1
      ensures from == |device.trace| ==> device.crash[from] == device.blocks
    {
    }

    /** end_op after commit returns: the next call will be admitted. */
    method CommitDone()
      requires Valid() && committing && n == 0
      modifies this`committing
      ensures Valid() && Space() == LogSpace.Next(old(Space()), LogSpace.CommitDone)
      ensures !committing && n + (outstanding + 1) * MAXOPBLOCKS <= LOGBLOCKS
    {
      committing := false;
    }

    /** What the writes of a whole commit, recorded from `from` on, lead to. */
    lemma AfterCommit(from: nat, d: Disk, tx: Tx)
      requires device.Valid() && from <= |device.trace| && device.crash[from] == d
      requires Idle(start, d) && ValidTx(|d|, start, tx)
      requires device.trace[from..] == CommitWrites(start, d[start], tx)
      ensures IsPost(start, d, tx, device.blocks) && Idle(start, device.blocks)
    {
      var ws := CommitWrites(start, d[start], tx);
      device.CrashIsApply(from, ws, |ws|);
      CompleteCommit(start, d, tx);
      if |tx.lh| > 0 {
        CommitWriteAt(start, d[start], tx);
      }
    }

    /** Whatever the device holds when power fails inside a commit recorded
        from `from` on, recovery turns into the state before or after it. */
    lemma CommitCrashSafe(from: nat, d: Disk, tx: Tx, k: nat, ks: seq<nat>)
      requires device.Valid() && from + k < |device.crash| && device.crash[from] == d
      requires Idle(start, d) && ValidTx(|d|, start, tx)
      requires device.trace[from..] <= CommitWrites(start, d[start], tx)
      ensures Readable(start, Recoveries(start, device.crash[from + k], ks))
      ensures var r := Recover(start, Recoveries(start, device.crash[from + k], ks));
              && Idle(start, r)
              && if k <= |tx.lh| then SameHome(start, d, r) else IsPost(start, d, tx, r)
    {
      var ws, us := CommitWrites(start, d[start], tx), device.trace[from..];
      device.CrashIsApply(from, us, k);
      assert us[..k] == ws[..k];
      CrashAtomicity(start, d, tx, k, ks);
    }
  }
}