/** The on-disk redo log: what a crash between two block writes leaves behind,
    and what recovery makes of it.

    A disk is a sequence of blocks; a single block write is atomic. The log
    occupies the header block `start` and the LOGBLOCKS blocks after it; every
    other block is a home block. */
module RedoLog {
  import opened Basics
  import opened Params

  const BLOCKWORDS: nat := 256 // BSIZE / sizeof(int)

  type Block = b: seq<int> | |b| == BLOCKWORDS witness seq(BLOCKWORDS, i => 0)
  type Disk = seq<Block>

  datatype Write = Write(at: nat, data: Block)

  // ----- Block writes and crashes -----

  ghost predicate InRange(ws: seq<Write>, size: nat) {
    forall i :: 0 <= i < |ws| ==> ws[i].at < size
  }

  /** The disk after the writes `ws`, in order. */
  ghost function Apply(d: Disk, ws: seq<Write>): (r: Disk)
    requires InRange(ws, |d|)
    ensures |r| == |d|
  {
    if ws == [] then d
    else
      var k := |ws| - 1;
      Apply(d, ws[..k])[ws[k].at := ws[k].data]
  }

  lemma ApplyStep(d: Disk, ws: seq<Write>, k: nat)
    requires InRange(ws, |d|) && k < |ws|
    ensures Apply(d, ws[..k + 1]) == Apply(d, ws[..k])[ws[k].at := ws[k].data]
  {
    assert ws[..k + 1][..k] == ws[..k];
  }

  ghost predicate Preserves(P: (nat, Disk) -> bool, size: nat, ws: seq<Write>)
    requires InRange(ws, size)
  {
    forall j: nat, e: Disk :: j < |ws| && |e| == size && P(j, e) ==> P(j + 1, e[ws[j].at := ws[j].data])
  }

  /** An invariant indexed by the number of writes done holds after every prefix. */
  lemma {:induction false} ApplyInduction(P: (nat, Disk) -> bool, d: Disk, ws: seq<Write>, k: nat)
    requires InRange(ws, |d|) && k <= |ws|
    requires P(0, d) && Preserves(P, |d|, ws)
    ensures P(k, Apply(d, ws[..k]))
  {
    if k == 0 {
      assert Apply(d, ws[..k]) == d;
    } else {
      ApplyInduction(P, d, ws, k - 1);
      ApplyStep(d, ws, k - 1);
    }
  }

  // ----- The header block -----

  /** The header block with `lh` written over it; words past the recorded
      block numbers keep their stale values. */
  function PutHeader(hb: Block, lh: seq<nat>): (r: Block)
    requires |lh| <= LOGBLOCKS
  {
    [|lh|] + lh + hb[|lh| + 1..]
  }

  ghost predicate HasHeader(hb: Block, lh: seq<nat>) {
    && |lh| <= LOGBLOCKS
    && hb[0] == |lh|
    && forall i :: 0 <= i < |lh| ==> hb[1 + i] == lh[i]
  }

  /** A header names at most one transaction. */
  lemma HeaderUnique(hb: Block, lh: seq<nat>, lh': seq<nat>)
    requires HasHeader(hb, lh) && HasHeader(hb, lh')
    ensures lh == lh'
  {
    forall i | 0 <= i < |lh| ensures lh[i] == lh'[i] {
      assert hb[1 + i] == lh[i];
      assert hb[1 + i] == lh'[i];
    }
  }

  // ----- Transactions -----

  ghost predicate IsHome(size: nat, start: nat, b: nat) {
    b < size && !(start <= b <= start + LOGBLOCKS)
  }

  ghost predicate LogFits(d: Disk, start: nat) {
    start + LOGBLOCKS < |d|
  }

  /** What log_write has gathered: distinct home block numbers and, for each,
      the contents the buffer cache holds for it. */
  datatype Tx = Tx(lh: seq<nat>, data: seq<Block>)

  ghost predicate ValidTx(size: nat, start: nat, tx: Tx) {
    && |tx.lh| == |tx.data| <= LOGBLOCKS
    && Distinct(tx.lh)
    && forall i :: 0 <= i < |tx.lh| ==> IsHome(size, start, tx.lh[i])
  }

  ghost predicate SameHome(start: nat, d: Disk, e: Disk) {
    |d| == |e| && forall b: nat :: IsHome(|d|, start, b) ==> d[b] == e[b]
  }

  /** The home state after the transaction, all of it. */
  ghost predicate IsPost(start: nat, d0: Disk, tx: Tx, d: Disk)
    requires ValidTx(|d0|, start, tx)
  {
    && |d| == |d0|
    && (forall i :: 0 <= i < |tx.lh| ==> d[tx.lh[i]] == tx.data[i])
    && (forall b: nat :: IsHome(|d0|, start, b) && b !in tx.lh ==> d[b] == d0[b])
  }

  /** No transaction on the disk: the header is empty. */
  ghost predicate Idle(start: nat, d: Disk) {
    LogFits(d, start) && HasHeader(d[start], [])
  }

  /** A committed transaction, perhaps partly installed: header and log blocks
      hold it, and the home blocks it does not name are as before. */
  ghost predicate Committed(start: nat, d0: Disk, tx: Tx, d: Disk)
    requires ValidTx(|d0|, start, tx)
  {
    && |d| == |d0| && LogFits(d, start)
    && HasHeader(d[start], tx.lh)
    && (forall i :: 0 <= i < |tx.lh| ==> d[start + 1 + i] == tx.data[i])
    && (forall b: nat :: IsHome(|d0|, start, b) && b !in tx.lh ==> d[b] == d0[b])
  }

  // ----- commit() as a list of block writes -----

  ghost function LogPart(start: nat, tx: Tx): (ws: seq<Write>)
    requires |tx.lh| == |tx.data|
  {
    seq(|tx.lh|, i requires 0 <= i < |tx.lh| => Write(start + 1 + i, tx.data[i]))
  }

  ghost function InstallPart(tx: Tx): (ws: seq<Write>)
    requires |tx.lh| == |tx.data|
  {
    seq(|tx.lh|, i requires 0 <= i < |tx.lh| => Write(tx.lh[i], tx.data[i]))
  }

  /** write_log, write_head, install_trans, write_head; nothing at all for an
      empty transaction. `hb` is the header block found on the disk. */
  ghost function CommitWrites(start: nat, hb: Block, tx: Tx): (ws: seq<Write>)
    requires |tx.lh| == |tx.data| <= LOGBLOCKS
  {
    if |tx.lh| == 0 then []
    else
      var h := PutHeader(hb, tx.lh);
      LogPart(start, tx) + [Write(start, h)] + InstallPart(tx) + [Write(start, PutHeader(h, []))]
  }

  /** recover_from_log on a disk whose header is `lh`. */
  ghost function RecoveryWrites(start: nat, d: Disk, lh: seq<nat>): (ws: seq<Write>)
    requires LogFits(d, start) && HasHeader(d[start], lh)
  {
    InstallPart(Tx(lh, d[start + 1..start + 1 + |lh|])) + [Write(start, PutHeader(d[start], []))]
  }

  // ----- Crashing inside commit -----

  /** The disk `d` after the first `k` writes of commit, spelled out. */
  ghost predicate CommitPhase(start: nat, d0: Disk, tx: Tx, k: nat, d: Disk)
    requires LogFits(d0, start) && ValidTx(|d0|, start, tx) && |tx.lh| > 0 && k <= 2 * |tx.lh| + 2
  {
    var n := |tx.lh|;
    && |d| == |d0|
    && (k <= n ==>
          && d[start] == d0[start]
          && (forall i :: 0 <= i < k ==> d[start + 1 + i] == tx.data[i])
          && SameHome(start, d0, d))
    && (n < k < 2 * n + 2 ==>
          && d[start] == PutHeader(d0[start], tx.lh)
          && Committed(start, d0, tx, d)
          && (forall i :: 0 <= i < k - n - 1 ==> d[tx.lh[i]] == tx.data[i]))
    && (k == 2 * n + 2 ==> IsPost(start, d0, tx, d) && Idle(start, d))
  }

  /** The k-th block write of commit. */
  ghost function NthWrite(start: nat, hb: Block, tx: Tx, k: nat): Write
    requires 0 < |tx.lh| == |tx.data| <= LOGBLOCKS && k < 2 * |tx.lh| + 2
  {
    var n := |tx.lh|;
    if k < n then Write(start + 1 + k, tx.data[k])
    else if k == n then Write(start, PutHeader(hb, tx.lh))
    else if k < 2 * n + 1 then Write(tx.lh[k - n - 1], tx.data[k - n - 1])
    else Write(start, PutHeader(PutHeader(hb, tx.lh), []))
  }

  lemma CommitWriteAt(start: nat, hb: Block, tx: Tx)
    requires 0 < |tx.lh| == |tx.data| <= LOGBLOCKS
    ensures |CommitWrites(start, hb, tx)| == 2 * |tx.lh| + 2
    ensures forall k :: 0 <= k < 2 * |tx.lh| + 2 ==> CommitWrites(start, hb, tx)[k] == NthWrite(start, hb, tx, k)
  {
  }

  lemma CommitWritesInRange(start: nat, d0: Disk, tx: Tx)
    requires LogFits(d0, start) && ValidTx(|d0|, start, tx)
    ensures InRange(CommitWrites(start, d0[start], tx), |d0|)
  {
    if |tx.lh| > 0 {
      CommitWriteAt(start, d0[start], tx);
    }
  }

  lemma LogStep(start: nat, d0: Disk, tx: Tx, k: nat, d: Disk)
    requires LogFits(d0, start) && ValidTx(|d0|, start, tx) && k < |tx.lh|
    requires CommitPhase(start, d0, tx, k, d)
    ensures CommitPhase(start, d0, tx, k + 1, d[start + 1 + k := tx.data[k]])
  {
  }

  lemma HeadStep(start: nat, d0: Disk, tx: Tx, d: Disk)
    requires LogFits(d0, start) && ValidTx(|d0|, start, tx) && 0 < |tx.lh|
    requires CommitPhase(start, d0, tx, |tx.lh|, d)
    ensures CommitPhase(start, d0, tx, |tx.lh| + 1, d[start := PutHeader(d0[start], tx.lh)])
  {
  }

  lemma InstallStep(start: nat, d0: Disk, tx: Tx, j: nat, d: Disk)
    requires LogFits(d0, start) && ValidTx(|d0|, start, tx) && j < |tx.lh|
    requires CommitPhase(start, d0, tx, |tx.lh| + 1 + j, d)
    ensures j + 1 <= |tx.lh|
    ensures CommitPhase(start, d0, tx, |tx.lh| + 1 + j + 1, d[tx.lh[j] := tx.data[j]])
  {
  }

  lemma ClearStep(start: nat, d0: Disk, tx: Tx, d: Disk, hb: Block)
    requires LogFits(d0, start) && ValidTx(|d0|, start, tx) && 0 < |tx.lh|
    requires CommitPhase(start, d0, tx, 2 * |tx.lh| + 1, d)
    ensures CommitPhase(start, d0, tx, 2 * |tx.lh| + 2, d[start := PutHeader(hb, [])])
  {
  }

  lemma CommitStep(start: nat, d0: Disk, tx: Tx, k: nat, d: Disk)
    requires LogFits(d0, start) && ValidTx(|d0|, start, tx) && 0 < |tx.lh| && k < 2 * |tx.lh| + 2
    requires CommitPhase(start, d0, tx, k, d)
    ensures var w := NthWrite(start, d0[start], tx, k);
            w.at < |d0| && CommitPhase(start, d0, tx, k + 1, d[w.at := w.data])
  {
    var n := |tx.lh|;
    if k < n {
      LogStep(start, d0, tx, k, d);
    } else if k == n {
      HeadStep(start, d0, tx, d);
    } else if k < 2 * n + 1 {
      InstallStep(start, d0, tx, k - n - 1, d);
    } else {
      ClearStep(start, d0, tx, d, PutHeader(d0[start], tx.lh));
    }
  }

  lemma CommitPrefix(start: nat, d0: Disk, tx: Tx, ws: seq<Write>, k: nat)
    requires LogFits(d0, start) && ValidTx(|d0|, start, tx) && |tx.lh| > 0 && k <= 2 * |tx.lh| + 2
    requires InRange(ws, |d0|) && |ws| == 2 * |tx.lh| + 2
    requires forall j :: 0 <= j < |ws| ==> ws[j] == NthWrite(start, d0[start], tx, j)
    ensures CommitPhase(start, d0, tx, k, Apply(d0, ws[..k]))
  {
    var P := (j: nat, e: Disk) => j <= |ws| && CommitPhase(start, d0, tx, j, e);
    forall j: nat, e: Disk | j < |ws| && |e| == |d0| && P(j, e)
      ensures P(j + 1, e[ws[j].at := ws[j].data])
    {
      CommitStep(start, d0, tx, j, e);
    }
    ApplyInduction(P, d0, ws, k);
  }

  // ----- Crashing inside recovery -----

  const EMPTY: Tx := Tx([], [])

  /** An empty header is a committed empty transaction. */
  lemma IdleIsCommittedEmpty(start: nat, d0: Disk, d: Disk)
    requires |d| == |d0|
    ensures Committed(start, d0, EMPTY, d) <==> Idle(start, d) && SameHome(start, d0, d)
  {
  }

  ghost predicate RecoveryPhase(start: nat, d0: Disk, tx: Tx, k: nat, d: Disk)
    requires ValidTx(|d0|, start, tx) && k <= |tx.lh| + 1
  {
    if k <= |tx.lh| then
      Committed(start, d0, tx, d) && forall i :: 0 <= i < k ==> d[tx.lh[i]] == tx.data[i]
    else
      IsPost(start, d0, tx, d) && Idle(start, d)
  }

  lemma RecoveryInstallStep(start: nat, d0: Disk, tx: Tx, k: nat, d: Disk)
    requires ValidTx(|d0|, start, tx) && k < |tx.lh| && RecoveryPhase(start, d0, tx, k, d)
    ensures RecoveryPhase(start, d0, tx, k + 1, d[tx.lh[k] := tx.data[k]])
  {
    var e := d[tx.lh[k] := tx.data[k]];
    forall i | 0 <= i < k + 1 ensures e[tx.lh[i]] == tx.data[i] {
    }
  }

  lemma RecoveryClearStep(start: nat, d0: Disk, tx: Tx, d: Disk, hb: Block)
    requires ValidTx(|d0|, start, tx) && RecoveryPhase(start, d0, tx, |tx.lh|, d)
    ensures RecoveryPhase(start, d0, tx, |tx.lh| + 1, d[start := PutHeader(hb, [])])
  {
  }

  lemma RecoveryStep(start: nat, d0: Disk, tx: Tx, k: nat, d: Disk, hb: Block, w: Write)
    requires ValidTx(|d0|, start, tx) && k <= |tx.lh| && RecoveryPhase(start, d0, tx, k, d)
    requires w == if k < |tx.lh| then Write(tx.lh[k], tx.data[k]) else Write(start, PutHeader(hb, []))
    ensures w.at < |d| && RecoveryPhase(start, d0, tx, k + 1, d[w.at := w.data])
  {
    if k < |tx.lh| {
      RecoveryInstallStep(start, d0, tx, k, d);
    } else {
      RecoveryClearStep(start, d0, tx, d, hb);
    }
  }

  lemma RecoveryPrefix(start: nat, d0: Disk, tx: Tx, d: Disk, hb: Block, ws: seq<Write>, k: nat)
    requires ValidTx(|d0|, start, tx) && RecoveryPhase(start, d0, tx, 0, d) && k <= |tx.lh| + 1
    requires InRange(ws, |d|) && |ws| == |tx.lh| + 1
    requires forall i :: 0 <= i < |tx.lh| ==> ws[i] == Write(tx.lh[i], tx.data[i])
    requires ws[|tx.lh|] == Write(start, PutHeader(hb, []))
    ensures RecoveryPhase(start, d0, tx, k, Apply(d, ws[..k]))
  {
    var P := (j: nat, e: Disk) => j <= |ws| && RecoveryPhase(start, d0, tx, j, e);
    forall j: nat, e: Disk | j < |ws| && |e| == |d| && P(j, e)
      ensures P(j + 1, e[ws[j].at := ws[j].data])
    {
      RecoveryStep(start, d0, tx, j, e, hb, ws[j]);
    }
    ApplyInduction(P, d, ws, k);
  }

  // ----- Whole crash-and-recover histories -----

  /** A header recovery can follow: a count in range and home block numbers. */
  ghost predicate Readable(start: nat, d: Disk) {
    && LogFits(d, start)
    && var hb := d[start];
       && 0 <= hb[0] <= LOGBLOCKS
       && forall j :: 1 <= j <= hb[0] ==> hb[j] >= 0 && IsHome(|d|, start, hb[j])
  }

  ghost function HeaderOf(start: nat, d: Disk): (lh: seq<nat>)
    requires Readable(start, d)
    ensures HasHeader(d[start], lh)
    ensures forall i :: 0 <= i < |lh| ==> IsHome(|d|, start, lh[i])
  {
    var hb := d[start];
    seq(hb[0], i requires 0 <= i < hb[0] => hb[1 + i])
  }

  /** recover_from_log, stopped by a crash after `k` block writes (or run to
      its end when it makes no more than `k`). */
  ghost function RecoverUpTo(start: nat, d: Disk, k: nat): (r: Disk)
    requires Readable(start, d)
    ensures |r| == |d|
  {
    var ws := RecoveryWrites(start, d, HeaderOf(start, d));
    assert InRange(ws, |d|);
    Apply(d, ws[..if k < |ws| then k else |ws|])
  }

  ghost function Recover(start: nat, d: Disk): (r: Disk)
    requires Readable(start, d)
  {
    RecoverUpTo(start, d, LOGBLOCKS + 1)
  }

  lemma CommittedReadable(start: nat, d0: Disk, tx: Tx, d: Disk)
    requires ValidTx(|d0|, start, tx) && Committed(start, d0, tx, d)
    ensures Readable(start, d) && HeaderOf(start, d) == tx.lh
    ensures d[start + 1..start + 1 + |tx.lh|] == tx.data
  {
    forall j | 1 <= j <= d[start][0] ensures d[start][j] >= 0 && IsHome(|d|, start, d[start][j]) {
      assert d[start][1 + (j - 1)] == tx.lh[j - 1];
    }
    HeaderUnique(d[start], HeaderOf(start, d), tx.lh);
  }

  /** One recovery of a committed transaction, interrupted or not. */
  lemma RecoverCommitted(start: nat, d0: Disk, tx: Tx, d: Disk, k: nat)
    requires ValidTx(|d0|, start, tx) && Committed(start, d0, tx, d)
    ensures Readable(start, d)
    ensures k <= |tx.lh| ==> Committed(start, d0, tx, RecoverUpTo(start, d, k))
    ensures |tx.lh| < k ==> IsPost(start, d0, tx, RecoverUpTo(start, d, k)) && Idle(start, RecoverUpTo(start, d, k))
  {
    CommittedReadable(start, d0, tx, d);
    var ws := RecoveryWrites(start, d, tx.lh);
    assert ws == InstallPart(tx) + [Write(start, PutHeader(d[start], []))];
    RecoveryPrefix(start, d0, tx, d, d[start], ws, if k < |ws| then k else |ws|);
  }

  lemma PostTrans(start: nat, d0: Disk, tx: Tx, d: Disk, e: Disk)
    requires ValidTx(|d0|, start, tx) && IsPost(start, d0, tx, d) && SameHome(start, d, e)
    ensures IsPost(start, d0, tx, e)
  {
  }

  /** Any number of recoveries, each cut off after the given number of writes. */
  ghost function Recoveries(start: nat, d: Disk, ks: seq<nat>): (r: Disk)
    ensures |r| == |d|
  {
    if ks == [] then d
    else
      var e := Recoveries(start, d, ks[..|ks| - 1]);
      if Readable(start, e) then RecoverUpTo(start, e, ks[|ks| - 1]) else e
  }

  /** While recoveries are cut off the transaction stays committed or is done. */
  ghost predicate InDoubt(start: nat, d0: Disk, tx: Tx, d: Disk)
    requires ValidTx(|d0|, start, tx)
  {
    Committed(start, d0, tx, d) || (IsPost(start, d0, tx, d) && Idle(start, d))
  }

  lemma RecoverInDoubt(start: nat, d0: Disk, tx: Tx, d: Disk, k: nat)
    requires ValidTx(|d0|, start, tx) && InDoubt(start, d0, tx, d)
    ensures Readable(start, d) && InDoubt(start, d0, tx, RecoverUpTo(start, d, k))
    ensures k > LOGBLOCKS ==> IsPost(start, d0, tx, RecoverUpTo(start, d, k)) && Idle(start, RecoverUpTo(start, d, k))
  {
    if Committed(start, d0, tx, d) {
      RecoverCommitted(start, d0, tx, d, k);
    } else {
      IdleIsCommittedEmpty(start, d, d);
      RecoverCommitted(start, d, EMPTY, d, k);
      var e := RecoverUpTo(start, d, k);
      IdleIsCommittedEmpty(start, d, e);
      PostTrans(start, d0, tx, d, e);
    }
  }

  lemma {:induction false} RecoveriesInDoubt(start: nat, d0: Disk, tx: Tx, d: Disk, ks: seq<nat>)
    requires ValidTx(|d0|, start, tx) && InDoubt(start, d0, tx, d)
    ensures InDoubt(start, d0, tx, Recoveries(start, d, ks))
  {
    if ks != [] {
      RecoveriesInDoubt(start, d0, tx, d, ks[..|ks| - 1]);
      RecoverInDoubt(start, d0, tx, Recoveries(start, d, ks[..|ks| - 1]), ks[|ks| - 1]);
    }
  }

  /** The transaction that survives a crash after `k` writes of commit: all of
      it once the header has been written, none of it before. */
  ghost function Surviving(tx: Tx, k: nat): Tx {
    if k <= |tx.lh| then EMPTY else tx
  }

  /** commit() cut off after `k` block writes. */
  ghost function CommitUpTo(start: nat, d: Disk, tx: Tx, k: nat): (r: Disk)
    requires LogFits(d, start) && ValidTx(|d|, start, tx)
    ensures |r| == |d|
  {
    CommitWritesInRange(start, d, tx);
    var ws := CommitWrites(start, d[start], tx);
    Apply(d, ws[..if k < |ws| then k else |ws|])
  }

  lemma CommitLeavesInDoubt(start: nat, d0: Disk, tx: Tx, k: nat)
    requires Idle(start, d0) && ValidTx(|d0|, start, tx)
    ensures ValidTx(|d0|, start, Surviving(tx, k))
    ensures InDoubt(start, d0, Surviving(tx, k), CommitUpTo(start, d0, tx, k))
  {
    var d := CommitUpTo(start, d0, tx, k);
    if |tx.lh| == 0 {
      assert d == d0;
    } else {
      var ws := CommitWrites(start, d0[start], tx);
      CommitWritesInRange(start, d0, tx);
      CommitWriteAt(start, d0[start], tx);
      CommitPrefix(start, d0, tx, ws, if k < |ws| then k else |ws|);
      if k <= |tx.lh| {
        IdleIsCommittedEmpty(start, d0, d);
      }
    }
  }

  /** Crash atomicity: a crash after any prefix of commit's writes, then any
      number of recoveries that crash themselves, then one that completes,
      leaves the home blocks exactly as before the transaction or exactly as
      after it, and the log empty. Which of the two is decided by whether the
      header write was reached. */
  lemma CrashAtomicity(start: nat, d0: Disk, tx: Tx, k: nat, ks: seq<nat>)
    requires Idle(start, d0) && ValidTx(|d0|, start, tx)
    ensures Readable(start, Recoveries(start, CommitUpTo(start, d0, tx, k), ks))
    ensures var d := Recover(start, Recoveries(start, CommitUpTo(start, d0, tx, k), ks));
            && Idle(start, d)
            && (k <= |tx.lh| ==> SameHome(start, d0, d))
            && (|tx.lh| < k ==> IsPost(start, d0, tx, d))
  {
    var sx, d := Surviving(tx, k), CommitUpTo(start, d0, tx, k);
    CommitLeavesInDoubt(start, d0, tx, k);
    RecoveriesInDoubt(start, d0, sx, d, ks);
    RecoverInDoubt(start, d0, sx, Recoveries(start, d, ks), LOGBLOCKS + 1);
  }

  // ----- Runs of many transactions -----

  /** One transaction of a run: its commit completes, or it crashes after `k`
      writes and the reboot recovers, with the given crashes on the way. */
  datatype Event = Completes(tx: Tx) | Crashes(tx: Tx, k: nat, ks: seq<nat>)

  ghost predicate ValidEvents(size: nat, start: nat, es: seq<Event>) {
    forall i :: 0 <= i < |es| ==> ValidTx(size, start, es[i].tx)
  }

  /** What the event does to the real disk. */
  ghost function RealStep(start: nat, d: Disk, e: Event): (r: Disk)
    requires Idle(start, d) && ValidTx(|d|, start, e.tx)
    ensures |r| == |d| && Idle(start, r)
    ensures if Durable(e) then IsPost(start, d, e.tx, r) else SameHome(start, d, r)
  {
    match e
    case Completes(tx) =>
      CompleteCommit(start, d, tx);
      CommitUpTo(start, d, tx, 2 * LOGBLOCKS + 2)
    case Crashes(tx, k, ks) =>
      CrashAtomicity(start, d, tx, k, ks);
      Recover(start, Recoveries(start, CommitUpTo(start, d, tx, k), ks))
  }

  lemma CompleteCommit(start: nat, d0: Disk, tx: Tx)
    requires Idle(start, d0) && ValidTx(|d0|, start, tx)
    ensures IsPost(start, d0, tx, CommitUpTo(start, d0, tx, 2 * LOGBLOCKS + 2))
    ensures Idle(start, CommitUpTo(start, d0, tx, 2 * LOGBLOCKS + 2))
  {
    if |tx.lh| > 0 {
      CommitWritesInRange(start, d0, tx);
      CommitWriteAt(start, d0[start], tx);
      CommitPrefix(start, d0, tx, CommitWrites(start, d0[start], tx), 2 * |tx.lh| + 2);
    }
  }

  ghost function RealRun(start: nat, d: Disk, es: seq<Event>): (r: Disk)
    requires Idle(start, d) && ValidEvents(|d|, start, es)
    ensures |r| == |d| && Idle(start, r)
  {
    if es == [] then d
    else RealStep(start, RealRun(start, d, es[..|es| - 1]), es[|es| - 1])
  }

  ghost predicate Durable(e: Event) {
    e.Completes? || |e.tx.lh| < e.k
  }

  /** The abstract disk: a durable transaction happens all at once, any other
      one not at all. */
  ghost function IdealRun(d: Disk, es: seq<Event>): (r: Disk)
    requires forall i :: 0 <= i < |es| ==> |es[i].tx.lh| == |es[i].tx.data| && InRange(InstallPart(es[i].tx), |d|)
    ensures |r| == |d|
  {
    if es == [] then d
    else
      var r, e := IdealRun(d, es[..|es| - 1]), es[|es| - 1];
      if Durable(e) then Apply(r, InstallPart(e.tx)) else r
  }

  ghost predicate InstallPhase(start: nat, d0: Disk, tx: Tx, k: nat, d: Disk)
    requires ValidTx(|d0|, start, tx)
  {
    && |d| == |d0| && k <= |tx.lh|
    && (forall i :: 0 <= i < k ==> d[tx.lh[i]] == tx.data[i])
    && (forall b: nat :: IsHome(|d0|, start, b) && b !in tx.lh ==> d[b] == d0[b])
  }

  lemma InstallPhaseStep(start: nat, d0: Disk, tx: Tx, k: nat, d: Disk)
    requires ValidTx(|d0|, start, tx) && k < |tx.lh| && InstallPhase(start, d0, tx, k, d)
    ensures InstallPhase(start, d0, tx, k + 1, d[tx.lh[k] := tx.data[k]])
  {
  }

  lemma InstallPrefix(start: nat, d: Disk, tx: Tx, ws: seq<Write>, n: nat)
    requires ValidTx(|d|, start, tx) && InRange(ws, |d|) && n <= |ws| == |tx.lh|
    requires forall i :: 0 <= i < |ws| ==> ws[i] == Write(tx.lh[i], tx.data[i])
    ensures InstallPhase(start, d, tx, n, Apply(d, ws[..n]))
  {
    var P := (k: nat, e: Disk) => InstallPhase(start, d, tx, k, e);
    forall k: nat, e: Disk | k < |ws| && |e| == |d| && P(k, e)
      ensures P(k + 1, e[ws[k].at := ws[k].data])
    {
      InstallPhaseStep(start, d, tx, k, e);
    }
    ApplyInduction(P, d, ws, n);
  }

  lemma InstallAll(start: nat, d: Disk, tx: Tx)
    requires ValidTx(|d|, start, tx)
    ensures InRange(InstallPart(tx), |d|) && IsPost(start, d, tx, Apply(d, InstallPart(tx)))
  {
    var ws := InstallPart(tx);
    InstallPrefix(start, d, tx, ws, |ws|);
    assert ws[..|ws|] == ws;
  }

  lemma PostUnique(start: nat, d0: Disk, e0: Disk, tx: Tx, d: Disk, e: Disk)
    requires ValidTx(|d0|, start, tx) && SameHome(start, d0, e0)
    requires IsPost(start, d0, tx, d) && IsPost(start, e0, tx, e)
    ensures SameHome(start, d, e)
  {
    forall b: nat | IsHome(|d|, start, b) ensures d[b] == e[b] {
      if b in tx.lh {
        var i :| 0 <= i < |tx.lh| && tx.lh[i] == b;
        assert d[tx.lh[i]] == tx.data[i] == e[tx.lh[i]];
      } else {
        assert d[b] == d0[b] && e[b] == e0[b];
      }
    }
  }

  lemma RunStepAtomic(start: nat, d: Disk, a: Disk, e: Event)
    requires Idle(start, d) && ValidTx(|d|, start, e.tx) && SameHome(start, d, a)
    ensures |e.tx.lh| == |e.tx.data| && InRange(InstallPart(e.tx), |a|)
    ensures SameHome(start, RealStep(start, d, e), if Durable(e) then Apply(a, InstallPart(e.tx)) else a)
  {
    InstallAll(start, a, e.tx);
    if Durable(e) {
      PostUnique(start, d, a, e.tx, RealStep(start, d, e), Apply(a, InstallPart(e.tx)));
    }
  }

  /** Over every run of transactions, crashes and crashed recoveries, the home
      blocks are those of the ideal all-or-nothing disk. */
  lemma {:induction false} RunAtomicity(start: nat, d: Disk, es: seq<Event>)
    requires Idle(start, d) && ValidEvents(|d|, start, es)
    ensures forall i :: 0 <= i < |es| ==> |es[i].tx.lh| == |es[i].tx.data| && InRange(InstallPart(es[i].tx), |d|)
    ensures SameHome(start, RealRun(start, d, es), IdealRun(d, es))
  {
    hide Idle, ValidTx, SameHome, RealStep, Apply, InRange, InstallPart, Durable;
    if es == [] {
      SameHomeRefl(start, d);
    } else {
      var n := |es| - 1;
      RunAtomicity(start, d, es[..n]);
      RunStepAtomic(start, RealRun(start, d, es[..n]), IdealRun(d, es[..n]), es[n]);
      assert forall i :: 0 <= i < n ==> es[i] == es[..n][i];
    }
  }

  lemma SameHomeRefl(start: nat, d: Disk)
    ensures SameHome(start, d, d)
  {
  }
}