/** What the disk holds while commits run among all other users of the buffer cache, and
    what a crash at any moment leaves. */
module CommitTrace {
  import opened Basics
  import opened Params
  import opened BufCache
  import opened LogBuffers
  import opened CommitRuns
  import RedoLog

  // ----- The disk as a sequence of blocks -----

  ghost predicate BlockThere(at: Place, disk: map<Key, Data>, b: nat) {
    Key(at.dev, b) in disk && IsBlock(disk[Key(at.dev, b)])
  }

  ghost predicate InsideDisk(at: Place, size: nat, disk: map<Key, Data>, k: Key) {
    k in disk && k.dev == at.dev ==> k.blockno < size
  }

  /** The log's device has exactly the blocks below `size`, and the log is among them. */
  ghost predicate DiskOk(at: Place, size: nat, disk: map<Key, Data>) {
    && at.start + LOGBLOCKS < size
    && (forall b: nat {:trigger BlockThere(at, disk, b)} :: b < size ==> BlockThere(at, disk, b))
    && (forall k {:trigger InsideDisk(at, size, disk, k)} :: InsideDisk(at, size, disk, k))
  }

  ghost function BlockOn(at: Place, disk: map<Key, Data>, b: nat): RedoLog.Block
    requires BlockThere(at, disk, b)
  {
    disk[Key(at.dev, b)]
  }

  ghost function Image(at: Place, size: nat, disk: map<Key, Data>): (d: RedoLog.Disk)
    requires DiskOk(at, size, disk)
    ensures |d| == size && RedoLog.LogFits(d, at.start)
  {
    seq(size, b requires 0 <= b < size => assert BlockThere(at, disk, b); BlockOn(at, disk, b))
  }

  lemma ImageAt(at: Place, size: nat, disk: map<Key, Data>, b: nat)
    requires DiskOk(at, size, disk) && b < size
    ensures Key(at.dev, b) in disk && Image(at, size, disk)[b] == disk[Key(at.dev, b)]
  {
    assert BlockThere(at, disk, b);
  }

  lemma ImageWrite(at: Place, size: nat, disk: map<Key, Data>, b: nat, d: Data)
    requires DiskOk(at, size, disk) && b < size && IsBlock(d)
    ensures var disk' := disk[Key(at.dev, b) := d];
            DiskOk(at, size, disk') && Image(at, size, disk') == Image(at, size, disk)[b := d]
  {
    var disk' := disk[Key(at.dev, b) := d];
    forall c: nat | c < size ensures BlockThere(at, disk', c) { assert BlockThere(at, disk, c); }
    forall k ensures InsideDisk(at, size, disk', k) { assert InsideDisk(at, size, disk, k); }
    assert Image(at, size, disk') == Image(at, size, disk)[b := d];
  }

  // ----- How far a commit has come -----

  /** How many of its block writes commit has made, of `n` blocks. */
  function Made(pc: Pc, n: nat): nat {
    match pc
    case Open => 2 * n + 2
    case Copying(install, i, stage, _, _) =>
      (if install then n + 1 else 0) + i + (if stage.Written? || stage.Unpinned? || stage.Last? then 1 else 0)
    case Heading(erase, stage, _) => (if erase then 2 * n + 1 else n) + (if stage.Written? then 1 else 0)
  }

  /** The commit of `tx` that began on disk `d0` has made the first `Made` of its writes, and
      nothing else has been written. */
  ghost predicate Progress(at: Place, d0: RedoLog.Disk, tx: RedoLog.Tx, s: Sys) {
    && RedoLog.LogFits(d0, at.start) && RedoLog.ValidTx(|d0|, at.start, tx) && 0 < |tx.lh| && s.lh == tx.lh
    && DiskOk(at, |d0|, s.c.disk)
    && Image(at, |d0|, s.c.disk) == RedoLog.CommitUpTo(at.start, d0, tx, Made(s.pc, |tx.lh|))
    && forall i: nat {:trigger tx.data[i]} ::
         i < |tx.lh| && Key(at.dev, tx.lh[i]) in s.c.logged ==> s.c.logged[Key(at.dev, tx.lh[i])] == tx.data[i]
  }

  /** One more write. */
  lemma WriteNext(start: nat, d0: RedoLog.Disk, tx: RedoLog.Tx, k: nat)
    requires RedoLog.LogFits(d0, start) && RedoLog.ValidTx(|d0|, start, tx) && 0 < |tx.lh| && k < 2 * |tx.lh| + 2
    ensures var w := RedoLog.NthWrite(start, d0[start], tx, k);
            && w.at < |d0|
            && RedoLog.CommitUpTo(start, d0, tx, k + 1) == RedoLog.CommitUpTo(start, d0, tx, k)[w.at := w.data]
  {
    var ws := RedoLog.CommitWrites(start, d0[start], tx);
    RedoLog.CommitWritesInRange(start, d0, tx);
    RedoLog.CommitWriteAt(start, d0[start], tx);
    RedoLog.ApplyStep(d0, ws, k);
  }

  /** What the header on disk says at that point. */
  lemma HeaderNow(start: nat, d0: RedoLog.Disk, tx: RedoLog.Tx, k: nat)
    requires RedoLog.LogFits(d0, start) && RedoLog.ValidTx(|d0|, start, tx) && 0 < |tx.lh| && k < 2 * |tx.lh| + 2
    ensures RedoLog.CommitUpTo(start, d0, tx, k)[start] ==
            if k <= |tx.lh| then d0[start] else RedoLog.PutHeader(d0[start], tx.lh)
  {
    var ws := RedoLog.CommitWrites(start, d0[start], tx);
    RedoLog.CommitWritesInRange(start, d0, tx);
    RedoLog.CommitWriteAt(start, d0[start], tx);
    RedoLog.CommitPrefix(start, d0, tx, ws, k);
  }

  // ----- Moves -----

  lemma BeginProgress(at: Place, s: Sys, lh: seq<nat>, size: nat)
    requires SysInv(at, s) && MayBegin(at, s, lh) && DiskOk(at, size, s.c.disk)
    ensures Whole(s.c.logged, at, lh, 0)
    ensures Progress(at, Image(at, size, s.c.disk), Transaction(s.c.logged, at, lh),
                     Sys(s.c, Copying(false, 0, Nothing, 0, 0), lh))
  {
    BeginKeepsInv(at, s, lh);
    var d0, tx := Image(at, size, s.c.disk), Transaction(s.c.logged, at, lh);
    forall i | 0 <= i < |lh| ensures RedoLog.IsHome(size, at.start, lh[i]) {
      var k := Key(at.dev, lh[i]);
      assert LogOk(s.c, k) && InsideDisk(at, size, s.c.disk, k);
    }
    assert RedoLog.CommitWrites(at.start, d0[at.start], tx)[..0] == [];
  }

  /** A move that writes nothing. */
  lemma SameProgress(at: Place, d0: RedoLog.Disk, tx: RedoLog.Tx, s: Sys, s': Sys)
    requires Progress(at, d0, tx, s) && s'.c.disk == s.c.disk && s'.lh == s.lh
    requires Made(s'.pc, |tx.lh|) == Made(s.pc, |tx.lh|)
    requires forall k {:trigger k in s'.c.logged} :: k in s'.c.logged ==>
               k in s.c.logged && s'.c.logged[k] == s.c.logged[k]
    ensures Progress(at, d0, tx, s')
  {
  }

  /** A move that makes the next write. */
  lemma NextProgress(at: Place, d0: RedoLog.Disk, tx: RedoLog.Tx, s: Sys, s': Sys, b: nat, d: Data)
    requires Progress(at, d0, tx, s) && s'.lh == s.lh && s'.c.logged == s.c.logged
    requires s'.c.disk == s.c.disk[Key(at.dev, b) := d] && IsBlock(d)
    requires Made(s.pc, |tx.lh|) < 2 * |tx.lh| + 2 && Made(s'.pc, |tx.lh|) == Made(s.pc, |tx.lh|) + 1
    requires RedoLog.NthWrite(at.start, d0[at.start], tx, Made(s.pc, |tx.lh|)) == RedoLog.Write(b, d)
    ensures Progress(at, d0, tx, s')
  {
    hide DiskOk, RedoLog.CommitUpTo, RedoLog.NthWrite;
    WriteNext(at.start, d0, tx, Made(s.pc, |tx.lh|));
    ImageWrite(at, |d0|, s.c.disk, b, d);
  }

  lemma LogProgress(at: Place, d0: RedoLog.Disk, tx: RedoLog.Tx, s: Sys, s': Sys)
    requires SysInv(at, s) && Goes(s, s') && Progress(at, d0, tx, s)
    requires s.pc.Copying? && s.pc.stage.Copied? && !s.pc.install
    ensures Progress(at, d0, tx, s')
  {
    hide Inv, Whole, SavedTo, Image, DiskOk, RedoLog.CommitUpTo;
    var i := s.pc.i;
    assert s.c.logged[Key(at.dev, tx.lh[i])] == tx.data[i];
    NextProgress(at, d0, tx, s, s', at.start + 1 + i, tx.data[i]);
  }

  lemma InstallProgress(at: Place, d0: RedoLog.Disk, tx: RedoLog.Tx, s: Sys, s': Sys)
    requires SysInv(at, s) && Goes(s, s') && Progress(at, d0, tx, s)
    requires s.pc.Copying? && s.pc.stage.Copied? && s.pc.install
    ensures Progress(at, d0, tx, s')
  {
    hide Inv, Whole, Pending, Image, DiskOk, RedoLog.CommitUpTo;
    var i := s.pc.i;
    assert s.c.logged[Key(at.dev, tx.lh[i])] == tx.data[i];
    NextProgress(at, d0, tx, s, s', tx.lh[i], tx.data[i]);
  }

  lemma HeadProgress(at: Place, d0: RedoLog.Disk, tx: RedoLog.Tx, s: Sys, s': Sys)
    requires SysInv(at, s) && Goes(s, s') && Progress(at, d0, tx, s) && s.pc.Heading? && s.pc.stage.Copied?
    ensures Progress(at, d0, tx, s')
  {
    hide Inv, Whole, Pending, Image, DiskOk, RedoLog.CommitUpTo;
    HeaderNow(at.start, d0, tx, Made(s.pc, |tx.lh|));
    StartInDisk(at, |d0|, s.c.disk);
    ImageAt(at, |d0|, s.c.disk, at.start);
    NextProgress(at, d0, tx, s, s', at.start, HeadData(s, s.c.disk[at.Header()]));
  }

  lemma StartInDisk(at: Place, size: nat, disk: map<Key, Data>)
    requires DiskOk(at, size, disk)
    ensures at.start < size
  {
  }

  lemma GoProgress(at: Place, d0: RedoLog.Disk, tx: RedoLog.Tx, s: Sys, s': Sys)
    requires SysInv(at, s) && Goes(s, s') && Progress(at, d0, tx, s)
    ensures Progress(at, d0, tx, s')
  {
    hide Inv, Whole, Pending, SavedTo, Progress;
    if s.pc.Heading? && s.pc.stage.Copied? {
      HeadProgress(at, d0, tx, s, s');
    } else if s.pc.Copying? && s.pc.stage.Copied? {
      if s.pc.install {
        InstallProgress(at, d0, tx, s, s');
      } else {
        LogProgress(at, d0, tx, s, s');
      }
    } else {
      SameList(at, d0, tx, s);
      SameProgress(at, d0, tx, s, s');
    }
  }

  lemma SameList(at: Place, d0: RedoLog.Disk, tx: RedoLog.Tx, s: Sys)
    requires Progress(at, d0, tx, s)
    ensures tx.lh == s.lh
  {
  }

  lemma MoveProgress(at: Place, d0: RedoLog.Disk, tx: RedoLog.Tx, s: Sys, a: Act, s': Sys)
    requires SysInv(at, s) && Moves(at, s, a, s') && !s.pc.Open? && Progress(at, d0, tx, s)
    ensures Progress(at, d0, tx, s')
  {
    hide Inv, CopyingOk, HeadingOk, Progress, Goes;
    match a {
      case Client(t) =>
        SameDisk(at, s, t);
        SameProgress(at, d0, tx, s, s');
      case Begin(_) =>
      case Take(b) => SameProgress(at, d0, tx, s, s');
      case Go => GoProgress(at, d0, tx, s, s');
    }
  }

  // ----- All interleavings -----

  /** Where the disk of state `n` comes from: `d0` is the disk of an earlier state `m`, with
      an empty log. No commit runs and it is the disk of `n`; or `m` is where the running
      commit began and `k` of the writes of its transaction have been made. */
  ghost predicate ComesFrom(at: Place, size: nat, acts: seq<Act>, states: seq<Sys>, n: nat,
                            m: nat, tx: RedoLog.Tx, k: nat)
  {
    && m <= n < |states| && n <= |acts|
    && DiskOk(at, size, states[m].c.disk) && DiskOk(at, size, states[n].c.disk)
    && var d0 := Image(at, size, states[m].c.disk);
       && RedoLog.Idle(at.start, d0) && RedoLog.ValidTx(size, at.start, tx)
       && Image(at, size, states[n].c.disk) == RedoLog.CommitUpTo(at.start, d0, tx, k)
       && (if states[n].pc.Open? then m == n && tx == RedoLog.EMPTY && k == 0
           else
             && m < n && acts[m].Begin? && Whole(states[m].c.logged, at, acts[m].lh, 0)
             && tx == Transaction(states[m].c.logged, at, acts[m].lh)
             && Progress(at, d0, tx, states[n]) && k == Made(states[n].pc, |tx.lh|))
  }

  lemma AtRest(at: Place, size: nat, acts: seq<Act>, states: seq<Sys>, n: nat)
    requires n < |states| && n <= |acts| && states[n].pc.Open? && DiskOk(at, size, states[n].c.disk)
    requires RedoLog.Idle(at.start, Image(at, size, states[n].c.disk))
    ensures ComesFrom(at, size, acts, states, n, n, RedoLog.EMPTY, 0)
  {
  }

  /** A commit that ends has made all its writes, and the log is empty again. */
  lemma CommitEnds(at: Place, d0: RedoLog.Disk, tx: RedoLog.Tx, s: Sys)
    requires Progress(at, d0, tx, s) && s.pc.Open? && RedoLog.Idle(at.start, d0)
    ensures var d := Image(at, |d0|, s.c.disk); RedoLog.Idle(at.start, d) && RedoLog.IsPost(at.start, d0, tx, d)
  {
    RedoLog.CommitWriteAt(at.start, d0[at.start], tx);
    RedoLog.CompleteCommit(at.start, d0, tx);
  }

  lemma OneMove(at: Place, size: nat, acts: seq<Act>, states: seq<Sys>, n: nat, m: nat, tx: RedoLog.Tx, k: nat)
    returns (m': nat, tx': RedoLog.Tx, k': nat)
    requires ComesFrom(at, size, acts, states, n, m, tx, k) && n < |acts| && |states| == |acts| + 1
    requires SysInv(at, states[n]) && Moves(at, states[n], acts[n], states[n + 1])
    ensures ComesFrom(at, size, acts, states, n + 1, m', tx', k')
  {
    hide SysInv, Goes, DiskOk, Image, Progress, RedoLog.CommitUpTo, RedoLog.Idle, RedoLog.ValidTx;
    var s, a, s' := states[n], acts[n], states[n + 1];
    if !s.pc.Open? {
      var d0 := Image(at, size, states[m].c.disk);
      MoveProgress(at, d0, tx, s, a, s');
      StillDisk(at, d0, tx, s');
      if s'.pc.Open? {
        CommitEnds(at, d0, tx, s');
        AtRest(at, size, acts, states, n + 1);
        m', tx', k' := n + 1, RedoLog.EMPTY, 0;
      } else {
        m', tx', k' := m, tx, Made(s'.pc, |tx.lh|);
      }
    } else if a.Begin? {
      BeginProgress(at, s, a.lh, size);
      m', tx', k' := n, Transaction(s.c.logged, at, a.lh), 0;
      StillDisk(at, Image(at, size, s.c.disk), tx', s');
    } else {
      OpenMove(at, s, a, s');
      SameImage(at, size, acts, states, n, m, tx, k);
      AtRest(at, size, acts, states, n + 1);
      m', tx', k' := n + 1, RedoLog.EMPTY, 0;
    }
  }

  lemma StillDisk(at: Place, d0: RedoLog.Disk, tx: RedoLog.Tx, s: Sys)
    requires Progress(at, d0, tx, s)
    ensures DiskOk(at, |d0|, s.c.disk) && RedoLog.ValidTx(|d0|, at.start, tx) && RedoLog.LogFits(d0, at.start)
    ensures Image(at, |d0|, s.c.disk) == RedoLog.CommitUpTo(at.start, d0, tx, Made(s.pc, |tx.lh|))
  {
  }

  lemma OpenMove(at: Place, s: Sys, a: Act, s': Sys)
    requires Moves(at, s, a, s') && s.pc.Open? && !a.Begin?
    ensures s'.pc.Open? && s'.c.disk == s.c.disk
  {
  }

  lemma SameImage(at: Place, size: nat, acts: seq<Act>, states: seq<Sys>, n: nat, m: nat, tx: RedoLog.Tx, k: nat)
    requires ComesFrom(at, size, acts, states, n, m, tx, k) && states[n].pc.Open?
    ensures RedoLog.Idle(at.start, Image(at, size, states[n].c.disk))
  {
  }

  lemma {:induction false} AlwaysComesFrom(at: Place, size: nat, s: Sys, acts: seq<Act>, states: seq<Sys>, n: nat)
    returns (m: nat, tx: RedoLog.Tx, k: nat)
    requires Boot(s) && Interleaving(at, s, acts, states) && n <= |acts|
    requires DiskOk(at, size, s.c.disk) && RedoLog.Idle(at.start, Image(at, size, s.c.disk))
    ensures ComesFrom(at, size, acts, states, n, m, tx, k)
  {
    hide Boot, Moves, ComesFrom, SysInv, DiskOk, Image, RedoLog.Idle;
    if n == 0 {
      BootOpen(s);
      AtRest(at, size, acts, states, 0);
      m, tx, k := 0, RedoLog.EMPTY, 0;
    } else {
      m, tx, k := AlwaysComesFrom(at, size, s, acts, states, n - 1);
      var _ := CommitsAreRuns(at, s, acts, states, n - 1);
      m, tx, k := OneMove(at, size, acts, states, n - 1, m, tx, k);
    }
  }

  lemma BootOpen(s: Sys)
    requires Boot(s)
    ensures s.pc.Open?
  {
  }

  /** Power may fail at any moment of any interleaving of commits with all other users of
      the cache, and again during recovery any number of times. Recovery then leaves the
      blocks of the disk of an earlier moment, when no commit was running: unchanged, or
      with the whole transaction of the commit that was running. */
  lemma CrashAnywhere(at: Place, size: nat, s: Sys, acts: seq<Act>, states: seq<Sys>, n: nat, ks: seq<nat>)
    returns (m: nat, tx: RedoLog.Tx, k: nat)
    requires Boot(s) && Interleaving(at, s, acts, states) && n <= |acts|
    requires DiskOk(at, size, s.c.disk) && RedoLog.Idle(at.start, Image(at, size, s.c.disk))
    ensures ComesFrom(at, size, acts, states, n, m, tx, k)
    ensures var crashed := RedoLog.Recoveries(at.start, Image(at, size, states[n].c.disk), ks);
            && RedoLog.Readable(at.start, crashed)
            && var d0, d := Image(at, size, states[m].c.disk), RedoLog.Recover(at.start, crashed);
               && RedoLog.Idle(at.start, d)
               && (k <= |tx.lh| ==> RedoLog.SameHome(at.start, d0, d))
               && (|tx.lh| < k ==> RedoLog.IsPost(at.start, d0, tx, d))
  {
    hide Boot, Moves, DiskOk, Image, Progress;
    m, tx, k := AlwaysComesFrom(at, size, s, acts, states, n);
    RedoLog.CrashAtomicity(at.start, Image(at, size, states[m].c.disk), tx, k, ks);
  }
}
