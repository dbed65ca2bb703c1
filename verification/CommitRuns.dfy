/** commit of kernel/log.c one buffer operation at a time, interleaved with every other user
    of the buffer cache. No step of commit has a guard on what the disk or a buffer holds;
    that its bwrite, bunpin and brelse are steps of BufCache is what is proved. */
module CommitRuns {
  import opened Basics
  import opened Params
  import opened BufCache
  import opened LogBuffers
  import RedoLog

  /** How far a round of a loop has come: which buffers it holds and what it did. `Last`
      means that one of two buffers has been released. */
  datatype Stage = Nothing | First | Both | Copied | Written | Unpinned | Last

  /** `Copying` is round `i` of write_log or install_trans: `l` is the buffer of the log
      block, `h` that of the home block. `Heading` is write_head. */
  datatype Pc =
    | Open
    | Copying(install: bool, i: nat, stage: Stage, l: nat, h: nat)
    | Heading(erase: bool, stage: Stage, b: nat)

  datatype Sys = Sys(c: Cache, pc: Pc, lh: seq<nat>)

  datatype Act = Client(t: Step) | Begin(lh: seq<nat>) | Take(b: nat) | Go

  function Source(pc: Pc): nat requires pc.Copying? { if pc.install then pc.l else pc.h }

  function Target(pc: Pc): nat requires pc.Copying? { if pc.install then pc.h else pc.l }

  // ----- What other processes may do -----

  /** The buffers commit holds. */
  ghost predicate Mine(pc: Pc, b: nat) {
    match pc
    case Open => false
    case Copying(_, _, stage, l, h) =>
      (!stage.Nothing? && !stage.Last? && b == l) || (!stage.Nothing? && !stage.First? && b == h)
    case Heading(_, stage, x) => !stage.Nothing? && b == x
  }

  /** Only log.c writes blocks and unpins. Buffers are changed and logged inside calls, so
      not while a commit runs, and never those of the log. */
  ghost predicate ClientMay(at: Place, s: Sys, t: Step)
    requires Enabled(s.c, t)
  {
    match t
    case Modify(b, _) => s.pc.Open? && !at.Has(s.c.bufs[b].key)
    case LogWrite(b) =>
      s.pc.Open? && !at.Has(s.c.bufs[b].key) && s.c.bufs[b].key.dev == at.dev && IsBlock(s.c.bufs[b].data)
    case Bwrite(_) => false
    case Unpin(_) => false
    case Unlock(b) => !Mine(s.pc, b)
    case _ => true
  }

  ghost predicate NoneDirty(c: Cache) { forall b :: 0 <= b < |c.uses| ==> !c.uses[b].dirty }

  /** commit starts when every call has ended, so that no changed buffer is held; `lh`
      lists what is logged. */
  ghost predicate MayBegin(at: Place, s: Sys, lh: seq<nat>) {
    && s.pc.Open? && NoneDirty(s.c) && 0 < |lh| <= LOGBLOCKS && Distinct(lh)
    && (forall k {:trigger k in s.c.logged} :: k in s.c.logged ==> k.blockno in lh)
    && (forall i {:trigger lh[i]} :: 0 <= i < |lh| ==> Key(at.dev, lh[i]) in s.c.logged)
  }

  // ----- What commit does -----

  /** The block commit reads next. */
  ghost function Wanted(at: Place, s: Sys): Option<Key> {
    match s.pc
    case Open => None
    case Copying(_, i, stage, _, _) =>
      if stage.Nothing? then Some(at.Slot(i))
      else if stage.First? && i < |s.lh| then Some(Key(at.dev, s.lh[i])) else None
    case Heading(_, stage, _) => if stage.Nothing? then Some(at.Header()) else None
  }

  /** bread ends: the lock of the block's buffer is taken. */
  ghost function Taken(pc: Pc, b: nat): Pc {
    match pc
    case Open => pc
    case Copying(install, i, stage, l, h) =>
      if stage.Nothing? then Copying(install, i, First, b, h) else Copying(install, i, Both, l, b)
    case Heading(erase, _, _) => Heading(erase, First, b)
  }

  ghost predicate InCache(c: Cache, b: nat) { b < |c.bufs| == |c.uses| }

  /** memmove into a held buffer, bwrite, bunpin and the release of a lock, whatever the
      buffers hold. */
  function CopyTo(c: Cache, b: nat, d: Data): Cache
    requires b < |c.bufs| == |c.uses|
  {
    Set(c, b, c.bufs[b].(data := d), c.uses[b].(dirty := true))
  }

  function WriteOut(c: Cache, b: nat): Cache
    requires b < |c.bufs| == |c.uses|
  {
    Set(c, b, c.bufs[b], c.uses[b].(dirty := false)).(disk := c.disk[c.bufs[b].key := c.bufs[b].data])
  }

  function UnpinBuf(c: Cache, b: nat): Cache
    requires b < |c.bufs| == |c.uses|
  {
    var x := c.bufs[b];
    Set(c, b, x.(refcnt := if x.refcnt > 0 then x.refcnt - 1 else 0), c.uses[b]).(logged := c.logged - {x.key})
  }

  function Release(c: Cache, b: nat): Cache
    requires b < |c.bufs| == |c.uses|
  {
    Set(c, b, c.bufs[b], c.uses[b].(held := false))
  }

  /** What write_head makes of the header block: the list of blocks, or none. */
  ghost function HeadData(s: Sys, d: Data): Data
    requires s.pc.Heading?
  {
    if IsBlock(d) && |s.lh| <= LOGBLOCKS then RedoLog.PutHeader(d, if s.pc.erase then [] else s.lh) else d
  }

  /** The next operation of commit and where it leads; a memmove waits until bread has
      read the blocks. */
  ghost predicate Goes(s: Sys, s': Sys) {
    match s.pc
    case Open => false
    case Copying(install, i, stage, l, h) =>
      var src, dst := Source(s.pc), Target(s.pc);
      && InCache(s.c, l) && InCache(s.c, h)
      && (match stage
          case Nothing => false
          case First => false
          case Both =>
            s.c.bufs[l].valid && s.c.bufs[h].valid
            && s' == s.(c := CopyTo(s.c, dst, s.c.bufs[src].data), pc := Copying(install, i, Copied, l, h))
          case Copied => s' == s.(c := WriteOut(s.c, dst), pc := Copying(install, i, Written, l, h))
          case Written =>
            s' == if install then s.(c := UnpinBuf(s.c, h), pc := Copying(install, i, Unpinned, l, h))
                  else s.(c := Release(s.c, h), pc := Copying(install, i, Last, l, l))
          case Unpinned => s' == s.(c := Release(s.c, l), pc := Copying(install, i, Last, l, h))
          case Last => s' == s.(c := Release(s.c, h), pc := AfterRound(s)))
    case Heading(erase, stage, b) =>
      && InCache(s.c, b)
      && (match stage
          case First =>
            s.c.bufs[b].valid
            && s' == s.(c := CopyTo(s.c, b, HeadData(s, s.c.bufs[b].data)), pc := Heading(erase, Copied, b))
          case Copied => s' == s.(c := WriteOut(s.c, b), pc := Heading(erase, Written, b))
          case Written => s' == s.(c := Release(s.c, b), pc := if erase then Open else Copying(true, 0, Nothing, 0, 0))
          case _ => false)
  }

  ghost function AfterRound(s: Sys): Pc
    requires s.pc.Copying?
  {
    if s.pc.i + 1 < |s.lh| then Copying(s.pc.install, s.pc.i + 1, Nothing, 0, 0) else Heading(s.pc.install, Nothing, 0)
  }

  ghost predicate Moves(at: Place, s: Sys, a: Act, s': Sys) {
    match a
    case Client(t) => Enabled(s.c, t) && ClientMay(at, s, t) && s' == s.(c := Next(s.c, t))
    case Begin(lh) => MayBegin(at, s, lh) && s' == Sys(s.c, Copying(false, 0, Nothing, 0, 0), lh)
    case Take(b) =>
      && Enabled(s.c, Lock(b)) && Wanted(at, s) == Some(s.c.bufs[b].key)
      && s' == s.(c := Next(s.c, Lock(b)), pc := Taken(s.pc, b))
    case Go => Goes(s, s')
  }

  // ----- Invariant -----

  ghost predicate Hold(c: Cache, b: nat, k: Key) { InCache(c, b) && c.uses[b].held && c.bufs[b].key == k }

  ghost predicate CleanBut(c: Cache, copied: bool, x: nat) {
    forall b {:trigger c.uses[b]} :: 0 <= b < |c.uses| && c.uses[b].dirty ==> copied && b == x
  }

  ghost predicate SavedTo(c: Cache, at: Place, lh: seq<nat>, n: nat) {
    forall j: nat {:trigger lh[j]} {:trigger at.Slot(j)} :: j < n <= |lh| ==>
      && at.Slot(j) in c.disk && Key(at.dev, lh[j]) in c.logged
      && c.disk[at.Slot(j)] == c.logged[Key(at.dev, lh[j])]
  }

  ghost predicate HomesOut(at: Place, lh: seq<nat>) {
    |lh| <= LOGBLOCKS && forall j {:trigger lh[j]} :: 0 <= j < |lh| ==> !at.Has(Key(at.dev, lh[j]))
  }

  /** What is logged are blocks of the log's device outside the log. */
  ghost predicate LoggedOut(at: Place, logged: map<Key, Data>) {
    forall k {:trigger k in logged} :: k in logged ==> k.dev == at.dev && !at.Has(k) && IsBlock(logged[k])
  }

  ghost predicate HoldsFirst(stage: Stage) { stage.First? || HoldsBoth(stage) }

  ghost predicate HoldsBoth(stage: Stage) { stage.Both? || stage.Copied? || stage.Written? || stage.Unpinned? }

  ghost predicate CopyingOk(at: Place, s: Sys)
    requires s.pc.Copying?
  {
    var Copying(install, i, stage, l, h) := s.pc;
    && i < |s.lh| && HomesOut(at, s.lh)
    && (if install then Pending(s.c, at, s.lh, if stage.Unpinned? || stage.Last? then i + 1 else i)
        else Whole(s.c.logged, at, s.lh, 0) && !stage.Unpinned?
             && SavedTo(s.c, at, s.lh, if stage.Written? || stage.Last? then i + 1 else i))
    && (HoldsFirst(stage) ==> Hold(s.c, l, at.Slot(i)))
    && (HoldsBoth(stage) ==> Hold(s.c, h, Key(at.dev, s.lh[i])))
    && (stage.Last? ==> InCache(s.c, h) && s.c.uses[h].held)
    && (stage.Copied? ==>
          s.c.bufs[Target(s.pc)].valid && Key(at.dev, s.lh[i]) in s.c.logged
          && s.c.bufs[Target(s.pc)].data == s.c.logged[Key(at.dev, s.lh[i])])
    && (install && stage.Written? ==> at.Slot(i) in s.c.disk && Key(at.dev, s.lh[i]) in s.c.disk
                                      && s.c.disk[Key(at.dev, s.lh[i])] == s.c.disk[at.Slot(i)])
    && CleanBut(s.c, stage.Copied?, Target(s.pc))
  }

  ghost predicate HeadingOk(at: Place, s: Sys)
    requires s.pc.Heading?
  {
    var Heading(erase, stage, b) := s.pc;
    && HomesOut(at, s.lh) && 0 < |s.lh|
    && (if erase then s.c.logged == map[] else Pending(s.c, at, s.lh, 0))
    && (!stage.Nothing? ==> Hold(s.c, b, at.Header()))
    && (stage.Copied? ==>
          s.c.bufs[b].valid && at.Header() in s.c.disk && s.c.bufs[b].data == HeadData(s, s.c.disk[at.Header()]))
    && CleanBut(s.c, stage.Copied?, b)
  }

  ghost predicate SysInv(at: Place, s: Sys) {
    && Inv(s.c) && LoggedOut(at, s.c.logged)
    && (s.pc.Copying? ==> CopyingOk(at, s))
    && (s.pc.Heading? ==> HeadingOk(at, s))
  }

  // ----- Other processes -----

  /** Nothing another process does while commit runs touches the disk, what is logged, or
      a buffer commit holds. */
  lemma ClientLeaves(at: Place, s: Sys, t: Step, b: nat)
    requires Inv(s.c) && Enabled(s.c, t) && ClientMay(at, s, t) && !s.pc.Open? && b < |s.c.bufs|
    ensures var c' := Next(s.c, t);
            && c'.disk == s.c.disk && c'.logged == s.c.logged && |c'.bufs| == |s.c.bufs| == |c'.uses| == |s.c.uses|
            && (c'.uses[b].dirty ==> s.c.uses[b].dirty)
    ensures var c' := Next(s.c, t);
            Mine(s.pc, b) && s.c.uses[b].held ==>
              && c'.uses[b].held && c'.bufs[b].key == s.c.bufs[b].key
              && (s.c.bufs[b].valid ==> c'.bufs[b].valid && c'.bufs[b].data == s.c.bufs[b].data)
  {
    assert BufOk(s.c, b) && BufOk(s.c, t.b);
  }

  lemma ClientCopying(at: Place, s: Sys, t: Step)
    requires SysInv(at, s) && Enabled(s.c, t) && ClientMay(at, s, t) && s.pc.Copying?
    ensures CopyingOk(at, s.(c := Next(s.c, t)))
  {
    hide Inv, Enabled, Next, Pending, Whole;
    var Copying(install, i, stage, l, h) := s.pc;
    var c' := Next(s.c, t);
    SizeKept(s.c, t);
    if HoldsFirst(stage) { ClientLeaves(at, s, t, l); }
    if HoldsBoth(stage) || stage.Last? { ClientLeaves(at, s, t, h); }
    forall b: nat | b < |c'.uses| && c'.uses[b].dirty ensures stage.Copied? && b == Target(s.pc) {
      ClientLeaves(at, s, t, b);
    }
    SameDisk(at, s, t);
    PendingSame(s.c, c', at, s.lh, if stage.Unpinned? || stage.Last? then i + 1 else i);
  }

  lemma SizeKept(c: Cache, t: Step)
    requires Enabled(c, t)
    ensures |Next(c, t).bufs| == |c.bufs| == |c.uses| == |Next(c, t).uses|
  {
  }

  lemma SameDisk(at: Place, s: Sys, t: Step)
    requires Enabled(s.c, t) && ClientMay(at, s, t) && !s.pc.Open?
    ensures Next(s.c, t).disk == s.c.disk && Next(s.c, t).logged == s.c.logged
  {
  }

  lemma PendingSame(c: Cache, c': Cache, at: Place, lh: seq<nat>, n: nat)
    requires c'.disk == c.disk && c'.logged == c.logged
    ensures Pending(c, at, lh, n) ==> Pending(c', at, lh, n)
  {
  }

  lemma ClientHeading(at: Place, s: Sys, t: Step)
    requires SysInv(at, s) && Enabled(s.c, t) && ClientMay(at, s, t) && s.pc.Heading?
    ensures HeadingOk(at, s.(c := Next(s.c, t)))
  {
    hide Inv, Enabled, Next, Pending;
    var Heading(erase, stage, x) := s.pc;
    var c' := Next(s.c, t);
    SizeKept(s.c, t);
    if !stage.Nothing? { ClientLeaves(at, s, t, x); }
    forall b: nat | b < |c'.uses| && c'.uses[b].dirty ensures stage.Copied? && b == x { ClientLeaves(at, s, t, b); }
    SameDisk(at, s, t);
    PendingSame(s.c, c', at, s.lh, 0);
  }

  lemma ClientLogged(at: Place, s: Sys, t: Step)
    requires LoggedOut(at, s.c.logged) && Enabled(s.c, t) && ClientMay(at, s, t)
    ensures LoggedOut(at, Next(s.c, t).logged)
  {
  }

  lemma ClientKeepsInv(at: Place, s: Sys, t: Step)
    requires SysInv(at, s) && Enabled(s.c, t) && ClientMay(at, s, t)
    ensures SysInv(at, s.(c := Next(s.c, t)))
  {
    hide Inv, Enabled, Next, CopyingOk, HeadingOk;
    NextKeepsInv(s.c, t);
    ClientLogged(at, s, t);
    if s.pc.Copying? { ClientCopying(at, s, t); }
    if s.pc.Heading? { ClientHeading(at, s, t); }
  }

  // ----- Steps of commit -----

  lemma BeginKeepsInv(at: Place, s: Sys, lh: seq<nat>)
    requires SysInv(at, s) && MayBegin(at, s, lh)
    ensures SysInv(at, Sys(s.c, Copying(false, 0, Nothing, 0, 0), lh))
  {
    assert lh[0..] == lh;
  }

  lemma TakeCopying(at: Place, s: Sys, b: nat)
    requires SysInv(at, s) && s.pc.Copying? && Enabled(s.c, Lock(b)) && Wanted(at, s) == Some(s.c.bufs[b].key)
    ensures CopyingOk(at, s.(c := Next(s.c, Lock(b)), pc := Taken(s.pc, b)))
  {
    hide Inv, Pending, Whole;
    var Copying(install, i, stage, l, h) := s.pc;
    PendingSame(s.c, Next(s.c, Lock(b)), at, s.lh, i);
  }

  lemma TakeKeepsInv(at: Place, s: Sys, b: nat)
    requires SysInv(at, s) && Enabled(s.c, Lock(b)) && Wanted(at, s) == Some(s.c.bufs[b].key)
    ensures SysInv(at, s.(c := Next(s.c, Lock(b)), pc := Taken(s.pc, b)))
  {
    hide Inv, CopyingOk, Pending;
    NextKeepsInv(s.c, Lock(b));
    if s.pc.Copying? {
      TakeCopying(at, s, b);
    } else {
      PendingSame(s.c, Next(s.c, Lock(b)), at, s.lh, 0);
    }
  }

  /** The step of BufCache that the next operation of commit is. */
  ghost function StepOf(s: Sys): Step {
    match s.pc
    case Open => Hit(0)
    case Copying(install, i, stage, l, h) =>
      (match stage
       case Both => Modify(Target(s.pc), if Source(s.pc) < |s.c.bufs| then s.c.bufs[Source(s.pc)].data else [])
       case Copied => Bwrite(Target(s.pc))
       case Written => if install then Unpin(h) else Unlock(h)
       case Unpinned => Unlock(l)
       case _ => Unlock(h))
    case Heading(erase, stage, b) =>
      (match stage
       case First => Modify(b, if b < |s.c.bufs| then HeadData(s, s.c.bufs[b].data) else [])
       case Copied => Bwrite(b)
       case _ => Unlock(b))
  }

  /** Every operation of commit is a step BufCache allows: bwrite of a pinned block writes
      what was logged, bunpin finds it at home, and no changed buffer is released. */
  lemma GoIsStep(at: Place, s: Sys, s': Sys)
    requires SysInv(at, s) && Goes(s, s')
    ensures Enabled(s.c, StepOf(s)) && s'.c == Next(s.c, StepOf(s))
  {
    if s.pc.Copying? {
      GoCopying(at, s, s');
    } else {
      GoHeading(at, s, s');
    }
  }

  lemma GoCopying(at: Place, s: Sys, s': Sys)
    requires SysInv(at, s) && Goes(s, s') && s.pc.Copying?
    ensures Enabled(s.c, StepOf(s)) && s'.c == Next(s.c, StepOf(s))
  {
    hide Whole, SavedTo;
    var Copying(install, i, stage, l, h) := s.pc;
    assert BufOk(s.c, h) && BufOk(s.c, l);
    if install && !stage.Last? && !stage.Unpinned? {
      PendingAt(s.c, at, s.lh, i, i);
    }
    assert LoggedOut(at, s.c.logged) ==> at.Slot(i) !in s.c.logged by { assert at.Has(at.Slot(i)); }
  }

  lemma GoHeading(at: Place, s: Sys, s': Sys)
    requires SysInv(at, s) && Goes(s, s') && s.pc.Heading?
    ensures Enabled(s.c, StepOf(s)) && s'.c == Next(s.c, StepOf(s))
  {
    assert at.Has(at.Header());
    assert BufOk(s.c, s.pc.b);
  }

  lemma CleanData(c: Cache, b: nat, k: Key)
    requires Inv(c) && Hold(c, b, k) && c.bufs[b].valid && !c.uses[b].dirty
    ensures Known(c, k) && c.bufs[b].data == Latest(c, k)
  {
    assert BufOk(c, b);
  }

  lemma AfterCopy(at: Place, s: Sys, s': Sys)
    requires SysInv(at, s) && s.pc.Copying? && s.pc.stage.Both? && Goes(s, s')
    ensures CopyingOk(at, s')
  {
    hide Inv, Whole, Pending;
    var Copying(install, i, _, l, h) := s.pc;
    var slot, home := at.Slot(i), Key(at.dev, s.lh[i]);
    assert at.Has(slot) && slot !in s.c.logged;
    CleanData(s.c, l, slot);
    CleanData(s.c, h, home);
    if install {
      PendingAt(s.c, at, s.lh, i, i);
      PendingSame(s.c, s'.c, at, s.lh, i);
    } else {
      WholeAt(s.c.logged, at, s.lh, 0, i);
    }
  }

  lemma PendingWritten(c: Cache, c': Cache, at: Place, lh: seq<nat>, n: nat, k: Key)
    requires Pending(c, at, lh, n) && c'.logged == c.logged && |lh| <= LOGBLOCKS
    requires k in c'.disk && c'.disk == c.disk[k := c'.disk[k]] && (at.Has(k) ==> k == at.Header())
    ensures Pending(c', at, lh, n)
  {
    forall j: nat | n <= j < |lh| ensures at.Slot(j) in c'.disk && c'.disk[at.Slot(j)] == c.logged[Key(at.dev, lh[j])] {
      assert at.Has(at.Slot(j));
    }
  }

  lemma SavedWritten(c: Cache, c': Cache, at: Place, lh: seq<nat>, i: nat)
    requires SavedTo(c, at, lh, i) && i < |lh| && Key(at.dev, lh[i]) in c.logged && c'.logged == c.logged
    requires c'.disk == c.disk[at.Slot(i) := c.logged[Key(at.dev, lh[i])]]
    ensures SavedTo(c', at, lh, i + 1)
  {
  }

  lemma AfterWrite(at: Place, s: Sys, s': Sys)
    requires SysInv(at, s) && s.pc.Copying? && s.pc.stage.Copied? && Goes(s, s')
    ensures CopyingOk(at, s')
  {
    hide Inv, Whole, Pending, SavedTo;
    var Copying(install, i, _, l, h) := s.pc;
    if install {
      PendingAt(s.c, at, s.lh, i, i);
      PendingWritten(s.c, s'.c, at, s.lh, i, Key(at.dev, s.lh[i]));
    } else {
      SavedWritten(s.c, s'.c, at, s.lh, i);
    }
  }

  lemma PendingUnpinned(c: Cache, c': Cache, at: Place, lh: seq<nat>, i: nat)
    requires Pending(c, at, lh, i) && i < |lh|
    requires c'.disk == c.disk && c'.logged == c.logged - {Key(at.dev, lh[i])}
    ensures Pending(c', at, lh, i + 1)
  {
    WholeStep(c.logged, at, lh, i);
  }

  lemma SavedSame(c: Cache, c': Cache, at: Place, lh: seq<nat>, n: nat)
    requires c'.disk == c.disk && c'.logged == c.logged
    ensures SavedTo(c, at, lh, n) ==> SavedTo(c', at, lh, n)
  {
  }

  lemma AfterUnpinOrRelease(at: Place, s: Sys, s': Sys)
    requires SysInv(at, s) && s.pc.Copying? && (s.pc.stage.Written? || s.pc.stage.Unpinned?) && Goes(s, s')
    ensures CopyingOk(at, s')
  {
    hide Inv, Whole, Pending, SavedTo;
    var Copying(install, i, stage, l, h) := s.pc;
    assert at.Has(at.Slot(i)) && l != h;
    if install && stage.Written? {
      PendingUnpinned(s.c, s'.c, at, s.lh, i);
    } else {
      PendingSame(s.c, s'.c, at, s.lh, i + 1);
      SavedSame(s.c, s'.c, at, s.lh, i + 1);
    }
  }

  lemma AllSaved(c: Cache, at: Place, lh: seq<nat>)
    requires Whole(c.logged, at, lh, 0) && SavedTo(c, at, lh, |lh|)
    ensures Pending(c, at, lh, 0)
  {
  }

  lemma AfterLast(at: Place, s: Sys, s': Sys)
    requires SysInv(at, s) && s.pc.Copying? && s.pc.stage.Last? && Goes(s, s')
    ensures s'.pc.Copying? ==> CopyingOk(at, s')
    ensures s'.pc.Heading? ==> HeadingOk(at, s')
  {
    hide Inv, Whole, Pending, SavedTo;
    var Copying(install, i, _, l, h) := s.pc;
    PendingSame(s.c, s'.c, at, s.lh, i + 1);
    SavedSame(s.c, s'.c, at, s.lh, i + 1);
    if i + 1 == |s.lh| {
      if install {
        NonePending(s'.c, at, s.lh);
      } else {
        AllSaved(s'.c, at, s.lh);
      }
    }
  }

  lemma AfterHead(at: Place, s: Sys, s': Sys)
    requires SysInv(at, s) && s.pc.Heading? && Goes(s, s')
    ensures s'.pc.Copying? ==> CopyingOk(at, s')
    ensures s'.pc.Heading? ==> HeadingOk(at, s')
  {
    hide Inv, Whole, Pending;
    assert at.Has(at.Header());
    if s.pc.stage.First? {
      CleanData(s.c, s.pc.b, at.Header());
    }
    if !s.pc.erase {
      if s.pc.stage.Copied? {
        PendingWritten(s.c, s'.c, at, s.lh, 0, at.Header());
      } else {
        PendingSame(s.c, s'.c, at, s.lh, 0);
      }
    }
  }

  lemma GoLogged(at: Place, s: Sys, s': Sys)
    requires LoggedOut(at, s.c.logged) && Goes(s, s')
    ensures LoggedOut(at, s'.c.logged)
  {
  }

  lemma GoKeepsInv(at: Place, s: Sys, s': Sys)
    requires SysInv(at, s) && Goes(s, s')
    ensures SysInv(at, s')
  {
    hide Inv, Enabled, Next, CopyingOk, HeadingOk, LoggedOut, StepOf;
    GoIsStep(at, s, s');
    NextKeepsInv(s.c, StepOf(s));
    GoLogged(at, s, s');
    if s.pc.Heading? {
      AfterHead(at, s, s');
    } else {
      match s.pc.stage {
        case Both => AfterCopy(at, s, s');
        case Copied => AfterWrite(at, s, s');
        case Last => AfterLast(at, s, s');
        case _ => AfterUnpinOrRelease(at, s, s');
      }
    }
  }

  lemma MovesKeepInv(at: Place, s: Sys, a: Act, s': Sys)
    requires SysInv(at, s) && Moves(at, s, a, s')
    ensures SysInv(at, s')
  {
    hide SysInv, Goes, Next;
    match a
    case Client(t) => ClientKeepsInv(at, s, t);
    case Begin(lh) => BeginKeepsInv(at, s, lh);
    case Take(b) => TakeKeepsInv(at, s, b);
    case Go => GoKeepsInv(at, s, s');
  }

  // ----- All interleavings -----

  /** The steps of BufCache that a move is; none for the start of a commit. */
  ghost function StepsOf(s: Sys, a: Act): seq<Step> {
    match a
    case Client(t) => [t]
    case Begin(_) => []
    case Take(b) => [Lock(b)]
    case Go => [StepOf(s)]
  }

  lemma OneStep(c: Cache, t: Step)
    requires Enabled(c, t)
    ensures Runs(c, [t], Next(c, t))
  {
    assert [t][1..] == [] && Runs(Next(c, t), [], Next(c, t));
  }

  lemma MoveIsRun(at: Place, s: Sys, a: Act, s': Sys)
    requires SysInv(at, s) && Moves(at, s, a, s')
    ensures Runs(s.c, StepsOf(s, a), s'.c)
  {
    hide SysInv, Goes, Next, Runs, StepOf;
    match a
    case Client(t) => OneStep(s.c, t);
    case Begin(_) => NoStep(s.c);
    case Take(b) => OneStep(s.c, Lock(b));
    case Go =>
      GoIsStep(at, s, s');
      OneStep(s.c, StepOf(s));
  }

  lemma NoStep(c: Cache)
    ensures Runs(c, [], c)
  {
  }

  lemma {:induction false} RunsJoin(c: Cache, ts: seq<Step>, c1: Cache, us: seq<Step>, c2: Cache)
    requires Runs(c, ts, c1) && Runs(c1, us, c2)
    ensures Runs(c, ts + us, c2)
    decreases |ts|
  {
    hide Enabled, Next;
    if ts == [] {
      assert ts + us == us;
    } else {
      RunsJoin(Next(c, ts[0]), ts[1..], c1, us, c2);
      assert (ts + us)[1..] == ts[1..] + us;
    }
  }

  ghost predicate Interleaving(at: Place, s: Sys, acts: seq<Act>, states: seq<Sys>) {
    && |states| == |acts| + 1 && states[0] == s
    && forall i :: 0 <= i < |acts| ==> Moves(at, states[i], acts[i], states[i + 1])
  }

  ghost predicate Boot(s: Sys) { Start(s.c) && s.pc.Open? }

  /** Every interleaving of any number of commits with all other users of the cache is a
      run of BufCache, so what is proved of its runs holds with no condition on commit. */
  lemma {:induction false} CommitsAreRuns(at: Place, s: Sys, acts: seq<Act>, states: seq<Sys>, n: nat)
    returns (steps: seq<Step>)
    requires Boot(s) && Interleaving(at, s, acts, states) && n <= |acts|
    ensures SysInv(at, states[n]) && Runs(s.c, steps, states[n].c)
  {
    hide SysInv, Runs, Moves, StepsOf, Start;
    if n == 0 {
      steps := [];
      NoStep(s.c);
      BootInv(at, s);
    } else {
      steps := CommitsAreRuns(at, s, acts, states, n - 1);
      MovesKeepInv(at, states[n - 1], acts[n - 1], states[n]);
      MoveIsRun(at, states[n - 1], acts[n - 1], states[n]);
      RunsJoin(s.c, steps, states[n - 1].c, StepsOf(states[n - 1], acts[n - 1]), states[n].c);
      steps := steps + StepsOf(states[n - 1], acts[n - 1]);
    }
  }

  lemma BootInv(at: Place, s: Sys)
    requires Boot(s)
    ensures SysInv(at, s)
  {
    StartInv(s.c);
  }

  /** Whoever holds a buffer it has not changed sees the latest contents of its block, at
      every point of every interleaving, inside commits and outside. */
  lemma ReadersSeeLatestThroughout(at: Place, s: Sys, acts: seq<Act>, states: seq<Sys>, n: nat, b: nat)
    requires Boot(s) && Interleaving(at, s, acts, states) && n <= |acts|
    requires InCache(states[n].c, b) && states[n].c.bufs[b].valid && !states[n].c.uses[b].dirty
    ensures var c := states[n].c; Known(c, c.bufs[b].key) && c.bufs[b].data == Latest(c, c.bufs[b].key)
  {
    var steps := CommitsAreRuns(at, s, acts, states, n);
    ReadersSeeLatest(s.c, steps, states[n].c, b, b);
  }

  /** While a commit runs, nothing that happens changes what readers of a home block see,
      and when it ends nothing is logged. */
  lemma CommitIsInvisible(at: Place, s: Sys, a: Act, s': Sys, k: Key)
    requires SysInv(at, s) && Moves(at, s, a, s') && !s.pc.Open? && !at.Has(k) && Known(s.c, k)
    ensures Known(s'.c, k) && Latest(s'.c, k) == Latest(s.c, k)
    ensures s'.pc.Open? ==> s'.c.logged == map[]
  {
    hide Inv, Pending, Whole;
    match a {
      case Client(t) =>
        SameDisk(at, s, t);
      case Begin(_) =>
      case Take(b) =>
      case Go =>
        GoLatest(at, s, s', k);
    }
  }

  lemma GoLatest(at: Place, s: Sys, s': Sys, k: Key)
    requires SysInv(at, s) && Goes(s, s') && !at.Has(k) && Known(s.c, k)
    ensures Known(s'.c, k) && Latest(s'.c, k) == Latest(s.c, k)
    ensures s'.pc.Open? ==> s'.c.logged == map[]
  {
    hide Inv, Pending, Whole, SavedTo;
    if s.pc.Copying? {
      var Copying(install, i, stage, l, h) := s.pc;
      assert at.Has(at.Slot(i));
      if install && !stage.Last? && !stage.Unpinned? {
        PendingAt(s.c, at, s.lh, i, i);
      }
    } else {
      assert at.Has(at.Header());
    }
  }
}
