/** Exit and wait of kernel/proc.c with sleep and wakeup, as steps of any number of
    processes interleaved at their lock operations. */
module WaitExit {
  import Basics

  datatype State = UNUSED | SLEEPING | RUNNABLE | RUNNING | ZOMBIE

  /** What a process sleeps on: a process structure, or something else. */
  datatype Chan = NoChan | OnProc(p: int) | OnOther

  /** Where a process is. The loops of reparent, wakeup and kwait carry their indices. */
  datatype Pc =
    | Free | User
    // kexit
    | ExitStart | Reparent(i: nat) | WakeInit(i: nat, j: nat) | WakeParent(j: nat)
    | ExitLock | SetZombie | ZombieUnlock | ZombieSwitch | Gone
    // kwait, and sleep called from it
    | WaitLock | Scan(i: nat, kids: bool)
    | SleepLock | SleepRelease | SleepMark | SleepSwitch | Asleep | Waking

  datatype Proc = Proc(state: State, parent: int, chan: Chan, killed: bool, pc: Pc)

  /** `wl` is the holder of wait_lock, or -1. */
  datatype Sys = Sys(ps: seq<Proc>, wl: int, init: nat)

  datatype Action =
    | Go | CopyFails | CallExit | CallWait | Fork(np: nat)
    | SleepElsewhere | WakeElsewhere(q: nat) | Kill(q: nat) | Preempt | Dispatch

  predicate HoldsWait(pc: Pc) {
    match pc
    case Reparent(_) => true
    case WakeInit(_, _) => true
    case WakeParent(_) => true
    case ExitLock => true
    case SetZombie => true
    case ZombieUnlock => true
    case Scan(_, _) => true
    case SleepLock => true
    case SleepRelease => true
    case _ => false
  }

  /** Does the process hold its own p->lock? Others take it only within one step. */
  predicate Locked(x: Proc) {
    match x.pc
    case SetZombie => true
    case ZombieUnlock => true
    case ZombieSwitch => true
    case SleepRelease => true
    case SleepMark => true
    case SleepSwitch => true
    case Waking => true
    case _ => false
  }

  // ----- Steps -----

  function Put(s: Sys, p: nat, x: Proc, wl: int): Sys
    requires p < |s.ps|
  {
    s.(ps := s.ps[p := x], wl := wl)
  }

  /** One turn of wakeup's loop, at process `y`. */
  function Wakened(y: Proc, chan: Chan): Proc {
    if y.state == SLEEPING && y.chan == chan then y.(state := RUNNABLE) else y
  }

  function Freed(): Proc { Proc(UNUSED, -1, NoChan, false, Free) }

  /** A process that has left the processor, but for giving up its lock, is still on it. */
  predicate OnCpu(x: Proc) { x.state == RUNNING || x.pc.ZombieUnlock? || x.pc.ZombieSwitch? || x.pc.SleepSwitch? }

  predicate CanGo(s: Sys, p: nat)
    requires p < |s.ps|
  {
    var x, n := s.ps[p], |s.ps|;
    OnCpu(x) &&
    match x.pc
    case Free => false
    case User => false
    case Gone => false
    case Asleep => false
    case ExitStart => s.wl == -1
    case WaitLock => s.wl == -1
    case WakeInit(_, j) => j < n && j != p ==> !Locked(s.ps[j])
    case WakeParent(j) => j < n && j != p ==> !Locked(s.ps[j])
    case Scan(i, _) => i < n && s.ps[i].parent == p ==> !Locked(s.ps[i])
    case _ => true
  }

  predicate Enabled(s: Sys, p: nat, a: Action)
    requires p < |s.ps|
  {
    var x, n := s.ps[p], |s.ps|;
    match a
    case Go => CanGo(s, p)
    case CopyFails =>
      CanGo(s, p) && x.pc.Scan? && x.pc.i < n && s.ps[x.pc.i].parent == p && s.ps[x.pc.i].state == ZOMBIE
    case CallExit => x.pc.User? && x.state == RUNNING && p != s.init
    case CallWait => x.pc.User? && x.state == RUNNING
    case Fork(np) => x.pc.User? && x.state == RUNNING && s.wl == -1 && np < n && np != p && s.ps[np].state == UNUSED
    case SleepElsewhere => x.pc.User? && x.state == RUNNING
    case WakeElsewhere(q) => q < n && s.ps[q].state == SLEEPING && s.ps[q].chan == OnOther && !Locked(s.ps[q])
    case Kill(q) => q < n && s.ps[q].state != UNUSED && !Locked(s.ps[q])
    case Preempt => x.state == RUNNING && (x.pc.User? || x.pc.ExitStart? || x.pc.WaitLock?)
    case Dispatch => x.state == RUNNABLE && !Locked(x)
  }

  function Next(s: Sys, p: nat, a: Action): Sys
    requires p < |s.ps| && Enabled(s, p, a)
  {
    var x := s.ps[p];
    match a
    case Go => GoStep(s, p)
    case CopyFails => Put(s, p, x.(pc := User), -1)
    case CallExit => Put(s, p, x.(pc := ExitStart), s.wl)
    case CallWait => Put(s, p, x.(pc := WaitLock), s.wl)
    case Fork(np) => Put(s, np, s.ps[np].(state := RUNNABLE, parent := p, pc := User), s.wl)
    case SleepElsewhere => Put(s, p, x.(state := SLEEPING, chan := OnOther), s.wl)
    case WakeElsewhere(q) => Put(s, q, s.ps[q].(state := RUNNABLE), s.wl)
    case Kill(q) =>
      var y := s.ps[q];
      Put(s, q, y.(killed := true, state := if y.state == SLEEPING then RUNNABLE else y.state), s.wl)
    case Preempt => Put(s, p, x.(state := RUNNABLE), s.wl)
    case Dispatch =>
      if x.pc.Asleep? then Put(s, p, x.(state := RUNNING, pc := Waking), s.wl)
      else Put(s, p, x.(state := RUNNING, chan := NoChan), s.wl)
  }

  /** What the step does to another process `q`: wakeup, reparent and freeproc. */
  function Other(s: Sys, p: nat, q: nat): Proc
    requires p < |s.ps| && q < |s.ps|
  {
    var x, y := s.ps[p], s.ps[q];
    match x.pc
    case Reparent(i) => if q == i && y.parent == p then y.(parent := s.init) else y
    case WakeInit(_, j) => if q == j then Wakened(y, OnProc(s.init)) else y
    case WakeParent(j) => if q == j then Wakened(y, OnProc(x.parent)) else y
    case Scan(i, _) => if q == i && y.parent == p && y.state == ZOMBIE then Freed() else y
    case _ => y
  }

  /** What the step does to the process itself. */
  function Own(s: Sys, p: nat): Proc
    requires p < |s.ps| && CanGo(s, p)
  {
    var x, n := s.ps[p], |s.ps|;
    match x.pc
    case ExitStart => x.(pc := Reparent(0))
    case Reparent(i) =>
      x.(pc := if i >= n then WakeParent(0) else if s.ps[i].parent != p then Reparent(i + 1) else WakeInit(i, 0))
    case WakeInit(i, j) => x.(pc := if j >= n then Reparent(i + 1) else WakeInit(i, j + 1))
    case WakeParent(j) => x.(pc := if j >= n then ExitLock else WakeParent(j + 1))
    case ExitLock => x.(pc := SetZombie)
    case SetZombie => x.(state := ZOMBIE, pc := ZombieUnlock)
    case ZombieUnlock => x.(pc := ZombieSwitch)
    case ZombieSwitch => x.(pc := Gone)
    case WaitLock => x.(pc := Scan(0, false))
    case Scan(i, kids) =>
      if i >= n then x.(pc := if !kids || x.killed then User else SleepLock)
      else if s.ps[i].parent != p then x.(pc := Scan(i + 1, kids))
      else x.(pc := if s.ps[i].state == ZOMBIE then User else Scan(i + 1, true))
    case SleepLock => x.(pc := SleepRelease)
    case SleepRelease => x.(pc := SleepMark)
    case SleepMark => x.(chan := OnProc(p), state := SLEEPING, pc := SleepSwitch)
    case SleepSwitch => x.(pc := Asleep)
    case Waking => x.(chan := NoChan, pc := WaitLock)
  }

  /** A process that steps into a place where it holds wait_lock has it, and one that
      steps out of such a place has given it up. */
  function GoStep(s: Sys, p: nat): Sys
    requires p < |s.ps| && CanGo(s, p)
  {
    var x := Own(s, p);
    Sys(seq(|s.ps|, q requires 0 <= q < |s.ps| => if q == p then x else Other(s, p, q)),
        if HoldsWait(x.pc) then p else if HoldsWait(s.ps[p].pc) then -1 else s.wl, s.init)
  }

  // ----- The invariant -----

  predicate Exiting(pc: Pc) {
    match pc
    case ExitStart => true
    case Reparent(_) => true
    case WakeInit(_, _) => true
    case WakeParent(_) => true
    case ExitLock => true
    case SetZombie => true
    case ZombieUnlock => true
    case ZombieSwitch => true
    case Gone => true
    case _ => false
  }

  /** One process: its state, its place and wait_lock agree. */
  ghost predicate ProcOk(s: Sys, p: nat)
    requires p < |s.ps|
  {
    var x := s.ps[p];
    && (HoldsWait(x.pc) <==> s.wl == p)
    && (x.pc.Free? <==> x.state == UNUSED)
    && (x.state == ZOMBIE <==> x.pc.ZombieUnlock? || x.pc.ZombieSwitch? || x.pc.Gone?)
    && (x.state == SLEEPING ==> x.pc.User? || x.pc.SleepSwitch? || x.pc.Asleep?)
    && (x.pc.SleepSwitch? || (x.pc.Asleep? && x.state == SLEEPING) ==> x.chan == OnProc(p))
    && (x.pc.Asleep? ==> x.state == SLEEPING || x.state == RUNNABLE)
    && (x.pc.SleepSwitch? ==> x.state == SLEEPING)
    && x.parent != p && -1 <= x.parent < |s.ps|
    && (x.pc.Free? ==> x.parent == -1 && x.chan == NoChan && !x.killed)
    && (p == s.init ==> x.parent == -1 && !Exiting(x.pc) && !x.pc.Free?)
  }

  /** The process has let go of wait_lock in kwait's sleep and has not been woken. */
  predicate Committed(x: Proc) {
    x.pc.SleepMark? || x.pc.SleepSwitch? || (x.pc.Asleep? && x.state == SLEEPING)
  }

  /** reparent's wakeup of init is on its way to it. */
  predicate InitToBeWoken(s: Sys) {
    && 0 <= s.wl < |s.ps| && s.ps[s.wl].pc.WakeInit? && s.ps[s.wl].pc.j <= s.init
  }

  /** Process `c` is no child: all children have been passed on, or none was found. */
  predicate NoKid(pc: Pc, c: nat) {
    match pc
    case Free => true
    case WakeParent(_) => true
    case ExitLock => true
    case SetZombie => true
    case ZombieUnlock => true
    case ZombieSwitch => true
    case Gone => true
    case Reparent(i) => c < i
    case WakeInit(i, _) => c <= i
    case Scan(i, kids) => c < i && !kids
    case _ => false
  }

  /** Process `c`, if a child, was seen and has not exited. */
  predicate Scanned(pc: Pc, c: nat) {
    match pc
    case Scan(i, _) => c < i
    case SleepLock => true
    case SleepRelease => true
    case _ => false
  }

  /** An exiting process whose wakeup of its parent has passed process `p`. */
  predicate PastParent(pc: Pc, p: nat) {
    match pc
    case WakeParent(j) => p < j
    case ExitLock => true
    case SetZombie => true
    case _ => false
  }

  /** A process and a child of it. */
  ghost predicate PairOk(s: Sys, p: nat, c: nat)
    requires p < |s.ps| && c < |s.ps|
  {
    var x, y := s.ps[p], s.ps[c];
    && (y.parent == p ==>
          && !NoKid(x.pc, c)
          && (Scanned(x.pc, c) ==> y.state != ZOMBIE)
          && (y.state == ZOMBIE && Committed(x) ==> p == s.init && InitToBeWoken(s))
          && (PastParent(y.pc, p) ==> !Committed(x)))
    && (p == s.init && y.pc.WakeInit? && p < y.pc.j ==> !Committed(x))
  }

  ghost predicate Inv(s: Sys) {
    && Bounds(s)
    && (forall p: nat {:trigger ProcOk(s, p)} :: p < |s.ps| ==> ProcOk(s, p))
    && (forall p: nat, c: nat {:trigger PairOk(s, p, c)} :: p < |s.ps| && c < |s.ps| ==> PairOk(s, p, c))
  }

  ghost predicate Bounds(s: Sys) { s.init < |s.ps| && -1 <= s.wl < |s.ps| }

  // ----- Every step keeps it -----

  /** The facts about the process that moves and about a pair of processes. */
  ghost predicate Near(s: Sys, p: nat, q: nat, c: nat) {
    && Bounds(s) && p < |s.ps| && q < |s.ps| && c < |s.ps|
    && ProcOk(s, p) && ProcOk(s, q) && ProcOk(s, c) && PairOk(s, q, c) && PairOk(s, p, c) && PairOk(s, q, p)
  }

  lemma GoSelf(s: Sys, p: nat)
    requires Bounds(s) && p < |s.ps| && CanGo(s, p) && ProcOk(s, p)
    ensures |GoStep(s, p).ps| == |s.ps| && Bounds(GoStep(s, p)) && ProcOk(GoStep(s, p), p)
  {
    hide Other;
  }

  /** wait_lock is taken only when it is free. */
  lemma WaitLockTaken(s: Sys, p: nat)
    requires p < |s.ps| && CanGo(s, p)
    ensures HoldsWait(Own(s, p).pc) ==> HoldsWait(s.ps[p].pc) || s.wl == -1
  {
  }

  lemma GoOther(s: Sys, p: nat, q: nat)
    requires Bounds(s) && p < |s.ps| && q < |s.ps| && p != q && CanGo(s, p)
    requires ProcOk(s, p) && ProcOk(s, q) && ProcOk(s, s.init)
    ensures |GoStep(s, p).ps| == |s.ps| && ProcOk(GoStep(s, p), q)
  {
    hide Own;
    WaitLockTaken(s, p);
  }

  lemma PairExitingParent(s: Sys, p: nat, c: nat)
    requires Near(s, p, p, c) && c != p && CanGo(s, p) && Exiting(s.ps[p].pc)
    ensures |GoStep(s, p).ps| == |s.ps| && PairOk(GoStep(s, p), p, c)
  {
  }

  lemma PairWaitingParent(s: Sys, p: nat, c: nat)
    requires Near(s, p, p, c) && c != p && CanGo(s, p) && !Exiting(s.ps[p].pc)
    ensures |GoStep(s, p).ps| == |s.ps| && PairOk(GoStep(s, p), p, c)
  {
  }

  /** The process that moves, as a parent. */
  lemma PairParent(s: Sys, p: nat, c: nat)
    requires Near(s, p, p, c) && c != p && CanGo(s, p)
    ensures |GoStep(s, p).ps| == |s.ps| && PairOk(GoStep(s, p), p, c)
  {
    hide GoStep, PairOk, ProcOk;
    if Exiting(s.ps[p].pc) {
      PairExitingParent(s, p, c);
    } else {
      PairWaitingParent(s, p, c);
    }
  }

  lemma PairExitingChild(s: Sys, p: nat, q: nat)
    requires Near(s, p, q, p) && q != p && CanGo(s, p) && Exiting(s.ps[p].pc)
    ensures |GoStep(s, p).ps| == |s.ps| && PairOk(GoStep(s, p), q, p)
  {
  }

  lemma PairWaitingChild(s: Sys, p: nat, q: nat)
    requires Near(s, p, q, p) && q != p && CanGo(s, p) && !Exiting(s.ps[p].pc)
    ensures |GoStep(s, p).ps| == |s.ps| && PairOk(GoStep(s, p), q, p)
  {
  }

  /** The process that moves, as a child. */
  lemma PairChild(s: Sys, p: nat, q: nat)
    requires Near(s, p, q, p) && q != p && CanGo(s, p)
    ensures |GoStep(s, p).ps| == |s.ps| && PairOk(GoStep(s, p), q, p)
  {
    hide GoStep, PairOk, ProcOk;
    if Exiting(s.ps[p].pc) {
      PairExitingChild(s, p, q);
    } else {
      PairWaitingChild(s, p, q);
    }
  }

  /** A step that wakes somebody. */
  lemma PairWoken(s: Sys, p: nat, q: nat, c: nat)
    requires Near(s, p, q, c) && q != p && c != p && CanGo(s, p) && (s.ps[p].pc.WakeInit? || s.ps[p].pc.WakeParent?)
    ensures |GoStep(s, p).ps| == |s.ps| && PairOk(GoStep(s, p), q, c)
  {
  }

  /** A step that passes on or frees a child. */
  lemma PairPassed(s: Sys, p: nat, q: nat, c: nat)
    requires Near(s, p, q, c) && q != p && c != p && CanGo(s, p) && (s.ps[p].pc.Reparent? || s.ps[p].pc.Scan?)
    ensures |GoStep(s, p).ps| == |s.ps| && PairOk(GoStep(s, p), q, c)
  {
  }

  /** A step that touches no other process. */
  lemma PairUntouched(s: Sys, p: nat, q: nat, c: nat)
    requires Near(s, p, q, c) && q != p && c != p && CanGo(s, p)
    requires !s.ps[p].pc.WakeInit? && !s.ps[p].pc.WakeParent? && !s.ps[p].pc.Reparent? && !s.ps[p].pc.Scan?
    ensures |GoStep(s, p).ps| == |s.ps| && PairOk(GoStep(s, p), q, c)
  {
    hide Own;
    WaitLockTaken(s, p);
  }

  /** Actions that change another process. */
  predicate Outward(a: Action) { a.Fork? || a.Kill? || a.WakeElsewhere? }

  /** Actions that are calls, or the end of one. */
  predicate Calling(a: Action) { a.CopyFails? || a.CallExit? || a.CallWait? }

  lemma OutwardActProc(s: Sys, p: nat, a: Action, q: nat)
    requires Bounds(s) && p < |s.ps| && q < |s.ps| && Enabled(s, p, a) && Outward(a) && ProcOk(s, p) && ProcOk(s, q)
    ensures |Next(s, p, a).ps| == |s.ps| && Bounds(Next(s, p, a)) && ProcOk(Next(s, p, a), q)
  {
  }

  lemma OwnActProc(s: Sys, p: nat, a: Action, q: nat)
    requires Bounds(s) && p < |s.ps| && q < |s.ps| && Enabled(s, p, a)
    requires !a.Go? && !Outward(a) && ProcOk(s, p) && ProcOk(s, q)
    ensures |Next(s, p, a).ps| == |s.ps| && Bounds(Next(s, p, a)) && ProcOk(Next(s, p, a), q)
  {
  }

  lemma ActProc(s: Sys, p: nat, a: Action, q: nat)
    requires Bounds(s) && p < |s.ps| && q < |s.ps| && Enabled(s, p, a) && !a.Go? && ProcOk(s, p) && ProcOk(s, q)
    ensures |Next(s, p, a).ps| == |s.ps| && Bounds(Next(s, p, a)) && ProcOk(Next(s, p, a), q)
  {
    hide Next, ProcOk, Enabled;
    if Outward(a) {
      OutwardActProc(s, p, a, q);
    } else {
      OwnActProc(s, p, a, q);
    }
  }

  lemma CallPair(s: Sys, p: nat, a: Action, q: nat, c: nat)
    requires Near(s, p, q, c) && Enabled(s, p, a) && Calling(a)
    ensures |Next(s, p, a).ps| == |s.ps| && PairOk(Next(s, p, a), q, c)
  {
  }

  lemma SwitchPair(s: Sys, p: nat, a: Action, q: nat, c: nat)
    requires Near(s, p, q, c) && Enabled(s, p, a) && !a.Go? && !Outward(a) && !Calling(a)
    ensures |Next(s, p, a).ps| == |s.ps| && PairOk(Next(s, p, a), q, c)
  {
  }

  lemma OwnActPair(s: Sys, p: nat, a: Action, q: nat, c: nat)
    requires Near(s, p, q, c) && Enabled(s, p, a) && !a.Go? && !Outward(a)
    ensures |Next(s, p, a).ps| == |s.ps| && PairOk(Next(s, p, a), q, c)
  {
    hide Next, ProcOk, PairOk, Enabled;
    if Calling(a) {
      CallPair(s, p, a, q, c);
    } else {
      SwitchPair(s, p, a, q, c);
    }
  }

  lemma OtherActPair(s: Sys, p: nat, a: Action, q: nat, c: nat)
    requires Near(s, p, q, c) && Enabled(s, p, a) && Outward(a)
    ensures |Next(s, p, a).ps| == |s.ps| && PairOk(Next(s, p, a), q, c)
  {
  }

  lemma NextPair(s: Sys, p: nat, a: Action, q: nat, c: nat)
    requires Near(s, p, q, c) && Enabled(s, p, a)
    ensures |Next(s, p, a).ps| == |s.ps| && PairOk(Next(s, p, a), q, c)
  {
    hide GoStep, ProcOk, PairOk;
    match a {
      case Go =>
        if q == p && c == p {
          PairSelf(s, p);
        } else if q == p {
          PairParent(s, p, c);
        } else if c == p {
          PairChild(s, p, q);
        } else if s.ps[p].pc.WakeInit? || s.ps[p].pc.WakeParent? {
          PairWoken(s, p, q, c);
        } else if s.ps[p].pc.Reparent? || s.ps[p].pc.Scan? {
          PairPassed(s, p, q, c);
        } else {
          PairUntouched(s, p, q, c);
        }
      case Fork(_) => OtherActPair(s, p, a, q, c);
      case Kill(_) => OtherActPair(s, p, a, q, c);
      case WakeElsewhere(_) => OtherActPair(s, p, a, q, c);
      case _ => OwnActPair(s, p, a, q, c);
    }
  }

  lemma PairSelf(s: Sys, p: nat)
    requires Near(s, p, p, p) && CanGo(s, p)
    ensures |GoStep(s, p).ps| == |s.ps| && PairOk(GoStep(s, p), p, p)
  {
    GoSelf(s, p);
  }

  lemma NextProc(s: Sys, p: nat, a: Action, q: nat)
    requires Bounds(s) && p < |s.ps| && q < |s.ps| && Enabled(s, p, a)
    requires ProcOk(s, p) && ProcOk(s, q) && ProcOk(s, s.init)
    ensures |Next(s, p, a).ps| == |s.ps| && Bounds(Next(s, p, a)) && ProcOk(Next(s, p, a), q)
  {
    hide GoStep, ProcOk;
    if a.Go? {
      GoSelf(s, p);
      if p != q {
        GoOther(s, p, q);
      }
    } else {
      ActProc(s, p, a, q);
    }
  }

  lemma NextKeepsInv(s: Sys, p: nat, a: Action)
    requires Inv(s) && p < |s.ps| && Enabled(s, p, a)
    ensures Inv(Next(s, p, a)) && Next(s, p, a).init == s.init && |Next(s, p, a).ps| == |s.ps|
  {
    hide Next, ProcOk, PairOk, Bounds, Enabled;
    var s' := Next(s, p, a);
    NextFrame(s, p, a);
    forall q: nat | q < |s.ps| ensures Bounds(s') && ProcOk(s', q) {
      assert ProcOk(s, p) && ProcOk(s, q) && ProcOk(s, s.init);
      NextProc(s, p, a, q);
    }
    forall q: nat, c: nat | q < |s.ps| && c < |s.ps| ensures PairOk(s', q, c) {
      assert ProcOk(s, p) && ProcOk(s, q) && ProcOk(s, c);
      assert PairOk(s, q, c) && PairOk(s, p, c) && PairOk(s, q, p);
      NextPair(s, p, a, q, c);
    }
    assert ProcOk(s', p);
  }

  lemma NextFrame(s: Sys, p: nat, a: Action)
    requires Inv(s) && p < |s.ps| && Enabled(s, p, a)
    ensures Next(s, p, a).init == s.init && |Next(s, p, a).ps| == |s.ps| && s.init < |s.ps|
  {
  }

  // ----- All runs -----

  /** At boot there is only init. */
  ghost predicate Boot(s: Sys) {
    && s.init < |s.ps| && s.wl == -1
    && (forall p: nat {:trigger s.ps[p]} :: p < |s.ps| ==>
          s.ps[p] == if p == s.init then Proc(RUNNABLE, -1, NoChan, false, User) else Freed())
  }

  datatype Event = Event(p: nat, a: Action)

  ghost predicate Runs(s: Sys, es: seq<Event>, s': Sys)
    decreases |es|
  {
    if es == [] then s' == s
    else es[0].p < |s.ps| && Enabled(s, es[0].p, es[0].a) && Runs(Next(s, es[0].p, es[0].a), es[1..], s')
  }

  /** No process is asleep in kwait, or past the point of no return before it, while it
      has an exited child. */
  ghost predicate NoLostWakeup(s: Sys) {
    forall p: nat, c: nat {:trigger s.ps[p], s.ps[c]} ::
      p < |s.ps| && c < |s.ps| && Committed(s.ps[p]) && s.ps[c].parent == p ==> s.ps[c].state != ZOMBIE
  }

  lemma {:induction false} RunsKeepInv(s: Sys, es: seq<Event>, s': Sys)
    requires Inv(s) && Runs(s, es, s')
    ensures Inv(s')
    decreases |es|
  {
    hide Inv;
    if es != [] {
      NextKeepsInv(s, es[0].p, es[0].a);
      RunsKeepInv(Next(s, es[0].p, es[0].a), es[1..], s');
    }
  }

  /** In every run of any number of processes, whenever wait_lock is free no wakeup of a
      waiting parent has been lost. */
  lemma WakeupsAreNotLost(s: Sys, es: seq<Event>, s': Sys)
    requires Boot(s) && Runs(s, es, s') && s'.wl == -1
    ensures NoLostWakeup(s')
  {
    BootInv(s);
    RunsKeepInv(s, es, s');
    forall p: nat, c: nat | p < |s'.ps| && c < |s'.ps| && Committed(s'.ps[p]) && s'.ps[c].parent == p
      ensures s'.ps[c].state != ZOMBIE
    {
      assert PairOk(s', p, c);
    }
  }

  lemma BootInv(s: Sys)
    requires Boot(s)
    ensures Inv(s)
  {
    forall p: nat | p < |s.ps| ensures ProcOk(s, p) { assert s.ps[p].parent == -1; }
    forall p: nat, c: nat | p < |s.ps| && c < |s.ps| ensures PairOk(s, p, c) {
      assert s.ps[c].parent == -1 && s.ps[p].pc == s.ps[p].pc;
    }
  }

  /** kwait gives up only when there is no child to wait for, or the caller was killed. */
  lemma WaitGivesUp(s: Sys, es: seq<Event>, s': Sys, p: nat, c: nat)
    requires Boot(s) && Runs(s, es, s') && p < |s'.ps| && c < |s'.ps| && CanGo(s', p)
    requires s'.ps[p].pc.Scan? && s'.ps[p].pc.i >= |s'.ps| && GoStep(s', p).ps[p].pc.User? && !s'.ps[p].killed
    ensures s'.ps[c].parent != p
  {
    BootInv(s);
    RunsKeepInv(s, es, s');
    assert PairOk(s', p, c);
  }

  /** An exited process, or a free slot, is nobody's parent: children are passed to init. */
  lemma NoOrphans(s: Sys, es: seq<Event>, s': Sys, p: nat, c: nat)
    requires Boot(s) && Runs(s, es, s') && p < |s'.ps| && c < |s'.ps| && s'.ps[c].parent == p
    ensures s'.ps[p].state != ZOMBIE && s'.ps[p].state != UNUSED
  {
    BootInv(s);
    RunsKeepInv(s, es, s');
    assert PairOk(s', p, c) && ProcOk(s', p);
  }

  // ----- What a step may do to a process -----

  /** The only ways a process changes its state: born by fork, put to sleep or set aside by
      itself, woken, dispatched, dead by its own exit, and gone when its parent reaps it. */
  ghost predicate LegalState(s: Sys, p: nat, a: Action, q: nat, y: Proc)
    requires p < |s.ps| && q < |s.ps|
  {
    var x := s.ps[q];
    x.state == y.state
    || match x.state
       case UNUSED => a == Fork(q) && y.state == RUNNABLE
       case ZOMBIE => a.Go? && q != p && x.parent == p && s.ps[p].pc.Scan? && y.state == UNUSED
       case SLEEPING => y.state == RUNNABLE
       case RUNNABLE => q == p && a.Dispatch? && y.state == RUNNING
       case RUNNING =>
         q == p && (if y.state == ZOMBIE then a.Go? && x.pc.SetZombie? else y.state == SLEEPING || y.state == RUNNABLE)
  }

  /** The only ways it changes its parent: set by fork, passed to init by an exiting parent,
      and cleared when the slot is freed. */
  ghost predicate LegalParent(s: Sys, p: nat, a: Action, q: nat, y: Proc)
    requires p < |s.ps| && q < |s.ps|
  {
    var x := s.ps[q];
    || x.parent == y.parent
    || (a == Fork(q) && y.parent == p)
    || (a.Go? && q != p && x.parent == p && s.ps[p].pc.Reparent? && y.parent == s.init)
    || (x.state == ZOMBIE && y.state == UNUSED && y.parent == -1)
  }

  lemma StepsAreLegal(s: Sys, p: nat, a: Action, q: nat)
    requires Inv(s) && p < |s.ps| && Enabled(s, p, a) && q < |s.ps|
    ensures |Next(s, p, a).ps| == |s.ps|
    ensures LegalState(s, p, a, q, Next(s, p, a).ps[q]) && LegalParent(s, p, a, q, Next(s, p, a).ps[q])
  {
    hide PairOk;
    assert ProcOk(s, p) && ProcOk(s, q);
  }

  /** What an event must do to process `q`: a new child is ready to run, the scheduler runs
      the one it picks, a sleeper that is woken or killed is ready again and remembers that
      it was killed, and who has begun to exit never returns to user code. */
  ghost predicate Effect(s: Sys, p: nat, a: Action, q: nat, y: Proc)
    requires p < |s.ps| && q < |s.ps|
  {
    && (a == Fork(q) ==> y.state == RUNNABLE && y.parent == p && !y.killed && y.chan == NoChan && y.pc.User?)
    && (a.Dispatch? && q == p ==> y.state == RUNNING)
    && (a.Preempt? && q == p ==> y.state == RUNNABLE)
    && (a.SleepElsewhere? && q == p ==> y.state == SLEEPING && y.chan == OnOther)
    && (a == WakeElsewhere(q) ==> y.state == RUNNABLE)
    && (a == Kill(q) ==> y.killed && y.state != SLEEPING)
    && (a == Kill(q) || s.ps[q].killed == y.killed || a == Fork(q) || y.state == UNUSED)
    && (a.CallExit? && q == p ==> Exiting(y.pc))
    && (Exiting(s.ps[q].pc) ==> Exiting(y.pc) || (s.ps[q].state == ZOMBIE && y.state == UNUSED))
  }

  lemma StepsTakeEffect(s: Sys, p: nat, a: Action, q: nat)
    requires Inv(s) && p < |s.ps| && Enabled(s, p, a) && q < |s.ps|
    ensures |Next(s, p, a).ps| == |s.ps| && Effect(s, p, a, q, Next(s, p, a).ps[q])
  {
    hide PairOk;
    assert ProcOk(s, p) && ProcOk(s, q);
  }

  // ----- Reaping -----

  /** kwait returns with a child. */
  ghost predicate Reaps(s: Sys, e: Event) {
    && e.p < |s.ps| && Enabled(s, e.p, e.a) && e.a.Go?
    && s.ps[e.p].pc.Scan? && s.ps[e.p].pc.i < |s.ps| == |Next(s, e.p, e.a).ps| && Next(s, e.p, e.a).ps[e.p].pc.User?
  }

  /** Exactly one child, an exited one, is gone when kwait returns with it. */
  lemma ReapFrees(s: Sys, e: Event) returns (c: nat)
    requires Inv(s) && Reaps(s, e)
    ensures c < |s.ps| && c != e.p && s.ps[c].state == ZOMBIE && s.ps[c].parent == e.p
    ensures var s' := Next(s, e.p, e.a);
            && |s'.ps| == |s.ps| && s'.ps[c].state == UNUSED && s'.ps[c].parent == -1
            && s'.ps[e.p] == s.ps[e.p].(pc := User)
            && (forall q {:trigger s'.ps[q]} :: 0 <= q < |s.ps| && q != c && q != e.p ==> s'.ps[q] == s.ps[q])
  {
    c := s.ps[e.p].pc.i;
    assert ProcOk(s, e.p) && ProcOk(s, c);
  }

  ghost function InUse(s: Sys): set<nat> { set q: nat | q in Basics.Below(|s.ps|) && s.ps[q].state != UNUSED }

  /** How many forks, and how many calls of kwait that return with a child? */
  ghost function Forks(s: Sys, es: seq<Event>, s': Sys): int
    requires Runs(s, es, s')
    decreases |es|
  {
    if es == [] then 0
    else (if es[0].a.Fork? then 1 else 0) + Forks(Next(s, es[0].p, es[0].a), es[1..], s')
  }

  ghost function Reaped(s: Sys, es: seq<Event>, s': Sys): nat
    requires Runs(s, es, s')
    decreases |es|
  {
    if es == [] then 0
    else (if Reaps(s, es[0]) then 1 else 0) + Reaped(Next(s, es[0].p, es[0].a), es[1..], s')
  }

  lemma SlotKept(s: Sys, e: Event, q: nat)
    requires Inv(s) && e.p < |s.ps| && Enabled(s, e.p, e.a) && q < |s.ps| && !Reaps(s, e) && e.a != Fork(q)
    ensures |Next(s, e.p, e.a).ps| == |s.ps| && (Next(s, e.p, e.a).ps[q].state == UNUSED <==> s.ps[q].state == UNUSED)
  {
    hide PairOk;
    assert ProcOk(s, e.p) && ProcOk(s, q);
  }

  lemma SlotBorn(s: Sys, e: Event)
    requires e.p < |s.ps| && Enabled(s, e.p, e.a) && e.a.Fork?
    ensures e.a.np < |s.ps| == |Next(s, e.p, e.a).ps| && s.ps[e.a.np].state == UNUSED
    ensures Next(s, e.p, e.a).ps[e.a.np].state != UNUSED && !Reaps(s, e)
  {
  }

  /** One slot more or less in use, or the same ones. */
  lemma InUseAfter(s: Sys, s': Sys, plus: set<nat>, minus: set<nat>)
    requires |s'.ps| == |s.ps| && plus !! minus
    requires forall q: nat {:trigger s.ps[q]} :: q < |s.ps| ==>
               (s'.ps[q].state != UNUSED <==> q in plus || (s.ps[q].state != UNUSED && q !in minus))
    requires forall q {:trigger q in plus} :: q in plus ==> q < |s.ps| && s.ps[q].state == UNUSED
    requires forall q {:trigger q in minus} :: q in minus ==> q < |s.ps| && s.ps[q].state != UNUSED
    ensures |InUse(s')| == |InUse(s)| + |plus| - |minus|
  {
    var a, b := InUse(s), InUse(s');
    assert b == (a - minus) + plus;
    assert a == (a - minus) + minus;
    Basics.UnionSize(a - minus, plus);
    Basics.UnionSize(a - minus, minus);
  }

  lemma InUseStep(s: Sys, e: Event)
    requires Inv(s) && e.p < |s.ps| && Enabled(s, e.p, e.a)
    ensures |InUse(Next(s, e.p, e.a))| ==
            |InUse(s)| + (if e.a.Fork? then 1 else 0) - (if Reaps(s, e) then 1 else 0)
  {
    hide Inv, Enabled, Next, Reaps, InUse;
    var s' := Next(s, e.p, e.a);
    NextFrame(s, e.p, e.a);
    if Reaps(s, e) {
      var c := ReapFrees(s, e);
      IsGo(s, e);
      WaiterLives(s, e);
      InUseAfter(s, s', {}, {c});
    } else {
      var born := if e.a.Fork? then {e.a.np} else {};
      if e.a.Fork? {
        SlotBorn(s, e);
      }
      forall q: nat | q < |s.ps| && q !in born ensures s'.ps[q].state == UNUSED <==> s.ps[q].state == UNUSED {
        SlotKept(s, e, q);
      }
      InUseAfter(s, s', born, {});
    }
  }

  lemma IsGo(s: Sys, e: Event)
    requires Reaps(s, e)
    ensures e.a.Go?
  {
  }

  lemma WaiterLives(s: Sys, e: Event)
    requires Inv(s) && Reaps(s, e)
    ensures s.ps[e.p].state != UNUSED
  {
    assert ProcOk(s, e.p);
  }

  lemma {:induction false} InUseRuns(s: Sys, es: seq<Event>, s': Sys)
    requires Inv(s) && Runs(s, es, s')
    ensures |InUse(s')| == |InUse(s)| + Forks(s, es, s') - Reaped(s, es, s')
    decreases |es|
  {
    hide Inv, Enabled, Next, Reaps, InUse;
    if es != [] {
      InUseStep(s, es[0]);
      NextKeepsInv(s, es[0].p, es[0].a);
      InUseRuns(Next(s, es[0].p, es[0].a), es[1..], s');
    }
  }

  /** In every run from boot the processes there are, are init and those forked, less those
      a kwait has returned with: each exited process is collected once, by one kwait. */
  lemma ProcessesAreCounted(s: Sys, es: seq<Event>, s': Sys)
    requires Boot(s) && Runs(s, es, s')
    ensures |InUse(s')| == 1 + Forks(s, es, s') - Reaped(s, es, s')
  {
    hide Inv, Runs;
    BootInv(s);
    assert InUse(s) == {s.init};
    InUseRuns(s, es, s');
  }
}
