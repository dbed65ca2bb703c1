/** That exit and wait get on: what kwait decides, and that wait_lock is given up again. */
module WaitProgress {
  import opened WaitExit

  // ----- A second invariant -----

  /** Places a process is in only while it runs. */
  predicate Busy(pc: Pc) {
    match pc
    case Reparent(_) => true
    case WakeInit(_, _) => true
    case WakeParent(_) => true
    case ExitLock => true
    case SetZombie => true
    case Scan(_, _) => true
    case SleepLock => true
    case SleepRelease => true
    case SleepMark => true
    case Waking => true
    case _ => false
  }

  ghost predicate HasKid(s: Sys, p: nat, upto: nat) {
    exists c: nat {:trigger s.ps[c]} :: c < upto && c < |s.ps| && s.ps[c].parent == p
  }

  /** A process that exists has a parent, unless it is init; it runs where it must; and
      what kwait has counted is there. */
  ghost predicate LiveOk(s: Sys, p: nat)
    requires p < |s.ps|
  {
    var x := s.ps[p];
    && (x.state != UNUSED && p != s.init ==> x.parent >= 0)
    && (Busy(x.pc) ==> x.state == RUNNING)
    && (x.pc.Scan? && x.pc.kids ==> HasKid(s, p, x.pc.i))
  }

  ghost predicate AllLive(s: Sys) { forall p: nat {:trigger LiveOk(s, p)} :: p < |s.ps| ==> LiveOk(s, p) }

  /** Another process's step changes no parent while `q` holds wait_lock. */
  lemma KidsStay(s: Sys, p: nat, a: Action, q: nat, upto: nat)
    requires Inv(s) && p < |s.ps| && Enabled(s, p, a) && q < |s.ps| && s.wl == q && p != q && HasKid(s, q, upto)
    ensures |Next(s, p, a).ps| == |s.ps| && HasKid(Next(s, p, a), q, upto)
  {
    hide PairOk;
    var c: nat :| c < upto && c < |s.ps| && s.ps[c].parent == q;
    assert ProcOk(s, p) && ProcOk(s, q) && ProcOk(s, c);
    assert Next(s, p, a).ps[c].parent == q;
  }

  lemma OwnKids(s: Sys, p: nat, a: Action)
    requires Inv(s) && p < |s.ps| && Enabled(s, p, a) && LiveOk(s, p)
    ensures |Next(s, p, a).ps| == |s.ps|
    ensures var x := Next(s, p, a).ps[p]; x.pc.Scan? && x.pc.kids ==> HasKid(Next(s, p, a), p, x.pc.i)
  {
    hide PairOk;
    var s' := Next(s, p, a);
    assert ProcOk(s, p);
    if s'.ps[p].pc.Scan? && s'.ps[p].pc.kids && s.ps[p].pc.Scan? {
      if s.ps[p].pc.kids {
        var c: nat :| c < s.ps[p].pc.i && c < |s.ps| && s.ps[c].parent == p;
        assert s'.ps[c].parent == p;
      } else {
        var c := s.ps[p].pc.i;
        assert s'.ps[c].parent == p;
      }
    }
  }

  lemma StaysLive(s: Sys, p: nat, a: Action, q: nat)
    requires Inv(s) && p < |s.ps| && Enabled(s, p, a) && q < |s.ps| && LiveOk(s, q)
    ensures |Next(s, p, a).ps| == |s.ps|
    ensures var x := Next(s, p, a).ps[q];
            && (x.state != UNUSED && q != s.init ==> x.parent >= 0)
            && (Busy(x.pc) ==> x.state == RUNNING)
  {
    hide PairOk, HasKid;
    assert ProcOk(s, p) && ProcOk(s, q);
  }

  lemma OthersStay(s: Sys, p: nat, a: Action, q: nat)
    requires Inv(s) && p < |s.ps| && Enabled(s, p, a) && q < |s.ps| && q != p
    ensures |Next(s, p, a).ps| == |s.ps|
    ensures Next(s, p, a).ps[q].pc != s.ps[q].pc ==> s.ps[q].state == UNUSED || Next(s, p, a).ps[q].state == UNUSED
    ensures Next(s, p, a).ps[q].pc != s.ps[q].pc ==> !HoldsWait(Next(s, p, a).ps[q].pc) && !HoldsWait(s.ps[q].pc)
  {
    hide PairOk;
    assert ProcOk(s, p) && ProcOk(s, q);
  }

  lemma NextLive(s: Sys, p: nat, a: Action, q: nat)
    requires Inv(s) && AllLive(s) && p < |s.ps| && Enabled(s, p, a) && q < |s.ps|
    ensures |Next(s, p, a).ps| == |s.ps| && LiveOk(Next(s, p, a), q)
  {
    hide Next, Enabled, HasKid, PairOk;
    assert LiveOk(s, p) && LiveOk(s, q) && ProcOk(s, q);
    StaysLive(s, p, a, q);
    NextFrame(s, p, a);
    if p == q {
      OwnKids(s, p, a);
    } else {
      OthersStay(s, p, a, q);
      if s.ps[q].pc.Scan? && s.ps[q].pc.kids {
        KidsStay(s, p, a, q, s.ps[q].pc.i);
      }
    }
  }

  lemma {:induction false} RunsKeepLive(s: Sys, es: seq<Event>, s': Sys)
    requires Inv(s) && AllLive(s) && Runs(s, es, s')
    ensures Inv(s') && AllLive(s')
    decreases |es|
  {
    hide Inv, Enabled, Next, LiveOk;
    if es != [] {
      var t := Next(s, es[0].p, es[0].a);
      NextFrame(s, es[0].p, es[0].a);
      forall q: nat | q < |t.ps| ensures LiveOk(t, q) { NextLive(s, es[0].p, es[0].a, q); }
      NextKeepsInv(s, es[0].p, es[0].a);
      RunsKeepLive(t, es[1..], s');
    }
  }

  lemma FromBoot(s: Sys, es: seq<Event>, s': Sys)
    requires Boot(s) && Runs(s, es, s')
    ensures Inv(s') && AllLive(s')
  {
    BootInv(s);
    forall p: nat | p < |s.ps| ensures LiveOk(s, p) { assert s.ps[p].pc == User || s.ps[p].pc == Free; }
    RunsKeepLive(s, es, s');
  }

  // ----- What kwait decides -----

  /** In every run: a process that exists and is not init has a parent that exists. */
  lemma ParentExists(s: Sys, es: seq<Event>, s': Sys, c: nat)
    requires Boot(s) && Runs(s, es, s') && c < |s'.ps| && s'.ps[c].state != UNUSED && c != s'.init
    ensures 0 <= s'.ps[c].parent < |s'.ps| && s'.ps[c].parent != c
    ensures s'.ps[s'.ps[c].parent].state != UNUSED && s'.ps[s'.ps[c].parent].state != ZOMBIE
  {
    FromBoot(s, es, s');
    assert LiveOk(s', c) && ProcOk(s', c);
    NoOrphans(s, es, s', s'.ps[c].parent, c);
  }

  /** When kwait has looked at all processes it returns exactly if it has no child or was
      killed, and goes to sleep otherwise. */
  lemma WaitDecides(s: Sys, es: seq<Event>, s': Sys, p: nat)
    requires Boot(s) && Runs(s, es, s') && p < |s'.ps| && CanGo(s', p)
    requires s'.ps[p].pc.Scan? && s'.ps[p].pc.i >= |s'.ps|
    ensures var x := GoStep(s', p).ps[p];
            && (x.pc.User? <==>
                  s'.ps[p].killed || forall c {:trigger s'.ps[c]} :: 0 <= c < |s'.ps| ==> s'.ps[c].parent != p)
            && (!x.pc.User? ==> x.pc.SleepLock?)
  {
    hide PairOk;
    FromBoot(s, es, s');
    assert LiveOk(s', p);
    if GoStep(s', p).ps[p].pc.User? && !s'.ps[p].killed {
      forall c: nat | c < |s'.ps| ensures s'.ps[c].parent != p { WaitGivesUp(s, es, s', p, c); }
    }
  }

  // ----- wait_lock is given up again -----

  function Sub(n: nat, i: nat): nat { if i < n then n - i else 0 }

  /** How many steps at most the holder of wait_lock has to take before it gives it up. */
  function Left(n: nat, pc: Pc): nat {
    match pc
    case Reparent(i) => Sub(n, i) * (n + 3) + n + 5
    case WakeInit(i, j) => Sub(n, i + 1) * (n + 3) + n + 6 + Sub(n, j)
    case WakeParent(j) => Sub(n, j) + 4
    case ExitLock => 3
    case SetZombie => 2
    case ZombieUnlock => 1
    case Scan(i, _) => Sub(n, i) + 3
    case SleepLock => 2
    case SleepRelease => 1
    case _ => 0
  }

  lemma Rounds(n: nat, i: nat)
    requires i < n
    ensures Sub(n, i) * (n + 3) == Sub(n, i + 1) * (n + 3) + n + 3
  {
    var k := n + 3;
    assert (Sub(n, i + 1) + 1) * k == Sub(n, i + 1) * k + k;
  }

  lemma GoesOn(s: Sys, p: nat)
    requires p < |s.ps| && CanGo(s, p) && HoldsWait(s.ps[p].pc)
    ensures |GoStep(s, p).ps| == |s.ps| && Left(|s.ps|, GoStep(s, p).ps[p].pc) < Left(|s.ps|, s.ps[p].pc)
  {
    hide Other;
    var n, pc := |s.ps|, s.ps[p].pc;
    if pc.Reparent? && pc.i < n {
      Rounds(n, pc.i);
    }
  }

  /** The process a loop under wait_lock has come to. */
  function Visited(pc: Pc): nat {
    match pc
    case WakeInit(_, j) => j
    case WakeParent(j) => j
    case Scan(i, _) => i
    case _ => 0
  }

  /** Who holds wait_lock can go on, or waits for the lock of a process that can. */
  lemma HolderGoesOn(s: Sys, es: seq<Event>, s': Sys)
    requires Boot(s) && Runs(s, es, s') && s'.wl != -1
    ensures 0 <= s'.wl < |s'.ps|
    ensures CanGo(s', s'.wl) || exists j: nat {:trigger s'.ps[j]} :: j < |s'.ps| && Locked(s'.ps[j]) && CanGo(s', j)
  {
    hide PairOk;
    FromBoot(s, es, s');
    var p: nat := s'.wl;
    assert ProcOk(s', p) && LiveOk(s', p);
    if !CanGo(s', p) {
      var j := Visited(s'.ps[p].pc);
      assert j < |s'.ps| && Locked(s'.ps[j]);
      assert ProcOk(s', j) && LiveOk(s', j);
      assert CanGo(s', j);
    }
  }

  /** The locks of exit and wait never block everybody: while some process is on a processor
      inside kexit or kwait, one of them can take its next step. */
  lemma NobodyStuck(s: Sys, es: seq<Event>, s': Sys, p: nat)
    requires Boot(s) && Runs(s, es, s') && p < |s'.ps| && OnCpu(s'.ps[p]) && !s'.ps[p].pc.User?
    ensures exists q: nat {:trigger s'.ps[q]} :: q < |s'.ps| && CanGo(s', q)
  {
    hide PairOk;
    FromBoot(s, es, s');
    assert ProcOk(s', p) && LiveOk(s', p);
    if s'.wl == -1 {
      assert CanGo(s', p);
    } else {
      HolderGoesOn(s, es, s');
    }
  }

  ghost predicate Keeps(s: Sys, es: seq<Event>, p: nat)
    decreases |es|
  {
    && s.wl == p
    && (es != [] && es[0].p < |s.ps| && Enabled(s, es[0].p, es[0].a) ==> Keeps(Next(s, es[0].p, es[0].a), es[1..], p))
  }

  function GoesOf(es: seq<Event>, p: nat): nat {
    if es == [] then 0 else (if es[0] == Event(p, Go) then 1 else 0) + GoesOf(es[1..], p)
  }

  lemma StepWhileHeld(s: Sys, e: Event, p: nat)
    requires Inv(s) && e.p < |s.ps| && Enabled(s, e.p, e.a) && p < |s.ps| && s.wl == p
    ensures |Next(s, e.p, e.a).ps| == |s.ps|
    ensures Next(s, e.p, e.a).wl == p ==>
              Left(|s.ps|, Next(s, e.p, e.a).ps[p].pc) + (if e == Event(p, Go) then 1 else 0)
              <= Left(|s.ps|, s.ps[p].pc)
  {
    hide PairOk, GoStep;
    assert ProcOk(s, p);
    if e.p != p {
      OthersStay(s, e.p, e.a, p);
    } else if e.a.Go? {
      GoesOn(s, p);
    }
  }

  /** While a process holds wait_lock it takes no more than a fixed number of steps. */
  lemma {:induction false} HoldsBriefly(s: Sys, es: seq<Event>, s': Sys, p: nat)
    requires Inv(s) && Runs(s, es, s') && p < |s.ps| && Keeps(s, es, p)
    ensures GoesOf(es, p) <= Left(|s.ps|, s.ps[p].pc)
    decreases |es|
  {
    hide Inv, Enabled, Next, Left;
    if es != [] {
      var t := Next(s, es[0].p, es[0].a);
      StepWhileHeld(s, es[0], p);
      NextKeepsInv(s, es[0].p, es[0].a);
      HoldsBriefly(t, es[1..], s', p);
    }
  }
}
