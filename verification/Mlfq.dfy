/** The multi-level feedback queue scheduler of kernel/proc.c on one processor: its
    bookkeeping and its bound on waiting. */
module Mlfq {
  import Basics

  datatype State = UNUSED | SLEEPING | RUNNABLE | RUNNING | ZOMBIE

  /** The scheduling fields of a process. */
  datatype Proc = Proc(state: State, queueLevel: int, priority: int, timeSlice: nat, ltime: nat, etime: nat)

  const STARV_CUT: nat := 10_000_000

  function Quantum(level: int): nat { if level <= 0 then 5000 else if level == 1 then 10000 else 20000 }

  // ----- One process -----

  /** allocproc, and the process made runnable. */
  function Fresh(): Proc { Proc(RUNNABLE, 0, 0, Quantum(0), 0, 0) }

  function Freed(): Proc { Proc(UNUSED, 0, 0, 0, 0, 0) }

  function Starved(x: Proc, time: nat): bool { x.state == RUNNABLE && time > x.etime + STARV_CUT }

  /** starvation_clean, for one process. */
  function Aged(x: Proc, time: nat): Proc {
    if Starved(x, time) && x.queueLevel > 0
    then x.(queueLevel := x.queueLevel - 1, timeSlice := Quantum(x.queueLevel - 1))
    else x
  }

  function Charge(slice: nat, elapsed: nat): nat { if elapsed < slice then slice - elapsed else 0 }

  /** What the scheduler does with a process that comes back in state `st` at `time`;
      one that exits has already been charged by kexit at `exitTime`. */
  function Accounted(x: Proc, st: State, exitTime: nat, time: nat): Proc
    requires x.ltime <= exitTime <= time
  {
    var slice0 := if st == ZOMBIE then Charge(x.timeSlice, exitTime - x.ltime) else x.timeSlice;
    var slice := Charge(slice0, time - x.ltime);
    var y := x.(state := st, timeSlice := slice, etime := time);
    if slice == 0 && x.queueLevel < 2 then
      var priority := if x.priority < 2 then x.priority + 1 else x.priority;
      y.(priority := priority, queueLevel := x.queueLevel + 1, timeSlice := Quantum(priority))
    else y
  }

  /** The bookkeeping of one process. */
  predicate ProcOk(x: Proc) {
    && 0 <= x.queueLevel <= x.priority <= 2
    && x.timeSlice <= Quantum(x.priority)
    && (x.state == RUNNABLE && x.queueLevel < 2 ==> x.timeSlice > 0)
    && (x.state == RUNNING && x.queueLevel < 2 ==> x.timeSlice > 0)
    && (x.state == SLEEPING && x.queueLevel < 2 ==> x.timeSlice > 0)
  }

  // ----- Choosing a process -----

  /** The process chosen: none is runnable at a better level, none at its level ran
      longer ago, and of those that ran last at the same time it is the first. */
  ghost predicate Chosen(ps: seq<Proc>, r: int) {
    && 0 <= r < |ps| && ps[r].state == RUNNABLE && 0 <= ps[r].queueLevel <= 2
    && forall i {:trigger ps[i]} ::
         0 <= i < |ps| && ps[i].state == RUNNABLE && 0 <= ps[i].queueLevel <= 2 ==> Before(ps, r, i)
  }

  predicate Before(ps: seq<Proc>, r: int, i: int)
    requires 0 <= r < |ps| && 0 <= i < |ps|
  {
    || ps[r].queueLevel < ps[i].queueLevel
    || (ps[r].queueLevel == ps[i].queueLevel && (ps[r].ltime < ps[i].ltime || (ps[r].ltime == ps[i].ltime && r <= i)))
  }

  lemma ChosenIsUnique(ps: seq<Proc>, r: int, r': int)
    requires Chosen(ps, r) && Chosen(ps, r')
    ensures r == r'
  {
    assert Before(ps, r, r') && Before(ps, r', r);
  }

  // ----- Steps -----

  /** Before starvation_clean, before the choice, and while a process runs. */
  datatype Phase = Search | Cleaned | Running(cur: nat)

  datatype Sys = Sys(ps: seq<Proc>, clock: nat, phase: Phase)

  datatype Step =
    | Clean(time: nat)
    | Dispatch(q: nat, time: nat)
    | Idle
    | Return(st: State, exitTime: nat, time: nat)
    | Wake(r: nat)
    | Create(r: nat)
    | Free(r: nat)

  function CleanAll(ps: seq<Proc>, time: nat): (ps': seq<Proc>)
    ensures |ps'| == |ps| && forall i {:trigger ps'[i]} :: 0 <= i < |ps| ==> ps'[i] == Aged(ps[i], time)
  {
    seq(|ps|, i requires 0 <= i < |ps| => Aged(ps[i], time))
  }

  ghost predicate NoneRunnable(ps: seq<Proc>) {
    forall i {:trigger ps[i]} :: 0 <= i < |ps| && 0 <= ps[i].queueLevel <= 2 ==> ps[i].state != RUNNABLE
  }

  ghost predicate Enabled(s: Sys, t: Step) {
    match t
    case Clean(time) => s.phase == Search && time > s.clock
    case Dispatch(q, time) => s.phase == Cleaned && time > s.clock && Chosen(s.ps, q)
    case Idle => s.phase == Cleaned && NoneRunnable(s.ps)
    case Return(st, exitTime, time) =>
      && s.phase.Running? && s.phase.cur < |s.ps| && s.ps[s.phase.cur].ltime <= s.clock < exitTime <= time
      && (st == RUNNABLE || st == SLEEPING || st == ZOMBIE)
    case Wake(r) => r < |s.ps| && s.ps[r].state == SLEEPING
    case Create(r) => s.phase.Running? && r < |s.ps| && s.ps[r].state == UNUSED
    case Free(r) => s.phase.Running? && r < |s.ps| && s.ps[r].state == ZOMBIE
  }

  ghost function Next(s: Sys, t: Step): Sys
    requires Enabled(s, t)
  {
    match t
    case Clean(time) => Sys(CleanAll(s.ps, time), time, Cleaned)
    case Dispatch(q, time) => Sys(s.ps[q := s.ps[q].(state := RUNNING, ltime := time)], time, Running(q))
    case Idle => s.(phase := Search)
    case Return(st, exitTime, time) =>
      Sys(s.ps[s.phase.cur := Accounted(s.ps[s.phase.cur], st, exitTime, time)], time, Search)
    case Wake(r) => s.(ps := s.ps[r := s.ps[r].(state := RUNNABLE)])
    case Create(r) => s.(ps := s.ps[r := Fresh()])
    case Free(r) => s.(ps := s.ps[r := Freed()])
  }

  // ----- Bookkeeping -----

  /** The clock is ahead of every time stamp, and only the current process runs. */
  predicate StampOk(s: Sys, i: nat)
    requires i < |s.ps|
  {
    && s.ps[i].ltime <= s.clock && s.ps[i].etime <= s.clock
    && (s.ps[i].state == RUNNING <==> s.phase == Running(i))
  }

  ghost predicate Inv(s: Sys) {
    && (s.phase.Running? ==> s.phase.cur < |s.ps|)
    && (forall i: nat {:trigger s.ps[i]} :: i < |s.ps| ==> ProcOk(s.ps[i]))
    && (forall i: nat {:trigger StampOk(s, i)} :: i < |s.ps| ==> StampOk(s, i))
  }

  lemma AgedOk(x: Proc, time: nat)
    requires ProcOk(x)
    ensures ProcOk(Aged(x, time)) && Aged(x, time).queueLevel <= x.queueLevel
  {
  }

  /** Demotion raises the level and the priority together, so that aging, which lowers
      only the level, never leaves the level above the priority. */
  lemma AccountedOk(x: Proc, st: State, exitTime: nat, time: nat)
    requires ProcOk(x) && x.ltime <= exitTime <= time
    ensures ProcOk(Accounted(x, st, exitTime, time))
  {
  }

  lemma NextKeepsInv(s: Sys, t: Step)
    requires Inv(s) && Enabled(s, t)
    ensures Inv(Next(s, t)) && |Next(s, t).ps| == |s.ps|
  {
    var s' := Next(s, t);
    forall i: nat | i < |s'.ps| ensures ProcOk(s'.ps[i]) {
      assert ProcOk(s.ps[i]);
      if t.Clean? { AgedOk(s.ps[i], t.time); }
      if t.Return? && i == s.phase.cur { AccountedOk(s.ps[i], t.st, t.exitTime, t.time); }
    }
    forall i: nat | i < |s'.ps| ensures StampOk(s', i) {
      assert StampOk(s, i);
      assert s.phase.Running? ==> StampOk(s, s.phase.cur);
    }
  }

  /** After userinit: one process, never run, and nobody else. */
  ghost predicate Boot(s: Sys) {
    && s.phase == Search && 0 < |s.ps| && s.ps[0] == Fresh()
    && forall i {:trigger s.ps[i]} :: 0 < i < |s.ps| ==> s.ps[i] == Freed()
  }

  lemma BootInv(s: Sys)
    requires Boot(s)
    ensures Inv(s)
  {
    forall i: nat | i < |s.ps| ensures ProcOk(s.ps[i]) && StampOk(s, i) {
      assert s.ps[i] == Fresh() || s.ps[i] == Freed();
    }
  }

  ghost predicate Runs(s: Sys, steps: seq<Step>, s': Sys)
    decreases |steps|
  {
    if steps == [] then s' == s else Enabled(s, steps[0]) && Runs(Next(s, steps[0]), steps[1..], s')
  }

  lemma {:induction false} RunsKeepInv(s: Sys, steps: seq<Step>, s': Sys)
    requires Inv(s) && Runs(s, steps, s')
    ensures Inv(s') && |s'.ps| == |s.ps|
    decreases |steps|
  {
    hide Inv;
    if steps != [] {
      NextKeepsInv(s, steps[0]);
      RunsKeepInv(Next(s, steps[0]), steps[1..], s');
    }
  }

  // ----- The bound on waiting -----

  /** Process `p` has been waiting longer than the limit, at a point before a choice. */
  ghost predicate Waits(s: Sys, p: nat) {
    p < |s.ps| && s.ps[p].state == RUNNABLE && s.clock > s.ps[p].etime + 10_000_000
  }

  /** `seen` are the processes dispatched since, less those created again since. They ran
      later than `p` or are gone, and once there is one, `p` is at level 0 at every choice. */
  ghost predicate Waiting(s: Sys, p: nat, seen: set<nat>, begun: bool) {
    && Waits(s, p) && p !in seen
    && (forall r: nat {:trigger r in seen} ::
          r in seen ==> r < |s.ps| && (s.ps[r].state == UNUSED || s.ps[r].ltime > s.ps[p].ltime))
    && (seen != {} ==> begun)
    && (s.phase == Cleaned ==> s.ps[p].queueLevel <= 1)
    && (begun ==> s.ps[p].queueLevel <= 1)
    && (begun && s.phase == Cleaned ==> s.ps[p].queueLevel == 0)
  }

  /** A choice made while `p` waits is of a process not seen yet. */
  lemma ChoiceIsNew(s: Sys, p: nat, seen: set<nat>, begun: bool, q: nat)
    requires Inv(s) && Waiting(s, p, seen, begun) && s.phase == Cleaned && Chosen(s.ps, q)
    ensures q !in seen
  {
    assert ProcOk(s.ps[p]) && ProcOk(s.ps[q]);
    assert Before(s.ps, q, p);
  }

  function SeenAfter(seen: set<nat>, t: Step): set<nat> {
    match t
    case Dispatch(q, _) => seen + {q}
    case Create(r) => seen - {r}
    case _ => seen
  }

  lemma WaitingStep(s: Sys, t: Step, p: nat, seen: set<nat>, begun: bool)
    requires Inv(s) && Enabled(s, t) && Waiting(s, p, seen, begun) && !(t.Dispatch? && t.q == p)
    ensures Waiting(Next(s, t), p, SeenAfter(seen, t), begun || t.Dispatch?)
    ensures t.Dispatch? ==> t.q !in seen
  {
    var s' := Next(s, t);
    assert ProcOk(s.ps[p]) && StampOk(s, p);
    match t {
      case Clean(time) =>
        assert s'.ps[p] == Aged(s.ps[p], time);
        forall r: nat | r in seen ensures s'.ps[r].state == UNUSED || s'.ps[r].ltime > s'.ps[p].ltime {
          assert s'.ps[r] == Aged(s.ps[r], time);
        }
      case Dispatch(q, time) => ChoiceIsNew(s, p, seen, begun, q);
      case Return(_, _, _) => assert StampOk(s, s.phase.cur);
      case _ =>
    }
  }

  function Dispatches(steps: seq<Step>): nat {
    if steps == [] then 0 else (if steps[0].Dispatch? then 1 else 0) + Dispatches(steps[1..])
  }

  function Creations(steps: seq<Step>): nat {
    if steps == [] then 0 else (if steps[0].Create? then 1 else 0) + Creations(steps[1..])
  }

  /** How often slot `r` is dispatched, or created. */
  function DispatchesOf(steps: seq<Step>, r: nat): nat {
    if steps == [] then 0 else (if steps[0].Dispatch? && steps[0].q == r then 1 else 0) + DispatchesOf(steps[1..], r)
  }

  function CreationsOf(steps: seq<Step>, r: nat): nat {
    if steps == [] then 0 else (if steps[0].Create? && steps[0].r == r then 1 else 0) + CreationsOf(steps[1..], r)
  }

  ghost predicate NeverRuns(steps: seq<Step>, p: nat) {
    forall i {:trigger steps[i]} :: 0 <= i < |steps| ==> !(steps[i].Dispatch? && steps[i].q == p)
  }

  lemma {:induction false} WaitingRuns(s: Sys, steps: seq<Step>, s': Sys, p: nat, seen: set<nat>, begun: bool, r: nat)
    requires Inv(s) && Runs(s, steps, s') && Waiting(s, p, seen, begun) && NeverRuns(steps, p)
    ensures DispatchesOf(steps, r) + (if r in seen then 1 else 0) <= 1 + CreationsOf(steps, r)
    ensures Dispatches(steps) + |seen| <= |s.ps| - 1 + Creations(steps)
    decreases |steps|
  {
    if steps == [] {
      SlotsBut(|s.ps|, p, seen);
    } else {
      hide Inv, Waiting;
      var t, rest := steps[0], steps[1..];
      WaitingStep(s, t, p, seen, begun);
      NextKeepsInv(s, t);
      assert forall i {:trigger rest[i]} :: 0 <= i < |rest| ==> rest[i] == steps[i + 1];
      WaitingRuns(Next(s, t), rest, s', p, SeenAfter(seen, t), begun || t.Dispatch?, r);
    }
  }

  lemma SlotsBut(n: nat, p: nat, seen: set<nat>)
    requires p < n && p !in seen && forall i: nat {:trigger i in seen} :: i in seen ==> i < n
    ensures |seen| <= n - 1
  {
    Basics.SubsetSize(seen, Basics.Below(n) - {p});
  }

  /** While a process that has waited longer than the limit is not run, every other
      process is dispatched at most once, and once more for each time its slot is used
      for a new process; so it runs after at most NPROC - 1 dispatches if none is created. */
  lemma StarvationBound(s: Sys, steps: seq<Step>, s': Sys, p: nat, r: nat)
    requires Inv(s) && s.phase == Search && Waits(s, p) && Runs(s, steps, s') && NeverRuns(steps, p)
    ensures DispatchesOf(steps, r) <= 1 + CreationsOf(steps, r)
    ensures Dispatches(steps) <= |s.ps| - 1 + Creations(steps)
  {
    WaitingRuns(s, steps, s', p, {}, false, r);
  }

  /** The same of every run from boot. */
  lemma StarvationBoundFromBoot(b: Sys, before: seq<Step>, s: Sys, steps: seq<Step>, s': Sys, p: nat, r: nat)
    requires Boot(b) && Runs(b, before, s) && s.phase == Search
    requires Waits(s, p) && Runs(s, steps, s') && NeverRuns(steps, p)
    ensures |s.ps| == |b.ps|
    ensures DispatchesOf(steps, r) <= 1 + CreationsOf(steps, r)
    ensures Dispatches(steps) <= |b.ps| - 1 + Creations(steps)
  {
    BootInv(b);
    RunsKeepInv(b, before, s);
    StarvationBound(s, steps, s', p, r);
  }

  // ----- Levels -----

  /** Of the process in a slot, since it was created: how much of its slices it has used,
      and whether cleaning has ever moved it up. */
  datatype History = History(used: nat, aged: bool)

  /** What a stretch on the processor that ends at `time` takes off the slice; time on top
      of the slice is not held against the process. */
  function Use(x: Proc, time: nat): nat
    requires x.ltime <= time
  {
    if time - x.ltime < x.timeSlice then time - x.ltime else x.timeSlice
  }

  ghost function Later(h: History, s: Sys, t: Step, r: nat): History
    requires Enabled(s, t) && r < |s.ps|
  {
    match t
    case Create(q) => if q == r then History(0, false) else h
    case Clean(_) => if Next(s, t).ps[r].queueLevel != s.ps[r].queueLevel then h.(aged := true) else h
    case Return(_, _, time) => if s.phase.cur == r then h.(used := h.used + Use(s.ps[r], time)) else h
    case _ => h
  }

  ghost function HistoryOf(h: History, s: Sys, steps: seq<Step>, s': Sys, r: nat): History
    requires Runs(s, steps, s') && r < |s.ps|
    decreases |steps|
  {
    if steps == [] then h else HistoryOf(Later(h, s, steps[0], r), Next(s, steps[0]), steps[1..], s', r)
  }

  predicate Alive(x: Proc) { x.state == RUNNABLE || x.state == RUNNING || x.state == SLEEPING }

  /** A process cleaning never moved up is at level 0 until it has used 5000 units, at level
      1 until it has used 15000, and at level 2 from then on; at each level its slice is
      what is left to the next. */
  ghost predicate LevelOk(x: Proc, h: History) {
    Alive(x) && !h.aged ==>
      && x.queueLevel == x.priority == (if h.used < 5000 then 0 else if h.used < 15000 then 1 else 2)
      && (h.used < 5000 ==> x.timeSlice == 5000 - h.used)
      && (5000 <= h.used < 15000 ==> x.timeSlice == 15000 - h.used)
  }

  lemma LevelStep(s: Sys, t: Step, r: nat, h: History)
    requires Inv(s) && Enabled(s, t) && r < |s.ps| && LevelOk(s.ps[r], h)
    ensures |Next(s, t).ps| == |s.ps| && LevelOk(Next(s, t).ps[r], Later(h, s, t, r))
  {
    assert ProcOk(s.ps[r]) && StampOk(s, r);
    if t.Clean? {
      assert Next(s, t).ps[r] == Aged(s.ps[r], t.time);
    }
  }

  lemma {:induction false} LevelRuns(s: Sys, steps: seq<Step>, s': Sys, r: nat, h: History)
    requires Inv(s) && Runs(s, steps, s') && r < |s.ps| && LevelOk(s.ps[r], h)
    ensures |s'.ps| == |s.ps| && LevelOk(s'.ps[r], HistoryOf(h, s, steps, s', r))
    decreases |steps|
  {
    hide Inv, LevelOk, Enabled, Next, Later;
    if steps != [] {
      LevelStep(s, steps[0], r, h);
      NextKeepsInv(s, steps[0]);
      LevelRuns(Next(s, steps[0]), steps[1..], s', r, Later(h, s, steps[0], r));
    }
  }

  /** Demotion over every run from boot: the level of a process that cleaning never moved
      up follows from how much of its slices it has used since it was created. */
  lemma LevelByUse(b: Sys, steps: seq<Step>, s': Sys, r: nat)
    requires Boot(b) && Runs(b, steps, s') && r < |b.ps|
    ensures |s'.ps| == |b.ps|
    ensures var x, h := s'.ps[r], HistoryOf(History(0, false), b, steps, s', r);
            Alive(x) && !h.aged ==>
              && x.queueLevel == x.priority == (if h.used < 5000 then 0 else if h.used < 15000 then 1 else 2)
              && (h.used < 5000 ==> x.timeSlice == 5000 - h.used)
              && (5000 <= h.used < 15000 ==> x.timeSlice == 15000 - h.used)
  {
    BootInv(b);
    assert b.ps[r] == Fresh() || b.ps[r] == Freed();
    LevelRuns(b, steps, s', r, History(0, false));
  }

  /** It is the use of slices that counts, not the time on the processor: a new process that
      runs for 15000 units in one stretch is at level 1. */
  lemma OneLongStretch(start: nat)
    ensures var x := Fresh().(state := RUNNING, ltime := start);
            && Accounted(x, RUNNABLE, start + 15000, start + 15000).queueLevel == 1
            && Use(x, start + 15000) == 5000
  {
  }

  /** A waiting process is never overlooked: the search always finds somebody. */
  lemma SearchFinds(s: Sys, p: nat)
    requires Inv(s) && p < |s.ps| && s.ps[p].state == RUNNABLE
    ensures !NoneRunnable(s.ps)
  {
    assert ProcOk(s.ps[p]);
  }

  // ----- The scheduler's code -----

  /** The best of the first `n` processes at level `level`, or -1. */
  ghost predicate BestSoFar(ps: seq<Proc>, level: int, n: nat, m: int) {
    && n <= |ps| && -1 <= m < n
    && (m == -1 ==> forall i {:trigger ps[i]} :: 0 <= i < n ==> !(ps[i].queueLevel == level && ps[i].state == RUNNABLE))
    && (m >= 0 ==>
          && ps[m].queueLevel == level && ps[m].state == RUNNABLE
          && forall i {:trigger ps[i]} ::
               0 <= i < n && ps[i].queueLevel == level && ps[i].state == RUNNABLE ==> Before(ps, m, i))
  }

  /** How a process leaves the processor. */
  datatype Leave = Yields | Sleeps | Exits

  function LeftState(how: Leave): State {
    match how
    case Yields => RUNNABLE
    case Sleeps => SLEEPING
    case Exits => ZOMBIE
  }

  /** What happens outside the scheduler in one turn of its loop: how much time passes
      before it reads the clock for cleaning, for the dispatch, when the process leaves and
      when the scheduler is back; what other processes do meanwhile; how the process leaves. */
  datatype Turn = Turn(clean: nat, dispatch: nat, leave: nat, back: nat, world: seq<Step>, how: Leave)

  /** `y` is `x` after the time up to `time` has been charged: a slice that is used up
      above the bottom level moves the process down one level and one priority, with the
      quantum of that priority; otherwise only the slice drops, by exactly that time. */
  ghost predicate Charged(x: Proc, y: Proc, time: nat)
    requires x.ltime <= time
  {
    && y.etime == time && y.ltime == x.ltime
    && (if time - x.ltime >= x.timeSlice && x.queueLevel < 2 then
          && y.queueLevel == x.queueLevel + 1
          && y.priority == (if x.priority < 2 then x.priority + 1 else x.priority)
          && y.timeSlice == (if y.priority <= 0 then 5000 else if y.priority == 1 then 10000 else 20000)
        else
          && y.queueLevel == x.queueLevel && y.priority == x.priority
          && y.timeSlice == if time - x.ltime < x.timeSlice then x.timeSlice - (time - x.ltime) else 0)
  }

  class ProcTable {
    const proc: array<Proc>
    /** The last clock reading. */
    var clock: nat
    ghost var phase: Phase

    ghost function S(): Sys
      reads this, proc
    {
      Sys(proc[..], clock, phase)
    }

    ghost predicate Valid()
      reads this, proc
    {
      Inv(S())
    }

    /** procinit. */
    constructor (nproc: nat)
      ensures fresh(proc) && proc.Length == nproc && forall i :: 0 <= i < nproc ==> proc[i] == Freed()
      ensures phase == Phase.Search && clock == 0
    {
      proc := new Proc[nproc](_ => Freed());
      clock, phase := 0, Phase.Search;
    }

    /** userinit: the first process is made, by nobody. */
    method Userinit()
      requires proc.Length > 0 && phase == Phase.Search && forall i :: 0 <= i < proc.Length ==> proc[i] == Freed()
      modifies proc
      ensures Boot(S()) && Valid()
    {
      proc[0] := Fresh();
      BootInv(S());
    }

    method StarvationClean(time: nat)
      modifies proc
      ensures proc[..] == CleanAll(old(proc[..]), time)
      ensures forall i {:trigger proc[i]} :: 0 <= i < proc.Length ==>
                var x := old(proc[i]);
                if x.state == RUNNABLE && time > x.etime + 10_000_000 && x.queueLevel > 0 then
                  && proc[i].queueLevel == x.queueLevel - 1
                  && proc[i].timeSlice ==
                     (if x.queueLevel == 1 then 5000 else if x.queueLevel == 2 then 10000 else 20000)
                  && x == proc[i].(queueLevel := x.queueLevel, timeSlice := x.timeSlice)
                else proc[i] == x
    {
      for p := 0 to proc.Length
        invariant forall i {:trigger proc[i]} :: 0 <= i < p ==> proc[i] == Aged(old(proc[i]), time)
        invariant forall i {:trigger proc[i]} :: p <= i < proc.Length ==> proc[i] == old(proc[i])
      {
        if proc[p].state == RUNNABLE {
          if time > proc[p].etime + STARV_CUT && proc[p].queueLevel > 0 {
            proc[p] := proc[p].(queueLevel := proc[p].queueLevel - 1, timeSlice := Quantum(proc[p].queueLevel - 1));
          }
        }
      }
    }

    /** The search of schedule_mlfq, level by level. */
    method Search() returns (r: int)
      ensures r == -1 ==> NoneRunnable(proc[..])
      ensures r != -1 ==> Chosen(proc[..], r)
    {
      for level := 0 to 3
        invariant forall i {:trigger proc[i]} :: 0 <= i < proc.Length && 0 <= proc[i].queueLevel < level ==>
                    proc[i].state != RUNNABLE
      {
        var m := -1;
        for p := 0 to proc.Length
          invariant BestSoFar(proc[..], level, p, m)
        {
          if proc[p].queueLevel == level && proc[p].state == RUNNABLE {
            if m == -1 || proc[p].ltime < proc[m].ltime {
              m := p;
            }
          }
        }
        if m != -1 {
          return m;
        }
      }
      return -1;
    }

    /** The accounting of kexit, before the process is switched out for good. It reads
        the clock twice. */
    method ChargeExit(p: nat, time: nat, later: nat)
      requires p < proc.Length && proc[p].ltime <= time <= later
      modifies proc
      ensures var x := old(proc[p]);
              var y := x.(state := ZOMBIE, timeSlice := Charge(x.timeSlice, later - x.ltime), etime := time);
              proc[..] == old(proc[..])[p := y]
    {
      var elapsed := later - proc[p].ltime;
      if elapsed < proc[p].timeSlice {
        proc[p] := proc[p].(timeSlice := proc[p].timeSlice - elapsed);
      } else {
        proc[p] := proc[p].(timeSlice := 0);
      }
      proc[p] := proc[p].(etime := time, state := ZOMBIE);
    }

    /** The accounting of schedule_mlfq when process `p`, which ran from `x`, is back. */
    method Account(p: nat, time: nat, ghost x: Proc, ghost exitTime: nat)
      requires p < proc.Length && x.ltime <= exitTime <= time
      requires if proc[p].state == ZOMBIE
               then proc[p] == x.(state := ZOMBIE, timeSlice := Charge(x.timeSlice, exitTime - x.ltime),
                                  etime := proc[p].etime)
               else proc[p] == x.(state := proc[p].state)
      modifies proc
      ensures proc[..] == old(proc[..])[p := Accounted(x, old(proc[p]).state, exitTime, time)]
      ensures Charged(old(proc[p]), proc[p], time)
    {
      var elapsed := time - proc[p].ltime;
      proc[p] := proc[p].(etime := time);
      if elapsed < proc[p].timeSlice {
        proc[p] := proc[p].(timeSlice := proc[p].timeSlice - elapsed);
      } else {
        proc[p] := proc[p].(timeSlice := 0);
      }
      if proc[p].timeSlice == 0 && proc[p].queueLevel < 2 {
        if proc[p].priority < 2 {
          proc[p] := proc[p].(priority := proc[p].priority + 1);
        }
        proc[p] := proc[p].(queueLevel := proc[p].queueLevel + 1);
        proc[p] := proc[p].(timeSlice := Quantum(proc[p].priority));
      }
    }

    /** What another process does while the scheduler waits; a step that is not possible
        does not happen. */
    method Happen(t: Step) returns (ghost steps: seq<Step>)
      requires Valid() && phase.Running?
      modifies proc
      ensures Valid() && Runs(old(S()), steps, S()) && Dispatches(steps) == 0
      ensures phase.cur < proc.Length && proc[phase.cur] == old(proc[phase.cur])
      ensures proc[..] ==
              if t.Wake? && t.r < proc.Length && old(proc[t.r]).state == SLEEPING
              then old(proc[..])[t.r := old(proc[t.r]).(state := RUNNABLE)]
              else if t.Create? && t.r < proc.Length && old(proc[t.r]).state == UNUSED
              then old(proc[..])[t.r := Proc(RUNNABLE, 0, 0, 5000, 0, 0)]
              else if t.Free? && t.r < proc.Length && old(proc[t.r]).state == ZOMBIE
              then old(proc[..])[t.r := Proc(UNUSED, 0, 0, 0, 0, 0)]
              else old(proc[..])
    {
      steps := [];
      if t.Wake? && t.r < proc.Length && proc[t.r].state == SLEEPING {
        ghost var s := Next(S(), t);
        steps := Take(S(), t);
        assert StampOk(S(), phase.cur);
        proc[t.r] := proc[t.r].(state := RUNNABLE);
        assert S() == s;
      } else if t.Create? && t.r < proc.Length && proc[t.r].state == UNUSED {
        ghost var s := Next(S(), t);
        steps := Take(S(), t);
        assert StampOk(S(), phase.cur);
        proc[t.r] := Fresh();
        assert S() == s;
      } else if t.Free? && t.r < proc.Length && proc[t.r].state == ZOMBIE {
        ghost var s := Next(S(), t);
        steps := Take(S(), t);
        assert StampOk(S(), phase.cur);
        proc[t.r] := Freed();
        assert S() == s;
      }
    }

    method HappenAll(world: seq<Step>) returns (ghost steps: seq<Step>)
      requires Valid() && phase.Running?
      modifies proc
      ensures Valid() && Runs(old(S()), steps, S()) && Dispatches(steps) == 0
      ensures phase.cur < proc.Length && proc[phase.cur] == old(proc[phase.cur])
    {
      hide Runs;
      steps := [];
      NoSteps(S());
      for i := 0 to |world|
        invariant Valid() && Runs(old(S()), steps, S()) && Dispatches(steps) == 0
        invariant proc[phase.cur] == old(proc[phase.cur])
      {
        ghost var s := S();
        ghost var more := Happen(world[i]);
        RunsJoin(old(S()), steps, s, more, S());
        steps := steps + more;
      }
    }

    /** The search and what follows it up to the switch to the process found, if any. */
    method Dispatch(delay: nat) returns (r: int, ghost steps: seq<Step>)
      requires Valid() && phase == Cleaned
      modifies this, proc
      ensures Valid() && Runs(old(S()), steps, S())
      ensures r == -1 <==> NoneRunnable(old(proc[..]))
      ensures r == -1 ==> phase == Phase.Search && Dispatches(steps) == 0 && proc[..] == old(proc[..])
      ensures r != -1 ==>
                0 <= r < proc.Length && Chosen(old(proc[..]), r) && phase == Running(r) && Dispatches(steps) == 1
      ensures r != -1 ==>
                && clock == old(clock) + 1 + delay
                && proc[..] == old(proc[..])[r := old(proc[r]).(state := RUNNING, ltime := clock)]
    {
      r := Search();
      if r == -1 {
        steps := Take(S(), Idle);
        phase := Phase.Search;
        return;
      }
      ghost var s := Next(S(), Step.Dispatch(r, clock + 1 + delay));
      steps := Take(S(), Step.Dispatch(r, clock + 1 + delay));
      clock, phase := clock + 1 + delay, Running(r);
      proc[r] := proc[r].(state := RUNNING, ltime := clock);
      assert S() == s;
    }

    /** The process leaves the processor and the scheduler accounts for it. */
    method Leaves(p: nat, how: Leave, leave: nat, back: nat) returns (ghost steps: seq<Step>)
      requires Valid() && phase == Running(p) && p < proc.Length
      modifies this, proc
      ensures Valid() && phase == Phase.Search && Runs(old(S()), steps, S()) && Dispatches(steps) == 0
      ensures clock == old(clock) + 1 + leave + back && proc[p].state == LeftState(how)
      ensures old(proc[p]).ltime <= clock && (how != Exits ==> Charged(old(proc[p]), proc[p], clock))
      ensures how == Exits ==>
                var x, used := old(proc[p]), old(clock) + 1 + leave - old(proc[p]).ltime;
                var left := if used < x.timeSlice then x.timeSlice - used else 0;
                used >= 0 && Charged(x.(timeSlice := left), proc[p], clock)
      ensures forall i {:trigger proc[i]} :: 0 <= i < proc.Length && i != p ==> proc[i] == old(proc[i])
    {
      var exitTime := clock + 1 + leave;
      var time := exitTime + back;
      assert StampOk(S(), p);
      ghost var t := Return(LeftState(how), exitTime, time);
      ghost var x, s := proc[p], Next(S(), t);
      steps := Take(S(), t);
      match how {
        case Yields => proc[p] := proc[p].(state := RUNNABLE);
        case Sleeps => proc[p] := proc[p].(state := SLEEPING);
        case Exits => ChargeExit(p, exitTime, exitTime);
      }
      Account(p, time, x, exitTime);
      clock, phase := time, Phase.Search;
      assert S() == s;
    }

    /** One turn of schedule_mlfq's loop: clean, search, run, account. */
    method OneTurn(turn: Turn) returns (found: bool, ghost steps: seq<Step>)
      requires Valid() && phase == Phase.Search
      modifies this, proc
      ensures Valid() && phase == Phase.Search && Runs(old(S()), steps, S())
      ensures Dispatches(steps) == if found then 1 else 0
      ensures !found ==> NoneRunnable(proc[..])
    {
      hide Runs, Inv;
      var time := clock + 1 + turn.clean;
      steps := Take(S(), Clean(time));
      StarvationClean(time);
      clock, phase := time, Cleaned;
      ghost var s := S();
      ghost var more;
      var r;
      r, more := Dispatch(turn.dispatch);
      RunsJoin(old(S()), steps, s, more, S());
      steps, s := steps + more, S();
      if r == -1 {
        return false, steps;
      }
      more := HappenAll(turn.world);
      RunsJoin(old(S()), steps, s, more, S());
      steps, s := steps + more, S();
      more := Leaves(r, turn.how, turn.leave, turn.back);
      RunsJoin(old(S()), steps, s, more, S());
      steps := steps + more;
      found := true;
    }

    /** schedule_mlfq: turns until nobody is runnable (or the world ends). Everything it
        does is a run of the steps above, so their bounds are its bounds. */
    method ScheduleMlfq(turns: seq<Turn>) returns (found: bool, ghost steps: seq<Step>)
      requires Valid() && phase == Phase.Search
      modifies this, proc
      ensures Valid() && phase == Phase.Search && Runs(old(S()), steps, S())
      ensures Dispatches(steps) <= |turns| && (found <==> Dispatches(steps) > 0)
      ensures Dispatches(steps) < |turns| ==> NoneRunnable(proc[..])
    {
      hide Runs, Inv;
      found, steps := false, [];
      NoSteps(S());
      for i := 0 to |turns|
        invariant Valid() && phase == Phase.Search && Runs(old(S()), steps, S())
        invariant Dispatches(steps) == i && (found <==> i > 0)
      {
        ghost var s := S();
        ghost var more;
        var again;
        again, more := OneTurn(turns[i]);
        RunsJoin(old(S()), steps, s, more, S());
        steps := steps + more;
        if !again {
          return;
        }
        found := true;
      }
    }
  }

  lemma Take(s: Sys, t: Step) returns (steps: seq<Step>)
    requires Inv(s) && Enabled(s, t)
    ensures Inv(Next(s, t)) && steps == [t] && Runs(s, steps, Next(s, t))
    ensures Dispatches(steps) == if t.Dispatch? then 1 else 0
  {
    NextKeepsInv(s, t);
    steps := [t];
    assert steps[1..] == [] && Runs(Next(s, t), [], Next(s, t)) && Dispatches([]) == 0;
  }

  lemma NoSteps(s: Sys)
    ensures Runs(s, [], s) && Dispatches([]) == 0
  {
  }

  lemma {:induction false} RunsJoin(s: Sys, ts: seq<Step>, s1: Sys, us: seq<Step>, s2: Sys)
    requires Runs(s, ts, s1) && Runs(s1, us, s2)
    ensures Runs(s, ts + us, s2) && Dispatches(ts + us) == Dispatches(ts) + Dispatches(us)
    decreases |ts|
  {
    hide Enabled, Next;
    if ts == [] {
      assert ts + us == us;
    } else {
      RunsJoin(Next(s, ts[0]), ts[1..], s1, us, s2);
      assert (ts + us)[1..] == ts[1..] + us;
    }
  }
}
