/** Log-space reservation: begin_op, log_write, end_op and the end of commit as
    the atomic steps that `log.lock` makes of them, taken by any number of file
    system calls in any order. */
module LogSpace {
  import opened Basics
  import opened Params

  /** The in-memory log. `ops` records, for each outstanding call, how many
      blocks it has added to the log so far. */
  datatype State = State(lh: seq<nat>, outstanding: int, committing: bool, ops: map<nat, nat>)

  datatype Step = Begin(op: nat) | LogWrite(op: nat, b: nat) | End(op: nat) | CommitDone

  const INITIAL: State := State([], 0, false, map[])

  /** May the step be taken now? Begin waits for a commit and for space; the
      other steps are taken by calls inside a transaction. */
  ghost predicate Enabled(s: State, step: Step) {
    match step
    case Begin(op) =>
      op !in s.ops && !s.committing && |s.lh| + (s.outstanding + 1) * MAXOPBLOCKS <= LOGBLOCKS
    case LogWrite(op, b) => op in s.ops
    case End(op) => op in s.ops
    case CommitDone => s.committing
  }

  /** The panics of end_op and log_write. */
  ghost predicate Panics(s: State, step: Step) {
    match step
    case Begin(op) => false
    case LogWrite(op, b) => |s.lh| >= LOGBLOCKS || s.outstanding < 1
    case End(op) => s.committing
    case CommitDone => false
  }

  function Next(s: State, step: Step): State
    requires step.LogWrite? ==> step.op in s.ops
  {
    match step
    case Begin(op) => s.(outstanding := s.outstanding + 1, ops := s.ops[op := 0])
    case LogWrite(op, b) =>
      if b in s.lh then s
      else s.(lh := s.lh + [b], ops := s.ops[op := s.ops[op] + 1])
    case End(op) =>
      s.(outstanding := s.outstanding - 1, committing := s.outstanding == 1, ops := s.ops - {op})
    case CommitDone => s.(lh := [], committing := false)
  }

  /** Unused allowance of all outstanding calls. */
  ghost function Reserved(ops: map<nat, nat>): int
    decreases |ops|
  {
    if ops == map[] then 0
    else
      var op :| op in ops;
      MAXOPBLOCKS - ops[op] + Reserved(ops - {op})
  }

  lemma {:induction false} ReservedAt(ops: map<nat, nat>, op: nat)
    requires op in ops
    ensures Reserved(ops) == MAXOPBLOCKS - ops[op] + Reserved(ops - {op})
    decreases |ops|
  {
    var q :| q in ops && Reserved(ops) == MAXOPBLOCKS - ops[q] + Reserved(ops - {q});
    if q != op {
      ReservedAt(ops - {q}, op);
      ReservedAt(ops - {op}, q);
      assert ops - {q} - {op} == ops - {op} - {q};
    }
  }

  lemma ReservedSet(ops: map<nat, nat>, op: nat, v: nat)
    ensures Reserved(ops[op := v]) == MAXOPBLOCKS - v + Reserved(ops - {op})
  {
    ReservedAt(ops[op := v], op);
    assert ops[op := v] - {op} == ops - {op};
  }

  lemma {:induction false} ReservedBounds(ops: map<nat, nat>)
    requires forall op :: op in ops ==> ops[op] <= MAXOPBLOCKS
    ensures 0 <= Reserved(ops) <= MAXOPBLOCKS * |ops|
    decreases |ops|
  {
    if ops != map[] {
      var op :| op in ops;
      ReservedAt(ops, op);
      ReservedBounds(ops - {op});
    }
  }

  /** What is logged waits for a call that is outstanding, or is being committed. */
  ghost predicate Inv(s: State) {
    && s.outstanding == |s.ops|
    && (forall op :: op in s.ops ==> s.ops[op] <= MAXOPBLOCKS)
    && |s.lh| + Reserved(s.ops) <= LOGBLOCKS
    && Distinct(s.lh)
    && (s.committing ==> s.ops == map[])
    && (s.lh != [] && s.ops == map[] ==> s.committing)
  }

  /** A call that still has allowance left never meets a panic. */
  ghost predicate WithinAllowance(s: State, step: Step) {
    step.LogWrite? && step.op in s.ops ==> s.ops[step.op] < MAXOPBLOCKS
  }

  lemma NoPanic(s: State, step: Step)
    requires Inv(s) && Enabled(s, step) && WithinAllowance(s, step)
    ensures !Panics(s, step)
  {
    if step.LogWrite? {
      ReservedAt(s.ops, step.op);
      ReservedBounds(s.ops - {step.op});
    }
  }

  lemma BeginKeepsInv(s: State, op: nat)
    requires Inv(s) && Enabled(s, Begin(op))
    ensures Inv(Next(s, Begin(op)))
  {
    ReservedSet(s.ops, op, 0);
    ReservedBounds(s.ops);
    assert s.ops - {op} == s.ops;
  }

  lemma LogWriteKeepsInv(s: State, op: nat, b: nat)
    requires Inv(s) && op in s.ops && s.ops[op] < MAXOPBLOCKS
    ensures Inv(Next(s, LogWrite(op, b)))
  {
    ReservedAt(s.ops, op);
    ReservedSet(s.ops, op, s.ops[op] + 1);
  }

  lemma EndKeepsInv(s: State, op: nat)
    requires Inv(s) && Enabled(s, End(op))
    ensures Inv(Next(s, End(op)))
  {
    ReservedAt(s.ops, op);
    assert |s.ops - {op}| == |s.ops| - 1;
  }

  lemma NextKeepsInv(s: State, step: Step)
    requires Inv(s) && Enabled(s, step) && WithinAllowance(s, step)
    ensures Inv(Next(s, step))
  {
    match step
    case Begin(op) => BeginKeepsInv(s, op);
    case LogWrite(op, b) => LogWriteKeepsInv(s, op, b);
    case End(op) => EndKeepsInv(s, op);
    case CommitDone =>
  }

  /** A committed log can be emptied. */
  lemma Emptied(s: State)
    requires Inv(s)
    ensures Inv(s.(lh := []))
  {
  }

  // ----- Runs -----

  /** The state a run of calls that respect the guards and stay within their
      allowance ends in; None for a sequence that is not such a run. */
  ghost function Run(steps: seq<Step>): (r: Option<State>) {
    if steps == [] then Some(INITIAL)
    else
      var step := steps[|steps| - 1];
      match Run(steps[..|steps| - 1])
      case None => None
      case Some(s) => if Enabled(s, step) && WithinAllowance(s, step) then Some(Next(s, step)) else None
  }

  /** In every interleaving of calls that stay within their allowance: the log
      is never over-committed, no panic is reachable, logged block numbers are
      distinct, while a commit runs no call is outstanding, and when no call is
      outstanding what was logged is being committed. */
  lemma {:induction false} ReservationSafe(steps: seq<Step>, step: Step)
    ensures Run(steps).Some? ==> Inv(Run(steps).value)
    ensures Run(steps + [step]).Some? ==> !Panics(Run(steps).value, step)
  {
    var n := |steps| - 1;
    if steps == [] {
      assert Inv(INITIAL);
    } else {
      ReservationSafe(steps[..n], steps[n]);
      if Run(steps).Some? {
        NextKeepsInv(Run(steps[..n]).value, steps[n]);
      }
    }
    assert (steps + [step])[..n + 1] == steps;
    if Run(steps + [step]).Some? {
      NoPanic(Run(steps).value, step);
    }
  }

  /** The blocks logged since the last commit was done, in the order of their first
      log_write. */
  ghost function LoggedSince(steps: seq<Step>): seq<nat> {
    if steps == [] then []
    else
      var last, before := steps[|steps| - 1], LoggedSince(steps[..|steps| - 1]);
      match last
      case CommitDone => []
      case LogWrite(_, b) => if b in before then before else before + [b]
      case _ => before
  }

  ghost function Begun(steps: seq<Step>): int {
    if steps == [] then 0
    else
      var last := steps[|steps| - 1];
      Begun(steps[..|steps| - 1]) + (if last.Begin? then 1 else if last.End? then -1 else 0)
  }

  /** Nothing that was logged is lost, in any run: what commit will write is what the calls
      logged since the last commit, it runs once the last call that was admitted has ended,
      and not before. */
  lemma {:induction false} NothingLost(steps: seq<Step>)
    requires Run(steps).Some?
    ensures var s := Run(steps).value;
            && s.lh == LoggedSince(steps) && s.outstanding == Begun(steps)
            && (s.committing ==> Begun(steps) == 0)
            && (Begun(steps) == 0 && LoggedSince(steps) != [] ==> s.committing)
  {
    hide Inv;
    if steps != [] {
      NothingLost(steps[..|steps| - 1]);
    }
    ReservationSafe(steps, CommitDone);
    NoCalls(Run(steps).value);
  }

  lemma NoCalls(s: State)
    requires Inv(s)
    ensures s.outstanding == 0 <==> s.ops == map[]
    ensures s.committing ==> s.ops == map[]
    ensures s.lh != [] && s.ops == map[] ==> s.committing
  {
  }

  // ----- A call that has used up its allowance -----

  lemma RunStart()
    ensures Run([]) == Some(INITIAL)
  {
  }

  lemma RunStep(steps: seq<Step>, s: State, step: Step)
    requires Run(steps) == Some(s) && Enabled(s, step) && WithinAllowance(s, step)
    ensures Run(steps + [step]) == Some(Next(s, step))
  {
    assert (steps + [step])[..|steps|] == steps;
  }

  ghost function Fresh(n: nat): seq<nat> {
    seq(n, i => i)
  }

  /** Call `op` can spend `n` blocks of its allowance on fresh blocks. */
  lemma {:induction false} CanFill(steps: seq<Step>, s: State, op: nat, n: nat) returns (steps': seq<Step>)
    requires Run(steps) == Some(s) && n <= MAXOPBLOCKS
    requires op in s.ops && s.ops[op] == 0 && s.lh == Fresh(|s.lh|)
    ensures Run(steps') == Some(s.(lh := Fresh(|s.lh| + n), ops := s.ops[op := n]))
  {
    hide Run;
    if n == 0 {
      steps' := steps;
      assert s.ops[op := 0] == s.ops;
    } else {
      steps' := CanFill(steps, s, op, n - 1);
      var m := |s.lh| + n - 1;
      RunStep(steps', s.(lh := Fresh(m), ops := s.ops[op := n - 1]), LogWrite(op, m));
      steps' := steps' + [LogWrite(op, m)];
      assert Fresh(m) + [m] == Fresh(m + 1);
      assert s.ops[op := n - 1][op := n] == s.ops[op := n];
    }
  }

  /** MAXOPBLOCKS does not bound the distinct blocks a call may log without a
      panic, only the log_write calls made before the allowance is used up: the
      space test comes before the absorption test, so a call that has added
      MAXOPBLOCKS blocks and logs one of them again panics when the log is
      full, and such a state is reachable. */
  lemma RelogCanPanic() returns (steps: seq<Step>, s: State)
    ensures Run(steps) == Some(s)
    ensures Enabled(s, LogWrite(0, 0)) && 0 in s.lh && s.ops[0] == MAXOPBLOCKS
    ensures Panics(s, LogWrite(0, 0))
  {
    hide Run;
    steps, s := [], INITIAL;
    RunStart();
    assert s.lh == Fresh(0);
    for op := 0 to 3
      invariant Run(steps) == Some(s)
      invariant s.outstanding == op && !s.committing && s.lh == Fresh(0)
      invariant forall q :: q in s.ops <==> 0 <= q < op
      invariant forall q :: q in s.ops ==> s.ops[q] == 0
    {
      RunStep(steps, s, Begin(op));
      steps, s := steps + [Begin(op)], Next(s, Begin(op));
    }
    for op := 0 to 3
      invariant Run(steps) == Some(s)
      invariant s.outstanding == 3 && s.lh == Fresh(op * MAXOPBLOCKS)
      invariant forall q :: q in s.ops <==> 0 <= q < 3
      invariant forall q :: q in s.ops ==> s.ops[q] == if q < op then MAXOPBLOCKS else 0
    {
      steps := CanFill(steps, s, op, MAXOPBLOCKS);
      s := s.(lh := Fresh(|s.lh| + MAXOPBLOCKS), ops := s.ops[op := MAXOPBLOCKS]);
    }
    assert s.lh[0] == 0;
  }

  /** The exact condition under which a call inside a transaction can log a
      block: the log is not full. */
  lemma LogWriteSafeIff(s: State, op: nat, b: nat)
    requires Inv(s) && Enabled(s, LogWrite(op, b))
    ensures !Panics(s, LogWrite(op, b)) <==> |s.lh| < LOGBLOCKS
    ensures s.ops[op] < MAXOPBLOCKS ==> |s.lh| < LOGBLOCKS
  {
    ReservedAt(s.ops, op);
    ReservedBounds(s.ops - {op});
  }

  // ----- Calls that log few distinct blocks -----

  ghost function Listed(log: seq<nat>): set<nat> { set b | b in log }

  lemma ListedStep(log: seq<nat>, b: nat)
    ensures Listed(log + [b]) == Listed(log) + {b}
  {
  }

  /** Whenever a call with the log_writes `log` makes one, fewer than MAXOPBLOCKS distinct
      blocks have been logged by it before. */
  ghost predicate Sparing(log: seq<nat>) {
    forall k: nat {:trigger log[..k]} :: k < |log| ==> |Listed(log[..k])| < MAXOPBLOCKS
  }

  /** The log_writes of call `op` since it began, in order. */
  ghost function LogOf(steps: seq<Step>, op: nat): seq<nat> {
    if steps == [] then []
    else
      var last, before := steps[|steps| - 1], LogOf(steps[..|steps| - 1], op);
      if last == Begin(op) then [] else if last.LogWrite? && last.op == op then before + [last.b] else before
  }

  /** Every call is sparing, at every point. */
  ghost predicate AllSparing(steps: seq<Step>) {
    forall n: nat, op: nat {:trigger LogOf(steps[..n], op)} :: n <= |steps| ==> Sparing(LogOf(steps[..n], op))
  }

  /** Run, without the condition on allowances. */
  ghost function GuardedRun(steps: seq<Step>): (r: Option<State>) {
    if steps == [] then Some(INITIAL)
    else
      var step := steps[|steps| - 1];
      match GuardedRun(steps[..|steps| - 1])
      case None => None
      case Some(s) => if Enabled(s, step) then Some(Next(s, step)) else None
  }

  /** The allowance `op` has used is for blocks it logged, which are all in the log. */
  ghost predicate Spent(s: State, op: nat, done: set<nat>) {
    op in s.ops ==> s.ops[op] <= |done| && forall b {:trigger b in done} :: b in done ==> b in s.lh
  }

  lemma SpentStep(s: State, step: Step, op: nat, log: seq<nat>)
    requires Inv(s) && Enabled(s, step) && Spent(s, op, Listed(log))
    ensures var log' := if step == Begin(op) then []
                        else if step.LogWrite? && step.op == op then log + [step.b] else log;
            Spent(Next(s, step), op, Listed(log'))
  {
    if step.LogWrite? && step.op == op {
      ListedStep(log, step.b);
      SubsetSize(Listed(log), Listed(log) + {step.b});
    }
  }

  /** In every interleaving of sparing calls each is within its allowance, so that
      ReservationSafe applies: no panic is reachable. */
  lemma {:induction false} SparingIsSafe(steps: seq<Step>, op: nat)
    requires AllSparing(steps) && GuardedRun(steps).Some?
    ensures Run(steps) == GuardedRun(steps) && Inv(Run(steps).value)
    ensures Spent(Run(steps).value, op, Listed(LogOf(steps, op)))
  {
    hide Inv, Sparing, Spent, Listed;
    if steps == [] {
      AtStart(op);
    } else {
      var n := |steps| - 1;
      var before, step := steps[..n], steps[n];
      SparingPrefix(steps, n);
      SparingIsSafe(before, op);
      var s := Run(before).value;
      SpentStep(s, step, op, LogOf(before, op));
      if step.LogWrite? {
        SparingIsSafe(before, step.op);
        assert steps[..n + 1] == steps && Sparing(LogOf(steps[..n + 1], step.op));
        StillAllowed(s, step.op, LogOf(before, step.op), step.b);
      }
      NextKeepsInv(s, step);
    }
  }

  lemma AtStart(op: nat)
    ensures Inv(INITIAL) && Spent(INITIAL, op, {}) && Listed([]) == {}
  {
  }

  lemma StillAllowed(s: State, op: nat, log: seq<nat>, b: nat)
    requires op in s.ops && Spent(s, op, Listed(log)) && Sparing(log + [b])
    ensures s.ops[op] < MAXOPBLOCKS
  {
    assert (log + [b])[..|log|] == log;
  }

  lemma SparingPrefix(steps: seq<Step>, n: nat)
    requires AllSparing(steps) && n <= |steps|
    ensures AllSparing(steps[..n])
  {
    forall k: nat, op: nat | k <= n ensures Sparing(LogOf(steps[..n][..k], op)) {
      assert steps[..n][..k] == steps[..k];
    }
  }
}
