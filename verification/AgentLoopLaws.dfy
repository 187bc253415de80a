/** The loop ends with an honest status, and every charge is counted once. */
module AgentLoopLaws {
  import opened Messages
  import opened AgentLoop

  ghost predicate Honest(c: Core) { c.resumable <==> c.status == Suspended }

  function Bound(c: Core): int
  {
    if c.limits.maxIterations - c.iteration > 1 then c.limits.maxIterations - c.iteration else 1
  }

  // ---- One run of the loop ----

  lemma PassIsHonest(c: Core, p: PassEvents)
    requires Honest(c)
    ensures
      var (next, left) := AfterPass(Staged(c, p), p.steered, p.stopping);
      && Honest(next) && (left ==> next.status != Running && next.verdict != Continue)
      && (!left ==> next.verdict == Continue && next.iteration == c.iteration + 1 < c.limits.maxIterations
                    && !SinglePass(c.limits) && !OverBudget(next))
      && next.limits == c.limits
  {
  }

  /**
   Whatever the stages decide and whatever the user steers: the loop ends, after at most
   max(1, max_iterations) passes from a fresh slice and after exactly one when a run has one pass;
   then the verdict is not "continue", the status not "running", and the slice is resumable exactly
   when it is suspended.
   */
  lemma {:induction false} LoopEndsHonestly(c: Core, stages: nat -> PassEvents, n: nat)
    requires Honest(c)
    ensures
      var (end, passes) := LoopFrom(c, stages, n);
      && n < passes <= n + Bound(c) && (SinglePass(c.limits) ==> passes == n + 1)
      && end.status != Running && end.verdict != Continue && Honest(end)
    decreases c.limits.maxIterations - c.iteration
  {
    PassIsHonest(c, stages(n));
    var (next, left) := AfterPass(Staged(c, stages(n)), stages(n).steered, stages(n).stopping);
    if !left {
      LoopEndsHonestly(next, stages, n + 1);
    }
  }

  ghost predicate NoMarks(stages: nat -> PassEvents)
  {
    forall n: nat :: stages(n).marks == []
  }

  /** The status a verdict stands for, when nobody marked one. */
  function StatusOf(v: Verdict): Status
  {
    match v
    case Continue => Running
    case Complete => Completed
    case Suspend => Suspended
    case Escalate => Blocked
    case Error => Failed
  }

  /** The pass says "complete" and no steered words are left to answer, or it is the only pass there is. */
  predicate SaysDone(p: PassEvents, l: Limits)
  {
    if SinglePass(l) then p.verdict == Complete || p.verdict == Continue
    else p.verdict == Complete && (!p.steered || p.stopping)
  }

  /** Why the loop ended with this pass. */
  ghost predicate Explained(c: Core, end: Core, made: nat, last: PassEvents)
  {
    && (end.status == Completed <==> SaysDone(last, c.limits))
    && (end.status == Failed <==> last.verdict == Error)
    && (end.status == Suspended <==>
          last.verdict == Suspend || (end.iteration == c.iteration + made && OverIterations(end)))
    && (end.status == Blocked <==>
          last.verdict == Escalate ||
          (end.iteration == c.iteration + made && !OverIterations(end) && OverBudget(end)))
    && end.status == StatusOf(end.verdict)
    && (end.reason == Some(CostBudget) ==> end.status == Blocked && OverBudget(end) && !OverIterations(end))
  }

  lemma PassIsExplained(c: Core, p: PassEvents)
    requires p.marks == [] && c.status == Running && !c.resumable
    ensures
      var (next, left) := AfterPass(Staged(c, p), p.steered, p.stopping);
      if left then Explained(c, next, 1, p) else next.status == Running && !next.resumable
  {
  }

  /** Without explicit marks the status says why the run stopped: the last pass decides it, or a guard. */
  lemma {:induction false} StatusTellsWhyTheLoopEnded(c: Core, stages: nat -> PassEvents, n: nat)
    requires NoMarks(stages) && c.status == Running && !c.resumable
    ensures
      var (end, passes) := LoopFrom(c, stages, n);
      passes > n && Explained(c, end, passes - n, stages(passes - 1))
    decreases c.limits.maxIterations - c.iteration
  {
    assert stages(n).marks == [];
    PassIsExplained(c, stages(n));
    PassIsHonest(c, stages(n));
    var (next, left) := AfterPass(Staged(c, stages(n)), stages(n).steered, stages(n).stopping);
    if !left {
      StatusTellsWhyTheLoopEnded(next, stages, n + 1);
    }
  }

  /** The status a mark stands for. */
  predicate Stands(m: StatusMark, c: Core)
  {
    && c.reason == Some(m.reason)
    && match m
       case MarkCompleted(_) => c.status == Completed && !c.resumable
       case MarkSuspended(_) => c.status == Suspended && c.resumable
       case MarkBlocked(_) => c.status == Blocked && !c.resumable
       case MarkFailed(_) => c.status == Failed && !c.resumable
  }

  lemma {:induction false} LastMarkStands(c: Core, marks: seq<StatusMark>)
    requires marks != []
    ensures Stands(marks[|marks| - 1], MarkedAll(c, marks))
    decreases |marks|
  {
    if |marks| > 1 {
      LastMarkStands(Marked(c, marks[0]), marks[1..]);
    }
  }

  /** A stage's own mark wins: when no guard ends the loop, the last mark of the pass stands, whatever the verdict. */
  lemma ExplicitMarksWin(c: Core, p: PassEvents)
    requires p.marks != []
    ensures
      var (next, left) := AfterPass(Staged(c, p), p.steered, p.stopping);
      if next.verdict == Suspend && p.verdict != Suspend then Stands(MarkSuspended(MaxIterations), next)
      else if next.verdict == Escalate && p.verdict != Escalate then Stands(MarkBlocked(CostBudget), next)
      else Stands(p.marks[|p.marks| - 1], next)
  {
    LastMarkStands(c, p.marks);
  }

  // ---- The life of a state: turns, slices, charges, failures, in any order ----

  datatype Phase = Idle | Looping | Wrapup

  /** `charged` and `dropped` record the money; `passes` the loop passes of the current run. */
  datatype Life = Life(core: Core, phase: Phase, passes: nat, charged: real, dropped: real)

  datatype Step =
    | Begin(continuation: bool, limits: Limits, setupFails: bool)
    | Pass(events: PassEvents)
    | SetMark(mark: StatusMark)
    | Charge(cost: real)
    | Speak
    | Raise
    | End

  ghost predicate Enabled(l: Life, step: Step)
  {
    match step
    case Pass(events) => l.core.inFlight && l.phase == Looping && events.cost >= 0.0
    case Charge(cost) => cost >= 0.0
    case Raise => l.core.inFlight
    case End => l.core.inFlight
    case _ => true
  }

  /** What a new turn throws away: charges that no turn end has folded into the session. */
  function Forgotten(c: Core, continuation: bool): real
  {
    if Accepts(c, continuation) && !continuation && (c.runCount > 0 || c.hasMessages) then c.total - c.accounted
    else 0.0
  }

  ghost function Next(l: Life, step: Step): Life
    requires Enabled(l, step)
  {
    match step
    case Begin(continuation, limits, setupFails) =>
      var accepted := Accepts(l.core, continuation);
      l.(core := Began(l.core, continuation, limits, setupFails),
         phase := if !accepted then l.phase else if setupFails then Idle else Looping,
         passes := if accepted then 0 else l.passes, dropped := l.dropped + Forgotten(l.core, continuation))
    case Pass(events) =>
      var (core, left) := AfterPass(Staged(l.core, events), events.steered, events.stopping);
      l.(core := core, phase := if left then Wrapup else Looping,
         passes := l.passes + 1, charged := l.charged + events.cost)
    case SetMark(mark) => l.(core := Marked(l.core, mark))
    case Charge(cost) => l.(core := Charged(l.core, cost), charged := l.charged + cost)
    case Speak => l.(core := l.core.(hasMessages := true))
    case Raise => l.(core := Marked(l.core, MarkFailed(RunError)), phase := Wrapup)
    case End => l.(core := Ended(l.core), phase := Idle)
  }

  ghost predicate ValidRun(l: Life, steps: seq<Step>)
    decreases |steps|
  {
    steps != [] ==> Enabled(l, steps[0]) && ValidRun(Next(l, steps[0]), steps[1..])
  }

  ghost function Run(l: Life, steps: seq<Step>): Life
    requires ValidRun(l, steps)
    decreases |steps|
  {
    if steps == [] then l else Run(Next(l, steps[0]), steps[1..])
  }

  function Born(hasMessages: bool, limits: Limits): Life
  {
    Life(Core(0, Continue, Running, None, false, 0.0, 0.0, 0.0, 0, hasMessages, false, limits), Idle, 0, 0.0, 0.0)
  }

  ghost predicate Inv(l: Life)
  {
    && Honest(l.core)
    && (l.phase == Idle <==> !l.core.inFlight)
    && (l.phase == Looping ==>
          && l.passes == l.core.iteration
          && (l.passes > 0 ==> l.core.iteration < l.core.limits.maxIterations && !SinglePass(l.core.limits)))
    && (l.core.runCount == 0 ==> l.core.iteration == 0)
    && (l.core.inFlight ==> l.core.runCount > 0)
    && (l.phase == Wrapup ==> l.core.status != Running)
    && l.passes <= (if l.core.limits.maxIterations > 1 then l.core.limits.maxIterations else 1)
    && (SinglePass(l.core.limits) ==> l.passes <= 1)
    && 0.0 <= l.core.accounted <= l.core.total
    && l.core.session + (l.core.total - l.core.accounted) + l.dropped == l.charged
  }

  lemma StepKeepsInv(l: Life, step: Step)
    requires Inv(l) && Enabled(l, step)
    ensures Inv(Next(l, step))
  {
    if step.Pass? {
      PassIsHonest(l.core, step.events);
    }
  }

  lemma {:induction false} RunKeepsInv(l: Life, steps: seq<Step>)
    requires Inv(l) && ValidRun(l, steps)
    ensures Inv(Run(l, steps))
    decreases |steps|
  {
    if steps != [] {
      StepKeepsInv(l, steps[0]);
      RunKeepsInv(Next(l, steps[0]), steps[1..]);
    }
  }

  // ---- Main results over every life of a state ----

  /**
   In every reachable state the slice is resumable exactly when its status is "suspended", a run that
   has left its loop is not "running", and no run has made more passes than it may.
   */
  lemma EveryStateIsHonest(hasMessages: bool, limits: Limits, steps: seq<Step>)
    requires ValidRun(Born(hasMessages, limits), steps)
    ensures
      var l := Run(Born(hasMessages, limits), steps);
      && (l.core.resumable <==> l.core.status == Suspended)
      && (l.phase == Wrapup ==> l.core.status != Running)
      && l.passes <= (if l.core.limits.maxIterations > 1 then l.core.limits.maxIterations else 1)
      && (SinglePass(l.core.limits) ==> l.passes <= 1)
  {
    RunKeepsInv(Born(hasMessages, limits), steps);
  }

  // ---- Every run has its own count of passes ----

  /** How many passes a run may make before the iteration guard suspends it. */
  function MostPasses(l: Limits): int { if l.maxIterations > 1 then l.maxIterations else 1 }

  /** The pass asks for another one: its verdict is "continue", or "complete" with steered words to answer. */
  predicate AsksForMore(p: PassEvents, l: Limits)
  {
    && !l.singleTurn && l.hasLoopStage
    && (p.verdict == Continue || (p.verdict == Complete && p.steered && !p.stopping))
  }

  predicate BudgetSpent(total: real, l: Limits) { l.budget.Some? && total >= l.budget.value }

  /**
   In every life, whatever turns and slices went before: the counter shows the passes of the current run, and
   a pass that asks for more is followed by another one until this run has made max(1, max_iterations) passes,
   when it is suspended, or until the turn's cost has reached the budget, when it is blocked.
   */
  lemma EveryRunHasItsPasses(hasMessages: bool, limits: Limits, steps: seq<Step>, p: PassEvents)
    requires ValidRun(Born(hasMessages, limits), steps)
    requires Run(Born(hasMessages, limits), steps).phase == Looping && p.cost >= 0.0
    requires AsksForMore(p, Run(Born(hasMessages, limits), steps).core.limits)
    ensures
      var l := Run(Born(hasMessages, limits), steps);
      && l.core.iteration == l.passes < MostPasses(l.core.limits) && Enabled(l, Pass(p))
      && var m := Next(l, Pass(p));
         && m.passes == l.passes + 1 && m.core.iteration == m.passes && m.core.total == l.core.total + p.cost
         && (m.phase == Wrapup && m.core.verdict == Suspend && m.core.reason == Some(MaxIterations) && m.core.resumable
             <==> m.passes == MostPasses(l.core.limits))
         && (m.phase == Wrapup && m.core.verdict == Escalate
             <==> m.passes < MostPasses(l.core.limits) && BudgetSpent(m.core.total, l.core.limits))
         && (m.phase == Looping
             <==> m.passes < MostPasses(l.core.limits) && !BudgetSpent(m.core.total, l.core.limits))
  {
    RunKeepsInv(Born(hasMessages, limits), steps);
  }

  /** A pass that does not ask for more is the last one, and it is not counted against the limit. */
  lemma LastPassEndsTheRun(hasMessages: bool, limits: Limits, steps: seq<Step>, p: PassEvents)
    requires ValidRun(Born(hasMessages, limits), steps)
    requires Run(Born(hasMessages, limits), steps).phase == Looping && p.cost >= 0.0
    requires !AsksForMore(p, Run(Born(hasMessages, limits), steps).core.limits)
    ensures
      var l := Run(Born(hasMessages, limits), steps);
      Enabled(l, Pass(p))
      && var m := Next(l, Pass(p));
         && m.phase == Wrapup && m.passes == l.passes + 1 && m.core.iteration == l.core.iteration
         && m.core.verdict == (if p.verdict == Continue then Complete else p.verdict)
  {
    RunKeepsInv(Born(hasMessages, limits), steps);
  }

  /**
   A run that is let in begins with no passes made; and unless it is the first of a state that holds nothing,
   as a fresh one: running, with no verdict, reason or permission to be continued left over. A new turn starts
   without cost, a continuation with the cost so far.
   */
  lemma RunsBeginFresh(hasMessages: bool, limits: Limits, steps: seq<Step>, continuation: bool, next: Limits)
    requires ValidRun(Born(hasMessages, limits), steps)
    requires
      var c := Run(Born(hasMessages, limits), steps).core;
      !c.inFlight && (continuation ==> c.status == Suspended)
    ensures
      var l := Run(Born(hasMessages, limits), steps);
      var m := Next(l, Begin(continuation, next, false));
      && m.phase == Looping && m.core.inFlight && m.passes == 0 && m.core.iteration == 0 && m.core.limits == next
      && m.core.runCount == l.core.runCount + 1 && m.core.session == l.core.session
      && (continuation || l.core.runCount > 0 || l.core.hasMessages ==>
            && m.core.verdict == Continue && m.core.status == Running && m.core.reason == None && !m.core.resumable
            && m.core.total == (if continuation then l.core.total else 0.0)
            && m.core.accounted == (if continuation then l.core.accounted else 0.0))
  {
    RunKeepsInv(Born(hasMessages, limits), steps);
  }

  /** A continuation is taken exactly when the state is resumable and at rest; what is refused changes nothing. */
  lemma ContinuationsFollowSuspension(hasMessages: bool, limits: Limits, steps: seq<Step>, continuation: bool,
      next: Limits, setupFails: bool)
    requires ValidRun(Born(hasMessages, limits), steps)
    ensures
      var l := Run(Born(hasMessages, limits), steps);
      var m := Next(l, Begin(continuation, next, setupFails));
      && (Accepts(l.core, true) <==> l.core.resumable && l.phase == Idle)
      && (l.phase != Idle ==> m == l)
      && (continuation && !l.core.resumable ==> m == l)
      && (continuation && l.core.resumable && l.phase == Idle ==>
            && m.core.total == l.core.total && m.core.accounted == l.core.accounted
            && m.core.runCount == l.core.runCount + 1)
  {
    RunKeepsInv(Born(hasMessages, limits), steps);
  }

  /**
   Cost is conserved: what the session counts, what the turn has yet to fold in, and what was dropped
   add up to all charges. Only charges made at rest, outside any run, are ever dropped, and only by the
   next turn: a continuation keeps them.
   */
  lemma CostIsConserved(hasMessages: bool, limits: Limits, steps: seq<Step>)
    requires ValidRun(Born(hasMessages, limits), steps)
    ensures
      var l := Run(Born(hasMessages, limits), steps);
      l.core.session + (l.core.total - l.core.accounted) + l.dropped == l.charged
  {
    RunKeepsInv(Born(hasMessages, limits), steps);
  }

  ghost predicate ChargesInFlight(l: Life, steps: seq<Step>)
    requires ValidRun(l, steps)
    decreases |steps|
  {
    steps != [] ==>
      && (steps[0].Charge? ==> l.core.inFlight)
      && ChargesInFlight(Next(l, steps[0]), steps[1..])
  }

  ghost predicate NothingPending(l: Life)
  {
    Inv(l) && l.dropped == 0.0 && (!l.core.inFlight ==> l.core.total == l.core.accounted)
  }

  lemma {:induction false} InFlightChargesAreKept(l: Life, steps: seq<Step>)
    requires NothingPending(l) && ValidRun(l, steps) && ChargesInFlight(l, steps)
    ensures NothingPending(Run(l, steps))
    decreases |steps|
  {
    if steps != [] {
      StepKeepsInv(l, steps[0]);
      InFlightChargesAreKept(Next(l, steps[0]), steps[1..]);
    }
  }

  /** When runs do all the charging, the session total at rest is the sum of all charges, each counted once. */
  lemma SessionCountsEveryChargeOnce(hasMessages: bool, limits: Limits, steps: seq<Step>)
    requires ValidRun(Born(hasMessages, limits), steps) && ChargesInFlight(Born(hasMessages, limits), steps)
    ensures
      var l := Run(Born(hasMessages, limits), steps);
      && l.core.session + (l.core.total - l.core.accounted) == l.charged
      && (l.phase == Idle ==> l.core.session == l.charged)
  {
    InFlightChargesAreKept(Born(hasMessages, limits), steps);
  }

  /**
   A run whose setup fails after the slice was reset leaves a "running" state at rest. Before it the state
   could be continued; after it the state still can be exactly when the run was a new turn on a state that
   had neither run nor held messages, which resets nothing.
   */
  lemma FailedSetupLosesTheContinuation(hasMessages: bool, limits: Limits, steps: seq<Step>,
      continuation: bool, next: Limits)
    requires ValidRun(Born(hasMessages, limits), steps)
    requires Run(Born(hasMessages, limits), steps).core.resumable && Run(Born(hasMessages, limits), steps).phase == Idle
    ensures
      var l := Run(Born(hasMessages, limits), steps);
      var m := Next(l, Begin(continuation, next, true));
      && Accepts(l.core, true) && m.phase == Idle
      && (Accepts(m.core, true) <==> !continuation && l.core.runCount == 0 && !l.core.hasMessages)
      && (!Accepts(m.core, true) ==> m.core.status == Running)
  {
    RunKeepsInv(Born(hasMessages, limits), steps);
  }

  /** A turn that suspends and ends, and a continuation whose setup fails: the next continuation is refused. */
  lemma FailedSetupStrandsASuspendedState(limits: Limits)
    ensures
      var suspends := PassEvents([], 0.0, Suspend, false, false);
      var steps := [Begin(false, limits, false), Pass(suspends), End];
      && ValidRun(Born(false, limits), steps)
      && var l := Run(Born(false, limits), steps);
         && Accepts(l.core, true)
         && !Accepts(Next(l, Begin(true, limits, true)).core, true)
  {
    var suspends := PassEvents([], 0.0, Suspend, false, false);
    var l0 := Born(false, limits);
    var l1 := Next(l0, Begin(false, limits, false));
    var l2 := Next(l1, Pass(suspends));
    OneMore(l2, End, []);
    OneMore(l1, Pass(suspends), [End]);
    OneMore(l0, Begin(false, limits, false), [Pass(suspends), End]);
    assert [Begin(false, limits, false)] + [Pass(suspends), End] == [Begin(false, limits, false), Pass(suspends), End];
  }

  // ---- The loop method and the life of a state agree ----

  function PassSteps(stages: nat -> PassEvents, n: nat, count: nat): seq<Step>
    decreases count
  {
    if count == 0 then [] else [Pass(stages(n))] + PassSteps(stages, n + 1, count - 1)
  }

  function CostOf(stages: nat -> PassEvents, n: nat, count: nat): real
    decreases count
  {
    if count == 0 then 0.0 else stages(n).cost + CostOf(stages, n + 1, count - 1)
  }

  /** One run of the loop is that many passes in the life of the state, and it ends in the wrap-up. */
  lemma {:induction false} LoopIsPasses(l: Life, stages: nat -> PassEvents, n: nat)
    requires l.core.inFlight && l.phase == Looping && forall k: nat :: stages(k).cost >= 0.0
    ensures
      var (end, passes) := LoopFrom(l.core, stages, n);
      && passes > n
      && var steps := PassSteps(stages, n, passes - n);
         && ValidRun(l, steps)
         && Run(l, steps) == l.(core := end, phase := Wrapup, passes := l.passes + (passes - n),
                                charged := l.charged + CostOf(stages, n, passes - n))
    decreases l.core.limits.maxIterations - l.core.iteration
  {
    var step := Pass(stages(n));
    var next := Next(l, step);
    var (core, left) := AfterPass(Staged(l.core, stages(n)), stages(n).steered, stages(n).stopping);
    if left {
      assert PassSteps(stages, n, 1) == [step] + PassSteps(stages, n + 1, 0);
      OneMore(l, step, []);
    } else {
      LoopIsPasses(next, stages, n + 1);
      var rest := LoopFrom(core, stages, n + 1).1 - (n + 1);
      OneMore(l, step, PassSteps(stages, n + 1, rest));
    }
  }

  lemma OneMore(l: Life, step: Step, rest: seq<Step>)
    requires Enabled(l, step) && ValidRun(Next(l, step), rest)
    ensures ValidRun(l, [step] + rest) && Run(l, [step] + rest) == Run(Next(l, step), rest)
  {
    assert ([step] + rest)[1..] == rest;
  }
}
