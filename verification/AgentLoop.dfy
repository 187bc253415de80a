/**
 The agent loop and the turn boundary (src/xgen_agent_runtime/core/pipeline.py) over the pipeline state
 (src/xgen_agent_runtime/core/state.py): verdicts, terminal statuses, the in-flight guard, and the cost
 of a turn and of the session. What the stages do is arbitrary; money is exact.
 */
module AgentLoop {
  import opened Messages

  datatype Verdict = Continue | Complete | Suspend | Escalate | Error

  datatype Status = Running | Completed | Suspended | Blocked | Failed

  datatype Reason = ModelCompleted | MaxIterations | CostBudget | UserInputRequired | RunError | Other(tag: int)

  /** A status a stage, the loop or a restored checkpoint sets outright. */
  datatype StatusMark =
    | MarkCompleted(reason: Reason)
    | MarkSuspended(reason: Reason)
    | MarkBlocked(reason: Reason)
    | MarkFailed(reason: Reason)

  datatype Limits = Limits(maxIterations: int, budget: Option<real>, singleTurn: bool, hasLoopStage: bool)

  datatype Core = Core(
    iteration: nat, verdict: Verdict, status: Status, reason: Option<Reason>, resumable: bool,
    total: real, accounted: real, session: real,
    runCount: nat, hasMessages: bool, inFlight: bool, limits: Limits)

  /** What the stages of one pass do: marks, cost, a verdict; and what the steering check finds. */
  datatype PassEvents = PassEvents(marks: seq<StatusMark>, cost: real, verdict: Verdict, steered: bool, stopping: bool)

  function Marked(c: Core, m: StatusMark): Core
  {
    match m
    case MarkCompleted(reason) => c.(status := Completed, reason := Some(reason), resumable := false)
    case MarkSuspended(reason) => c.(status := Suspended, reason := Some(reason), resumable := true)
    case MarkBlocked(reason) => c.(status := Blocked, reason := Some(reason), resumable := false)
    case MarkFailed(reason) => c.(status := Failed, reason := Some(reason), resumable := false)
  }

  function MarkedAll(c: Core, marks: seq<StatusMark>): (r: Core)
    ensures r == c.(status := r.status, reason := r.reason, resumable := r.resumable)
    ensures r.status == Running ==> r == c
    ensures (c.resumable <==> c.status == Suspended) ==> (r.resumable <==> r.status == Suspended)
    decreases |marks|
  {
    if marks == [] then c else MarkedAll(Marked(c, marks[0]), marks[1..])
  }

  function Charged(c: Core, cost: real): Core { c.(total := c.total + cost) }

  predicate OverBudget(c: Core) { c.limits.budget.Some? && c.total >= c.limits.budget.value }

  predicate OverIterations(c: Core) { c.iteration >= c.limits.maxIterations }

  predicate SinglePass(l: Limits) { l.singleTurn || !l.hasLoopStage }

  // ---- One pass of the loop ----

  /** The verdict after the pass: single-pass runs complete, and steering keeps a completing run going. */
  function Steered(v: Verdict, l: Limits, steered: bool, stopping: bool): Verdict
  {
    var first := if SinglePass(l) && v == Continue then Complete else v;
    if SinglePass(l) || stopping then first
    else if first == Complete && steered then Continue
    else first
  }

  /** The generic mapping from verdict to status; an explicit mark wins over it. */
  function Settled(c: Core): Core
  {
    if c.status != Running then c
    else
      match c.verdict
      case Complete => Marked(c, MarkCompleted(ModelCompleted))
      case Suspend => Marked(c, MarkSuspended(MaxIterations))
      case Escalate => Marked(c, MarkBlocked(UserInputRequired))
      case Error => Marked(c, MarkFailed(RunError))
      case Continue => c
  }

  /** What follows the stages of a pass; the flag says whether the loop is left. */
  function AfterPass(c: Core, steered: bool, stopping: bool): (Core, bool)
  {
    var d := c.(verdict := Steered(c.verdict, c.limits, steered, stopping));
    if d.verdict != Continue then (Settled(d), true)
    else
      var e := d.(iteration := d.iteration + 1);
      if OverIterations(e) then (Marked(e.(verdict := Suspend), MarkSuspended(MaxIterations)), true)
      else if OverBudget(e) then (Marked(e.(verdict := Escalate), MarkBlocked(CostBudget)), true)
      else (e, false)
  }

  function Staged(c: Core, p: PassEvents): Core
  {
    Charged(MarkedAll(c, p.marks), p.cost).(verdict := p.verdict)
  }

  /** The loop from pass `n` on: the state it leaves and the passes made. */
  function LoopFrom(c: Core, stages: nat -> PassEvents, n: nat): (Core, nat)
    decreases c.limits.maxIterations - c.iteration
  {
    var (next, left) := AfterPass(Staged(c, stages(n)), stages(n).steered, stages(n).stopping);
    if left then (next, n + 1) else LoopFrom(next, stages, n + 1)
  }

  // ---- The turn boundary ----

  /** A run is refused while another one is in flight; a continuation only follows a suspended slice. */
  predicate Accepts(c: Core, continuation: bool)
  {
    !c.inFlight && (continuation ==> c.status == Suspended)
  }

  function Reset(c: Core): Core
  {
    c.(iteration := 0, verdict := Continue, status := Running, reason := None, resumable := false)
  }

  /** A new turn forgets the last turn's cost; a continuation slice keeps it. */
  function Turned(c: Core, continuation: bool): Core
  {
    if continuation then Reset(c)
    else if c.runCount > 0 || c.hasMessages then Reset(c).(total := 0.0, accounted := 0.0)
    else c
  }

  function Began(c: Core, continuation: bool, limits: Limits, setupFails: bool): Core
  {
    if !Accepts(c, continuation) then c
    else Turned(c, continuation).(runCount := c.runCount + 1, limits := limits, inFlight := !setupFails)
  }

  function Ended(c: Core): Core
  {
    var delta := c.total - c.accounted;
    c.(session := c.session + (if delta > 0.0 then delta else 0.0), accounted := c.total, inFlight := false)
  }

  // ---- The pipeline state as it runs ----

  class PipelineState {
    var iteration: nat
    var verdict: Verdict
    var status: Status
    var reason: Option<Reason>
    var resumable: bool
    var total: real
    var accounted: real
    var session: real
    var runCount: nat
    var hasMessages: bool
    var inFlight: bool
    var limits: Limits

    function Abs(): Core
      reads this
    {
      Core(iteration, verdict, status, reason, resumable, total, accounted, session,
           runCount, hasMessages, inFlight, limits)
    }

    constructor (hasMessages: bool, limits: Limits)
      ensures Abs() == Core(0, Continue, Running, None, false, 0.0, 0.0, 0.0, 0, hasMessages, false, limits)
    {
      iteration, verdict, status, reason, resumable := 0, Continue, Running, None, false;
      total, accounted, session := 0.0, 0.0, 0.0;
      runCount, this.hasMessages, inFlight, this.limits := 0, hasMessages, false, limits;
    }

    method SetStatus(m: StatusMark)
      modifies `status, `reason, `resumable
      ensures Abs() == Marked(old(Abs()), m)
    {
      status :=
        match m
        case MarkCompleted(_) => Completed
        case MarkSuspended(_) => Suspended
        case MarkBlocked(_) => Blocked
        case MarkFailed(_) => Failed;
      reason, resumable := Some(m.reason), m.MarkSuspended?;
    }

    method ResetSlice()
      modifies `iteration, `verdict, `status, `reason, `resumable
      ensures Abs() == Reset(old(Abs()))
    {
      iteration, verdict, status, reason, resumable := 0, Continue, Running, None, false;
    }

    method BeginTurn()
      modifies `iteration, `verdict, `status, `reason, `resumable, `total, `accounted
      ensures Abs() == Reset(old(Abs())).(total := 0.0, accounted := 0.0)
    {
      ResetSlice();
      total, accounted := 0.0, 0.0;
    }

    /** Refuses, or opens the turn and claims the state; `setup` says whether the fallible setup succeeds. */
    method InitState(continuation: bool, limits: Limits, setup: bool) returns (ok: bool)
      modifies this
      ensures Abs() == Began(old(Abs()), continuation, limits, !setup)
      ensures ok <==> Accepts(old(Abs()), continuation) && setup
    {
      if inFlight || (continuation && status != Suspended) {
        return false;
      }
      if continuation {
        ResetSlice();
      } else if runCount > 0 || hasMessages {
        BeginTurn();
      }
      runCount := runCount + 1;
      this.limits := limits;
      inFlight := setup;
      ok := setup;
    }

    method EndTurn()
      modifies `session, `accounted, `inFlight
      ensures Abs() == Ended(old(Abs()))
      ensures session >= old(session)
    {
      var delta := total - accounted;
      session := session + if delta > 0.0 then delta else 0.0;
      accounted, inFlight := total, false;
    }

    /** The stages of one pass. */
    method RunStages(p: PassEvents)
      modifies `status, `reason, `resumable, `total, `verdict
      ensures Abs() == Staged(old(Abs()), p)
    {
      var i := 0;
      while i < |p.marks|
        invariant 0 <= i <= |p.marks|
        invariant MarkedAll(Abs(), p.marks[i..]) == MarkedAll(old(Abs()), p.marks)
        modifies `status, `reason, `resumable
      {
        assert p.marks[i..][1..] == p.marks[i + 1..];
        SetStatus(p.marks[i]);
        i := i + 1;
      }
      total := total + p.cost;
      verdict := p.verdict;
    }

    /** What follows them, up to the decision to leave the loop. */
    method FinishPass(steered: bool, stopping: bool) returns (leave: bool)
      modifies `iteration, `verdict, `status, `reason, `resumable
      ensures (Abs(), leave) == AfterPass(old(Abs()), steered, stopping)
    {
      if !limits.hasLoopStage && verdict == Continue {
        verdict := Complete;
      }
      if limits.singleTurn && verdict == Continue {
        verdict := Complete;
      }
      if !limits.singleTurn && limits.hasLoopStage && !stopping && verdict == Complete && steered {
        verdict := Continue;
      }
      if verdict != Continue {
        Settle();
        return true;
      }
      iteration := iteration + 1;
      if OverIterations(Abs()) {
        verdict := Suspend;
        SetStatus(MarkSuspended(MaxIterations));
        return true;
      }
      if OverBudget(Abs()) {
        verdict := Escalate;
        SetStatus(MarkBlocked(CostBudget));
        return true;
      }
      leave := false;
    }

    /** An explicit mark wins over the generic mapping. */
    method Settle()
      modifies `status, `reason, `resumable
      ensures Abs() == Settled(old(Abs()))
    {
      if status == Running {
        match verdict {
          case Complete => SetStatus(MarkCompleted(ModelCompleted));
          case Suspend => SetStatus(MarkSuspended(MaxIterations));
          case Escalate => SetStatus(MarkBlocked(UserInputRequired));
          case Error => SetStatus(MarkFailed(RunError));
          case Continue =>
        }
      }
    }

    /** Phase B: passes until the verdict, or a guard, ends the loop. */
    method RunLoop(stages: nat -> PassEvents) returns (passes: nat)
      modifies `iteration, `verdict, `status, `reason, `resumable, `total
      ensures (Abs(), passes) == LoopFrom(old(Abs()), stages, 0)
    {
      passes := 0;
      var leave := false;
      while !leave
        invariant
          if leave then (Abs(), passes) == LoopFrom(old(Abs()), stages, 0)
          else LoopFrom(Abs(), stages, passes) == LoopFrom(old(Abs()), stages, 0)
        decreases if leave then 0 else 1, limits.maxIterations - iteration
      {
        RunStages(stages(passes));
        leave := FinishPass(stages(passes).steered, stages(passes).stopping);
        passes := passes + 1;
      }
    }
  }
}
