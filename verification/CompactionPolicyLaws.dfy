/**
 What the compaction policy guarantees over a whole turn: any API calls, any session steps, any
 compactions, soft, hard or asked for, and any summaries made in the background, in any order.
 */
module CompactionPolicyLaws {
  import opened Messages
  import opened CompactionPolicy
  import R = Recording
  import RL = RecordingLaws
  import opened Sequences

  datatype Event =
    | ApiCall
    | Session(step: R.Step)
    | Compaction(req: Request, c: Compactor, t: Tools)
    | Schedule(c: Compactor, target: nat, background: bool)
    | Collect(f: Finish)
    | Cancel

  /** What a turn did: requests sent, and summary attempts, made by calling the model or left to the background. */
  datatype Entry = Sent | Attempt(req: Request, inBackground: bool)

  /** How an attempt ended: a background summary can also end by being cancelled or raising. */
  datatype End = Success | Failure | Raise

  /**
   `unbooked` counts the background attempts of this turn whose end was booked as neither success nor failure;
   `ends` lists how attempts of this turn ended, in order.
   */
  datatype TurnState = TurnState(
    policy: Policy, session: R.State, flight: Option<Flight>, log: seq<Entry>, unbooked: nat, ends: seq<End>)

  /** A turn begins with fresh counters; a summary scheduled by an earlier turn may still be in flight. */
  function Start(session: R.State, earlier: Option<seq<R.Ref>>): TurnState
  {
    TurnState(FRESH, session, if earlier.Some? then Some(Flight(false, earlier.value)) else None, [], 0, [])
  }

  ghost predicate Allowed(x: TurnState, e: Event)
  {
    match e
    case ApiCall => true
    case Session(step) => R.Enabled(x.session, step)
    case Compaction(_, c, _) => Sound(c) && Obedient(c)
    case Schedule(c, _, _) => c.usesLlm
    case Collect(f) => Arrives(x.session, x.flight, f)
    case Cancel => true
  }

  /** What the compactor reported, when the compaction ran it. */
  function RanWith(p: Policy, s: R.State, req: Request, c: Compactor, t: Tools): Option<Report>
  {
    var d := Decide(p, s, req, c, t);
    if d.Run? then Some(c.run(Pruned(s, t), req, d.digestOnly).report) else None
  }

  function EndOfRun(p: Policy, s: R.State, req: Request, c: Compactor, t: Tools): seq<End>
  {
    var report := RanWith(p, s, req, c, t);
    if report.None? then [] else EndOf(c.usesLlm, report.value)
  }

  predicate CallsModel(p: Policy, s: R.State, req: Request, c: Compactor, t: Tools)
  {
    var report := RanWith(p, s, req, c, t);
    report.Some? && report.value.calls > 0
  }

  /** What a report says of the attempt, if there was one. */
  function EndOf(usesLlm: bool, report: Report): seq<End>
  {
    if !usesLlm || (report.calls == 0 && report.source.None?) then []
    else if report.source == Some(Model) then [Success]
    else if report.calls > 0 || report.source == Some(Unavailable) then [Failure]
    else []
  }

  function FinishOf(f: Finish): seq<End>
  {
    if f.Broken? then [Raise] else if f.report.calls == 0 then [] else EndOf(true, f.report)
  }

  ghost function NextTurn(x: TurnState, e: Event): TurnState
    requires Allowed(x, e)
  {
    match e
    case ApiCall => x.(policy := Noted(x.policy), log := x.log + [Sent])
    case Session(step) => x.(session := R.Next(x.session, step))
    case Compaction(req, c, t) =>
      var (policy, session) := Compacted(x.policy, x.session, req, c, t);
      x.(policy := policy, session := session,
         log := x.log + (if CallsModel(x.policy, x.session, req, c, t) then [Attempt(req, false)] else []),
         ends := x.ends + EndOfRun(x.policy, x.session, req, c, t))
    case Schedule(c, target, background) =>
      var may := MaySchedule(x.policy, x.session, x.flight, c, target, background);
      x.(policy := if may then Ahead(x.policy) else x.policy,
         flight := InFlight(x.policy, x.session, x.flight, c, target, background),
         log := if may then x.log + [Attempt(Deferral(target), true)] else x.log)
    case Collect(f) =>
      var (policy, session) := Collected(x.policy, x.session, x.flight.value, f);
      x.(policy := policy, session := session, flight := None,
         unbooked := x.unbooked + (if Pending(x) == 1 && (f.Broken? || f.report.calls == 0) then 1 else 0),
         ends := x.ends + if Pending(x) == 1 then FinishOf(f) else [])
    case Cancel => x.(flight := None, unbooked := x.unbooked + Pending(x))
  }

  /** A background attempt of this turn whose end is still open. */
  function Pending(x: TurnState): nat
  {
    if x.flight.Some? && x.flight.value.ofThisTurn then 1 else 0
  }

  ghost predicate ValidTurn(x: TurnState, events: seq<Event>)
    decreases |events|
  {
    events != [] ==> Allowed(x, events[0]) && ValidTurn(NextTurn(x, events[0]), events[1..])
  }

  ghost function RunTurn(x: TurnState, events: seq<Event>): TurnState
    requires ValidTurn(x, events)
    decreases |events|
  {
    if events == [] then x else RunTurn(NextTurn(x, events[0]), events[1..])
  }

  lemma OneEvent(x: TurnState, e: Event, rest: seq<Event>)
    requires Allowed(x, e) && ValidTurn(NextTurn(x, e), rest)
    ensures ValidTurn(x, [e] + rest) && RunTurn(x, [e] + rest) == RunTurn(NextTurn(x, e), rest)
  {
    assert ([e] + rest)[1..] == rest;
  }

  // ---- The ceiling on model summaries ----

  function Attempts(log: seq<Entry>): nat
  {
    if log == [] then 0 else Attempts(log[..|log| - 1]) + (if log[|log| - 1].Attempt? then 1 else 0)
  }

  /** Attempts nobody asked for. */
  function Unasked(log: seq<Entry>): nat
  {
    if log == [] then 0
    else Unasked(log[..|log| - 1]) + (if log[|log| - 1].Attempt? && !log[|log| - 1].req.manual then 1 else 0)
  }

  /** Attempts left to the background. */
  function Deferrals(log: seq<Entry>): nat
  {
    if log == [] then 0
    else Deferrals(log[..|log| - 1]) + (if log[|log| - 1].Attempt? && log[|log| - 1].inBackground then 1 else 0)
  }

  lemma OneMore(log: seq<Entry>, e: Entry)
    ensures Attempts(log + [e]) == Attempts(log) + (if e.Attempt? then 1 else 0)
    ensures Unasked(log + [e]) == Unasked(log) + (if e.Attempt? && !e.req.manual then 1 else 0)
    ensures Deferrals(log + [e]) == Deferrals(log) + (if e.Attempt? && e.inBackground then 1 else 0)
  {
    assert (log + [e])[..|log|] == log;
  }

  /** Since the last request went out, the model was asked for a summary. */
  predicate AskedSinceLastCall(log: seq<Entry>)
  {
    log != [] && log[|log| - 1].Attempt?
  }

  predicate IsSoft(e: Entry) { e.Attempt? && !e.req.hard && !e.req.manual }

  /** Between a soft attempt and whatever attempt came before it, a request went out. */
  ghost predicate SoftOncePerRequest(log: seq<Entry>)
  {
    forall j | 0 < j < |log| && IsSoft(log[j]) :: log[j - 1] == Sent
  }

  ghost predicate Counted(x: TurnState)
  {
    && x.policy.summaries == Attempts(x.log)
    && Unasked(x.log) <= Attempts(x.log)
    && Unasked(x.log) <= MAX_SUMMARIES
    && (AskedSinceLastCall(x.log) ==> SummarizedForThisCall(x.policy))
    && SoftOncePerRequest(x.log)
  }

  /** The gate lets an unasked call to the model through only below both limits, a soft one only once per request. */
  lemma CallsAreGated(p: Policy, s: R.State, req: Request, c: Compactor, t: Tools)
    requires Obedient(c) && CallsModel(p, s, req, c, t) && !req.manual
    ensures c.usesLlm && p.summaries < MAX_SUMMARIES && p.failures < MAX_FAILURES
    ensures !req.hard ==> !SummarizedForThisCall(p)
  {
    ObedientRun(c, Pruned(s, t), req, Decide(p, s, req, c, t).digestOnly);
  }

  lemma ObedientRun(c: Compactor, s: R.State, req: Request, digestOnly: bool)
    requires Obedient(c)
    ensures digestOnly || !c.usesLlm ==> c.run(s, req, digestOnly).report.calls == 0
  {
  }

  lemma BookedCounts(p: Policy, s: R.State, req: Request, c: Compactor, t: Tools)
    requires Sound(c) && Obedient(c)
    ensures
      var p' := Compacted(p, s, req, c, t).0;
      var report := RanWith(p, s, req, c, t);
      && p'.apiCalls == p.apiCalls
      && p'.summaries == p.summaries + (if CallsModel(p, s, req, c, t) then 1 else 0)
      && (CallsModel(p, s, req, c, t) || SummarizedForThisCall(p) ==> SummarizedForThisCall(p'))
      && ((report.Some? ==> report.value.source != Some(Model)) ==>
            p'.failures >= p.failures + (if CallsModel(p, s, req, c, t) then 1 else 0))
  {
    var d := Decide(p, s, req, c, t);
    if d.Run? {
      ObedientRun(c, Pruned(s, t), req, d.digestOnly);
    }
  }

  /** The prune is enough when it reaches the target, unless the user asked for the compaction. */
  ghost predicate PruneReaches(s: R.State, req: Request, t: Tools)
  {
    req.target.Some? && !req.manual && t.estimate(Pruned(s, t)) <= req.target.value
  }

  /** What the user asked for, and what needs no model, is never declined, whatever the counters say. */
  lemma AskedForIsNeverDeclined(p: Policy, s: R.State, req: Request, c: Compactor, t: Tools)
    requires req.manual || !c.usesLlm
    ensures Decide(p, s, req, c, t) == if PruneReaches(s, req, t) then PruneSuffices else Run(false)
  {
  }

  /** Soft pressure has the compactor run if and only if nothing speaks against it; else the first reason is given. */
  lemma SoftPressureIsDeclinedFor(p: Policy, s: R.State, req: Request, c: Compactor, t: Tools)
    requires !req.hard && !req.manual && c.usesLlm && !PruneReaches(s, req, t)
    ensures
      var plan := c.plan(Pruned(s, t));
      var d := Decide(p, s, req, c, t);
      var again := p.summarizedAt == Some(p.apiCalls);
      && (d == Run(false) <==> p.summaries < 6 && p.failures < 2 && !again && !t.background && plan.None?)
      && (d == Declined(TurnLimit) <==> p.summaries >= 6)
      && (d == Declined(ModelFailing) <==> p.summaries < 6 && p.failures >= 2)
      && (d == Declined(AlreadySummarized) <==> p.summaries < 6 && p.failures < 2 && again)
      && (d == Declined(BackgroundRunning) <==> p.summaries < 6 && p.failures < 2 && !again && t.background)
      && (d.Declined? && d.skip.Planned? <==>
            p.summaries < 6 && p.failures < 2 && !again && !t.background && plan.Some?)
      && (d.Declined? && d.skip.Planned? ==> plan == Some(d.skip.reason))
  {
  }

  /** A summary is left to the background only where a soft one may run. */
  lemma DeferralsAreGated(p: Policy, s: R.State, flight: Option<Flight>, c: Compactor, target: nat, background: bool)
    requires c.usesLlm && MaySchedule(p, s, flight, c, target, background)
    ensures p.summaries < MAX_SUMMARIES && p.failures < MAX_FAILURES && !SummarizedForThisCall(p)
  {
  }

  /**
   A summary is left to the background if and only if none is in flight, there is a history, and a soft one may
   run; it is made of the history as it stands, and the attempt counts at once.
   */
  lemma ScheduledExactlyWhen(x: TurnState, c: Compactor, target: nat, background: bool)
    requires c.usesLlm
    ensures
      var y := NextTurn(x, Schedule(c, target, background));
      if x.flight.None? && x.session.messages != [] && x.policy.summaries < 6 && x.policy.failures < 2
         && x.policy.summarizedAt != Some(x.policy.apiCalls) && !background && c.plan(x.session).None?
      then
        && y.session == x.session && y.flight == Some(Flight(true, x.session.messages))
        && y.policy == Policy(x.policy.apiCalls, Some(x.policy.apiCalls), x.policy.summaries + 1, x.policy.failures)
        && |y.log| == |x.log| + 1
      else y == x
  {
  }

  lemma LogGrows(x: TurnState, y: TurnState, e: Entry)
    requires Counted(x) && y.log == x.log + [e]
    requires e == Sent ==> y.policy.summaries == x.policy.summaries
    requires e.Attempt? ==> y.policy.summaries == x.policy.summaries + 1 && SummarizedForThisCall(y.policy)
    requires e.Attempt? && !e.req.manual ==>
      x.policy.summaries < MAX_SUMMARIES && (e.req.hard || !SummarizedForThisCall(x.policy))
    ensures Counted(y)
  {
    OneMore(x.log, e);
    forall j | 0 < j < |y.log| && IsSoft(y.log[j]) ensures y.log[j - 1] == Sent {
      assert j < |x.log| ==> y.log[j] == x.log[j];
    }
  }

  lemma EventKeepsCounted(x: TurnState, e: Event)
    requires Counted(x) && Allowed(x, e)
    ensures Counted(NextTurn(x, e))
  {
    match e
    case ApiCall => LogGrows(x, NextTurn(x, e), Sent);
    case Session(_) =>
    case Compaction(req, c, t) =>
      BookedCounts(x.policy, x.session, req, c, t);
      if CallsModel(x.policy, x.session, req, c, t) {
        if !req.manual {
          CallsAreGated(x.policy, x.session, req, c, t);
        }
        LogGrows(x, NextTurn(x, e), Attempt(req, false));
      } else {
        assert NextTurn(x, e).log == x.log;
      }
    case Schedule(c, target, background) =>
      if MaySchedule(x.policy, x.session, x.flight, c, target, background) {
        DeferralsAreGated(x.policy, x.session, x.flight, c, target, background);
        LogGrows(x, NextTurn(x, e), Attempt(Deferral(target), true));
      }
    case Collect(_) =>
    case Cancel =>
  }

  lemma {:induction false} TurnKeepsCounted(x: TurnState, events: seq<Event>)
    requires Counted(x) && ValidTurn(x, events)
    ensures Counted(RunTurn(x, events))
    decreases |events|
  {
    if events != [] {
      EventKeepsCounted(x, events[0]);
      TurnKeepsCounted(NextTurn(x, events[0]), events[1..]);
    }
  }

  /**
   Over any turn: the model is asked for at most six summaries nobody asked for, now or in the background;
   every attempt is booked; and soft pressure asks at most once between two requests, and never after
   another attempt.
   */
  lemma SummariesAreBounded(session: R.State, earlier: Option<seq<R.Ref>>, events: seq<Event>)
    requires ValidTurn(Start(session, earlier), events)
    ensures
      var end := RunTurn(Start(session, earlier), events);
      && Unasked(end.log) <= MAX_SUMMARIES
      && end.policy.summaries == Attempts(end.log)
      && SoftOncePerRequest(end.log)
  {
    TurnKeepsCounted(Start(session, earlier), events);
  }

  /**
   At any point of any turn the limits never stop relief under hard pressure: unless the prune already
   reaches the target, the compactor runs if and only if its plan has something worth summarizing; once six
   attempts were made, or the failures reached their limit, it runs without a model call. (The module's
   documentation exempts hard pressure from the plan as well; the code does not.)
   */
  lemma HardPressureRunsUnlessThePlanDeclines(session: R.State, earlier: Option<seq<R.Ref>>, events: seq<Event>,
      req: Request, c: Compactor, t: Tools)
    requires ValidTurn(Start(session, earlier), events)
    requires req.hard && !req.manual && c.usesLlm && Obedient(c)
    ensures
      var x := RunTurn(Start(session, earlier), events);
      var d, pruned := Decide(x.policy, x.session, req, c, t), Pruned(x.session, t);
      && (d.PruneSuffices? <==> req.target.Some? && t.estimate(pruned) <= req.target.value)
      && (d.Run? <==> !d.PruneSuffices? && c.plan(pruned).None?)
      && (d.Run? ==> (d.digestOnly <==> Attempts(x.log) >= MAX_SUMMARIES || x.policy.failures >= MAX_FAILURES))
      && (Attempts(x.log) >= MAX_SUMMARIES ==> !CallsModel(x.policy, x.session, req, c, t))
  {
    TurnKeepsCounted(Start(session, earlier), events);
    var x := RunTurn(Start(session, earlier), events);
    if CallsModel(x.policy, x.session, req, c, t) {
      CallsAreGated(x.policy, x.session, req, c, t);
    }
  }

  /** Estimates, prune and relief that never help. */
  function NoRelief(): Tools
  {
    Tools((s: R.State) => 1, 0, false, (s: R.State) => [], (s: R.State) => [])
  }

  /** A compactor that finds every region too small. */
  function Reluctant(): Compactor
  {
    Compactor(true, (s: R.State) => Some(RegionTooSmall),
      (s: R.State, req: Request, digestOnly: bool) => Raised(Report(0, None)))
  }

  /** At the start of any turn hard pressure can be left without relief: the plan declines, and nothing changes. */
  lemma HardPressureCanBeDeclined(session: R.State)
    ensures
      var req := Request(false, true, None);
      && Sound(Reluctant()) && Obedient(Reluctant())
      && Decide(FRESH, session, req, Reluctant(), NoRelief()) == Declined(Planned(RegionTooSmall))
      && Compacted(FRESH, session, req, Reluctant(), NoRelief()) == (FRESH, session)
  {
    var t := NoRelief();
    assert t.prune(session) == [] && Pruned(session, t) == session && t.relieve(session) == [];
  }

  // ---- Compactions and memory: a turn is a run of the session ----

  lemma {:induction false} AppendedJoin(a: seq<R.Step>, b: seq<R.Step>)
    ensures RL.AppendedBy(a + b) == RL.AppendedBy(a) + RL.AppendedBy(b)
  {
    if a == [] {
      assert a + b == b;
    } else {
      assert (a + b)[0] == a[0] && (a + b)[1..] == a[1..] + b;
      AppendedJoin(a[1..], b);
    }
  }

  lemma {:induction false} RunsJoinFrom(s: R.State, a: seq<R.Step>, b: seq<R.Step>)
    requires R.ValidRun(s, a) && R.ValidRun(R.Run(s, a), b)
    ensures R.ValidRun(s, a + b) && R.Run(s, a + b) == R.Run(R.Run(s, a), b)
    decreases |a|
  {
    if a == [] {
      assert a + b == b;
    } else {
      FirstOfJoin(a, b);
      RunsJoinFrom(R.Next(s, a[0]), a[1..], b);
    }
  }

  lemma RunsJoin(s: R.State, a: seq<R.Step>, b: seq<R.Step>)
    requires R.ValidRun(s, a) && R.ValidRun(R.Run(s, a), b)
    ensures R.ValidRun(s, a + b) && R.Run(s, a + b) == R.Run(R.Run(s, a), b)
    ensures RL.AppendedBy(a + b) == RL.AppendedBy(a) + RL.AppendedBy(b)
  {
    RunsJoinFrom(s, a, b);
    AppendedJoin(a, b);
  }

  lemma OneStep(s: R.State, step: R.Step)
    requires R.Enabled(s, step)
    ensures R.ValidRun(s, [step]) && R.Run(s, [step]) == R.Next(s, step)
    ensures RL.AppendedBy([step]) == RL.AppendedIn(step)
  {
    assert [step][1..] == [];
    assert R.ValidRun(R.Next(s, step), []);
  }

  function RewriteSteps(s: R.State, changes: seq<Change>): seq<R.Step>
    decreases |changes|
  {
    if changes == [] then []
    else if Applies(s, changes[0]) then
      var step := R.Reduce(changes[0].ref, changes[0].content);
      [step] + RewriteSteps(R.Next(s, step), changes[1..])
    else RewriteSteps(s, changes[1..])
  }

  lemma {:induction false} RewritingIsARun(s: R.State, changes: seq<Change>)
    ensures
      var steps := RewriteSteps(s, changes);
      R.ValidRun(s, steps) && R.Run(s, steps) == Rewritten(s, changes) && RL.AppendedBy(steps) == []
    decreases |changes|
  {
    if changes != [] {
      if Applies(s, changes[0]) {
        var step := R.Reduce(changes[0].ref, changes[0].content);
        RewritingIsARun(R.Next(s, step), changes[1..]);
        OneStep(s, step);
        RunsJoin(s, [step], RewriteSteps(R.Next(s, step), changes[1..]));
      } else {
        RewritingIsARun(s, changes[1..]);
      }
    }
  }

  function InstallSteps(s: R.State, o: Outcome): seq<R.Step>
  {
    if o.Done? && o.after != s.messages then [R.Compact(o.after, o.made)] else []
  }

  lemma InstallingIsARun(s: R.State, o: Outcome)
    requires o.Done? ==> R.Enabled(s, R.Compact(o.after, o.made))
    ensures
      var steps := InstallSteps(s, o);
      R.ValidRun(s, steps) && R.Run(s, steps) == Installed(s, o) && RL.AppendedBy(steps) == []
  {
    if o.Done? && o.after != s.messages {
      OneStep(s, R.Compact(o.after, o.made));
    }
  }

  /** The session steps one compaction takes: rewrites, at most one replaced list, rewrites. */
  function CompactionSteps(p: Policy, s: R.State, req: Request, c: Compactor, t: Tools): seq<R.Step>
  {
    var pruned := Pruned(s, t);
    var pruning := RewriteSteps(s, t.prune(s));
    match Decide(p, s, req, c, t)
    case PruneSuffices => pruning
    case Declined(_) => pruning + ReliefSteps(pruned, req, t)
    case Run(digestOnly) =>
      var o := c.run(pruned, req, digestOnly);
      if o.Done? && !R.Enabled(pruned, R.Compact(o.after, o.made)) then pruning
      else pruning + InstallSteps(pruned, o) + ReliefSteps(Installed(pruned, o), req, t)
  }

  function ReliefSteps(s: R.State, req: Request, t: Tools): seq<R.Step>
  {
    if req.hard then RewriteSteps(s, t.relieve(s)) else []
  }

  lemma RelievingIsARun(s: R.State, req: Request, t: Tools)
    ensures
      var steps := ReliefSteps(s, req, t);
      R.ValidRun(s, steps) && R.Run(s, steps) == Relieved(s, req, t) && RL.AppendedBy(steps) == []
  {
    if req.hard {
      RewritingIsARun(s, t.relieve(s));
    }
  }

  /** One compaction, with its prune, its compactor and its relief, is a run of session steps that appends nothing. */
  lemma CompactionIsARun(p: Policy, s: R.State, req: Request, c: Compactor, t: Tools)
    requires Sound(c)
    ensures
      var steps := CompactionSteps(p, s, req, c, t);
      && R.ValidRun(s, steps) && R.Run(s, steps) == Compacted(p, s, req, c, t).1
      && RL.AppendedBy(steps) == []
  {
    var pruned := Pruned(s, t);
    var pruning := RewriteSteps(s, t.prune(s));
    RewritingIsARun(s, t.prune(s));
    var d := Decide(p, s, req, c, t);
    if d.Declined? {
      RelievingIsARun(pruned, req, t);
      RunsJoin(s, pruning, ReliefSteps(pruned, req, t));
    } else if d.Run? {
      var o := c.run(pruned, req, d.digestOnly);
      InstallingIsARun(pruned, o);
      RunsJoin(s, pruning, InstallSteps(pruned, o));
      RelievingIsARun(Installed(pruned, o), req, t);
      RunsJoin(s, pruning + InstallSteps(pruned, o), ReliefSteps(Installed(pruned, o), req, t));
    }
  }

  ghost function EventSteps(x: TurnState, e: Event): seq<R.Step>
    requires Allowed(x, e)
  {
    match e
    case ApiCall => []
    case Session(step) => [step]
    case Compaction(req, c, t) => CompactionSteps(x.policy, x.session, req, c, t)
    case Schedule(_, _, _) => []
    case Collect(f) =>
      var flight := x.flight.value;
      if Fits(x.session, flight, f) then [R.Compact(Swapped(x.session, flight, f), f.made)] else []
    case Cancel => []
  }

  ghost function TurnSteps(x: TurnState, events: seq<Event>): seq<R.Step>
    requires ValidTurn(x, events)
    decreases |events|
  {
    if events == [] then [] else EventSteps(x, events[0]) + TurnSteps(NextTurn(x, events[0]), events[1..])
  }

  function AppendedDuring(events: seq<Event>): seq<R.Ref>
  {
    if events == [] then []
    else (if events[0].Session? then RL.AppendedIn(events[0].step) else []) + AppendedDuring(events[1..])
  }

  lemma EventIsARun(x: TurnState, e: Event)
    requires Allowed(x, e)
    ensures
      var steps := EventSteps(x, e);
      && R.ValidRun(x.session, steps) && R.Run(x.session, steps) == NextTurn(x, e).session
      && RL.AppendedBy(steps) == if e.Session? then RL.AppendedIn(e.step) else []
  {
    match e
    case ApiCall =>
    case Session(step) => OneStep(x.session, step);
    case Compaction(req, c, t) => CompactionIsARun(x.policy, x.session, req, c, t);
    case Schedule(_, _, _) =>
    case Collect(f) =>
      if Fits(x.session, x.flight.value, f) {
        OneStep(x.session, R.Compact(Swapped(x.session, x.flight.value, f), f.made));
      }
    case Cancel =>
  }

  /** Whatever compactions a turn holds, to memory it is a run of appends, reductions, replacements and recordings. */
  lemma {:induction false} TurnIsASessionRun(x: TurnState, events: seq<Event>)
    requires ValidTurn(x, events)
    ensures
      var steps := TurnSteps(x, events);
      && R.ValidRun(x.session, steps) && R.Run(x.session, steps) == RunTurn(x, events).session
      && RL.AppendedBy(steps) == AppendedDuring(events)
    decreases |events|
  {
    if events != [] {
      EventIsARun(x, events[0]);
      TurnIsASessionRun(NextTurn(x, events[0]), events[1..]);
      RunsJoin(x.session, EventSteps(x, events[0]), TurnSteps(NextTurn(x, events[0]), events[1..]));
    }
  }

  /**
   A turn with any compactions in it loses nothing for memory: each recorder's outcomes and what it
   still owes are exactly what was due before, followed by what the turn appended, each message once,
   recorded as it was before any reduction.
   */
  lemma CompactingTurnsKeepTheRecord(x: TurnState, events: seq<Event>)
    requires ValidTurn(x, events) && RL.Inv(x.session)
    ensures
      var end := RunTurn(x, events).session;
      && RL.Inv(end)
      && RL.Refs(end.stm) + R.OwedStm(end) == x.session.dueStm + AppendedDuring(events)
      && RL.Refs(end.archive) + R.OwedArchive(end) == x.session.dueArchive + AppendedDuring(events)
  {
    TurnIsASessionRun(x, events);
    RL.RunKeepsInv(x.session, TurnSteps(x, events));
    RL.DueIsWhatWasAppended(x.session, TurnSteps(x, events));
  }
}
