/**
 When a compaction may call the summary model, and what one compaction does, step by step
 (src/xgen_agent_runtime/core/compaction.py). Token estimates, the plan, the reducers and the
 compactor itself are arbitrary functions of the session.
 */
module CompactionPolicy {
  import opened Messages
  import R = Recording

  const MAX_SUMMARIES := 6
  const MAX_FAILURES := 2

  /** The turn's compaction counters; all absent at the start of a turn. */
  datatype Policy = Policy(apiCalls: nat, summarizedAt: Option<nat>, summaries: nat, failures: nat)

  const FRESH := Policy(0, None, 0, 0)

  /** Why the compactor's own plan is not worth a model call. */
  datatype PlanReason = NothingToSummarize | RegionTooSmall

  datatype Skip =
    | TurnLimit | ModelFailing | AlreadySummarized | BackgroundRunning | Planned(reason: PlanReason) | NoChange

  datatype Source = Model | Digest | Unavailable

  /** What a compactor reports of its run: summary calls made, and what replaced the history. */
  datatype Report = Report(calls: nat, source: Option<Source>)

  datatype Outcome =
    | Raised(report: Report)
    | Done(report: Report, after: seq<R.Ref>, made: map<R.Ref, Message>)

  datatype Request = Request(manual: bool, hard: bool, target: Option<nat>)

  datatype Compactor = Compactor(
    usesLlm: bool, plan: R.State -> Option<PlanReason>, run: (R.State, Request, bool) -> Outcome)

  /** A message rewritten in place. */
  datatype Change = Change(ref: R.Ref, content: Message)

  datatype Tools = Tools(
    estimate: R.State -> nat, defaultTarget: nat, background: bool,
    prune: R.State -> seq<Change>, relieve: R.State -> seq<Change>)

  datatype Result = Result(
    ok: bool, skipped: Option<Skip>, before: nat, after: nat, replaced: nat,
    saved: nat, tokens: nat, targetMet: bool, summarized: bool)

  // ---- The gate and the counters ----

  predicate SummarizedForThisCall(p: Policy) { p.summarizedAt == Some(p.apiCalls) }

  /** Why a model-backed compactor must not run now, if there is a reason. */
  function Gate(p: Policy, usesLlm: bool, req: Request, background: bool, plan: Option<PlanReason>): Option<Skip>
  {
    if !usesLlm || req.manual then None
    else if !req.hard && p.summaries >= MAX_SUMMARIES then Some(TurnLimit)
    else if !req.hard && p.failures >= MAX_FAILURES then Some(ModelFailing)
    else if !req.hard && SummarizedForThisCall(p) then Some(AlreadySummarized)
    else if !req.hard && background then Some(BackgroundRunning)
    else if plan.Some? then Some(Planned(plan.value))
    else if req.hard && p.summaries >= MAX_SUMMARIES then Some(TurnLimit)
    else if req.hard && p.failures >= MAX_FAILURES then Some(ModelFailing)
    else None
  }

  predicate IsLimit(skip: Option<Skip>) { skip == Some(TurnLimit) || skip == Some(ModelFailing) }

  function Noted(p: Policy): Policy { p.(apiCalls := p.apiCalls + 1) }

  function Booked(p: Policy, usesLlm: bool, report: Report): Policy
  {
    if !usesLlm || (report.calls == 0 && report.source.None?) then p
    else
      Policy(p.apiCalls, Some(p.apiCalls), p.summaries + (if report.calls > 0 then 1 else 0),
        if report.source == Some(Model) then 0
        else if report.calls > 0 || report.source == Some(Unavailable) then p.failures + 1
        else p.failures)
  }

  // ---- One compaction ----

  predicate Applies(s: R.State, c: Change) { c.ref in s.messages && c.ref in s.store }

  function Rewritten(s: R.State, changes: seq<Change>): R.State
    decreases |changes|
  {
    if changes == [] then s
    else if Applies(s, changes[0]) then Rewritten(R.Next(s, R.Reduce(changes[0].ref, changes[0].content)), changes[1..])
    else Rewritten(s, changes[1..])
  }

  /** What the compaction decides before any compactor runs. */
  datatype Decision = PruneSuffices | Declined(skip: Skip) | Run(digestOnly: bool)

  function Target(req: Request, t: Tools): nat { if req.target.Some? then req.target.value else t.defaultTarget }

  function Pruned(s: R.State, t: Tools): R.State { Rewritten(s, t.prune(s)) }

  function Decide(p: Policy, s: R.State, req: Request, c: Compactor, t: Tools): Decision
  {
    var pruned := Pruned(s, t);
    if req.target.Some? && !req.manual && t.estimate(pruned) <= req.target.value then PruneSuffices
    else
      var skip := Gate(p, c.usesLlm, req, t.background, c.plan(pruned));
      if req.hard && IsLimit(skip) then Run(true) else if skip.Some? then Declined(skip.value) else Run(false)
  }

  /** The compactor's list is installed when it differs, by identity, from the list that was there. */
  function Installed(s: R.State, o: Outcome): R.State
    requires o.Done? ==> R.Enabled(s, R.Compact(o.after, o.made))
  {
    if o.Done? && o.after != s.messages then R.Next(s, R.Compact(o.after, o.made)) else s
  }

  function Relieved(s: R.State, req: Request, t: Tools): R.State
  {
    if req.hard then Rewritten(s, t.relieve(s)) else s
  }

  /** The session a compactor hands back is made of messages that exist. */
  ghost predicate Sound(c: Compactor)
  {
    forall s: R.State, req: Request, digestOnly: bool ::
      var o := c.run(s, req, digestOnly);
      o.Done? ==> R.Enabled(s, R.Compact(o.after, o.made))
  }

  /** It makes no model call when told to digest only, and none at all when it is not model-backed. */
  ghost predicate Obedient(c: Compactor)
  {
    forall s: R.State, req: Request, digestOnly: bool | digestOnly || !c.usesLlm ::
      c.run(s, req, digestOnly).report.calls == 0
  }

  /** Policy and session after one compaction. */
  ghost function Compacted(p: Policy, s: R.State, req: Request, c: Compactor, t: Tools): (Policy, R.State)
    requires Sound(c)
  {
    var pruned := Pruned(s, t);
    match Decide(p, s, req, c, t)
    case PruneSuffices => (p, pruned)
    case Declined(_) => (p, Relieved(pruned, req, t))
    case Run(digestOnly) =>
      var o := c.run(pruned, req, digestOnly);
      (Booked(p, c.usesLlm, o.report), Relieved(Installed(pruned, o), req, t))
  }

  /** Did the compactor replace the list? */
  function Replaced(p: Policy, s: R.State, req: Request, c: Compactor, t: Tools): bool
  {
    var d := Decide(p, s, req, c, t);
    d.Run? && var o := c.run(Pruned(s, t), req, d.digestOnly); o.Done? && o.after != Pruned(s, t).messages
  }

  function Failed(p: Policy, s: R.State, req: Request, c: Compactor, t: Tools): bool
  {
    var d := Decide(p, s, req, c, t);
    d.Run? && c.run(Pruned(s, t), req, d.digestOnly).Raised?
  }

  // ---- A summary made in the background (src/xgen_agent_runtime/stages/s02_context) ----

  /** A summary in flight: the history it is made of, and whether this turn scheduled it. */
  datatype Flight = Flight(ofThisTurn: bool, snapshot: seq<R.Ref>)

  /** How its task ended: cancelled or raised, or with a report and the list that takes the snapshot's place. */
  datatype Finish = Broken | Finished(report: Report, head: seq<R.Ref>, made: map<R.Ref, Message>)

  function Deferral(target: nat): Request { Request(false, false, Some(target)) }

  /** One at a time, never of an empty history, and only when a soft summary may run. */
  predicate MaySchedule(p: Policy, s: R.State, flight: Option<Flight>, c: Compactor, target: nat, background: bool)
  {
    && flight.None? && s.messages != []
    && Gate(p, c.usesLlm, Deferral(target), background, c.plan(s)).None?
  }

  /** The attempt counts when it is scheduled, whether or not its result is ever applied. */
  function Ahead(p: Policy): Policy { p.(summarizedAt := Some(p.apiCalls), summaries := p.summaries + 1) }

  /** What is in flight after the check: what was, or a summary of the history as it stands. */
  function InFlight(p: Policy, s: R.State, flight: Option<Flight>, c: Compactor, target: nat,
      background: bool): Option<Flight>
  {
    if MaySchedule(p, s, flight, c, target, background) then Some(Flight(true, s.messages)) else flight
  }

  /** Success or failure is booked only in the turn that scheduled the summary. */
  function Settled(p: Policy, flight: Flight, f: Finish): Policy
  {
    if f.Broken? || !flight.ofThisTurn || f.report.calls == 0 then p
    else p.(failures := if f.report.source == Some(Model) then 0 else p.failures + 1)
  }

  /** The result applies while the history still begins with the snapshot, and only if it is shorter. */
  predicate Fits(s: R.State, flight: Flight, f: Finish)
  {
    f.Finished? && flight.snapshot != [] && flight.snapshot <= s.messages && |f.head| < |flight.snapshot|
  }

  /** What was said since the snapshot stands behind the summary. */
  function Swapped(s: R.State, flight: Flight, f: Finish): seq<R.Ref>
    requires Fits(s, flight, f)
  {
    f.head + s.messages[|flight.snapshot|..]
  }

  predicate Arrives(s: R.State, flight: Option<Flight>, f: Finish)
  {
    flight.Some? && (Fits(s, flight.value, f) ==> R.Enabled(s, R.Compact(Swapped(s, flight.value, f), f.made)))
  }

  function Collected(p: Policy, s: R.State, flight: Flight, f: Finish): (Policy, R.State)
    requires Arrives(s, Some(flight), f)
  {
    var q := Settled(p, flight, f);
    if Fits(s, flight, f) then
      (q.(summarizedAt := Some(q.apiCalls)), R.Next(s, R.Compact(Swapped(s, flight, f), f.made)))
    else (q, s)
  }

  function Saved(before: nat, now: nat): nat { if before > now then before - now else 0 }

  function Reported(session: R.State, before: nat, beforeTokens: nat, req: Request, t: Tools,
      skipped: Option<Skip>, ok: bool): Result
  {
    var now := t.estimate(session);
    Result(ok, skipped, before, |session.messages|, 0, Saved(beforeTokens, now), now, now <= Target(req, t), false)
  }

  // ---- The runner: fields of the turn's shared dictionary, updated as the steps go ----

  class Turn {
    var apiCalls: nat
    var summarizedAt: Option<nat>
    var summaries: nat
    var failures: nat
    var session: R.State
    var flight: Option<Flight>

    /** A turn begins; a summary an earlier one scheduled may still be in flight. */
    constructor (session: R.State, flight: Option<Flight>)
      ensures Abs() == FRESH && this.session == session && this.flight == flight
    {
      apiCalls, summarizedAt, summaries, failures := 0, None, 0, 0;
      this.session, this.flight := session, flight;
    }

    function Abs(): Policy
      reads this
    {
      Policy(apiCalls, summarizedAt, summaries, failures)
    }

    /** Stage 6: one more request went out. */
    method NoteApiCall()
      modifies `apiCalls
      ensures Abs() == Noted(old(Abs())) && apiCalls == old(apiCalls) + 1
    {
      apiCalls := apiCalls + 1;
    }

    method CountAttempt(usesLlm: bool, report: Report)
      modifies `summarizedAt, `summaries, `failures
      ensures Abs() == Booked(old(Abs()), usesLlm, report)
    {
      if !usesLlm || (report.calls == 0 && report.source.None?) {
        return;
      }
      summarizedAt := Some(apiCalls);
      if report.calls > 0 {
        summaries := summaries + 1;
      }
      if report.source == Some(Model) {
        failures := 0;
      } else if report.calls > 0 || report.source == Some(Unavailable) {
        failures := failures + 1;
      }
    }

    /** Rewrites messages one after the other, each after its original was kept. */
    method Rewrite(changes: seq<Change>)
      modifies `session
      ensures session == Rewritten(old(session), changes)
    {
      var i := 0;
      while i < |changes|
        invariant 0 <= i <= |changes|
        invariant Rewritten(session, changes[i..]) == Rewritten(old(session), changes)
      {
        assert changes[i..][1..] == changes[i + 1..];
        if Applies(session, changes[i]) {
          session := R.Next(session, R.Reduce(changes[i].ref, changes[i].content));
        }
        i := i + 1;
      }
    }

    /** The deterministic prune, then the decision whether the compactor may run. */
    method PruneAndDecide(req: Request, c: Compactor, t: Tools) returns (d: Decision)
      modifies `session
      ensures session == Pruned(old(session), t) && session.messages == old(session).messages
      ensures d == Decide(Abs(), old(session), req, c, t)
    {
      RewritingKeepsTheList(session, t.prune(session));
      Rewrite(t.prune(session));
      if req.target.Some? && !req.manual && t.estimate(session) <= req.target.value {
        return PruneSuffices;
      }
      var skip, digestOnly := Gate(Abs(), c.usesLlm, req, t.background, c.plan(session)), false;
      if req.hard && IsLimit(skip) {
        skip, digestOnly := None, true;
      }
      d := if skip.Some? then Declined(skip.value) else Run(digestOnly);
    }

    /** One run of the compactor: book it, and install its list when it brought another one. */
    method RunCompactor(req: Request, c: Compactor, digestOnly: bool) returns (failed: bool, changed: bool)
      requires Sound(c)
      modifies `summarizedAt, `summaries, `failures, `session
      ensures
        var o := c.run(old(session), req, digestOnly);
        && Abs() == Booked(old(Abs()), c.usesLlm, o.report) && session == Installed(old(session), o)
        && failed == o.Raised? && changed == (o.Done? && o.after != old(session).messages)
        && session.messages == if changed then o.after else old(session).messages
    {
      var o := c.run(session, req, digestOnly);
      CountAttempt(c.usesLlm, o.report);
      failed, changed := o.Raised?, o.Done? && o.after != session.messages;
      if changed {
        session := R.Next(session, R.Compact(o.after, o.made));
      }
    }

    /** Prune, compactor if it may run, relief if the pressure is hard. */
    method Compact(req: Request, c: Compactor, t: Tools) returns (d: Decision, failed: bool, changed: bool)
      requires Sound(c)
      modifies `summarizedAt, `summaries, `failures, `session
      ensures (Abs(), session) == Compacted(old(Abs()), old(session), req, c, t)
      ensures d == Decide(old(Abs()), old(session), req, c, t)
      ensures failed == Failed(old(Abs()), old(session), req, c, t)
      ensures changed == Replaced(old(Abs()), old(session), req, c, t)
      ensures changed <==> session.messages != old(session).messages
    {
      failed, changed := false, false;
      d := PruneAndDecide(req, c, t);
      if d.PruneSuffices? || (d.Declined? && !req.hard) {
        return;
      }
      if d.Run? {
        failed, changed := RunCompactor(req, c, d.digestOnly);
      }
      Relieve(req, t);
    }

    method RunCompaction(req: Request, c: Compactor, t: Tools) returns (r: Result)
      requires Sound(c)
      modifies `summarizedAt, `summaries, `failures, `session
      ensures (Abs(), session) == Compacted(old(Abs()), old(session), req, c, t)
      ensures r.before == |old(session).messages| && r.after == |session.messages|
      ensures r.tokens == t.estimate(session)
      ensures
        var was := t.estimate(old(session));
        r.saved == if was > r.tokens then was - r.tokens else 0
      ensures r.targetMet <==> r.tokens <= if req.target.Some? then req.target.value else t.defaultTarget
      ensures r.summarized <==> session.messages != old(session).messages
      ensures r.replaced == if r.summarized && r.before > r.after then r.before - r.after else 0
      ensures
        var d := Decide(old(Abs()), old(session), req, c, t);
        var raised := d.Run? && c.run(Pruned(old(session), t), req, d.digestOnly).Raised?;
        && (r.ok <==> !raised || r.tokens < t.estimate(old(session)))
        && (r.skipped.Some? <==>
              && !raised && !r.summarized && !d.PruneSuffices?
              && (r.tokens >= t.estimate(old(session)) || (d.Declined? && !req.hard)))
        && (r.skipped.Some? ==> r.skipped == Some(if d.Declined? then d.skip else NoChange))
    {
      var before, beforeTokens := |session.messages|, t.estimate(session);
      var d, failed, changed := Compact(req, c, t);
      var now := t.estimate(session);
      if failed {
        return Reported(session, before, beforeTokens, req, t, None, now < beforeTokens);
      }
      if changed {
        r := Reported(session, before, beforeTokens, req, t, None, true);
        return r.(replaced := Saved(before, r.after), summarized := true);
      }
      var reason :=
        if d.PruneSuffices? then None
        else if d.Declined? && !req.hard then Some(d.skip)
        else if now < beforeTokens then None
        else if d.Declined? then Some(d.skip) else Some(NoChange);
      return Reported(session, before, beforeTokens, req, t, reason, true);
    }

    /** Kicks off a summary of the history as it stands, off the hot path. */
    method ScheduleBackground(c: Compactor, target: nat, background: bool)
      modifies `summarizedAt, `summaries, `flight
      ensures flight == InFlight(old(Abs()), session, old(flight), c, target, background)
      ensures Abs() ==
        if MaySchedule(old(Abs()), session, old(flight), c, target, background) then Ahead(old(Abs())) else old(Abs())
    {
      if flight.Some? || |session.messages| == 0 {
        return;
      }
      if Gate(Abs(), c.usesLlm, Deferral(target), background, c.plan(session)).Some? {
        return;
      }
      flight := Some(Flight(true, session.messages));
      summarizedAt, summaries := Some(apiCalls), summaries + 1;
    }

    /** Swaps in a finished background summary, if the history it was made of still stands. */
    method CollectBackground(f: Finish) returns (changed: bool)
      requires Arrives(session, flight, f)
      modifies `summarizedAt, `failures, `session, `flight
      ensures flight == None
      ensures (Abs(), session) == Collected(old(Abs()), old(session), old(flight).value, f)
      ensures changed <==> Fits(old(session), old(flight).value, f)
    {
      var info := flight.value;
      flight := None;
      if f.Broken? {
        return false;
      }
      if f.report.calls > 0 && info.ofThisTurn {
        failures := if f.report.source == Some(Model) then 0 else failures + 1;
      }
      var n := |info.snapshot|;
      if |session.messages| < n || n == 0 || session.messages[..n] != info.snapshot || |f.head| >= n {
        return false;
      }
      session := R.Next(session, R.Compact(f.head + session.messages[n..], f.made));
      summarizedAt := Some(apiCalls);
      changed := true;
    }

    method CancelBackground()
      modifies `flight
      ensures flight == None
    {
      flight := None;
    }

    /** The last-resort relief, only under hard pressure. */
    method Relieve(req: Request, t: Tools)
      modifies `session
      ensures session == Relieved(old(session), req, t) && session.messages == old(session).messages
    {
      if req.hard {
        RewritingKeepsTheList(session, t.relieve(session));
        Rewrite(t.relieve(session));
      }
    }
  }

  lemma {:induction false} RewritingKeepsTheList(s: R.State, changes: seq<Change>)
    ensures Rewritten(s, changes).messages == s.messages
    decreases |changes|
  {
    if changes != [] {
      RewritingKeepsTheList(s, changes[1..]);
      if Applies(s, changes[0]) {
        RewritingKeepsTheList(R.Next(s, R.Reduce(changes[0].ref, changes[0].content)), changes[1..]);
      }
    }
  }
}
