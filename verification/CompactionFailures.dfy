/** When the failures of a summary model stop the compaction from asking it, over any turn. */
module CompactionFailures {
  import opened CompactionPolicy
  import opened CompactionPolicyLaws
  import opened Messages
  import R = Recording
  import opened Sequences

  // ---- How often a model that never succeeds is asked ----

  ghost predicate NeverSummarizes(c: Compactor)
  {
    forall s: R.State, req: Request, digestOnly: bool :: c.run(s, req, digestOnly).report.source != Some(Model)
  }

  ghost predicate NeverSucceeds(e: Event)
  {
    && (e.Compaction? ==> NeverSummarizes(e.c))
    && (e.Collect? && e.f.Finished? ==> e.f.report.source != Some(Model))
  }

  /** The attempts a failing model can be asked for: two, one while a background one runs, and those never booked. */
  function AskedAtMost(x: TurnState): nat
  {
    MAX_FAILURES + x.unbooked + (if Deferrals(x.log) > 0 then 1 else 0)
  }

  ghost predicate FailuresCounted(x: TurnState)
  {
    && Unasked(x.log) <= Attempts(x.log) <= x.policy.failures + Pending(x) + x.unbooked
    && Unasked(x.log) <= AskedAtMost(x)
    && (Pending(x) == 1 ==> Deferrals(x.log) > 0)
  }

  lemma CompactionKeepsFailures(x: TurnState, req: Request, c: Compactor, t: Tools)
    requires FailuresCounted(x) && Allowed(x, Compaction(req, c, t)) && NeverSummarizes(c)
    ensures FailuresCounted(NextTurn(x, Compaction(req, c, t)))
  {
    BookedCounts(x.policy, x.session, req, c, t);
    var d := Decide(x.policy, x.session, req, c, t);
    assert d.Run? ==> c.run(Pruned(x.session, t), req, d.digestOnly).report.source != Some(Model);
    if CallsModel(x.policy, x.session, req, c, t) {
      if !req.manual {
        CallsAreGated(x.policy, x.session, req, c, t);
      }
      OneMore(x.log, Attempt(req, false));
    } else {
      assert NextTurn(x, Compaction(req, c, t)).log == x.log;
    }
  }

  lemma ScheduleKeepsFailures(x: TurnState, c: Compactor, target: nat, background: bool)
    requires FailuresCounted(x) && c.usesLlm
    ensures FailuresCounted(NextTurn(x, Schedule(c, target, background)))
  {
    if MaySchedule(x.policy, x.session, x.flight, c, target, background) {
      DeferralsAreGated(x.policy, x.session, x.flight, c, target, background);
      OneMore(x.log, Attempt(Deferral(target), true));
    }
  }

  lemma CollectKeepsFailures(x: TurnState, f: Finish)
    requires FailuresCounted(x) && Arrives(x.session, x.flight, f)
    requires f.Finished? ==> f.report.source != Some(Model)
    ensures FailuresCounted(NextTurn(x, Collect(f)))
  {
    var y := NextTurn(x, Collect(f));
    assert y.log == x.log && y.policy.failures + y.unbooked == x.policy.failures + x.unbooked + Pending(x);
  }

  lemma EventKeepsFailures(x: TurnState, e: Event)
    requires FailuresCounted(x) && Allowed(x, e) && NeverSucceeds(e)
    ensures FailuresCounted(NextTurn(x, e))
  {
    match e
    case ApiCall => OneMore(x.log, Sent);
    case Session(_) =>
    case Compaction(req, c, t) => CompactionKeepsFailures(x, req, c, t);
    case Schedule(c, target, background) => ScheduleKeepsFailures(x, c, target, background);
    case Collect(f) => CollectKeepsFailures(x, f);
    case Cancel =>
  }

  lemma {:induction false} TurnKeepsFailures(x: TurnState, events: seq<Event>)
    requires FailuresCounted(x) && ValidTurn(x, events)
    requires forall e | e in events :: NeverSucceeds(e)
    ensures FailuresCounted(RunTurn(x, events))
    decreases |events|
  {
    if events != [] {
      EventKeepsFailures(x, events[0]);
      TurnKeepsFailures(NextTurn(x, events[0]), events[1..]);
    }
  }

  /**
   A summary model that only fails is asked at most twice in a turn, however hard the pressure, when no
   summary was left to the background; else once more, and once more for every background summary that was
   cancelled, raised, or ended without a call.
   */
  lemma FailingModelIsAskedTwice(session: R.State, earlier: Option<seq<R.Ref>>, events: seq<Event>)
    requires ValidTurn(Start(session, earlier), events)
    requires forall e | e in events :: NeverSucceeds(e)
    ensures
      var end := RunTurn(Start(session, earlier), events);
      && Unasked(end.log) <= AskedAtMost(end)
      && (Deferrals(end.log) == 0 ==> Unasked(end.log) <= MAX_FAILURES)
  {
    TurnKeepsFailures(Start(session, earlier), events);
    NoDeferralsNoLoss(Start(session, earlier), events);
  }

  /** Only what was left to the background can end unbooked. */
  lemma {:induction false} NoDeferralsNoLoss(x: TurnState, events: seq<Event>)
    requires ValidTurn(x, events)
    requires x.unbooked + Pending(x) <= Deferrals(x.log)
    ensures RunTurn(x, events).unbooked + Pending(RunTurn(x, events)) <= Deferrals(RunTurn(x, events).log)
    decreases |events|
  {
    if events != [] {
      EventKeepsDeferrals(x, events[0]);
      NoDeferralsNoLoss(NextTurn(x, events[0]), events[1..]);
    }
  }

  lemma CompactionKeepsDeferrals(x: TurnState, req: Request, c: Compactor, t: Tools)
    requires Allowed(x, Compaction(req, c, t))
    ensures
      var y := NextTurn(x, Compaction(req, c, t));
      Deferrals(y.log) == Deferrals(x.log) && y.unbooked == x.unbooked && y.flight == x.flight
  {
    if CallsModel(x.policy, x.session, req, c, t) {
      OneMore(x.log, Attempt(req, false));
    } else {
      assert NextTurn(x, Compaction(req, c, t)).log == x.log;
    }
  }

  lemma ScheduleKeepsDeferrals(x: TurnState, c: Compactor, target: nat, background: bool)
    requires c.usesLlm && x.unbooked + Pending(x) <= Deferrals(x.log)
    ensures
      var y := NextTurn(x, Schedule(c, target, background));
      y.unbooked + Pending(y) <= Deferrals(y.log)
  {
    OneMore(x.log, Attempt(Deferral(target), true));
  }

  lemma EventKeepsDeferrals(x: TurnState, e: Event)
    requires Allowed(x, e) && x.unbooked + Pending(x) <= Deferrals(x.log)
    ensures NextTurn(x, e).unbooked + Pending(NextTurn(x, e)) <= Deferrals(NextTurn(x, e).log)
  {
    match e
    case ApiCall => OneMore(x.log, Sent);
    case Compaction(req, c, t) => CompactionKeepsDeferrals(x, req, c, t);
    case Schedule(c, target, background) => ScheduleKeepsDeferrals(x, c, target, background);
    case _ =>
  }

  /** A compactor whose model never answers. */
  function Unreachable(): Compactor
  {
    Compactor(true, (s: R.State) => None,
      (s: R.State, req: Request, digestOnly: bool) =>
        Raised(Report(if digestOnly then 0 else 1, if digestOnly then None else Some(Unavailable))))
  }

  lemma UnreachableIsAllowed()
    ensures Sound(Unreachable()) && Obedient(Unreachable()) && NeverSummarizes(Unreachable())
  {
  }

  // ---- The failures the counter holds ----

  /** Attempts that failed since the last one that succeeded. */
  function FailedSince(ends: seq<End>): nat
  {
    if ends == [] || ends[|ends| - 1].Success? then 0 else FailedSince(ends[..|ends| - 1]) + 1
  }

  /** Those of them that the turn booked: all but the background summaries that raised. */
  function BookedSince(ends: seq<End>): nat
  {
    if ends == [] || ends[|ends| - 1].Success? then 0
    else BookedSince(ends[..|ends| - 1]) + (if ends[|ends| - 1].Failure? then 1 else 0)
  }

  lemma OneMoreEnd(ends: seq<End>, e: End)
    ensures BookedSince(ends + [e]) == if e.Success? then 0 else BookedSince(ends) + (if e.Failure? then 1 else 0)
    ensures FailedSince(ends + [e]) == if e.Success? then 0 else FailedSince(ends) + 1
  {
    assert (ends + [e])[..|ends|] == ends;
  }

  /** The counter holds the booked failures, and the request marker never runs ahead. */
  ghost predicate Honest(x: TurnState)
  {
    && x.policy.failures == BookedSince(x.ends)
    && (x.policy.summarizedAt.Some? ==> x.policy.summarizedAt.value <= x.policy.apiCalls)
  }

  lemma EndsGrow(ends: seq<End>, more: seq<End>)
    requires |more| <= 1
    ensures BookedSince(ends + more) ==
      if more == [] || more[0].Raise? then BookedSince(ends)
      else if more[0].Success? then 0 else BookedSince(ends) + 1
  {
    if more == [] {
      NothingAdded(ends);
    } else {
      assert more == [more[0]];
      OneMoreEnd(ends, more[0]);
    }
  }

  lemma CompactionKeepsHonest(x: TurnState, req: Request, c: Compactor, t: Tools)
    requires Honest(x) && Allowed(x, Compaction(req, c, t))
    ensures Honest(NextTurn(x, Compaction(req, c, t)))
  {
    EndsGrow(x.ends, EndOfRun(x.policy, x.session, req, c, t));
  }

  lemma CollectKeepsHonest(x: TurnState, f: Finish)
    requires Honest(x) && Arrives(x.session, x.flight, f)
    ensures Honest(NextTurn(x, Collect(f)))
  {
    EndsGrow(x.ends, if Pending(x) == 1 then FinishOf(f) else []);
  }

  lemma EventKeepsHonest(x: TurnState, e: Event)
    requires Honest(x) && Allowed(x, e)
    ensures Honest(NextTurn(x, e))
  {
    match e
    case Compaction(req, c, t) => CompactionKeepsHonest(x, req, c, t);
    case Collect(f) => CollectKeepsHonest(x, f);
    case _ =>
  }

  lemma {:induction false} TurnKeepsHonest(x: TurnState, events: seq<Event>)
    requires Honest(x) && ValidTurn(x, events)
    ensures Honest(RunTurn(x, events))
    decreases |events|
  {
    if events != [] {
      EventKeepsHonest(x, events[0]);
      TurnKeepsHonest(NextTurn(x, events[0]), events[1..]);
    }
  }

  // ---- When soft pressure goes on asking ----

  predicate IsSoftEvent(e: Event)
  {
    e.Schedule? || (e.Compaction? && !e.req.hard && !e.req.manual)
  }

  /** After one more request, soft pressure can have the model asked again. */
  ghost predicate SoftPressureGoesOn(x: TurnState)
  {
    var y := NextTurn(x, ApiCall);
    exists e | IsSoftEvent(e) && Allowed(y, e) :: Attempts(NextTurn(y, e).log) > Attempts(y.log)
  }

  const SOFT := Request(false, false, None)

  lemma SoftAttemptIsGated(x: TurnState, e: Event)
    requires IsSoftEvent(e) && Allowed(x, e) && Attempts(NextTurn(x, e).log) > Attempts(x.log)
    ensures x.policy.failures < MAX_FAILURES
  {
    NothingAdded(x.log);
    if e.Schedule? {
      if MaySchedule(x.policy, x.session, x.flight, e.c, e.target, e.background) {
        DeferralsAreGated(x.policy, x.session, x.flight, e.c, e.target, e.background);
      }
    } else if CallsModel(x.policy, x.session, e.req, e.c, e.t) {
      CallsAreGated(x.policy, x.session, e.req, e.c, e.t);
    }
  }

  lemma SoftAttemptGoesThrough(x: TurnState)
    requires x.policy.summaries < MAX_SUMMARIES && x.policy.failures < MAX_FAILURES
    requires !SummarizedForThisCall(x.policy)
    ensures
      var e := Compaction(SOFT, Unreachable(), NoRelief());
      Allowed(x, e) && Attempts(NextTurn(x, e).log) == Attempts(x.log) + 1
  {
    UnreachableIsAllowed();
    var c, t := Unreachable(), NoRelief();
    assert Decide(x.policy, x.session, SOFT, c, t) == Run(false);
    OneMore(x.log, Attempt(SOFT, false));
  }

  /**
   The documentation promises that soft pressure stops calling the model after two failed attempts. At any
   point of any turn with attempts left, it goes on if and only if fewer than two failures since the last
   success were booked; a background summary that raises is a failure nobody books.
   */
  lemma SoftPressureStopsAfterTwoBookedFailures(session: R.State, earlier: Option<seq<R.Ref>>, events: seq<Event>)
    requires ValidTurn(Start(session, earlier), events)
    requires Attempts(RunTurn(Start(session, earlier), events).log) < MAX_SUMMARIES
    ensures
      var x := RunTurn(Start(session, earlier), events);
      SoftPressureGoesOn(x) <==> BookedSince(x.ends) < MAX_FAILURES
  {
    TurnKeepsCounted(Start(session, earlier), events);
    TurnKeepsHonest(Start(session, earlier), events);
    var x := RunTurn(Start(session, earlier), events);
    if x.policy.failures < MAX_FAILURES {
      GoesOn(x);
    } else {
      Stops(x);
    }
  }

  lemma GoesOn(x: TurnState)
    requires Honest(x) && x.policy.failures < MAX_FAILURES && x.policy.summaries < MAX_SUMMARIES
    ensures SoftPressureGoesOn(x)
  {
    var e := Compaction(SOFT, Unreachable(), NoRelief());
    SoftAttemptGoesThrough(NextTurn(x, ApiCall));
    assert IsSoftEvent(e) && Allowed(NextTurn(x, ApiCall), e);
  }

  lemma Stops(x: TurnState)
    requires x.policy.failures >= MAX_FAILURES
    ensures !SoftPressureGoesOn(x)
  {
    var y := NextTurn(x, ApiCall);
    forall e | IsSoftEvent(e) && Allowed(y, e) ensures Attempts(NextTurn(y, e).log) <= Attempts(y.log) {
      if Attempts(NextTurn(y, e).log) > Attempts(y.log) {
        SoftAttemptIsGated(y, e);
      }
    }
  }

  /** Below the limits, with nothing in flight, the summary is left to the background. */
  lemma ScheduleAsks(x: TurnState)
    requires x.flight.None? && x.session.messages != [] && !SummarizedForThisCall(x.policy)
    requires x.policy.summaries < MAX_SUMMARIES && x.policy.failures < MAX_FAILURES
    ensures
      var y := NextTurn(x, Schedule(Unreachable(), 0, false));
      && y == x.(policy := Ahead(x.policy), flight := Some(Flight(true, x.session.messages)),
                 log := x.log + [Attempt(Deferral(0), true)])
      && Unasked(y.log) == Unasked(x.log) + 1
  {
    OneMore(x.log, Attempt(Deferral(0), true));
  }

  /** One round: the summary in the background raises, and another request goes out. */
  function RaisedRound(): seq<Event> { [Schedule(Unreachable(), 0, false), Collect(Broken), ApiCall] }

  /** The state after such a round. */
  function Round(x: TurnState): TurnState
  {
    x.(policy := Noted(Ahead(x.policy)), log := x.log + [Attempt(Deferral(0), true)] + [Sent],
       unbooked := x.unbooked + 1, ends := x.ends + [Raise])
  }

  lemma RaisedRoundAsks(x: TurnState, rest: seq<Event>)
    requires x.flight.None? && x.session.messages != [] && !SummarizedForThisCall(x.policy)
    requires x.policy.summaries < MAX_SUMMARIES && x.policy.failures < MAX_FAILURES
    requires ValidTurn(Round(x), rest)
    ensures ValidTurn(x, RaisedRound() + rest) && RunTurn(x, RaisedRound() + rest) == RunTurn(Round(x), rest)
    ensures Unasked(Round(x).log) == Unasked(x.log) + 1
  {
    ScheduleAsks(x);
    var first := Schedule(Unreachable(), 0, false);
    var a := NextTurn(x, first);
    var b := NextTurn(a, Collect(Broken));
    OneMore(a.log, Sent);
    OneEvent(b, ApiCall, rest);
    OneEvent(a, Collect(Broken), [ApiCall] + rest);
    OneEvent(x, first, [Collect(Broken)] + ([ApiCall] + rest));
    assert RaisedRound() + rest == [first] + ([Collect(Broken)] + ([ApiCall] + rest));
  }

  ghost predicate AllFail(events: seq<Event>)
  {
    forall e | e in events :: NeverSucceeds(e)
  }

  /**
   The failed promise: two background summaries that raise are two failed attempts, and soft pressure asks the
   model a third time.
   */
  lemma RaisedSummariesDoNotStopSoftPressure(session: R.State)
    requires session.messages != []
    ensures
      var before := RaisedRound() + (RaisedRound() + []);
      var events := RaisedRound() + (RaisedRound() + [Schedule(Unreachable(), 0, false)]);
      var s := Start(session, None);
      && ValidTurn(s, before) && FailedSince(RunTurn(s, before).ends) == 2
      && ValidTurn(s, events) && AllFail(events) && Unasked(RunTurn(s, events).log) == 3
  {
    var s, last := Start(session, None), Schedule(Unreachable(), 0, false);
    var y, z := Round(s), Round(Round(s));
    RaisedRoundAsks(y, []);
    RaisedRoundAsks(s, RaisedRound() + []);
    OneMoreEnd([], Raise);
    OneMoreEnd([Raise], Raise);
    assert z.ends == [Raise] + [Raise];
    ScheduleAsks(z);
    OneEvent(z, last, []);
    assert [last] + [] == [last];
    RaisedRoundAsks(y, [last]);
    RaisedRoundAsks(s, RaisedRound() + [last]);
  }

  // ---- When a failing model is asked more than twice ----

  /** However it fails, some course of the turn has it asked more than twice without anybody asking. */
  ghost predicate CanExceed(x: TurnState)
  {
    exists events | ValidTurn(x, events) && AllFail(events) :: Unasked(RunTurn(x, events).log) > MAX_FAILURES
  }

  lemma NoMoreAskedAtOnce(x: TurnState, e: Event)
    requires x.policy.failures >= MAX_FAILURES && Allowed(x, e) && NeverSucceeds(e)
    ensures NextTurn(x, e).policy.failures >= MAX_FAILURES
    ensures Unasked(NextTurn(x, e).log) == Unasked(x.log)
  {
    match e
    case ApiCall => OneMore(x.log, Sent);
    case Compaction(req, c, t) => NoMoreCompacted(x, req, c, t);
    case Schedule(c, target, background) => assert !MaySchedule(x.policy, x.session, x.flight, c, target, background);
    case _ =>
  }

  lemma NoMoreCompacted(x: TurnState, req: Request, c: Compactor, t: Tools)
    requires x.policy.failures >= MAX_FAILURES && Sound(c) && Obedient(c) && NeverSummarizes(c)
    ensures
      var y := NextTurn(x, Compaction(req, c, t));
      y.policy.failures >= MAX_FAILURES && Unasked(y.log) == Unasked(x.log)
  {
    BookedCounts(x.policy, x.session, req, c, t);
    var d := Decide(x.policy, x.session, req, c, t);
    assert d.Run? ==> c.run(Pruned(x.session, t), req, d.digestOnly).report.source != Some(Model);
    OneMore(x.log, Attempt(req, false));
    if CallsModel(x.policy, x.session, req, c, t) {
      if !req.manual {
        CallsAreGated(x.policy, x.session, req, c, t);
      }
    } else {
      NothingAdded(x.log);
    }
  }

  lemma {:induction false} NoMoreAsked(x: TurnState, events: seq<Event>)
    requires x.policy.failures >= MAX_FAILURES && ValidTurn(x, events) && AllFail(events)
    ensures Unasked(RunTurn(x, events).log) == Unasked(x.log)
    decreases |events|
  {
    if events != [] {
      NoMoreAskedAtOnce(x, events[0]);
      NoMoreAsked(NextTurn(x, events[0]), events[1..]);
    }
  }

  /** Round after round, the model is asked as often as there are attempts left. */
  lemma AskedInRounds(x: TurnState, n: nat) returns (events: seq<Event>)
    requires x.flight.None? && x.session.messages != [] && !SummarizedForThisCall(x.policy)
    requires x.policy.summaries + n <= MAX_SUMMARIES && x.policy.failures < MAX_FAILURES
    ensures ValidTurn(x, events) && AllFail(events) && Unasked(RunTurn(x, events).log) == Unasked(x.log) + n
    decreases n
  {
    events := [];
    if n > 0 {
      var rest := AskedInRounds(Round(x), n - 1);
      RaisedRoundAsks(x, rest);
      events := RaisedRound() + rest;
    }
  }

  lemma {:induction false} Beyond(keys: set<R.Ref>) returns (bound: nat)
    ensures forall k | k in keys :: k < bound
    decreases |keys|
  {
    if keys == {} {
      return 0;
    }
    var k :| k in keys;
    var rest := Beyond(keys - {k});
    assert forall j | j in keys :: j == k || j in keys - {k};
    bound := if k < rest then rest else k + 1;
  }

  /** Something is said. */
  lemma SomethingSaid(x: TurnState) returns (e: Event)
    ensures Allowed(x, e) && NeverSucceeds(e)
    ensures
      var y := NextTurn(x, e);
      y == x.(session := y.session) && y.session.messages != []
  {
    var ref := Beyond(x.session.store.Keys);
    e := Session(R.Append(ref, Message(User, Plain(""))));
  }

  /** The turn goes on with no summary in flight, another request, and a history that is not empty. */
  lemma MadeReady(x: TurnState) returns (events: seq<Event>)
    requires Honest(x)
    ensures ValidTurn(x, events) && AllFail(events)
    ensures
      var y := RunTurn(x, events);
      && y.flight.None? && y.session.messages != [] && !SummarizedForThisCall(y.policy)
      && y.policy.summaries == x.policy.summaries && y.policy.failures == x.policy.failures
      && Unasked(y.log) == Unasked(x.log)
  {
    var a := NextTurn(x, Cancel);
    var b := NextTurn(a, ApiCall);
    OneMore(a.log, Sent);
    var said := SomethingSaid(b);
    OneEvent(b, said, []);
    OneEvent(a, ApiCall, [said] + []);
    OneEvent(x, Cancel, [ApiCall] + ([said] + []));
    events := [Cancel] + ([ApiCall] + ([said] + []));
  }

  lemma {:induction false} TurnsJoin(x: TurnState, a: seq<Event>, b: seq<Event>)
    requires ValidTurn(x, a) && ValidTurn(RunTurn(x, a), b)
    ensures ValidTurn(x, a + b) && RunTurn(x, a + b) == RunTurn(RunTurn(x, a), b)
    decreases |a|
  {
    if a == [] {
      assert a + b == b;
    } else {
      FirstOfJoin(a, b);
      TurnsJoin(NextTurn(x, a[0]), a[1..], b);
    }
  }

  /**
   At any point of any turn that has asked at most twice and has attempts enough left: a model that only fails
   can still be asked a third time if and only if fewer than two failures are booked.
   */
  lemma FailingModelIsAskedMoreThanTwice(session: R.State, earlier: Option<seq<R.Ref>>, events: seq<Event>)
    requires ValidTurn(Start(session, earlier), events)
    requires
      var x := RunTurn(Start(session, earlier), events);
      Unasked(x.log) <= MAX_FAILURES && Attempts(x.log) + (MAX_FAILURES + 1 - Unasked(x.log)) <= MAX_SUMMARIES
    ensures
      var x := RunTurn(Start(session, earlier), events);
      CanExceed(x) <==> BookedSince(x.ends) < MAX_FAILURES
  {
    var x := RunTurn(Start(session, earlier), events);
    TurnKeepsCounted(Start(session, earlier), events);
    TurnKeepsHonest(Start(session, earlier), events);
    if x.policy.failures < MAX_FAILURES {
      var first := MadeReady(x);
      var more := AskedInRounds(RunTurn(x, first), MAX_FAILURES + 1 - Unasked(x.log));
      TurnsJoin(x, first, more);
      assert AllFail(first + more);
    } else {
      forall more | ValidTurn(x, more) && AllFail(more) ensures Unasked(RunTurn(x, more).log) == Unasked(x.log) {
        NoMoreAsked(x, more);
      }
    }
  }
}
