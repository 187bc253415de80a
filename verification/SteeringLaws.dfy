/** Steering loses nothing, over every interleaving of host offers and closes with the turn's checks. */
module SteeringLaws {
  import opened Messages
  import opened Steering

  // ---- What every step keeps ----

  ghost predicate Told(s: State, id: nat, delivered: bool)
  {
    id in s.outcome && s.outcome[id] == delivered
  }

  /** Each outcome was told to the host exactly once. */
  ghost predicate ToldOnce(s: State)
  {
    && (forall i, j | 0 <= i < j < |s.notified| :: s.notified[i].0 != s.notified[j].0)
    && (forall i | 0 <= i < |s.notified| :: Told(s, s.notified[i].0, s.notified[i].1))
    && (forall id | id in s.outcome :: (id, s.outcome[id]) in s.notified)
  }

  /** Every accepted message is queued, taken or rejected, in the order it was accepted. */
  ghost predicate InOrder(s: State)
  {
    && s.accepted == s.taken + s.rejected + s.queue
    && (s.open ==> s.rejected == []) && (!s.open ==> s.queue == [])
  }

  /** A message taken or rejected has an outcome, or somebody is about to tell it. */
  ghost predicate NobodyForgotten(s: State)
  {
    && (forall m | m in s.taken :: m.id in s.outcome || (m, true) in s.turnHand)
    && (forall m | m in s.rejected :: m.id in s.outcome || (m, false) in s.turnHand || m in s.hostHand)
  }

  function Side(s: State, delivered: bool): seq<Steer>
  {
    if delivered then s.taken else s.rejected
  }

  ghost predicate IdAmong(id: nat, list: seq<Steer>)
  {
    exists m: Steer :: m in list && m.id == id
  }

  /** An outcome says what happened to a message with that identity. */
  ghost predicate OutcomesAreTrue(s: State)
  {
    && (forall h | h in s.turnHand :: h.0 in Side(s, h.1))
    && (forall m | m in s.hostHand :: m in s.rejected)
    && (forall id | id in s.outcome :: IdAmong(id, Side(s, s.outcome[id])))
  }

  ghost predicate Inv(s: State)
  {
    && ToldOnce(s) && InOrder(s) && NobodyForgotten(s) && OutcomesAreTrue(s)
    && (s.checked && s.decision == Complete ==> !s.open)
  }

  lemma ResolvedKeeps(s: State, m: Steer, delivered: bool)
    requires ToldOnce(s) && OutcomesAreTrue(s) && m in Side(s, delivered)
    ensures ToldOnce(Resolved(s, m, delivered)) && m.id in Resolved(s, m, delivered).outcome
    ensures OutcomesAreTrue(Resolved(s, m, delivered))
    ensures NobodyForgotten(s) ==> NobodyForgotten(Resolved(s, m, delivered))
  {
    var t := Resolved(s, m, delivered);
    if m.id !in s.outcome {
      forall i | 0 <= i < |s.notified| ensures s.notified[i].0 != m.id {
        assert Told(s, s.notified[i].0, s.notified[i].1);
      }
      forall i | 0 <= i < |t.notified| ensures Told(t, t.notified[i].0, t.notified[i].1) {
        if i < |s.notified| {
          assert t.notified[i] == s.notified[i] && Told(s, s.notified[i].0, s.notified[i].1);
        }
      }
      forall id | id in t.outcome ensures (id, t.outcome[id]) in t.notified {
        if id != m.id {
          assert (id, s.outcome[id]) in s.notified;
        } else {
          assert t.notified[|s.notified|] == (m.id, delivered);
        }
      }
      forall id | id in t.outcome
        ensures IdAmong(id, Side(t, t.outcome[id]))
      {
        if id != m.id {
          assert IdAmong(id, Side(s, s.outcome[id]));
        }
      }
    }
  }

  lemma HandShrinks<T>(hand: seq<T>, x: T)
    requires hand != []
    ensures x in hand <==> x == hand[0] || x in hand[1..]
  {
  }

  lemma ResolvedKeepsInv(s: State, m: Steer, delivered: bool)
    requires Inv(s) && m in Side(s, delivered)
    ensures Inv(Resolved(s, m, delivered)) && m.id in Resolved(s, m, delivered).outcome
  {
    ResolvedKeeps(s, m, delivered);
  }

  lemma DropTurnHead(s: State)
    requires Inv(s) && s.turnHand != [] && s.turnHand[0].0.id in s.outcome
    ensures Inv(s.(turnHand := s.turnHand[1..]))
  {
    var t := s.(turnHand := s.turnHand[1..]);
    forall m | m in t.taken ensures m.id in t.outcome || (m, true) in t.turnHand {
      HandShrinks(s.turnHand, (m, true));
    }
    forall m | m in t.rejected ensures m.id in t.outcome || (m, false) in t.turnHand || m in t.hostHand {
      HandShrinks(s.turnHand, (m, false));
    }
    forall id | id in t.outcome ensures IdAmong(id, Side(t, t.outcome[id])) {
      assert IdAmong(id, Side(s, s.outcome[id]));
    }
  }

  lemma TurnResolveKeepsInv(s: State, h: (Steer, bool))
    requires Inv(s) && s.turnHand != [] && h == s.turnHand[0]
    ensures Inv(Resolved(s, h.0, h.1).(turnHand := s.turnHand[1..]))
  {
    assert h in s.turnHand;
    ResolvedKeepsInv(s, h.0, h.1);
    DropTurnHead(Resolved(s, h.0, h.1));
  }

  lemma DropHostHead(s: State)
    requires Inv(s) && s.hostHand != [] && s.hostHand[0].id in s.outcome
    ensures Inv(s.(hostHand := s.hostHand[1..]))
  {
    var t := s.(hostHand := s.hostHand[1..]);
    forall m | m in t.rejected ensures m.id in t.outcome || (m, false) in t.turnHand || m in t.hostHand {
      HandShrinks(s.hostHand, m);
    }
    forall id | id in t.outcome ensures IdAmong(id, Side(t, t.outcome[id])) {
      assert IdAmong(id, Side(s, s.outcome[id]));
    }
  }

  lemma HostResolveKeepsInv(s: State)
    requires Inv(s) && s.hostHand != []
    ensures Inv(Next(s, HostResolve))
  {
    assert s.hostHand[0] in s.hostHand;
    ResolvedKeepsInv(s, s.hostHand[0], false);
    DropHostHead(Resolved(s, s.hostHand[0], false));
  }

  lemma TaggedMembers(batch: seq<Steer>, delivered: bool, m: Steer)
    ensures m in batch <==> (m, delivered) in Tagged(batch, delivered)
    ensures (m, !delivered) !in Tagged(batch, delivered)
  {
    var hand := Tagged(batch, delivered);
    if m in batch {
      var i :| 0 <= i < |batch| && batch[i] == m;
      assert hand[i] == (m, delivered);
    }
    if (m, delivered) in hand {
      var i :| 0 <= i < |hand| && hand[i] == (m, delivered);
    }
  }

  /** What was queued moves on, to the conversation or back to the host. */
  lemma QueueMovesOn(s: State, t: State, delivered: bool)
    requires Inv(s) && s.turnHand == [] && (delivered ==> s.open)
    requires t == s.(queue := [], open := t.open, turnHand := Tagged(s.queue, delivered),
      taken := if delivered then s.taken + s.queue else s.taken,
      rejected := if delivered then s.rejected else s.rejected + s.queue,
      messages := t.messages, decision := t.decision, checked := t.checked)
    requires t.open ==> delivered && s.open
    ensures ToldOnce(t) && InOrder(t) && NobodyForgotten(t) && OutcomesAreTrue(t)
  {
    forall m | m in t.taken ensures m.id in t.outcome || (m, true) in t.turnHand {
      TaggedMembers(s.queue, delivered, m);
    }
    forall m | m in t.rejected ensures m.id in t.outcome || (m, false) in t.turnHand || m in t.hostHand {
      TaggedMembers(s.queue, delivered, m);
    }
    forall h | h in t.turnHand ensures h.0 in Side(t, h.1) {
      TaggedMembers(s.queue, delivered, h.0);
    }
    forall id | id in t.outcome ensures IdAmong(id, Side(t, t.outcome[id])) {
      assert IdAmong(id, Side(s, s.outcome[id]));
    }
  }

  lemma DeliveryKeepsInv(s: State)
    requires Inv(s) && s.turnHand == [] && s.queue != []
    ensures Inv(Delivered(s).(checked := true))
  {
    QueueMovesOn(s, Delivered(s).(checked := true), true);
  }

  lemma RejectionKeepsInv(s: State, stopping: bool)
    requires Inv(s) && s.turnHand == []
    ensures Inv(Taken(s, true, stopping))
  {
    QueueMovesOn(s, Taken(s, true, stopping), false);
  }

  lemma TakeSteerKeepsInv(s: State, singlePass: bool, stopping: bool)
    requires Inv(s) && s.turnHand == []
    ensures Inv(Taken(s, singlePass, stopping))
  {
    if singlePass || stopping {
      RejectionKeepsInv(s, stopping);
    } else if s.queue != [] && (s.decision == Continue || s.decision == Complete) {
      DeliveryKeepsInv(s);
    }
  }

  lemma HostCloseKeepsInv(s: State)
    requires Inv(s)
    ensures Inv(Next(s, HostClose))
  {
    var t := Next(s, HostClose);
    assert t.accepted == t.taken + t.rejected + t.queue;
    forall id | id in t.outcome ensures IdAmong(id, Side(t, t.outcome[id])) {
      assert IdAmong(id, Side(s, s.outcome[id]));
    }
  }

  lemma OfferKeepsInv(s: State, m: Steer)
    requires Inv(s)
    ensures Inv(Next(s, Offer(m)))
  {
  }

  lemma StepKeepsInv(s: State, step: Step)
    requires Inv(s) && Enabled(s, step)
    ensures Inv(Next(s, step))
  {
    match step
    case Offer(m) => OfferKeepsInv(s, m);
    case HostClose => HostCloseKeepsInv(s);
    case HostResolve => HostResolveKeepsInv(s);
    case Pass(_, _) =>
    case TakeSteer(singlePass, stopping) => TakeSteerKeepsInv(s, singlePass, stopping);
    case TurnResolve => TurnResolveKeepsInv(s, s.turnHand[0]);
  }

  lemma {:induction false} RunKeepsInv(s: State, steps: seq<Step>)
    requires Inv(s) && ValidRun(s, steps)
    ensures Inv(Run(s, steps))
    decreases |steps|
  {
    if steps != [] {
      StepKeepsInv(s, steps[0]);
      RunKeepsInv(Next(s, steps[0]), steps[1..]);
    }
  }

  // ---- Main results ----

  /**
   Over every interleaving: a closed inbox is empty; the accepted messages are the ones that went into
   the conversation, then the rejected ones, then the queue, in the order offered; and no message is
   told two outcomes.
   */
  lemma SteeringLosesNothing(messages: seq<Message>, steps: seq<Step>)
    requires ValidRun(Fresh(messages), steps)
    ensures
      var s := Run(Fresh(messages), steps);
      && (!s.open ==> s.queue == [])
      && s.accepted == s.taken + s.rejected + s.queue
      && (forall i, j | 0 <= i < j < |s.notified| :: s.notified[i].0 != s.notified[j].0)
  {
    RunKeepsInv(Fresh(messages), steps);
  }

  /**
   When the turn's check leaves the verdict at "complete" and has told its outcomes, the inbox is closed
   and every accepted message has its outcome, or is in the hands of a host close still in progress.
   */
  lemma CompleteMeansClosedAndResolved(messages: seq<Message>, steps: seq<Step>)
    requires ValidRun(Fresh(messages), steps)
    ensures
      var s := Run(Fresh(messages), steps);
      s.checked && s.decision == Complete && s.turnHand == [] ==>
        && !s.open && s.queue == []
        && forall m | m in s.accepted :: m.id in s.outcome || m in s.hostHand
  {
    RunKeepsInv(Fresh(messages), steps);
    var s := Run(Fresh(messages), steps);
    assert forall m | m in s.accepted :: m in s.taken || m in s.rejected || m in s.queue;
  }

  /** Once the inbox is closed and both sides have told what they hold, every accepted message has one outcome. */
  lemma EveryMessageGetsItsOutcome(messages: seq<Message>, steps: seq<Step>)
    requires ValidRun(Fresh(messages), steps)
    ensures
      var s := Run(Fresh(messages), steps);
      !s.open && s.turnHand == [] && s.hostHand == [] ==> forall m | m in s.accepted :: m.id in s.outcome
  {
    RunKeepsInv(Fresh(messages), steps);
    var s := Run(Fresh(messages), steps);
    assert forall m | m in s.accepted :: m in s.taken || m in s.rejected || m in s.queue;
  }

  // ---- Outcomes and what really happened ----

  /** An accepted offer of an object whose words are in the conversation already. */
  ghost predicate Reoffers(s: State, step: Step)
  {
    step.Offer? && s.open && Strip(step.m.text) != "" && IdAmong(step.m.id, s.taken)
  }

  /** The host never offers again what the turn took. */
  ghost predicate Careful(s: State, steps: seq<Step>)
    requires ValidRun(s, steps)
    decreases |steps|
  {
    steps != [] ==> !Reoffers(s, steps[0]) && Careful(Next(s, steps[0]), steps[1..])
  }

  /** "Delivered" means in the conversation and nothing else; "not delivered" means refused and nothing else. */
  ghost predicate TellsTruth(s: State)
  {
    forall id | id in s.outcome ::
      (s.outcome[id] <==> IdAmong(id, s.taken)) && (!s.outcome[id] <==> IdAmong(id, s.rejected))
  }

  /** No object is both in the conversation and refused, or both in the conversation and still queued. */
  ghost predicate Apart(s: State)
  {
    forall id :: IdAmong(id, s.taken) ==> !IdAmong(id, s.rejected) && !IdAmong(id, s.queue)
  }

  lemma IdAmongBoth(id: nat, a: seq<Steer>, b: seq<Steer>)
    ensures IdAmong(id, a + b) <==> IdAmong(id, a) || IdAmong(id, b)
  {
    assert forall m: Steer :: m in a + b <==> m in a || m in b;
  }

  lemma ApartTellsTruth(s: State)
    requires Inv(s) && Apart(s)
    ensures TellsTruth(s)
  {
    forall id | id in s.outcome
      ensures (s.outcome[id] <==> IdAmong(id, s.taken)) && (!s.outcome[id] <==> IdAmong(id, s.rejected))
    {
      assert IdAmong(id, Side(s, s.outcome[id]));
    }
  }

  lemma OfferKeepsApart(s: State, m: Steer)
    requires Apart(s) && s.open && Strip(m.text) != ""
    ensures Apart(Next(s, Offer(m))) <==> !IdAmong(m.id, s.taken)
  {
    var t := Next(s, Offer(m));
    assert m in [m] && IdAmong(m.id, [m]);
    forall id ensures IdAmong(id, t.queue) <==> IdAmong(id, s.queue) || id == m.id {
      IdAmongBoth(id, s.queue, [m]);
    }
  }

  /** What is queued moves to one side, and a side that is open has refused nothing. */
  lemma MovingKeepsApart(taken: seq<Steer>, rejected: seq<Steer>, queue: seq<Steer>, id: nat)
    requires IdAmong(id, taken) ==> !IdAmong(id, rejected) && !IdAmong(id, queue)
    ensures IdAmong(id, taken) ==> !IdAmong(id, rejected + queue)
    ensures rejected == [] && IdAmong(id, taken + queue) ==> !IdAmong(id, rejected)
  {
    IdAmongBoth(id, taken, queue);
    IdAmongBoth(id, rejected, queue);
  }

  lemma TakenKeepsApart(s: State, singlePass: bool, stopping: bool)
    requires Inv(s) && Apart(s)
    ensures Apart(Taken(s, singlePass, stopping))
  {
    forall id ensures var t := Taken(s, singlePass, stopping);
        IdAmong(id, t.taken) ==> !IdAmong(id, t.rejected) && !IdAmong(id, t.queue) {
      MovingKeepsApart(s.taken, s.rejected, s.queue, id);
    }
  }

  lemma ClosingKeepsApart(s: State)
    requires Apart(s)
    ensures Apart(Next(s, HostClose))
  {
    forall id | IdAmong(id, s.taken) ensures !IdAmong(id, s.rejected + s.queue) {
      MovingKeepsApart(s.taken, s.rejected, s.queue, id);
    }
  }

  /** Nothing but a second offer of a taken object brings an object to both sides. */
  lemma StepKeepsApart(s: State, step: Step)
    requires Inv(s) && Apart(s) && Enabled(s, step) && !Reoffers(s, step)
    ensures Apart(Next(s, step))
  {
    match step
    case Offer(m) =>
      if s.open && Strip(m.text) != "" {
        OfferKeepsApart(s, m);
      }
    case HostClose => ClosingKeepsApart(s);
    case TakeSteer(singlePass, stopping) => TakenKeepsApart(s, singlePass, stopping);
    case _ =>
  }

  lemma {:induction false} CarefulRunsStayApart(s: State, steps: seq<Step>)
    requires Inv(s) && Apart(s) && ValidRun(s, steps) && Careful(s, steps)
    ensures Inv(Run(s, steps)) && Apart(Run(s, steps))
    decreases |steps|
  {
    if steps != [] {
      StepKeepsInv(s, steps[0]);
      StepKeepsApart(s, steps[0]);
      CarefulRunsStayApart(Next(s, steps[0]), steps[1..]);
    }
  }

  /** When the host never offers again what the turn took, every outcome is true. */
  lemma OutcomesTellTheTruth(messages: seq<Message>, steps: seq<Step>)
    requires ValidRun(Fresh(messages), steps) && Careful(Fresh(messages), steps)
    ensures TellsTruth(Run(Fresh(messages), steps))
  {
    CarefulRunsStayApart(Fresh(messages), steps);
    ApartTellsTruth(Run(Fresh(messages), steps));
  }

  // ---- Where a false outcome can come from ----

  /** However the run goes on, if the host stays careful its outcomes are true. */
  ghost predicate StaysTrue(s: State)
  {
    forall more | ValidRun(s, more) && Careful(s, more) :: TellsTruth(Run(s, more))
  }

  ghost predicate AllTold(s: State)
  {
    s.turnHand == [] && s.hostHand == [] && s.queue == []
  }

  lemma OneMore(s: State, step: Step, rest: seq<Step>)
    requires Enabled(s, step) && ValidRun(Next(s, step), rest)
    ensures ValidRun(s, [step] + rest) && Run(s, [step] + rest) == Run(Next(s, step), rest)
    ensures !Reoffers(s, step) && Careful(Next(s, step), rest) ==> Careful(s, [step] + rest)
  {
    assert ([step] + rest)[1..] == rest;
  }

  /** The host closes, and both sides tell what they hold. */
  lemma Settle(s: State) returns (steps: seq<Step>)
    ensures ValidRun(s, steps) && Careful(s, steps)
    ensures
      var t := Run(s, steps);
      AllTold(t) && t.taken == s.taken && t.rejected == s.rejected + s.queue
    decreases |s.queue|, |s.hostHand| + |s.turnHand|
  {
    if AllTold(s) {
      return [];
    }
    var step := if s.queue != [] then HostClose else if s.hostHand != [] then HostResolve else TurnResolve;
    var rest := Settle(Next(s, step));
    OneMore(s, step, rest);
    steps := [step] + rest;
  }

  /** With an object on both sides nobody can tell the truth about it. */
  lemma BothSidesIsALie(s: State, id: nat)
    requires Inv(s) && AllTold(s) && IdAmong(id, s.taken) && IdAmong(id, s.rejected)
    ensures !TellsTruth(s)
  {
    var m: Steer :| m in s.taken && m.id == id;
    assert id in s.outcome;
  }

  lemma NotApartCanLie(s: State)
    requires Inv(s) && !Apart(s)
    ensures !StaysTrue(s)
  {
    var id :| IdAmong(id, s.taken) && (IdAmong(id, s.rejected) || IdAmong(id, s.queue));
    var steps := Settle(s);
    RunKeepsInv(s, steps);
    IdAmongBoth(id, s.rejected, s.queue);
    BothSidesIsALie(Run(s, steps), id);
  }

  /** Truth is safe exactly while no object in the conversation is queued again or refused. */
  lemma StaysTrueWhileApart(s: State)
    requires Inv(s)
    ensures StaysTrue(s) <==> Apart(s)
  {
    if Apart(s) {
      forall more | ValidRun(s, more) && Careful(s, more) ensures TellsTruth(Run(s, more)) {
        CarefulRunsStayApart(s, more);
        ApartTellsTruth(Run(s, more));
      }
    } else {
      NotApartCanLie(s);
    }
  }

  /**
   After any careful run, one more accepted offer puts a false outcome within reach if and only if the
   object's words are in the conversation already.
   */
  lemma OnlyReoffersCanBeMisreported(messages: seq<Message>, steps: seq<Step>, m: Steer)
    requires ValidRun(Fresh(messages), steps) && Careful(Fresh(messages), steps)
    requires Run(Fresh(messages), steps).open && Strip(m.text) != ""
    ensures
      var s := Run(Fresh(messages), steps);
      StaysTrue(Next(s, Offer(m))) <==> !IdAmong(m.id, s.taken)
  {
    var s := Run(Fresh(messages), steps);
    CarefulRunsStayApart(Fresh(messages), steps);
    OfferKeepsInv(s, m);
    OfferKeepsApart(s, m);
    StaysTrueWhileApart(Next(s, Offer(m)));
  }

  /** An object offered a second time can be told "not delivered" although its words are in the conversation. */
  lemma ReofferedMessageCanBeMisreported(m: Steer)
    requires Strip(m.text) != ""
    ensures
      var steps := [Offer(m), TakeSteer(false, false), Offer(m), HostClose, HostResolve, TurnResolve];
      && ValidRun(Fresh([]), steps)
      && var s := Run(Fresh([]), steps);
         m in s.taken && m.id in s.outcome && !s.outcome[m.id]
  {
    var s0 := Fresh([]);
    var s1 := Next(s0, Offer(m));
    var s2 := Next(s1, TakeSteer(false, false));
    var s3 := Next(s2, Offer(m));
    var s4 := Next(s3, HostClose);
    var s5 := Next(s4, HostResolve);
    var s6 := Next(s5, TurnResolve);
    assert s2.turnHand == [(m, true)] && s4.hostHand == [m];
    OneMore(s5, TurnResolve, []);
    OneMore(s4, HostResolve, [TurnResolve]);
    OneMore(s3, HostClose, [HostResolve, TurnResolve]);
    OneMore(s2, Offer(m), [HostClose, HostResolve, TurnResolve]);
    OneMore(s1, TakeSteer(false, false), [Offer(m), HostClose, HostResolve, TurnResolve]);
    OneMore(s0, Offer(m), [TakeSteer(false, false), Offer(m), HostClose, HostResolve, TurnResolve]);
  }

  // ---- The methods tell outcomes as the steps do ----

  lemma {:induction false} TellingInOneGo(s: State)
    ensures
      var (outcome, notified) := ResolveAll(s.outcome, s.notified, s.turnHand);
      var steps := seq(|s.turnHand|, _ => TurnResolve);
      ValidRun(s, steps) && Run(s, steps) == s.(turnHand := [], outcome := outcome, notified := notified)
    decreases |s.turnHand|
  {
    var steps := seq(|s.turnHand|, _ => TurnResolve);
    if s.turnHand != [] {
      var t := Next(s, TurnResolve);
      TellingInOneGo(t);
      assert steps == [TurnResolve] + seq(|t.turnHand|, _ => TurnResolve);
      OneMore(s, TurnResolve, seq(|t.turnHand|, _ => TurnResolve));
    }
  }
}
