/**
 Messages the user adds to a running turn (src/xgen_agent_runtime/core/steer.py) and the turn's side of
 the hand-over (src/xgen_agent_runtime/core/pipeline.py). Every locked region is one step, so a run is
 any interleaving of host threads with the turn.
 */
module Steering {
  import opened Messages
  import C = ContextPrune
  import R = Recording

  const FRAME := "[The user sent this message while you were working. Take it into account and continue.]"

  /** One message object; `id` is its identity. */
  datatype Steer = Steer(id: nat, text: string)

  datatype Decision = Continue | Complete | Suspend | Escalate | Error

  // ---- The text the model receives ----

  function RStrip(text: string): string
  {
    if text != "" && C.IsSpace(text[|text| - 1]) then RStrip(text[..|text| - 1]) else text
  }

  function Strip(text: string): string { RStrip(C.LStrip(text)) }

  function SteerBody(batch: seq<Steer>): string
  {
    if batch == [] then ""
    else if Strip(batch[0].text) == "" then SteerBody(batch[1..])
    else if forall m | m in batch[1..] :: Strip(m.text) == "" then Strip(batch[0].text)
    else Strip(batch[0].text) + "\n\n" + SteerBody(batch[1..])
  }

  function SteerText(batch: seq<Steer>): string { FRAME + "\n" + SteerBody(batch) }

  /** The text joins the last message when that is the user's; otherwise it is a new user message. */
  function WithWords(messages: seq<Message>, text: string): seq<Message>
  {
    if messages != [] && messages[|messages| - 1].role.User?
    then messages[|messages| - 1 := R.Steered(messages[|messages| - 1], text)]
    else messages + [Message(User, Plain(text))]
  }

  // ---- The inbox and the turn as one state ----

  /**
   `turnHand` and `hostHand` hold what was taken out of the queue and awaits its outcome. `accepted`,
   `taken`, `rejected` and `notified` record the run: what the inbox took in, what went into the
   conversation, what was refused, and the outcomes the host was told.
   */
  datatype State = State(
    queue: seq<Steer>, open: bool, outcome: map<nat, bool>,
    turnHand: seq<(Steer, bool)>, hostHand: seq<Steer>,
    messages: seq<Message>, decision: Decision, checked: bool,
    accepted: seq<Steer>, taken: seq<Steer>, rejected: seq<Steer>, notified: seq<(nat, bool)>)

  datatype Step =
    | Offer(m: Steer)
    | HostClose
    | HostResolve                                              // the closing host tells one rejected message
    | Pass(messages: seq<Message>, decision: Decision)         // the stages of one loop pass
    | TakeSteer(singlePass: bool, stopping: bool)
    | TurnResolve                                              // the turn tells one message its outcome

  predicate Enabled(s: State, step: Step)
  {
    match step
    case HostResolve => s.hostHand != []
    case Pass(_, _) => s.turnHand == []
    case TakeSteer(_, _) => s.turnHand == [] && !s.checked
    case TurnResolve => s.turnHand != []
    case _ => true
  }

  function Tagged(batch: seq<Steer>, delivered: bool): seq<(Steer, bool)>
  {
    seq(|batch|, i requires 0 <= i < |batch| => (batch[i], delivered))
  }

  /** The outcome is recorded once; only then is the host told. */
  function Resolved(s: State, m: Steer, delivered: bool): State
  {
    if m.id in s.outcome then s
    else s.(outcome := s.outcome[m.id := delivered], notified := s.notified + [(m.id, delivered)])
  }

  function Delivered(s: State): State
  {
    if s.queue == [] then s
    else
      s.(queue := [], turnHand := Tagged(s.queue, true), taken := s.taken + s.queue,
         messages := WithWords(s.messages, SteerText(s.queue)), decision := Continue)
  }

  /** The locked part of the turn's check, with what it does to the conversation and the verdict. */
  function Taken(s: State, singlePass: bool, stopping: bool): State
  {
    if singlePass || stopping then
      s.(queue := [], open := false, turnHand := Tagged(s.queue, false),
         rejected := s.rejected + s.queue, checked := true)
    else if s.decision.Continue? then Delivered(s).(checked := true)
    else if s.decision.Complete? then
      (if s.queue == [] then s.(open := false) else Delivered(s)).(checked := true)
    else s.(checked := true)
  }

  function Next(s: State, step: Step): State
    requires Enabled(s, step)
  {
    match step
    case Offer(m) =>
      if Strip(m.text) == "" || !s.open then s else s.(queue := s.queue + [m], accepted := s.accepted + [m])
    case HostClose =>
      s.(queue := [], open := false, hostHand := s.hostHand + s.queue, rejected := s.rejected + s.queue)
    case HostResolve => Resolved(s, s.hostHand[0], false).(hostHand := s.hostHand[1..])
    case Pass(messages, decision) => s.(messages := messages, decision := decision, checked := false)
    case TakeSteer(singlePass, stopping) => Taken(s, singlePass, stopping)
    case TurnResolve => Resolved(s, s.turnHand[0].0, s.turnHand[0].1).(turnHand := s.turnHand[1..])
  }

  ghost predicate ValidRun(s: State, steps: seq<Step>)
    decreases |steps|
  {
    steps != [] ==> Enabled(s, steps[0]) && ValidRun(Next(s, steps[0]), steps[1..])
  }

  ghost function Run(s: State, steps: seq<Step>): State
    requires ValidRun(s, steps)
    decreases |steps|
  {
    if steps == [] then s else Run(Next(s, steps[0]), steps[1..])
  }

  function Fresh(messages: seq<Message>): State
  {
    State([], true, map[], [], [], messages, Continue, false, [], [], [], [])
  }

  // ---- The inbox as it runs ----

  class Inbox {
    var queue: seq<Steer>
    var open: bool
    var outcome: map<nat, bool>
    ghost var notified: seq<(nat, bool)>

    constructor ()
      ensures queue == [] && open && outcome == map[] && notified == []
    {
      queue, open, outcome, notified := [], true, map[], [];
    }

    method Offer(m: Steer) returns (accepted: bool)
      modifies `queue
      ensures accepted <==> Strip(m.text) != "" && open
      ensures queue == if accepted then old(queue) + [m] else old(queue)
    {
      if Strip(m.text) == "" || !open {
        return false;
      }
      queue := queue + [m];
      accepted := true;
    }

    method Take() returns (batch: seq<Steer>)
      modifies `queue
      ensures batch == old(queue) && queue == []
    {
      batch := queue;
      queue := [];
    }

    /** Takes what is queued, or closes when there is nothing: one locked step. */
    method TakeOrClose() returns (batch: seq<Steer>)
      modifies `queue, `open
      ensures batch == old(queue) && queue == []
      ensures open <==> old(open) && batch != []
    {
      if queue != [] {
        batch := queue;
        queue := [];
        return;
      }
      open := false;
      batch := [];
    }

    /** Stops taking input and rejects whatever is queued. */
    method Close() returns (left: seq<Steer>)
      modifies this
      ensures left == old(queue) && queue == [] && !open
      ensures (outcome, notified) == ResolveAll(old(outcome), old(notified), Tagged(left, false))
    {
      open := false;
      left := queue;
      queue := [];
      ResolveEach(Tagged(left, false));
    }

    /** The outcome of a message, recorded once. */
    method Resolve(m: Steer, delivered: bool)
      modifies `outcome, `notified
      ensures (outcome, notified) == ResolveOne(old(outcome), old(notified), m.id, delivered)
    {
      if m.id in outcome {
        return;
      }
      outcome := outcome[m.id := delivered];
      notified := notified + [(m.id, delivered)];
    }

    method ResolveEach(hand: seq<(Steer, bool)>)
      modifies `outcome, `notified
      ensures (outcome, notified) == ResolveAll(old(outcome), old(notified), hand)
    {
      var i := 0;
      while i < |hand|
        invariant 0 <= i <= |hand|
        invariant ResolveAll(outcome, notified, hand[i..]) == ResolveAll(old(outcome), old(notified), hand)
      {
        assert hand[i..][1..] == hand[i + 1..];
        Resolve(hand[i].0, hand[i].1);
        i := i + 1;
      }
    }
  }

  function ResolveOne(outcome: map<nat, bool>, notified: seq<(nat, bool)>, id: nat,
      delivered: bool): (map<nat, bool>, seq<(nat, bool)>)
  {
    if id in outcome then (outcome, notified) else (outcome[id := delivered], notified + [(id, delivered)])
  }

  function ResolveAll(outcome: map<nat, bool>, notified: seq<(nat, bool)>,
      hand: seq<(Steer, bool)>): (map<nat, bool>, seq<(nat, bool)>)
    decreases |hand|
  {
    if hand == [] then (outcome, notified)
    else
      var (o, n) := ResolveOne(outcome, notified, hand[0].0.id, hand[0].1);
      ResolveAll(o, n, hand[1..])
  }

  /** The turn's side: its conversation, its verdict, and the inbox it takes from. */
  class Turn {
    const inbox: Inbox
    const singleTurn: bool
    const hasLoopStage: bool
    var messages: seq<Message>
    var decision: Decision

    constructor (inbox: Inbox, singleTurn: bool, hasLoopStage: bool, messages: seq<Message>)
      ensures this.inbox == inbox && this.singleTurn == singleTurn && this.hasLoopStage == hasLoopStage
      ensures this.messages == messages && decision == Continue
    {
      this.inbox, this.singleTurn, this.hasLoopStage := inbox, singleTurn, hasLoopStage;
      this.messages, decision := messages, Continue;
    }

    /** The shared state agrees with what the turn and its inbox hold. */
    ghost predicate Shows(s: State)
      reads this, inbox
    {
      && inbox.queue == s.queue && inbox.open == s.open && inbox.outcome == s.outcome && inbox.notified == s.notified
      && messages == s.messages && decision == s.decision
    }

    /** The user's next words. */
    method AppendSteer(text: string)
      modifies `messages
      ensures messages == WithWords(old(messages), text)
    {
      if messages != [] && messages[|messages| - 1].role.User? {
        var last := messages[|messages| - 1];
        match last.content {
          case Blocks(blocks) => last := last.(content := Blocks(blocks + [Text(text, 0)]));
          case Plain(prev) => last := last.(content := Plain(if prev != "" then prev + "\n\n" + text else text));
        }
        messages := messages[|messages| - 1 := last];
        return;
      }
      messages := messages + [Message(User, Plain(text))];
    }

    /** The check at the loop boundary, from the locked step to the last outcome told. */
    method TakeSteer(stopping: bool, ghost s: State)
      requires Shows(s) && s.turnHand == []
      modifies this, inbox
      ensures
        var t := Taken(s, singleTurn || !hasLoopStage, stopping);
        var (outcome, notified) := ResolveAll(s.outcome, s.notified, t.turnHand);
        Shows(t.(turnHand := [], outcome := outcome, notified := notified))
    {
      if singleTurn || !hasLoopStage || stopping {
        var left := inbox.Close();
        return;
      }
      var batch: seq<Steer> := [];
      if decision == Continue {
        batch := inbox.Take();
      } else if decision == Complete {
        batch := inbox.TakeOrClose();
      }
      if batch == [] {
        return;
      }
      AppendSteer(SteerText(batch));
      decision := Continue;
      inbox.ResolveEach(Tagged(batch, true));
    }
  }
}
