/** A summary made in the background replaces the history it was made of, and nothing said since. */
module BackgroundSummaries {
  import opened CompactionPolicy
  import opened CompactionPolicyLaws
  import opened Messages
  import R = Recording
  import RL = RecordingLaws
  import opened Sequences

  /** The summary is shorter than the history it was made of, and that history still stands at the front. */
  predicate Applies(before: seq<R.Ref>, snapshot: seq<R.Ref>, f: Finish)
  {
    && f.Finished? && 0 < |snapshot| <= |before| && before[..|snapshot|] == snapshot
    && |f.head| < |snapshot|
  }

  /** `after` is the head, then what stood behind the first `n` messages of `before`, in order. */
  predicate BehindTheHead(before: seq<R.Ref>, after: seq<R.Ref>, n: nat, head: seq<R.Ref>)
  {
    && n <= |before| && |after| == |head| + (|before| - n)
    && (forall i | 0 <= i < |head| :: after[i] == head[i])
    && (forall i | n <= i < |before| :: after[|head| + (i - n)] == before[i])
  }

  /**
   Collecting a finished summary: when it applies, the conversation is its head followed by everything that
   was said since the snapshot; otherwise, and when it broke, the conversation is as it was.
   */
  lemma CollectingKeepsWhatWasSaidSince(x: TurnState, f: Finish)
    requires Allowed(x, Collect(f))
    ensures
      var before, after := x.session.messages, NextTurn(x, Collect(f)).session.messages;
      var snapshot := x.flight.value.snapshot;
      if Applies(before, snapshot, f) then BehindTheHead(before, after, |snapshot|, f.head) else after == before
  {
    var before, snapshot := x.session.messages, x.flight.value.snapshot;
    if Applies(before, snapshot, f) {
      assert before == snapshot + before[|snapshot|..];
      assert Fits(x.session, x.flight.value, f);
      InstalledAsGiven(x.session, f.head + before[|snapshot|..], f.made);
    }
  }

  lemma InstalledAsGiven(s: R.State, after: seq<R.Ref>, made: map<R.Ref, Message>)
    requires R.Enabled(s, R.Compact(after, made))
    ensures R.Next(s, R.Compact(after, made)).messages == after
  {
  }

  /**
   A summary that is swapped in counts for the request being built: until the next one goes out, soft pressure
   has no compactor run. One that is not swapped in leaves that open.
   */
  lemma SwapCountsForThisRequest(x: TurnState, f: Finish, req: Request, c: Compactor, t: Tools)
    requires Allowed(x, Collect(f)) && !req.hard && !req.manual && c.usesLlm
    ensures
      var y := NextTurn(x, Collect(f));
      if Applies(x.session.messages, x.flight.value.snapshot, f) then !Decide(y.policy, y.session, req, c, t).Run?
      else y.policy.summarizedAt == x.policy.summarizedAt
  {
    var snapshot := x.flight.value.snapshot;
    if Applies(x.session.messages, snapshot, f) {
      assert x.session.messages == snapshot + x.session.messages[|snapshot|..];
      assert Fits(x.session, x.flight.value, f);
    }
  }

  // ---- Over the part of a turn that runs while the summary is made ----

  /** The event leaves the message list alone but for appends, and the summary in flight alone. */
  ghost predicate LetsItBe(x: TurnState, e: Event)
  {
    match e
    case ApiCall => true
    case Session(step) => !step.Compact?
    case Compaction(req, c, t) => !Replaced(x.policy, x.session, req, c, t)
    case Schedule(_, _, _) => true
    case _ => false
  }

  ghost predicate Undisturbed(x: TurnState, events: seq<Event>)
    requires ValidTurn(x, events)
    decreases |events|
  {
    events != [] ==> LetsItBe(x, events[0]) && Undisturbed(NextTurn(x, events[0]), events[1..])
  }

  lemma StepAppends(s: R.State, step: R.Step)
    requires R.Enabled(s, step) && !step.Compact?
    ensures R.Next(s, step).messages == s.messages + RL.AppendedIn(step)
  {
  }

  lemma CompactionAppendsNothing(x: TurnState, req: Request, c: Compactor, t: Tools)
    requires Sound(c) && !Replaced(x.policy, x.session, req, c, t)
    ensures Compacted(x.policy, x.session, req, c, t).1.messages == x.session.messages
  {
    var pruned := Pruned(x.session, t);
    RewritingKeepsTheList(x.session, t.prune(x.session));
    var d := Decide(x.policy, x.session, req, c, t);
    if d.Run? {
      var o := c.run(pruned, req, d.digestOnly);
      assert Installed(pruned, o) == pruned;
    }
    RewritingKeepsTheList(pruned, t.relieve(pruned));
  }

  lemma EventAppends(x: TurnState, e: Event)
    requires Allowed(x, e) && LetsItBe(x, e) && x.flight.Some?
    ensures NextTurn(x, e).flight == x.flight
    ensures NextTurn(x, e).session.messages ==
      x.session.messages + if e.Session? then RL.AppendedIn(e.step) else []
  {
    match e
    case Session(step) => StepAppends(x.session, step);
    case Compaction(req, c, t) => CompactionAppendsNothing(x, req, c, t);
    case _ =>
  }

  lemma {:induction false} EventsAppend(x: TurnState, events: seq<Event>)
    requires ValidTurn(x, events) && Undisturbed(x, events) && x.flight.Some?
    ensures RunTurn(x, events).flight == x.flight
    ensures RunTurn(x, events).session.messages == x.session.messages + AppendedDuring(events)
    decreases |events|
  {
    if events != [] {
      var said := if events[0].Session? then RL.AppendedIn(events[0].step) else [];
      EventAppends(x, events[0]);
      EventsAppend(NextTurn(x, events[0]), events[1..]);
      Regroup(x.session.messages, said, AppendedDuring(events[1..]));
    } else {
      NothingAdded(x.session.messages);
    }
  }

  /**
   A summary is left to the background, the turn goes on without replacing the list, and the summary is
   collected: whatever the turn appended in between stands, in order, behind the summary when it is shorter
   than the history it was made of, and behind that history otherwise.
   */
  lemma WhatWasSaidMeanwhileStays(x: TurnState, c: Compactor, target: nat, background: bool,
      meanwhile: seq<Event>, f: Finish)
    requires c.usesLlm && MaySchedule(x.policy, x.session, x.flight, c, target, background)
    requires
      var y := NextTurn(x, Schedule(c, target, background));
      ValidTurn(y, meanwhile) && Undisturbed(y, meanwhile) && Allowed(RunTurn(y, meanwhile), Collect(f))
    ensures
      var z := RunTurn(NextTurn(x, Schedule(c, target, background)), meanwhile);
      NextTurn(z, Collect(f)).session.messages ==
        (if f.Finished? && |f.head| < |x.session.messages| then f.head else x.session.messages)
        + AppendedDuring(meanwhile)
  {
    var y := NextTurn(x, Schedule(c, target, background));
    var z := RunTurn(y, meanwhile);
    EventsAppend(y, meanwhile);
    CollectingKeepsWhatWasSaidSince(z, f);
    var before, said := x.session.messages, AppendedDuring(meanwhile);
    var after := NextTurn(z, Collect(f)).session.messages;
    assert z.session.messages == before + said && (before + said)[..|before|] == before;
    if Applies(z.session.messages, before, f) {
      HeadThenRest(before + said, after, before, said, f.head);
    }
  }

  lemma HeadThenRest(all: seq<R.Ref>, after: seq<R.Ref>, before: seq<R.Ref>, said: seq<R.Ref>, head: seq<R.Ref>)
    requires all == before + said && BehindTheHead(all, after, |before|, head)
    ensures after == head + said
  {
    forall i | 0 <= i < |said| ensures after[|head| + i] == said[i] {
      assert all[|before| + i] == said[i];
      assert after[|head| + ((|before| + i) - |before|)] == all[|before| + i];
    }
  }
}
