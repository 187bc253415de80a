/**
 What the turn takes from the inbox reaches the conversation: every message, in offer order, as the user's
 last words.
 */
module SteeringWords {
  import C = ContextPrune
  import opened Messages
  import opened Sequences
  import opened Steering
  import opened SteeringLaws

  // ---- The text of a batch ----

  predicate AllSpace(text: string) { forall ch | ch in text :: C.IsSpace(ch) }

  lemma {:induction false} LeftTrimmed(text: string) returns (n: nat)
    ensures n <= |text| && AllSpace(text[..n]) && C.LStrip(text) == text[n..]
    ensures n < |text| ==> !C.IsSpace(text[n])
  {
    if text != "" && C.IsSpace(text[0]) {
      var k := LeftTrimmed(text[1..]);
      n := k + 1;
      assert text[..n] == [text[0]] + text[1..][..k] && text[n..] == text[1..][k..];
    } else {
      n := 0;
      assert text[0..] == text;
    }
  }

  lemma WithoutLast<T>(xs: seq<T>, n: nat)
    requires n < |xs|
    ensures xs[n..] == xs[..|xs| - 1][n..] + [xs[|xs| - 1]] && xs[..n] == xs[..|xs| - 1][..n]
  {
  }

  lemma {:induction false} RightTrimmed(text: string) returns (n: nat)
    ensures n <= |text| && AllSpace(text[n..]) && RStrip(text) == text[..n]
    ensures n > 0 ==> !C.IsSpace(text[n - 1])
  {
    if text != "" && C.IsSpace(text[|text| - 1]) {
      n := RightTrimmed(text[..|text| - 1]);
      WithoutLast(text, n);
    } else {
      n := |text|;
      assert text[..n] == text;
    }
  }

  /** Words are a message's text without the white space around it, and only that is left out. */
  lemma WordsAreTrimmed(m: Steer) returns (n: nat, k: nat)
    ensures n + |Words(m)| + k == |m.text| && Words(m) == m.text[n..|m.text| - k]
    ensures AllSpace(m.text[..n]) && AllSpace(m.text[|m.text| - k..])
    ensures Words(m) != "" ==> !C.IsSpace(Words(m)[0]) && !C.IsSpace(Words(m)[|Words(m)| - 1])
  {
    n := LeftTrimmed(m.text);
    var left := m.text[n..];
    var end := RightTrimmed(left);
    k := |left| - end;
    TwoSlices(m.text, n, end);
  }

  lemma TwoSlices<T>(xs: seq<T>, n: nat, end: nat)
    requires n + end <= |xs|
    ensures xs[n..][..end] == xs[n..n + end] && xs[n..][end..] == xs[n + end..]
  {
  }

  predicate Blank(m: Steer) { Strip(m.text) == "" }

  function Words(m: Steer): string { Strip(m.text) }

  /** Where the words of message `i` begin in the body. */
  function Offset(batch: seq<Steer>, i: nat): nat
    requires i < |batch|
  {
    if i == 0 then 0
    else (if Blank(batch[0]) then 0 else |Words(batch[0])| + 2) + Offset(batch[1..], i - 1)
  }

  predicate StandsAt(text: string, words: string, at: nat)
  {
    at + |words| <= |text| && text[at..at + |words|] == words
  }

  lemma StandsAfter(front: string, text: string, words: string, at: nat)
    requires StandsAt(text, words, at)
    ensures StandsAt(front + text, words, |front| + at)
  {
    assert (front + text)[|front| + at..|front| + at + |words|] == text[at..at + |words|];
  }

  lemma BodyGoesOn(batch: seq<Steer>, i: nat)
    requires 0 < i < |batch| && !Blank(batch[i])
    ensures SteerBody(batch) ==
      (if Blank(batch[0]) then "" else Words(batch[0]) + "\n\n") + SteerBody(batch[1..])
  {
    assert batch[1..][i - 1] == batch[i] && batch[i] in batch[1..];
  }

  lemma StandsFirst(words: string, rest: string)
    ensures StandsAt(words, words, 0) && StandsAt(words + rest, words, 0)
  {
  }

  lemma FirstWordsStand(batch: seq<Steer>)
    requires batch != [] && !Blank(batch[0])
    ensures StandsAt(SteerBody(batch), Words(batch[0]), 0)
  {
    var words, rest := Words(batch[0]), "\n\n" + SteerBody(batch[1..]);
    StandsFirst(words, rest);
    assert words + rest == words + "\n\n" + SteerBody(batch[1..]);
  }

  /** The words of every message that says something stand in the body. */
  lemma {:induction false} WordsStand(batch: seq<Steer>, i: nat)
    requires i < |batch| && !Blank(batch[i])
    ensures StandsAt(SteerBody(batch), Words(batch[i]), Offset(batch, i))
    decreases i
  {
    if i == 0 {
      FirstWordsStand(batch);
    } else {
      WordsStand(batch[1..], i - 1);
      WordsStandLater(batch, i, SteerBody(batch[1..]), Offset(batch[1..], i - 1));
    }
  }

  lemma WordsStandLater(batch: seq<Steer>, i: nat, rest: string, at: nat)
    requires 0 < i < |batch| && !Blank(batch[i]) && rest == SteerBody(batch[1..]) && at == Offset(batch[1..], i - 1)
    requires StandsAt(rest, Words(batch[i]), at)
    ensures StandsAt(SteerBody(batch), Words(batch[i]), Offset(batch, i))
  {
    BodyGoesOn(batch, i);
    StandsAfter(if Blank(batch[0]) then "" else Words(batch[0]) + "\n\n", rest, Words(batch[i]), at);
  }

  /** They stand in offer order, with room for a blank line between them. */
  lemma {:induction false} WordsStandInOrder(batch: seq<Steer>, i: nat, j: nat)
    requires i < j < |batch| && !Blank(batch[i])
    ensures Offset(batch, i) + |Words(batch[i])| + 2 <= Offset(batch, j)
    decreases i
  {
    if i > 0 {
      WordsStandInOrder(batch[1..], i - 1, j - 1);
    }
  }

  /** The body ends with the last words. */
  lemma {:induction false} LastWordsEndTheBody(batch: seq<Steer>)
    requires batch != [] && !Blank(batch[|batch| - 1])
    ensures |SteerBody(batch)| == Offset(batch, |batch| - 1) + |Words(batch[|batch| - 1])|
  {
    if |batch| > 1 {
      LastWordsEndTheBody(batch[1..]);
      BodyGoesOn(batch, |batch| - 1);
    }
  }

  /** Character `k` of the body belongs to message `i`. */
  predicate Belongs(batch: seq<Steer>, i: nat, k: nat)
    requires i < |batch|
  {
    !Blank(batch[i]) && Offset(batch, i) <= k < Offset(batch, i) + |Words(batch[i])|
  }

  /** Nothing else stands there: every other character is a line break. */
  lemma {:induction false} OnlyLineBreaksBetween(batch: seq<Steer>, k: nat) returns (i: nat)
    requires k < |SteerBody(batch)| && SteerBody(batch)[k] != '\n'
    ensures i < |batch| && Belongs(batch, i, k)
    decreases |batch|
  {
    var rest := batch[1..];
    var front := if Blank(batch[0]) then 0 else |Words(batch[0])| + 2;
    if !Blank(batch[0]) && k < |Words(batch[0])| {
      i := 0;
    } else {
      var j := OnlyLineBreaksBetween(rest, k - front);
      i := j + 1;
    }
  }

  // ---- The conversation ----

  ghost predicate AdjacentUsers(messages: seq<Message>, i: int)
  {
    0 < i < |messages| && messages[i - 1].role.User? && messages[i].role.User?
  }

  /** The words stand at the end, as a block of their own or as the end of the text. */
  predicate EndsWith(m: Message, text: string)
  {
    match m.content
    case Plain(all) => |text| <= |all| && all[|all| - |text|..] == text
    case Blocks(blocks) => blocks != [] && blocks[|blocks| - 1] == Text(text, 0)
  }

  /** The words joined what was there: as one more block, or behind a blank line. */
  predicate Extends(before: Message, after: Message, text: string)
  {
    match before.content
    case Plain(prev) => after.content == Plain(if prev == "" then text else prev + "\n\n" + text)
    case Blocks(blocks) => after.content == Blocks(blocks + [Text(text, 0)])
  }

  /** The same messages, the last one with something added at its end. */
  predicate ExtendsLast(before: seq<Message>, after: seq<Message>, text: string)
  {
    && |before| == |after| > 0 && before[..|before| - 1] == after[..|after| - 1]
    && Extends(before[|before| - 1], after[|after| - 1], text)
  }

  /** Nothing before the last message changes, none is lost or moved, and the user's last words end with the text. */
  ghost predicate KeptAndEndedBy(before: seq<Message>, after: seq<Message>, text: string)
  {
    && |after| > 0 && |before| <= |after|
    && (after == before + [Message(User, Plain(text))] || ExtendsLast(before, after, text))
    && (forall i | 0 <= i < |before| :: after[i].role == before[i].role)
    && (forall i :: AdjacentUsers(after, i) <==> AdjacentUsers(before, i))
    && after[|after| - 1].role.User? && EndsWith(after[|after| - 1], text)
  }

  lemma SteeringKeepsTheConversation(messages: seq<Message>, text: string)
    ensures KeptAndEndedBy(messages, WithWords(messages, text), text)
  {
    var after := WithWords(messages, text);
    forall i ensures AdjacentUsers(after, i) <==> AdjacentUsers(messages, i) {
    }
  }

  // ---- Over whole runs ----

  ghost predicate QueueSpeaks(s: State)
  {
    forall m | m in s.queue :: !Blank(m)
  }

  lemma {:induction false} RunKeepsQueueSpeaking(s: State, steps: seq<Step>)
    requires ValidRun(s, steps) && QueueSpeaks(s)
    ensures QueueSpeaks(Run(s, steps))
    decreases |steps|
  {
    if steps != [] {
      RunKeepsQueueSpeaking(Next(s, steps[0]), steps[1..]);
    }
  }

  /** The check at the loop boundary takes what is queued. */
  predicate Takes(s: State, singlePass: bool, stopping: bool)
  {
    !singlePass && !stopping && s.queue != [] && (s.decision.Continue? || s.decision.Complete?)
  }

  /** Every message of the batch stands in the text, in its own place, in offer order; the last one ends it. */
  ghost predicate HoldsInOrder(text: string, batch: seq<Steer>, start: nat)
  {
    && (forall i | 0 <= i < |batch| :: !Blank(batch[i]) && StandsAt(text, Words(batch[i]), start + Offset(batch, i)))
    && (forall i, j | 0 <= i < j < |batch| :: Offset(batch, i) + |Words(batch[i])| + 2 <= Offset(batch, j))
    && (batch != [] ==> |text| == start + Offset(batch, |batch| - 1) + |Words(batch[|batch| - 1])|)
  }

  lemma WordsStandInText(batch: seq<Steer>, i: nat)
    requires i < |batch| && forall m | m in batch :: !Blank(m)
    ensures !Blank(batch[i]) && StandsAt(SteerText(batch), Words(batch[i]), |FRAME| + 1 + Offset(batch, i))
  {
    assert batch[i] in batch;
    WordsStand(batch, i);
    StandsAfter(FRAME + "\n", SteerBody(batch), Words(batch[i]), Offset(batch, i));
  }

  lemma SteerTextHolds(batch: seq<Steer>)
    requires forall m | m in batch :: !Blank(m)
    ensures HoldsInOrder(SteerText(batch), batch, |FRAME| + 1)
  {
    forall i | 0 <= i < |batch|
      ensures !Blank(batch[i]) && StandsAt(SteerText(batch), Words(batch[i]), |FRAME| + 1 + Offset(batch, i))
    {
      WordsStandInText(batch, i);
    }
    forall i, j | 0 <= i < j < |batch| ensures Offset(batch, i) + |Words(batch[i])| + 2 <= Offset(batch, j) {
      WordsStandInOrder(batch, i, j);
    }
    if batch != [] {
      assert batch[|batch| - 1] in batch;
      LastWordsEndTheBody(batch);
    }
  }

  /**
   At every check of every run: when the check takes the queue, the conversation ends, in the user's
   turn, with a text that holds every taken message in offer order, and nothing else of it has changed;
   otherwise neither the conversation nor what was taken changes.
   */
  lemma TakenWordsEndTheConversation(messages: seq<Message>, steps: seq<Step>, singlePass: bool, stopping: bool)
    requires ValidRun(Fresh(messages), steps)
    requires Enabled(Run(Fresh(messages), steps), TakeSteer(singlePass, stopping))
    ensures
      var s := Run(Fresh(messages), steps);
      var t := Next(s, TakeSteer(singlePass, stopping));
      if Takes(s, singlePass, stopping) then
        && t.taken == s.taken + s.queue
        && FRAME <= SteerText(s.queue) && HoldsInOrder(SteerText(s.queue), s.queue, |FRAME| + 1)
        && KeptAndEndedBy(s.messages, t.messages, SteerText(s.queue))
      else t.messages == s.messages && t.taken == s.taken
  {
    var s := Run(Fresh(messages), steps);
    RunKeepsQueueSpeaking(Fresh(messages), steps);
    if Takes(s, singlePass, stopping) {
      SteerTextHolds(s.queue);
      SteeringKeepsTheConversation(s.messages, SteerText(s.queue));
    }
  }

  /**
   One pass and the check behind it, from every reachable state: a single-pass or stopping turn closes the inbox
   and refuses what is queued; otherwise what is queued goes into the conversation and the loop goes on, and
   only a pass that says "complete" with nothing queued closes the inbox and keeps its verdict.
   */
  lemma CheckAfterAPass(messages: seq<Message>, steps: seq<Step>, said: seq<Message>, verdict: Decision,
      singlePass: bool, stopping: bool)
    requires ValidRun(Fresh(messages), steps) && Run(Fresh(messages), steps).turnHand == []
    ensures
      var s := Run(Fresh(messages), steps);
      && Enabled(s, Pass(said, verdict)) && Enabled(Next(s, Pass(said, verdict)), TakeSteer(singlePass, stopping))
      && var t := Next(Next(s, Pass(said, verdict)), TakeSteer(singlePass, stopping));
         && t.checked && t.accepted == s.accepted
         && if singlePass || stopping then
              && !t.open && t.queue == [] && t.rejected == s.rejected + s.queue && t.taken == s.taken
              && t.messages == said && t.decision == verdict
            else if verdict in {Decision.Continue, Decision.Complete} && s.queue != [] then
              && t.open == s.open && t.queue == [] && t.rejected == s.rejected && t.taken == s.taken + s.queue
              && KeptAndEndedBy(said, t.messages, SteerText(s.queue)) && t.decision == Decision.Continue
            else
              && t.open == (s.open && verdict != Decision.Complete) && t.queue == s.queue
              && t.rejected == s.rejected && t.taken == s.taken && t.messages == said && t.decision == verdict
  {
    SteeringKeepsTheConversation(said, SteerText(Run(Fresh(messages), steps).queue));
  }

  /** What was queued at each check that changed the conversation. */
  ghost function Batches(s: State, steps: seq<Step>): seq<seq<Steer>>
    requires ValidRun(s, steps)
    decreases |steps|
  {
    if steps == [] then []
    else
      (if steps[0].TakeSteer? && Next(s, steps[0]).messages != s.messages then [s.queue] else [])
        + Batches(Next(s, steps[0]), steps[1..])
  }

  function Joined(batches: seq<seq<Steer>>): seq<Steer>
  {
    if batches == [] then [] else batches[0] + Joined(batches[1..])
  }

  lemma WithWordsChanges(messages: seq<Message>, text: string)
    requires text != ""
    ensures WithWords(messages, text) != messages
  {
    var after := WithWords(messages, text);
    if |after| == |messages| {
      var last := messages[|messages| - 1];
      match last.content
      case Plain(prev) => assert |after[|messages| - 1].content.text| > |prev|;
      case Blocks(blocks) => assert |after[|messages| - 1].content.blocks| > |blocks|;
    }
  }

  lemma OneBatch(s: State, step: Step)
    requires Enabled(s, step)
    ensures Next(s, step).taken ==
      s.taken + if step.TakeSteer? && Next(s, step).messages != s.messages then s.queue else []
  {
    if step.TakeSteer? && Takes(s, step.singlePass, step.stopping) {
      WithWordsChanges(s.messages, SteerText(s.queue));
    }
  }

  lemma BatchFirst(first: seq<seq<Steer>>, rest: seq<seq<Steer>>)
    requires |first| <= 1
    ensures Joined(first + rest) == (if first == [] then [] else first[0]) + Joined(rest)
  {
    if first == [] {
      assert first + rest == rest;
    } else {
      assert (first + rest)[1..] == rest;
    }
  }

  lemma {:induction false} BatchesAreTaken(s: State, steps: seq<Step>)
    requires ValidRun(s, steps)
    ensures Run(s, steps).taken == s.taken + Joined(Batches(s, steps))
    decreases |steps|
  {
    if steps != [] {
      var t := Next(s, steps[0]);
      OneBatch(s, steps[0]);
      BatchesAreTaken(t, steps[1..]);
      BatchFirst(if steps[0].TakeSteer? && t.messages != s.messages then [s.queue] else [], Batches(t, steps[1..]));
    }
  }

  /**
   Over every run, what was accepted is what the conversation took in, batch by batch, then the refused,
   then the queued.
   */
  lemma DeliveredInOfferOrder(messages: seq<Message>, steps: seq<Step>)
    requires ValidRun(Fresh(messages), steps)
    ensures
      var s := Run(Fresh(messages), steps);
      s.accepted == Joined(Batches(Fresh(messages), steps)) + s.rejected + s.queue
  {
    RunKeepsInv(Fresh(messages), steps);
    BatchesAreTaken(Fresh(messages), steps);
  }
}
