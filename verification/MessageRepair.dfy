/**
 Pairing repairs for a chat history (src/xgen_agent_runtime/core/message_repair.py): the
 request-boundary normalisation, the in-place recovery helper, and the head strip.
 */
module MessageRepair {
  import opened Messages

  const INTERRUPTED :=
    "[no result recorded: the turn ended before this tool's result was saved. " +
    "The tool may or may not have run; check its effect before running it again.]"

  function SyntheticResult(id: CallRef): Block
  {
    ToolResult(id, Whole(INTERRUPTED), true)
  }

  function SyntheticResults(ids: seq<CallRef>): seq<Block>
  {
    seq(|ids|, i requires 0 <= i < |ids| => SyntheticResult(ids[i]))
  }

  function SyntheticMessage(ids: seq<CallRef>): Message
  {
    Message(User, Blocks(SyntheticResults(ids)))
  }

  // ---- Specification: drop orphan results, then answer what nobody answers ----

  predicate IsOrphan(b: Block, seen: set<CallRef>)
  {
    b.ToolResult? && !(b.id.Names() && b.id in seen)
  }

  function Paired(blocks: seq<Block>, seen: set<CallRef>): seq<Block>
  {
    if blocks == [] then []
    else (if IsOrphan(blocks[0], seen) then [] else [blocks[0]]) + Paired(blocks[1..], seen)
  }

  /** What is left of one message: nothing at all when every block was an orphan result. */
  function DropFrom(m: Message, seen: set<CallRef>): seq<Message>
  {
    if m.content.Plain? then [m]
    else
      var kept := Paired(m.content.blocks, seen);
      if |kept| == |m.content.blocks| then [m]
      else if kept != [] then [m.(content := Blocks(kept))]
      else []
  }

  function DropOrphans(msgs: seq<Message>, seen: set<CallRef>): seq<Message>
  {
    if msgs == [] then []
    else DropFrom(msgs[0], seen) + DropOrphans(msgs[1..], seen + Calls(msgs[0]))
  }

  function Without(ids: seq<CallRef>, answered: set<CallRef>): seq<CallRef>
  {
    if ids == [] then []
    else (if ids[0] in answered then [] else [ids[0]]) + Without(ids[1..], answered)
  }

  function Missing(m: Message, answered: set<CallRef>): seq<CallRef>
  {
    Without(CallIds(m), answered)
  }

  /** A message, followed at once by results for the calls in it that nobody answers. */
  function WithAnswers(m: Message, answered: set<CallRef>): seq<Message>
  {
    var missing := Missing(m, answered);
    if missing == [] then [m] else [m, SyntheticMessage(missing)]
  }

  function InsertMissing(msgs: seq<Message>, answered: set<CallRef>): seq<Message>
  {
    if msgs == [] then [] else WithAnswers(msgs[0], answered) + InsertMissing(msgs[1..], answered)
  }

  function Normalize(msgs: seq<Message>): seq<Message>
  {
    var kept := DropOrphans(msgs, {});
    InsertMissing(kept, AllAnswers(kept))
  }

  // ---- Small facts about the specification ----

  lemma {:induction false} InsertMissingSplits(a: seq<Message>, b: seq<Message>, answered: set<CallRef>)
    ensures InsertMissing(a + b, answered) == InsertMissing(a, answered) + InsertMissing(b, answered)
  {
    if a == [] {
      assert a + b == b;
    } else {
      assert (a + b)[0] == a[0] && (a + b)[1..] == a[1..] + b;
      InsertMissingSplits(a[1..], b, answered);
    }
  }

  lemma {:induction false} NothingMissing(msgs: seq<Message>, answered: set<CallRef>)
    requires forall i | 0 <= i < |msgs| :: Missing(msgs[i], answered) == []
    ensures InsertMissing(msgs, answered) == msgs
  {
    if msgs != [] {
      assert Missing(msgs[0], answered) == [];
      NothingMissing(msgs[1..], answered);
    }
  }

  lemma {:induction false} WithoutMembers(ids: seq<CallRef>, answered: set<CallRef>, id: CallRef)
    ensures id in Without(ids, answered) <==> id in ids && id !in answered
  {
    if ids != [] {
      WithoutMembers(ids[1..], answered, id);
    }
  }

  lemma NamedCalls(m: Message, id: CallRef)
    requires id in Calls(m)
    ensures id.Names()
  {
    CallSeqNames(BlocksOf(m), id);
  }

  lemma SyntheticAnswers(ids: seq<CallRef>)
    requires forall id | id in ids :: id.Names()
    ensures Answers(SyntheticMessage(ids)) == (set id | id in ids) && CallIds(SyntheticMessage(ids)) == []
  {
    var blocks := SyntheticResults(ids);
    assert BlocksOf(SyntheticMessage(ids)) == blocks;
    forall id | id in ids ensures id in Answers(SyntheticMessage(ids)) {
      var i :| 0 <= i < |ids| && ids[i] == id;
      assert blocks[i] == SyntheticResult(id) && blocks[i] in blocks;
    }
    forall id | id in Answers(SyntheticMessage(ids)) ensures id in ids {
      var i :| 0 <= i < |blocks| && IsAnswer(blocks[i]) && blocks[i].id == id;
    }
  }

  // ---- One step of each loop, seen from the specification ----

  lemma PairedStep(blocks: seq<Block>, seen: set<CallRef>, i: nat, done: seq<Block>)
    requires i < |blocks|
    ensures done + Paired(blocks[i..], seen)
         == (done + (if IsOrphan(blocks[i], seen) then [] else [blocks[i]])) + Paired(blocks[i + 1..], seen)
  {
    assert blocks[i..][1..] == blocks[i + 1..];
  }

  lemma DropStep(msgs: seq<Message>, seen: set<CallRef>, i: nat, done: seq<Message>)
    requires i < |msgs|
    ensures done + DropOrphans(msgs[i..], seen)
         == (done + DropFrom(msgs[i], seen)) + DropOrphans(msgs[i + 1..], seen + Calls(msgs[i]))
  {
    assert msgs[i..][1..] == msgs[i + 1..];
  }

  lemma WithoutStep(ids: seq<CallRef>, answered: set<CallRef>, i: nat, done: seq<CallRef>)
    requires i < |ids|
    ensures done + Without(ids[i..], answered)
         == (done + (if ids[i] in answered then [] else [ids[i]])) + Without(ids[i + 1..], answered)
  {
    assert ids[i..][1..] == ids[i + 1..];
  }

  // ---- The three loops of the request-boundary pass ----

  method FilterBlocks(blocks: seq<Block>, seen: set<CallRef>) returns (filtered: seq<Block>, removedOrphan: bool)
    ensures filtered == Paired(blocks, seen)
    ensures removedOrphan <==> |filtered| != |blocks|
    ensures |filtered| <= |blocks|
  {
    filtered, removedOrphan := [], false;
    var i := 0;
    while i < |blocks|
      invariant 0 <= i <= |blocks|
      invariant Paired(blocks, seen) == filtered + Paired(blocks[i..], seen)
      invariant |filtered| <= i && (removedOrphan <==> |filtered| != i)
    {
      PairedStep(blocks, seen, i, filtered);
      if IsOrphan(blocks[i], seen) {
        removedOrphan := true;
      } else {
        filtered := filtered + [blocks[i]];
      }
      i := i + 1;
    }
  }

  method RemoveOrphans(messages: seq<Message>) returns (normalized: seq<Message>)
    ensures normalized == DropOrphans(messages, {})
  {
    normalized := [];
    var seen: set<CallRef> := {};
    var i := 0;
    while i < |messages|
      invariant 0 <= i <= |messages|
      invariant DropOrphans(messages, {}) == normalized + DropOrphans(messages[i..], seen)
    {
      var message := messages[i];
      DropStep(messages, seen, i, normalized);
      ghost var before := normalized;
      if message.content.Plain? {
        normalized := normalized + [message];
      } else {
        var filtered, removedOrphan := FilterBlocks(message.content.blocks, seen);
        if !removedOrphan {
          normalized := normalized + [message];
        } else if filtered != [] {
          normalized := normalized + [message.(content := Blocks(filtered))];
        }
      }
      assert normalized == before + DropFrom(message, seen);
      seen := seen + Calls(message);
      i := i + 1;
    }
  }

  method CollectAnswers(messages: seq<Message>) returns (answered: set<CallRef>)
    ensures answered == AllAnswers(messages)
  {
    answered := {};
    var i := 0;
    while i < |messages|
      invariant 0 <= i <= |messages|
      invariant AllAnswers(messages) == answered + AllAnswers(messages[i..])
    {
      assert messages[i..][0] == messages[i] && messages[i..][1..] == messages[i + 1..];
      answered := answered + Answers(messages[i]);
      i := i + 1;
    }
  }

  method WithoutLoop(ids: seq<CallRef>, answered: set<CallRef>) returns (missing: seq<CallRef>)
    ensures missing == Without(ids, answered)
  {
    missing := [];
    var i := 0;
    while i < |ids|
      invariant 0 <= i <= |ids|
      invariant Without(ids, answered) == missing + Without(ids[i..], answered)
    {
      WithoutStep(ids, answered, i, missing);
      if ids[i] !in answered {
        missing := missing + [ids[i]];
      } else {
        assert missing + [] == missing;
      }
      i := i + 1;
    }
  }

  /** `gaps` lists exactly the messages before `bound` with unanswered calls, in order. */
  ghost predicate GapsUpTo(gaps: seq<(nat, seq<CallRef>)>, msgs: seq<Message>, answered: set<CallRef>, bound: nat)
    requires bound <= |msgs|
  {
    && (forall k | 0 <= k < |gaps| ::
          gaps[k].0 < bound && gaps[k].1 == Missing(msgs[gaps[k].0], answered) && gaps[k].1 != [])
    && (forall k, l | 0 <= k < l < |gaps| :: gaps[k].0 < gaps[l].0)
    && (forall i | 0 <= i < bound && Missing(msgs[i], answered) != [] :: exists k :: 0 <= k < |gaps| && gaps[k].0 == i)
  }

  lemma GapsShrink(gaps: seq<(nat, seq<CallRef>)>, msgs: seq<Message>, answered: set<CallRef>, bound: nat, k: nat)
    requires k < |gaps| && bound <= |msgs| && GapsUpTo(gaps[..k + 1], msgs, answered, bound)
    ensures gaps[k].0 < bound && gaps[k].1 == Missing(msgs[gaps[k].0], answered) && gaps[k].1 != []
    ensures GapsUpTo(gaps[..k], msgs, answered, gaps[k].0)
    ensures forall i | gaps[k].0 < i < bound :: Missing(msgs[i], answered) == []
  {
    var most, fewer := gaps[..k + 1], gaps[..k];
    assert most[k] == gaps[k];
    forall l | 0 <= l < k ensures most[l] == fewer[l] && most[l].0 < most[k].0 {
    }
    forall i | 0 <= i < bound && Missing(msgs[i], answered) != []
      ensures i <= gaps[k].0 && (i < gaps[k].0 ==> exists l :: 0 <= l < |fewer| && fewer[l].0 == i)
    {
      var l :| 0 <= l < |most| && most[l].0 == i;
      assert l < k ==> fewer[l].0 == i;
    }
  }

  lemma Splice<T>(xs: seq<T>, at: nat, done: nat, extra: T, tail: seq<T>)
    requires at < done <= |xs|
    ensures
      var now := xs[..done] + tail;
      now[..at + 1] + [extra] + now[at + 1..] == xs[..at] + ([xs[at], extra] + (xs[at + 1..done] + tail))
  {
  }

  /** Nothing is missing strictly between `at` and `done`: only the message at `at` gets answers. */
  lemma InsertAt(msgs: seq<Message>, answered: set<CallRef>, at: nat, done: nat)
    requires at < done <= |msgs| && Missing(msgs[at], answered) != []
    requires forall i | at < i < done :: Missing(msgs[i], answered) == []
    ensures InsertMissing(msgs[at..], answered)
         == [msgs[at], SyntheticMessage(Missing(msgs[at], answered))]
          + (msgs[at + 1..done] + InsertMissing(msgs[done..], answered))
  {
    assert msgs[at..][1..] == msgs[at + 1..];
    assert msgs[at + 1..] == msgs[at + 1..done] + msgs[done..];
    InsertMissingSplits(msgs[at + 1..done], msgs[done..], answered);
    NothingMissing(msgs[at + 1..done], answered);
  }

  /** One insertion: from everything after `done` answered to everything after the previous gap answered. */
  lemma ReverseStep(msgs: seq<Message>, answered: set<CallRef>, at: nat, done: nat, tail: seq<Message>,
      now: seq<Message>)
    requires at < done <= |msgs| && Missing(msgs[at], answered) != []
    requires forall i | at < i < done :: Missing(msgs[i], answered) == []
    requires tail == InsertMissing(msgs[done..], answered) && now == msgs[..done] + tail
    ensures now[..at + 1] + [SyntheticMessage(Missing(msgs[at], answered))] + now[at + 1..]
         == msgs[..at] + InsertMissing(msgs[at..], answered)
  {
    InsertAt(msgs, answered, at, done);
    Splice(msgs, at, done, SyntheticMessage(Missing(msgs[at], answered)), tail);
  }

  lemma NoGapsLeft(msgs: seq<Message>, answered: set<CallRef>, gaps: seq<(nat, seq<CallRef>)>, done: nat)
    requires done <= |msgs| && gaps == [] && GapsUpTo(gaps, msgs, answered, done)
    ensures forall i | 0 <= i < done :: Missing(msgs[i], answered) == []
  {
  }

  lemma ReverseEnd(msgs: seq<Message>, answered: set<CallRef>, early: seq<Message>, late: seq<Message>)
    requires msgs == early + late && forall i | 0 <= i < |early| :: Missing(early[i], answered) == []
    ensures early + InsertMissing(late, answered) == InsertMissing(msgs, answered)
  {
    NothingMissing(early, answered);
    InsertMissingSplits(early, late, answered);
  }

  /**
   Inserts from the last gap backwards, so the recorded positions stay valid; the result is each
   message followed by the answers it lacks.
   */
  method InsertInReverse(messages: seq<Message>, answered: set<CallRef>, gaps: seq<(nat, seq<CallRef>)>)
    returns (normalized: seq<Message>)
    requires GapsUpTo(gaps, messages, answered, |messages|)
    ensures normalized == InsertMissing(messages, answered)
  {
    normalized := messages;
    var k := |gaps|;
    ghost var done: nat := |messages|;
    assert gaps[..k] == gaps;
    while k > 0
      invariant 0 <= k <= |gaps| && done <= |messages|
      invariant GapsUpTo(gaps[..k], messages, answered, done)
      invariant normalized == messages[..done] + InsertMissing(messages[done..], answered)
    {
      k := k - 1;
      var at := gaps[k].0;
      GapsShrink(gaps, messages, answered, done, k);
      ReverseStep(messages, answered, at, done, InsertMissing(messages[done..], answered), normalized);
      normalized := normalized[..at + 1] + [SyntheticMessage(gaps[k].1)] + normalized[at + 1..];
      done := at;
    }
    NoGapsLeft(messages, answered, gaps[..0], done);
    ReverseEnd(messages, answered, messages[..done], messages[done..]);
  }

  lemma GapsGrow(gaps: seq<(nat, seq<CallRef>)>, msgs: seq<Message>, answered: set<CallRef>, index: nat)
    requires index < |msgs| && GapsUpTo(gaps, msgs, answered, index)
    ensures Missing(msgs[index], answered) == [] ==> GapsUpTo(gaps, msgs, answered, index + 1)
    ensures Missing(msgs[index], answered) != [] ==>
      GapsUpTo(gaps + [(index, Missing(msgs[index], answered))], msgs, answered, index + 1)
  {
    var more := gaps + [(index, Missing(msgs[index], answered))];
    forall i | 0 <= i < index + 1 && Missing(msgs[i], answered) != []
      ensures exists k :: 0 <= k < |more| && more[k].0 == i
    {
      if i < index {
        var k :| 0 <= k < |gaps| && gaps[k].0 == i;
        assert more[k].0 == i;
      } else {
        assert more[|gaps|].0 == i;
      }
    }
  }

  method CollectGaps(messages: seq<Message>, answered: set<CallRef>) returns (gaps: seq<(nat, seq<CallRef>)>)
    ensures GapsUpTo(gaps, messages, answered, |messages|)
  {
    gaps := [];
    var index := 0;
    while index < |messages|
      invariant 0 <= index <= |messages|
      invariant GapsUpTo(gaps, messages, answered, index)
    {
      var missing := WithoutLoop(CallIds(messages[index]), answered);
      GapsGrow(gaps, messages, answered, index);
      if missing != [] {
        gaps := gaps + [(index, missing)];
      }
      index := index + 1;
    }
  }

  method NormalizeMessagesForRequest(messages: seq<Message>) returns (normalized: seq<Message>)
    ensures normalized == Normalize(messages)
  {
    var kept := RemoveOrphans(messages);
    var answered := CollectAnswers(kept);
    var gaps := CollectGaps(kept, answered);
    normalized := InsertInReverse(kept, answered, gaps);
  }

  // ---- Recovery at the end of a turn: only the newest calling message is repaired ----

  /** Index of the last message that calls a tool, or -1. */
  function LastCaller(msgs: seq<Message>): (last: int)
    ensures -1 <= last < |msgs|
  {
    if msgs == [] then -1
    else if CallIds(msgs[|msgs| - 1]) != [] then |msgs| - 1
    else LastCaller(msgs[..|msgs| - 1])
  }

  function Unanswered(msgs: seq<Message>): seq<CallRef>
  {
    var last := LastCaller(msgs);
    if last < 0 then [] else Missing(msgs[last], AllAnswers(msgs[last + 1..]))
  }

  function Repair(msgs: seq<Message>): seq<Message>
  {
    var last, missing := LastCaller(msgs), Unanswered(msgs);
    if missing == [] then msgs
    else msgs[..last + 1] + [SyntheticMessage(missing)] + msgs[last + 1..]
  }

  ghost predicate IsLastCaller(msgs: seq<Message>, i: int)
  {
    -1 <= i < |msgs| && (i >= 0 ==> CallIds(msgs[i]) != []) && forall k | i < k < |msgs| :: CallIds(msgs[k]) == []
  }

  lemma LastCallerOfInit(msgs: seq<Message>, init: seq<Message>, i: int)
    requires msgs != [] && init == msgs[..|msgs| - 1] && CallIds(msgs[|msgs| - 1]) == []
    requires IsLastCaller(init, i)
    ensures IsLastCaller(msgs, i)
  {
    forall k | i < k < |msgs| ensures CallIds(msgs[k]) == [] {
      assert k < |init| ==> init[k] == msgs[k];
    }
  }

  lemma {:induction false} LastCallerIsIt(msgs: seq<Message>)
    ensures IsLastCaller(msgs, LastCaller(msgs))
  {
    if msgs != [] && CallIds(msgs[|msgs| - 1]) == [] {
      var init := msgs[..|msgs| - 1];
      LastCallerIsIt(init);
      LastCallerOfInit(msgs, init, LastCaller(init));
    }
  }

  /** There is no other: of two such indices the lower would have a caller behind it. */
  lemma {:induction false} LastCallerFacts(msgs: seq<Message>, i: int)
    ensures i == LastCaller(msgs) <==> IsLastCaller(msgs, i)
  {
    LastCallerIsIt(msgs);
  }

  /** A conversation whose message list is repaired where it stands. */
  class Conversation {
    var messages: seq<Message>

    constructor (messages: seq<Message>)
      ensures this.messages == messages
    {
      this.messages := messages;
    }

    method RepairDanglingToolCalls() returns (injected: nat)
      modifies this
      ensures messages == Repair(old(messages))
      ensures injected == |Unanswered(old(messages))|
    {
      var i := |messages| - 1;
      while i >= 0 && CallIds(messages[i]) == []
        invariant -1 <= i < |messages|
        invariant forall k | i < k < |messages| :: CallIds(messages[k]) == []
      {
        i := i - 1;
      }
      LastCallerFacts(messages, i);
      if i < 0 {
        return 0;
      }
      var answered := CollectAnswers(messages[i + 1..]);
      var missing := WithoutLoop(CallIds(messages[i]), answered);
      assert missing == Unanswered(messages);
      if missing != [] {
        messages := messages[..i + 1] + [SyntheticMessage(missing)] + messages[i + 1..];
      }
      injected := |missing|;
    }
  }

  // ---- The head of a kept window ----

  predicate IsToolResultOnly(m: Message)
  {
    m.role.User? && BlocksOf(m) != [] && forall b | b in BlocksOf(m) :: b.ToolResult?
  }

  /** The blocks that are no results, in order. */
  function NonResults(blocks: seq<Block>): seq<Block>
  {
    if blocks == [] then [] else (if blocks[0].ToolResult? then [] else [blocks[0]]) + NonResults(blocks[1..])
  }

  lemma {:induction false} OnlyResultsAreLeft(blocks: seq<Block>)
    ensures NonResults(blocks) == [] <==> forall b | b in blocks :: b.ToolResult?
  {
    if blocks != [] {
      OnlyResultsAreLeft(blocks[1..]);
      assert forall b :: b in blocks <==> b == blocks[0] || b in blocks[1..];
    }
  }

  lemma NothingButResults(messages: seq<Message>)
    ensures forall m | m in messages ::
      IsToolResultOnly(m) <==> m.role.User? && BlocksOf(m) != [] && NonResults(BlocksOf(m)) == []
  {
    forall m | m in messages
      ensures IsToolResultOnly(m) <==> m.role.User? && BlocksOf(m) != [] && NonResults(BlocksOf(m)) == []
    {
      OnlyResultsAreLeft(BlocksOf(m));
    }
  }

  method StripLeadingOrphanToolResults(messages: seq<Message>) returns (window: seq<Message>)
    ensures exists i ::
      && 0 <= i <= |messages| && window == messages[i..]
      && (forall k | 0 <= k < i ::
            messages[k].role.User? && BlocksOf(messages[k]) != [] && NonResults(BlocksOf(messages[k])) == [])
      && (i < |messages| && messages[i].role.User? && BlocksOf(messages[i]) != [] ==>
            NonResults(BlocksOf(messages[i])) != [])
  {
    NothingButResults(messages);
    var i := 0;
    while i < |messages| && IsToolResultOnly(messages[i])
      invariant 0 <= i <= |messages|
      invariant forall k | 0 <= k < i :: IsToolResultOnly(messages[k])
    {
      i := i + 1;
    }
    window := messages[i..];
  }
}
