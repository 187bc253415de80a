/** What the request pass adds to a history: nothing but results saying that the turn was interrupted. */
module InsertedResults {
  import opened Messages
  import opened MessageRepair

  /** Every block is an error result that says the turn was interrupted, and they are for the ids listed. */
  ghost predicate Interruptions(blocks: seq<Block>, ids: seq<CallRef>)
  {
    |blocks| == |ids| && forall k | 0 <= k < |ids| :: blocks[k] == ToolResult(ids[k], Whole(INTERRUPTED), true)
  }

  /** How often an id is called in `caller`, when nobody answers it. */
  ghost function Open(caller: Message, answered: set<CallRef>, id: CallRef): nat
  {
    if id in answered then 0 else multiset(CallIds(caller))[id]
  }

  /** A user message of interruptions, at least one, for exactly the calls of `caller` that nobody answers. */
  ghost predicate AnswersFor(m: Message, caller: Message, answered: set<CallRef>)
  {
    && m.role.User? && m.content.Blocks?
    && exists ids ::
         && ids != [] && Interruptions(m.content.blocks, ids)
         && forall id :: multiset(ids)[id] == Open(caller, answered, id)
  }

  lemma {:induction false} WithoutCounts(ids: seq<CallRef>, answered: set<CallRef>, id: CallRef)
    ensures multiset(Without(ids, answered))[id] == if id in answered then 0 else multiset(ids)[id]
  {
    if ids != [] {
      assert ids == [ids[0]] + ids[1..];
      WithoutCounts(ids[1..], answered, id);
    }
  }

  lemma AnswersForTheMissing(m: Message, answered: set<CallRef>)
    requires Missing(m, answered) != []
    ensures AnswersFor(SyntheticMessage(Missing(m, answered)), m, answered)
  {
    var ids := Missing(m, answered);
    forall id ensures multiset(ids)[id] == Open(m, answered, id) {
      WithoutCounts(CallIds(m), answered, id);
    }
    assert Interruptions(SyntheticMessage(ids).content.blocks, ids);
  }

  /** Message `i` stood in `msgs`, or it answers the open calls of the message in front of it, which did. */
  ghost predicate KeptOrAnswers(out: seq<Message>, i: nat, msgs: seq<Message>, answered: set<CallRef>)
    requires i < |out|
  {
    out[i] in msgs || (i > 0 && out[i - 1] in msgs && AnswersFor(out[i], out[i - 1], answered))
  }

  lemma {:induction false} InsertedAnswers(msgs: seq<Message>, answered: set<CallRef>, i: nat)
    requires i < |InsertMissing(msgs, answered)|
    ensures KeptOrAnswers(InsertMissing(msgs, answered), i, msgs, answered)
  {
    var out, first := InsertMissing(msgs, answered), WithAnswers(msgs[0], answered);
    assert msgs[0] in msgs && out[0] == msgs[0];
    if i < |first| {
      if i == 1 {
        AnswersForTheMissing(msgs[0], answered);
        assert out[1] == first[1];
      }
    } else {
      InsertedAnswers(msgs[1..], answered, i - |first|);
      assert out[i] == InsertMissing(msgs[1..], answered)[i - |first|];
      assert i > |first| ==> out[i - 1] == InsertMissing(msgs[1..], answered)[i - |first| - 1];
    }
  }

  /** What the first pass leaves of a message: its role, and all blocks but results; no message is emptied. */
  ghost predicate Leftover(m: Message, n: Message)
  {
    && m.role == n.role && (m.content.Plain? || BlocksOf(m) == [] ==> m == n)
    && (forall b | b in BlocksOf(m) :: b in BlocksOf(n))
    && (forall b | b in BlocksOf(n) && !b.ToolResult? :: b in BlocksOf(m))
  }

  lemma {:induction false} PairedBlocks(blocks: seq<Block>, seen: set<CallRef>)
    ensures forall b | b in Paired(blocks, seen) :: b in blocks
    ensures forall b | b in blocks && !b.ToolResult? :: b in Paired(blocks, seen)
  {
    if blocks != [] {
      PairedBlocks(blocks[1..], seen);
      assert forall b :: b in blocks <==> b == blocks[0] || b in blocks[1..];
    }
  }

  lemma {:induction false} LeftoversOfTheFirstPass(msgs: seq<Message>, seen: set<CallRef>, m: Message)
    requires m in DropOrphans(msgs, seen)
    ensures exists n :: n in msgs && Leftover(m, n)
  {
    if m in DropFrom(msgs[0], seen) {
      if msgs[0].content.Blocks? {
        PairedBlocks(msgs[0].content.blocks, seen);
      }
      assert msgs[0] in msgs && Leftover(m, msgs[0]);
    } else {
      LeftoversOfTheFirstPass(msgs[1..], seen + Calls(msgs[0]), m);
      var n :| n in msgs[1..] && Leftover(m, n);
      assert n in msgs;
    }
  }

  /**
   Every message of the request is left over from the history, or it answers the message in front of it: as the
   user's, with one error result saying "interrupted" for each call made there that no kept message answers.
   */
  lemma OnlyInterruptionsAreAdded(msgs: seq<Message>, i: nat)
    requires i < |Normalize(msgs)|
    ensures
      var out, answered := Normalize(msgs), AllAnswers(DropOrphans(msgs, {}));
      || (exists n :: n in msgs && Leftover(out[i], n))
      || (i > 0 && (exists n :: n in msgs && Leftover(out[i - 1], n)) && AnswersFor(out[i], out[i - 1], answered))
  {
    var kept := DropOrphans(msgs, {});
    InsertedAnswers(kept, AllAnswers(kept), i);
    if Normalize(msgs)[i] in kept {
      LeftoversOfTheFirstPass(msgs, {}, Normalize(msgs)[i]);
    } else {
      LeftoversOfTheFirstPass(msgs, {}, Normalize(msgs)[i - 1]);
    }
  }
}
