/**
 The chat history every other module works on: messages made of blocks, tool calls and the
 results that answer them, and what it means for a history to be well paired.
 */
module Messages {

  datatype Option<+T> = None | Some(value: T)

  datatype Role = User | Assistant | Other

  /** The call id a block carries: absent (or not a string), or some string. */
  datatype CallRef = NoRef | Ref(id: string)
  {
    /** Only a non-empty string names a call. */
    predicate Names() { Ref? && id != "" }
  }

  datatype Media = Image | Document

  /** A value inside a tool call's input: a string, or anything else. */
  datatype Arg = Words(words: string) | Datum(tag: int)

  datatype Block =
    | Text(text: string, cut: nat)  // cut > 0: the text ends in a trim note that counts `cut` chars
    | Attachment(media: Media, base64: bool, payload: string)
    | ToolUse(id: CallRef, name: string, input: map<string, Arg>)
    | ToolResult(id: CallRef, body: Body, isError: bool)
    | Opaque(tag: int)

  /** What a tool returned: one text (whole, or cut around a marker that counts the cut), or parts. */
  datatype Body =
    | Whole(text: string)
    | Cut(head: string, count: nat, tail: string)
    | Parts(parts: seq<Block>)

  datatype Content = Plain(text: string) | Blocks(blocks: seq<Block>)

  datatype Message = Message(role: Role, content: Content)

  function BlocksOf(m: Message): seq<Block>
  {
    if m.content.Blocks? then m.content.blocks else []
  }

  /** Block `k` of message `i` exists. */
  ghost predicate IsPosition(msgs: seq<Message>, i: int, k: int)
  {
    0 <= i < |msgs| && 0 <= k < |BlocksOf(msgs[i])|
  }

  /** Position by position the same block, or a tool result in place of a tool result. */
  ghost predicate SameButResults(xs: seq<Block>, ys: seq<Block>)
  {
    |xs| == |ys| && forall k | 0 <= k < |xs| :: xs[k] == ys[k] || (xs[k].ToolResult? && ys[k].ToolResult?)
  }

  // ---- Calls and answers ----

  predicate IsCall(b: Block) { b.ToolUse? && b.id.Names() }

  predicate IsAnswer(b: Block) { b.ToolResult? && b.id.Names() }

  /** The ids a list of blocks calls, in order, duplicates kept. */
  function CallSeq(blocks: seq<Block>): seq<CallRef>
  {
    if blocks == [] then []
    else (if IsCall(blocks[0]) then [blocks[0].id] else []) + CallSeq(blocks[1..])
  }

  lemma {:induction false} CallSeqNames(blocks: seq<Block>, id: CallRef)
    ensures id in CallSeq(blocks) <==> exists b :: b in blocks && IsCall(b) && b.id == id
  {
    if blocks != [] {
      CallSeqNames(blocks[1..], id);
      if b :| b in blocks && IsCall(b) && b.id == id {
        assert b == blocks[0] || b in blocks[1..];
      }
      if id in CallSeq(blocks[1..]) {
        var b :| b in blocks[1..] && IsCall(b) && b.id == id;
        assert b in blocks;
      }
      if IsCall(blocks[0]) && blocks[0].id == id {
        assert blocks[0] in blocks;
      }
    }
  }

  /** The ids an assistant message calls; nobody else can call a tool. */
  function CallIds(m: Message): seq<CallRef>
  {
    if m.role.Assistant? then CallSeq(BlocksOf(m)) else []
  }

  function Calls(m: Message): set<CallRef>
  {
    set id | id in CallIds(m)
  }

  function Answers(m: Message): set<CallRef>
  {
    set b | b in BlocksOf(m) && IsAnswer(b) :: b.id
  }

  function AllAnswers(msgs: seq<Message>): set<CallRef>
  {
    if msgs == [] then {} else Answers(msgs[0]) + AllAnswers(msgs[1..])
  }

  ghost predicate Answered(msgs: seq<Message>, id: CallRef)
  {
    exists j :: 0 <= j < |msgs| && id in Answers(msgs[j])
  }

  lemma {:induction false} AllAnswersAreTheAnswered(msgs: seq<Message>, id: CallRef)
    ensures id in AllAnswers(msgs) <==> Answered(msgs, id)
  {
    if msgs != [] {
      AllAnswersAreTheAnswered(msgs[1..], id);
      if id in AllAnswers(msgs[1..]) {
        var j :| 0 <= j < |msgs[1..]| && id in Answers(msgs[1..][j]);
        assert id in Answers(msgs[j + 1]);
      }
      if Answered(msgs, id) {
        var j :| 0 <= j < |msgs| && id in Answers(msgs[j]);
        assert j > 0 ==> id in Answers(msgs[1..][j - 1]);
      }
    }
  }

  /** A call is an assistant's, an answer anybody's; both by an id that is a non-empty string. */
  lemma WhoCallsAndAnswers(m: Message, id: CallRef)
    ensures id in Calls(m) <==>
      m.role == Assistant && id.Ref? && id.id != "" && exists b :: b in BlocksOf(m) && b.ToolUse? && b.id == id
    ensures id in Answers(m) <==>
      id.Ref? && id.id != "" && exists b :: b in BlocksOf(m) && b.ToolResult? && b.id == id
  {
    CallSeqNames(BlocksOf(m), id);
    if b :| b in BlocksOf(m) && b.ToolUse? && b.id == id {
      assert id.Names() ==> IsCall(b);
    }
    if b :| b in BlocksOf(m) && b.ToolResult? && b.id == id {
      assert id.Names() ==> IsAnswer(b);
    }
  }

  // ---- Well-paired histories ----

  /** Every result block of message `j` names a call made in a message before it. */
  ghost predicate ResultsFollowCalls(msgs: seq<Message>)
  {
    forall j, b | 0 <= j < |msgs| && b in BlocksOf(msgs[j]) && b.ToolResult? ::
      b.id.Names() && CalledBefore(msgs, j, b.id)
  }

  ghost predicate CalledBefore(msgs: seq<Message>, j: nat, id: CallRef)
    requires j <= |msgs|
  {
    exists i :: 0 <= i < j && id in Calls(msgs[i])
  }

  ghost predicate AnsweredAfter(msgs: seq<Message>, i: nat, id: CallRef)
    requires i < |msgs|
  {
    exists j :: i < j < |msgs| && id in Answers(msgs[j])
  }

  /** Every call has a result somewhere in the history. */
  ghost predicate CallsHaveResults(msgs: seq<Message>)
  {
    forall i, id | 0 <= i < |msgs| && id in Calls(msgs[i]) :: Answered(msgs, id)
  }

  /** Every call has a result in a later message. */
  ghost predicate CallsHaveLaterResults(msgs: seq<Message>)
  {
    forall i, id | 0 <= i < |msgs| && id in Calls(msgs[i]) :: AnsweredAfter(msgs, i, id)
  }

  /** No two messages call the same id. */
  ghost predicate DistinctCalls(msgs: seq<Message>)
  {
    forall i, j | 0 <= i < j < |msgs| :: Calls(msgs[i]) !! Calls(msgs[j])
  }

  ghost predicate WellPaired(msgs: seq<Message>)
  {
    ResultsFollowCalls(msgs) && CallsHaveResults(msgs)
  }

  /** With distinct call ids, pairing by id is pairing in order. */
  lemma DistinctCallsAreAnsweredLater(msgs: seq<Message>)
    requires WellPaired(msgs) && DistinctCalls(msgs)
    ensures CallsHaveLaterResults(msgs)
  {
    forall i, id | 0 <= i < |msgs| && id in Calls(msgs[i]) ensures AnsweredAfter(msgs, i, id) {
      assert Answered(msgs, id);
      var j :| 0 <= j < |msgs| && id in Answers(msgs[j]);
      var b :| b in BlocksOf(msgs[j]) && IsAnswer(b) && b.id == id;
      assert CalledBefore(msgs, j, id);
      var k :| 0 <= k < j && id in Calls(msgs[k]);
      assert k == i;
    }
  }

  // ---- The outline of a message: all that pairing depends on ----

  datatype Mark = Call(id: CallRef) | Answer(id: CallRef) | Rest

  function MarkOf(b: Block): Mark
  {
    match b
    case ToolUse(id, _, _) => Call(id)
    case ToolResult(id, _, _) => Answer(id)
    case _ => Rest
  }

  /** `after` has the role of `before` and, block by block, the same calls and results. */
  ghost predicate SameOutline(before: Message, after: Message)
  {
    && before.role == after.role
    && before.content.Blocks? == after.content.Blocks?
    && |BlocksOf(before)| == |BlocksOf(after)|
    && forall i | 0 <= i < |BlocksOf(before)| :: MarkOf(BlocksOf(before)[i]) == MarkOf(BlocksOf(after)[i])
  }

  ghost predicate SameOutlines(before: seq<Message>, after: seq<Message>)
  {
    |before| == |after| && forall i | 0 <= i < |before| :: SameOutline(before[i], after[i])
  }

  lemma {:induction false} CallSeqByMarks(xs: seq<Block>, ys: seq<Block>)
    requires |xs| == |ys| && forall i | 0 <= i < |xs| :: MarkOf(xs[i]) == MarkOf(ys[i])
    ensures CallSeq(xs) == CallSeq(ys)
  {
    if xs != [] {
      assert MarkOf(xs[0]) == MarkOf(ys[0]);
      CallSeqByMarks(xs[1..], ys[1..]);
    }
  }

  lemma OutlineFixesIds(before: Message, after: Message)
    requires SameOutline(before, after)
    ensures CallIds(before) == CallIds(after) && Answers(before) == Answers(after)
  {
    var xs, ys := BlocksOf(before), BlocksOf(after);
    CallSeqByMarks(xs, ys);
    forall id ensures id in Answers(before) <==> id in Answers(after) {
      if id in Answers(before) {
        var i :| 0 <= i < |xs| && IsAnswer(xs[i]) && xs[i].id == id;
        assert MarkOf(ys[i]) == Answer(id) && ys[i] in ys;
      }
      if id in Answers(after) {
        var i :| 0 <= i < |ys| && IsAnswer(ys[i]) && ys[i].id == id;
        assert MarkOf(xs[i]) == Answer(id) && xs[i] in xs;
      }
    }
  }

  lemma ResultsStayPaired(before: seq<Message>, after: seq<Message>, j: nat, b: Block)
    requires SameOutlines(before, after) && ResultsFollowCalls(before)
    requires j < |after| && b in BlocksOf(after[j]) && b.ToolResult?
    ensures b.id.Names() && CalledBefore(after, j, b.id)
  {
    var k :| 0 <= k < |BlocksOf(after[j])| && BlocksOf(after[j])[k] == b;
    assert SameOutline(before[j], after[j]);
    var twin := BlocksOf(before[j])[k];
    assert MarkOf(twin) == MarkOf(b) && twin in BlocksOf(before[j]);
    assert CalledBefore(before, j, b.id);
    var i :| 0 <= i < j && b.id in Calls(before[i]);
    OutlineFixesIds(before[i], after[i]);
    assert b.id in Calls(after[i]);
  }

  lemma CallsStayAnswered(before: seq<Message>, after: seq<Message>, i: nat, id: CallRef)
    requires SameOutlines(before, after) && CallsHaveResults(before)
    requires i < |after| && id in Calls(after[i])
    ensures Answered(after, id)
  {
    OutlineFixesIds(before[i], after[i]);
    assert Answered(before, id);
    var j :| 0 <= j < |before| && id in Answers(before[j]);
    OutlineFixesIds(before[j], after[j]);
    assert id in Answers(after[j]);
  }

  /** Rewriting blocks under their outline keeps a well-paired history well paired. */
  lemma OutlinesKeepPairing(before: seq<Message>, after: seq<Message>)
    requires SameOutlines(before, after) && WellPaired(before)
    ensures WellPaired(after)
  {
    forall j, b | 0 <= j < |after| && b in BlocksOf(after[j]) && b.ToolResult?
      ensures b.id.Names() && CalledBefore(after, j, b.id)
    {
      ResultsStayPaired(before, after, j, b);
    }
    forall i, id | 0 <= i < |after| && id in Calls(after[i]) ensures Answered(after, id) {
      CallsStayAnswered(before, after, i, id);
    }
  }

  lemma SameOutlinesTransitive(a: seq<Message>, b: seq<Message>, c: seq<Message>)
    requires SameOutlines(a, b) && SameOutlines(b, c)
    ensures SameOutlines(a, c)
  {
    forall i | 0 <= i < |a| ensures SameOutline(a[i], c[i]) {
      assert SameOutline(a[i], b[i]) && SameOutline(b[i], c[i]);
      var xs, ys, zs := BlocksOf(a[i]), BlocksOf(b[i]), BlocksOf(c[i]);
      forall k | 0 <= k < |xs| ensures MarkOf(xs[k]) == MarkOf(zs[k]) {
        assert MarkOf(xs[k]) == MarkOf(ys[k]) == MarkOf(zs[k]);
      }
    }
  }
}
