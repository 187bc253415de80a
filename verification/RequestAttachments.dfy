/** Which attachments of the request go when its attachments are stripped as a last resort. */
module RequestAttachments {
  import opened ContextPrune
  import opened ContextPruneLaws
  import opened Messages

  /** How many attachments could go. */
  function Removable(blocks: seq<Block>): nat
  {
    if blocks == [] then 0
    else Removable(blocks[..|blocks| - 1]) + (if Strippable(blocks[|blocks| - 1], true) then 1 else 0)
  }

  /** How many in the messages from `from` up to, but not including, `to`. */
  function RemovableIn(msgs: seq<Message>, from: nat, to: nat): nat
    requires to <= |msgs|
  {
    if to <= from then 0 else RemovableIn(msgs, from, to - 1) + Removable(BlocksOf(msgs[to - 1]))
  }

  /** At most `limit` of them, if there is a limit. */
  function Capped(limit: nat, n: nat): nat { if limit == 0 || n <= limit then n else limit }

  /** Before and after of one block, when `ahead` attachments came before it. */
  predicate StripsAt(before: Block, after: Block, limit: nat, ahead: nat)
  {
    after == if Strippable(before, true) && (limit == 0 || ahead < limit) then NoteFor(before) else before
  }

  // ---- One message: the first attachments go ----

  lemma {:induction false} OneMoreInFront(b: Block, blocks: seq<Block>)
    ensures Removable([b] + blocks) == (if Strippable(b, true) then 1 else 0) + Removable(blocks)
  {
    var all := [b] + blocks;
    if blocks == [] {
      assert all[..0] == [] && all[0] == b;
    } else {
      OneMoreInFront(b, blocks[..|blocks| - 1]);
      assert all[..|all| - 1] == [b] + blocks[..|blocks| - 1];
    }
  }

  lemma {:induction false} NoRoomNoChange(blocks: seq<Block>, limit: nat, removed: nat, k: nat)
    requires k < |blocks| && !Room(limit, removed)
    ensures StripsAt(blocks[k], StripSome(blocks, limit, removed).0[k], limit, removed + Removable(blocks[..k]))
  {
  }

  lemma FrontSplits<T>(xs: seq<T>, k: nat)
    requires 0 < k <= |xs|
    ensures xs[..k] == [xs[0]] + xs[1..][..k - 1]
  {
  }

  lemma SecondOfStripSome(blocks: seq<Block>, limit: nat, removed: nat, k: nat)
    requires 0 < k < |blocks| && Room(limit, removed)
    ensures
      StripSome(blocks, limit, removed).0[k]
      == StripSome(blocks[1..], limit, if Strippable(blocks[0], true) then removed + 1 else removed).0[k - 1]
  {
  }

  lemma {:induction false} StripSomeAt(blocks: seq<Block>, limit: nat, removed: nat, k: nat)
    requires k < |blocks|
    ensures StripsAt(blocks[k], StripSome(blocks, limit, removed).0[k], limit, removed + Removable(blocks[..k]))
    decreases k
  {
    if !Room(limit, removed) {
      NoRoomNoChange(blocks, limit, removed, k);
    } else if k == 0 {
      assert blocks[..0] == [];
    } else {
      var rest := blocks[1..];
      var next := if Strippable(blocks[0], true) then removed + 1 else removed;
      StripSomeAt(rest, limit, next, k - 1);
      FrontSplits(blocks, k);
      OneMoreInFront(blocks[0], rest[..k - 1]);
      SecondOfStripSome(blocks, limit, removed, k);
    }
  }

  lemma FirstAndRest(blocks: seq<Block>)
    requires blocks != []
    ensures Removable(blocks) == (if Strippable(blocks[0], true) then 1 else 0) + Removable(blocks[1..])
  {
    OneMoreInFront(blocks[0], blocks[1..]);
    assert blocks == [blocks[0]] + blocks[1..];
  }

  lemma CountOfTheRest(blocks: seq<Block>, limit: nat, removed: nat)
    requires blocks != [] && Room(limit, removed)
    ensures
      StripSome(blocks, limit, removed).1
      == StripSome(blocks[1..], limit, if Strippable(blocks[0], true) then removed + 1 else removed).1
  {
  }

  lemma {:induction false} StripSomeCounts(blocks: seq<Block>, limit: nat, removed: nat)
    requires limit == 0 || removed <= limit
    ensures StripSome(blocks, limit, removed).1 == Capped(limit, removed + Removable(blocks))
  {
    if blocks != [] && Room(limit, removed) {
      CountOfTheRest(blocks, limit, removed);
      FirstAndRest(blocks);
      StripSomeCounts(blocks[1..], limit, if Strippable(blocks[0], true) then removed + 1 else removed);
    }
  }

  // ---- The messages of the request, the newest first ----

  lemma {:induction false} SameBelow(msgs: seq<Message>, next: seq<Message>, from: nat, to: nat)
    requires to <= |msgs| == |next| && forall j | from <= j < to :: next[j] == msgs[j]
    ensures RemovableIn(next, from, to) == RemovableIn(msgs, from, to)
  {
    if to > from {
      SameBelow(msgs, next, from, to - 1);
    }
  }

  lemma NoRoomLater(limit: nat, n: nat, more: nat)
    ensures limit == 0 || Capped(limit, n) + more < limit <==> limit == 0 || n + more < limit
  {
  }

  /** The list after message `i` had its turn. */
  function Stripped(msgs: seq<Message>, i: nat, limit: nat, removed: nat): seq<Message>
    requires i < |msgs| && msgs[i].content.Blocks?
  {
    msgs[i := msgs[i].(content := Blocks(StripSome(msgs[i].content.blocks, limit, removed).0))]
  }

  lemma StripSpanUnfolds(msgs: seq<Message>, lo: nat, i: nat, limit: nat, removed: nat)
    requires lo <= i < |msgs|
    ensures StripSpan(msgs, lo, i, limit, removed) ==
      if msgs[i].content.Plain? then StripSpan(msgs, lo, i - 1, limit, removed)
      else StripSpan(Stripped(msgs, i, limit, removed), lo, i - 1, limit,
                     StripSome(msgs[i].content.blocks, limit, removed).1)
  {
  }

  /** What becomes of one block when messages `lo` to `i` are stripped and `removed` attachments went before. */
  ghost predicate SpanAt(msgs: seq<Message>, out: seq<Message>, lo: nat, i: int, limit: nat, removed: nat,
      j: nat, k: nat)
    requires -1 <= i < |msgs| && IsPosition(msgs, j, k)
  {
    && IsPosition(out, j, k)
    && if lo <= j <= i then
         StripsAt(BlocksOf(msgs[j])[k], BlocksOf(out[j])[k], limit,
           removed + RemovableIn(msgs, j + 1, i + 1) + Removable(BlocksOf(msgs[j])[..k]))
       else BlocksOf(out[j])[k] == BlocksOf(msgs[j])[k]
  }

  lemma NothingInPlain(msgs: seq<Message>, out: seq<Message>, lo: nat, i: nat, limit: nat, removed: nat,
      j: nat, k: nat)
    requires i < |msgs| && IsPosition(msgs, j, k) && msgs[i].content.Plain?
    requires SpanAt(msgs, out, lo, i - 1, limit, removed, j, k)
    ensures SpanAt(msgs, out, lo, i, limit, removed, j, k)
  {
    assert j != i && BlocksOf(msgs[i]) == [];
  }

  lemma ThisMessage(msgs: seq<Message>, out: seq<Message>, lo: nat, i: nat, limit: nat, removed: nat, k: nat)
    requires lo <= i < |msgs| && IsPosition(msgs, i, k) && IsPosition(out, i, k)
    requires BlocksOf(out[i])[k] == StripSome(BlocksOf(msgs[i]), limit, removed).0[k]
    ensures SpanAt(msgs, out, lo, i, limit, removed, i, k)
  {
    StripSomeAt(BlocksOf(msgs[i]), limit, removed, k);
    assert RemovableIn(msgs, i + 1, i + 1) == 0;
  }

  lemma EarlierMessage(msgs: seq<Message>, next: seq<Message>, out: seq<Message>, lo: nat, i: nat, limit: nat,
      removed: nat, j: nat, k: nat)
    requires lo <= j < i < |msgs| == |next| && IsPosition(msgs, j, k) && forall l | 0 <= l < i :: next[l] == msgs[l]
    requires SpanAt(next, out, lo, i - 1, limit, Capped(limit, removed + Removable(BlocksOf(msgs[i]))), j, k)
    ensures SpanAt(msgs, out, lo, i, limit, removed, j, k)
  {
    var here, more := Removable(BlocksOf(msgs[i])), Removable(BlocksOf(msgs[j])[..k]);
    SameBelow(msgs, next, j + 1, i);
    assert RemovableIn(msgs, j + 1, i + 1) == RemovableIn(msgs, j + 1, i) + here;
    NoRoomLater(limit, removed + here, RemovableIn(msgs, j + 1, i) + more);
  }

  lemma OneMessageMore(msgs: seq<Message>, out: seq<Message>, lo: nat, i: nat, limit: nat, removed: nat,
      j: nat, k: nat)
    requires lo <= i < |msgs| && IsPosition(msgs, j, k) && msgs[i].content.Blocks?
    requires
      var next := Stripped(msgs, i, limit, removed);
      && IsPosition(next, j, k)
      && SpanAt(next, out, lo, i - 1, limit, Capped(limit, removed + Removable(BlocksOf(msgs[i]))), j, k)
    ensures SpanAt(msgs, out, lo, i, limit, removed, j, k)
  {
    if j == i {
      ThisMessage(msgs, out, lo, i, limit, removed, k);
    } else if lo <= j < i {
      EarlierMessage(msgs, Stripped(msgs, i, limit, removed), out, lo, i, limit, removed, j, k);
    }
  }

  lemma {:induction false} StripSpanAt(msgs: seq<Message>, lo: nat, i: int, limit: nat, removed: nat, j: nat, k: nat)
    requires -1 <= i < |msgs| && IsPosition(msgs, j, k) && (limit == 0 || removed <= limit)
    ensures SpanAt(msgs, StripSpan(msgs, lo, i, limit, removed).0, lo, i, limit, removed, j, k)
    decreases i + 1
  {
    if lo <= i {
      var out := StripSpan(msgs, lo, i, limit, removed).0;
      StripSpanUnfolds(msgs, lo, i, limit, removed);
      if msgs[i].content.Plain? {
        StripSpanAt(msgs, lo, i - 1, limit, removed, j, k);
        NothingInPlain(msgs, out, lo, i, limit, removed, j, k);
      } else {
        var next, total := Stripped(msgs, i, limit, removed), StripSome(msgs[i].content.blocks, limit, removed).1;
        StripSomeCounts(msgs[i].content.blocks, limit, removed);
        assert IsPosition(next, j, k);
        StripSpanAt(next, lo, i - 1, limit, total, j, k);
        OneMessageMore(msgs, out, lo, i, limit, removed, j, k);
      }
    }
  }

  lemma {:induction false} StripSpanCounts(msgs: seq<Message>, lo: nat, i: int, limit: nat, removed: nat)
    requires -1 <= i < |msgs| && (limit == 0 || removed <= limit)
    ensures StripSpan(msgs, lo, i, limit, removed).1 == Capped(limit, removed + RemovableIn(msgs, lo, i + 1))
    decreases i + 1
  {
    if lo <= i {
      StripSpanUnfolds(msgs, lo, i, limit, removed);
      if msgs[i].content.Plain? {
        StripSpanCounts(msgs, lo, i - 1, limit, removed);
      } else {
        var next, blocks := Stripped(msgs, i, limit, removed), msgs[i].content.blocks;
        StripSomeCounts(blocks, limit, removed);
        StripSpanCounts(next, lo, i - 1, limit, StripSome(blocks, limit, removed).1);
        SameBelow(msgs, next, lo, i);
      }
    }
  }

  /**
   Of the request's attachments the first `limit` go, counted from its newest message and in each message from
   the first block on, or all of them when there is no limit; nothing else changes.
   */
  lemma NewestAttachmentsGoFirst(msgs: seq<Message>, limit: nat, j: nat, k: nat)
    requires IsPosition(msgs, j, k)
    ensures
      var out := StripCurrent(msgs, limit).0;
      && IsPosition(out, j, k)
      && if InRequest(msgs, j) then
           StripsAt(BlocksOf(msgs[j])[k], BlocksOf(out[j])[k], limit,
             RemovableIn(msgs, j + 1, RequestIndex(msgs) + 1) + Removable(BlocksOf(msgs[j])[..k]))
         else BlocksOf(out[j])[k] == BlocksOf(msgs[j])[k]
  {
    var last := RequestIndex(msgs);
    StripSpanAt(msgs, SpanStart(msgs, last), last, limit, 0, j, k);
  }

  /** The number returned is the number that went: all the request has, or the limit. */
  lemma AsManyGoAsTheCountSays(msgs: seq<Message>, limit: nat)
    ensures
      var last := RequestIndex(msgs);
      StripCurrent(msgs, limit).1 == Capped(limit, RemovableIn(msgs, SpanStart(msgs, last), last + 1))
  {
    var last := RequestIndex(msgs);
    StripSpanCounts(msgs, SpanStart(msgs, last), last, limit, 0);
  }
}
