/**
 The reducers as they run: over one list, in place, calling `before_change` before a message is first
 changed. Each method leaves the specified history and keeps every original readable.
 */
module PruneInPlace {
  import opened Messages
  import opened ContextPrune
  import opened Sequences

  class History {
    const messages: array<Message>
    /** Copies made by the hook, by position: the message as it was before its first change. */
    var kept: map<nat, Message>

    constructor (messages: array<Message>)
      ensures this.messages == messages && kept == map[]
      ensures forall i: nat | i < messages.Length :: Original(i) == messages[i]
    {
      this.messages := messages;
      kept := map[];
    }

    /** The message as it was before any reducer changed it. */
    function Original(i: nat): Message
      requires i < messages.Length
      reads this, messages
    {
      if i in kept then kept[i] else messages[i]
    }

    /** Rewrites one block; the hook sees the message first. */
    method Replace(i: nat, k: nat, b: Block)
      requires i < messages.Length && k < |BlocksOf(messages[i])|
      modifies this, messages
      ensures messages[..] == old(messages[..])[i := WithBlock(old(messages[i]), k, b)]
      ensures kept == if i in old(kept) then old(kept) else old(kept)[i := old(messages[i])]
      ensures forall j: nat | j < messages.Length :: Original(j) == old(Original(j))
    {
      if i !in kept {
        kept := kept[i := messages[i]];
      }
      messages[i] := WithBlock(messages[i], k, b);
    }

    /** The hook and the change only where there is something to change. */
    method Rewrite(i: nat, k: nat, b: Block)
      requires i < messages.Length && k < |BlocksOf(messages[i])|
      modifies this, messages
      ensures messages[..] == old(messages[..])[i := WithBlock(old(messages[i]), k, b)]
      ensures b == old(BlocksOf(messages[i])[k]) ==> kept == old(kept)
      ensures forall j: nat | j < messages.Length :: Original(j) == old(Original(j))
    {
      if b != BlocksOf(messages[i])[k] {
        Replace(i, k, b);
      } else {
        assert WithBlock(messages[i], k, b) == messages[i];
      }
    }

    method DedupeOne(i: nat, o: PruneOptions, seen: set<(Body, string)>, ghost start: seq<Message>)
      returns (seen': set<(Body, string)>)
      requires i < messages.Length == |start| && messages[i] == start[i]
      requires VisitedUpTo(seen, start, i, 0, o.minDup)
      modifies this, messages
      ensures messages[..] == old(messages[..])[i := DedupeMessage(start, i, o)]
      ensures VisitedUpTo(seen', start, i, |BlocksOf(start[i])|, o.minDup)
      ensures forall j: nat | j < messages.Length :: Original(j) == old(Original(j))
    {
      seen' := seen;
      var isProtected := i >= Cutoff(messages.Length, o);
      var blocks := BlocksOf(messages[i]);
      var k := 0;
      assert messages[..][i := start[i]] == messages[..];
      while k < |blocks|
        invariant 0 <= k <= |blocks|
        invariant messages[..] == old(messages[..])[i := messages[i]]
        invariant DedupedTo(messages[i], start, i, k, o)
        invariant VisitedUpTo(seen', start, i, k, o.minDup)
        invariant forall j: nat | j < messages.Length :: Original(j) == old(Original(j))
      {
        var block := blocks[k];
        ghost var before := seen';
        if Large(block, o.minDup) {
          var digest := Digest(block);
          if digest in seen' && !isProtected {
            Replace(i, k, block.(body := Whole(DUP_NOTE)));
          } else {
            seen' := seen' + {digest};
          }
        }
        VisitedStep(before, seen', start, i, k, o.minDup);
        k := k + 1;
      }
      DedupedThroughout(messages[i], start, i, o);
    }

    method DedupePass(o: PruneOptions)
      modifies this, messages
      ensures messages[..] == Dedupe(old(messages[..]), o)
      ensures forall j: nat | j < messages.Length :: Original(j) == old(Original(j))
    {
      ghost var start := messages[..];
      var seen: set<(Body, string)> := {};
      var mi := messages.Length;
      while mi > 0
        invariant 0 <= mi <= messages.Length
        invariant forall i | 0 <= i < mi :: messages[i] == start[i]
        invariant forall i | mi <= i < messages.Length :: messages[i] == DedupeMessage(start, i, o)
        invariant VisitedFrom(seen, start, mi, o.minDup)
        invariant forall j: nat | j < messages.Length :: Original(j) == old(Original(j))
      {
        mi := mi - 1;
        VisitedAcross(seen, start, mi, o.minDup);
        seen := DedupeOne(mi, o, seen, start);
        VisitedWhole(seen, start, mi, o.minDup);
      }
    }

    method StaleOne(i: nat, strip: bool, o: PruneOptions)
      requires i < messages.Length
      modifies this, messages
      ensures messages[..] == old(messages[..])[i := StaleMessage(old(messages[i]), strip, o)]
      ensures forall j: nat | j < messages.Length :: Original(j) == old(Original(j))
    {
      ghost var start := messages[i];
      var role, blocks := messages[i].role, BlocksOf(messages[i]);
      var k := 0;
      assert messages[..][i := start] == messages[..];
      while k < |blocks|
        invariant 0 <= k <= |blocks|
        invariant messages[..] == old(messages[..])[i := messages[i]]
        invariant StaleTo(messages[i], start, k, strip, o)
        invariant forall j: nat | j < messages.Length :: Original(j) == old(Original(j))
      {
        Rewrite(i, k, StaleBlock(blocks[k], role, strip, o));
        k := k + 1;
      }
      StaleThroughout(messages[i], start, strip, o);
    }

    /** The whole prune: newest copies win, then the stale region is shortened. */
    method PruneMessages(o: PruneOptions)
      modifies this, messages
      ensures messages[..] == Prune(old(messages[..]), o)
      ensures forall j: nat | j < messages.Length :: Original(j) == old(Original(j))
    {
      DedupePass(o);
      var deduped := messages[..];
      var cutoff := Cutoff(messages.Length, o);
      var mi := 0;
      while mi < cutoff
        invariant 0 <= mi <= cutoff <= messages.Length
        invariant forall i | 0 <= i < mi :: messages[i] == Stale(deduped, o)[i]
        invariant forall i | mi <= i < messages.Length :: messages[i] == deduped[i]
        invariant forall j: nat | j < messages.Length :: Original(j) == old(Original(j))
      {
        StaleOne(mi, !(o.protectRequest && InRequest(deduped, mi)), o);
        mi := mi + 1;
      }
    }

    method ShrinkOne(i: nat, factor: real, minKeep: nat, stripImages: bool)
      requires i < messages.Length
      modifies this, messages
      ensures messages[..] == old(messages[..])[i := ShrinkMessage(old(messages[i]), factor, minKeep, stripImages)]
      ensures forall j: nat | j < messages.Length :: Original(j) == old(Original(j))
    {
      ghost var start := messages[i];
      var blocks := BlocksOf(messages[i]);
      var k := 0;
      assert messages[..][i := start] == messages[..];
      while k < |blocks|
        invariant 0 <= k <= |blocks|
        invariant messages[..] == old(messages[..])[i := messages[i]]
        invariant ShrunkTo(messages[i], start, k, factor, minKeep, stripImages)
        invariant forall j: nat | j < messages.Length :: Original(j) == old(Original(j))
      {
        Rewrite(i, k, ShrinkBlock(blocks[k], factor, minKeep, stripImages));
        k := k + 1;
      }
      ShrunkThroughout(messages[i], start, factor, minKeep, stripImages);
    }

    method ShrinkToolResults(factor: real, minKeep: nat, stripImages: bool)
      modifies this, messages
      ensures messages[..] == Shrink(old(messages[..]), factor, minKeep, stripImages)
      ensures forall j: nat | j < messages.Length :: Original(j) == old(Original(j))
    {
      ghost var start := messages[..];
      var mi := 0;
      while mi < messages.Length
        invariant 0 <= mi <= messages.Length
        invariant forall i | 0 <= i < mi :: messages[i] == ShrinkMessage(start[i], factor, minKeep, stripImages)
        invariant forall i | mi <= i < messages.Length :: messages[i] == start[i]
        invariant forall j: nat | j < messages.Length :: Original(j) == old(Original(j))
      {
        ShrinkOne(mi, factor, minKeep, stripImages);
        mi := mi + 1;
      }
    }

    /** Replaces block `k` by its note when it is an attachment. */
    method StripAt(i: nat, k: nat, removed: nat) returns (total: nat)
      requires i < messages.Length && k < |BlocksOf(messages[i])|
      modifies this, messages
      ensures (messages[i], total) == Stripped(old(messages[i]), k, removed)
      ensures messages[..] == old(messages[..])[i := messages[i]]
      ensures forall j: nat | j < messages.Length :: Original(j) == old(Original(j))
    {
      total := removed;
      if Strippable(BlocksOf(messages[i])[k], true) {
        Replace(i, k, NoteFor(BlocksOf(messages[i])[k]));
        total := total + 1;
      }
    }

    method StripOne(i: nat, limit: nat, removed: nat) returns (total: nat)
      requires i < messages.Length && messages[i].content.Blocks?
      modifies this, messages
      ensures
        var r := StripSome(old(messages[i].content.blocks), limit, removed);
        total == r.1 && messages[..] == old(messages[..])[i := old(messages[i]).(content := Blocks(r.0))]
      ensures forall j: nat | j < messages.Length :: Original(j) == old(Original(j))
    {
      ghost var start := messages[i];
      var count := |messages[i].content.blocks|;
      total := removed;
      var k := 0;
      assert messages[..][i := start] == messages[..];
      StripStart(start, limit, removed);
      while k < count && Room(limit, total)
        invariant 0 <= k <= count
        invariant messages[..] == old(messages[..])[i := messages[i]]
        invariant StrippedTo(messages[i], start, k, limit, removed, total)
        invariant forall j: nat | j < messages.Length :: Original(j) == old(Original(j))
      {
        StripStep(messages[i], start, k, limit, removed, total);
        total := StripAt(i, k, total);
        k := k + 1;
      }
      StrippedThroughout(messages[i], start, k, limit, removed, total);
    }

    method StripCurrentAttachments(limit: nat) returns (removed: nat)
      modifies this, messages
      ensures (messages[..], removed) == StripCurrent(old(messages[..]), limit)
      ensures forall j: nat | j < messages.Length :: Original(j) == old(Original(j))
    {
      var last := RequestIndex(messages[..]);
      var lo := SpanStart(messages[..], last);
      removed := 0;
      var i := last;
      while i >= lo && i >= 0
        invariant i <= last < messages.Length
        invariant StripSpan(old(messages[..]), lo, last, limit, 0) == StripSpan(messages[..], lo, i, limit, removed)
        invariant forall j: nat | j < messages.Length :: Original(j) == old(Original(j))
        decreases i
      {
        if messages[i].content.Blocks? {
          removed := StripOne(i, limit, removed);
        }
        i := i - 1;
      }
    }
  }

  function WithBlock(m: Message, k: nat, b: Block): Message
    requires k < |BlocksOf(m)|
  {
    m.(content := Blocks(BlocksOf(m)[k := b]))
  }

  // ---- What the dedupe pass has seen ----

  /** `seen` holds exactly the digests visited before block `k` of message `i`. */
  ghost predicate VisitedUpTo(seen: set<(Body, string)>, msgs: seq<Message>, i: int, k: int, minDup: nat)
  {
    forall digest :: digest in seen <==> SeenAlready(msgs, digest, i, k, minDup)
  }

  ghost predicate VisitedFrom(seen: set<(Body, string)>, msgs: seq<Message>, mi: int, minDup: nat)
  {
    VisitedUpTo(seen, msgs, mi - 1, 0, minDup)
  }

  lemma VisitedStep(seen: set<(Body, string)>, seen': set<(Body, string)>, msgs: seq<Message>, i: int, k: int,
      minDup: nat)
    requires IsPosition(msgs, i, k) && VisitedUpTo(seen, msgs, i, k, minDup)
    requires
      var b := BlocksOf(msgs[i])[k];
      if Large(b, minDup) && Digest(b) !in seen then seen' == seen + {Digest(b)}
      else seen' == seen || (Large(b, minDup) && seen' == seen + {Digest(b)})
    ensures VisitedUpTo(seen', msgs, i, k + 1, minDup)
  {
    var b := BlocksOf(msgs[i])[k];
    forall digest ensures digest in seen' <==> SeenAlready(msgs, digest, i, k + 1, minDup) {
      if digest in seen {
        var j, l :| IsPosition(msgs, j, l) && VisitedBefore(j, l, i, k) && ShowsDigest(msgs, j, l, digest, minDup);
        assert VisitedBefore(j, l, i, k + 1);
      }
      if Large(b, minDup) && Digest(b) == digest {
        assert VisitedBefore(i, k, i, k + 1);
      }
      if j, l :| IsPosition(msgs, j, l) && VisitedBefore(j, l, i, k + 1) && ShowsDigest(msgs, j, l, digest, minDup) {
        assert VisitedBefore(j, l, i, k) || (j == i && l == k);
        assert VisitedBefore(j, l, i, k) ==> SeenAlready(msgs, digest, i, k, minDup);
      }
    }
  }

  lemma VisitedAcross(seen: set<(Body, string)>, msgs: seq<Message>, mi: int, minDup: nat)
    requires VisitedFrom(seen, msgs, mi + 1, minDup)
    ensures VisitedUpTo(seen, msgs, mi, 0, minDup)
  {
  }

  lemma VisitedWhole(seen: set<(Body, string)>, msgs: seq<Message>, mi: int, minDup: nat)
    requires 0 <= mi < |msgs| && VisitedUpTo(seen, msgs, mi, |BlocksOf(msgs[mi])|, minDup)
    ensures VisitedFrom(seen, msgs, mi, minDup)
  {
    forall digest
      ensures
        SeenAlready(msgs, digest, mi, |BlocksOf(msgs[mi])|, minDup) <==> SeenAlready(msgs, digest, mi - 1, 0, minDup)
    {
      if j, l :|
        IsPosition(msgs, j, l) && VisitedBefore(j, l, mi, |BlocksOf(msgs[mi])|)
        && ShowsDigest(msgs, j, l, digest, minDup)
      {
        assert VisitedBefore(j, l, mi - 1, 0);
      }
      if j, l :| IsPosition(msgs, j, l) && VisitedBefore(j, l, mi - 1, 0) && ShowsDigest(msgs, j, l, digest, minDup) {
        assert VisitedBefore(j, l, mi, |BlocksOf(msgs[mi])|);
      }
    }
  }

  // ---- Half-rewritten messages ----

  ghost predicate DedupedTo(now: Message, start: seq<Message>, i: int, k: int, o: PruneOptions)
    requires 0 <= i < |start|
  {
    && now.role == start[i].role && now.content.Blocks? == start[i].content.Blocks?
    && (now.content.Plain? ==> now == start[i])
    && |BlocksOf(now)| == |BlocksOf(start[i])|
    && (forall l | 0 <= l < |BlocksOf(now)| && l < k :: BlocksOf(now)[l] == DedupeAt(start, i, l, o))
    && (forall l | 0 <= l < |BlocksOf(now)| && k <= l :: BlocksOf(now)[l] == BlocksOf(start[i])[l])
  }

  lemma DedupedThroughout(now: Message, start: seq<Message>, i: int, o: PruneOptions)
    requires 0 <= i < |start| && DedupedTo(now, start, i, |BlocksOf(start[i])|, o)
    ensures now == DedupeMessage(start, i, o)
  {
    if now.content.Blocks? {
      assert now.content.blocks == DedupeMessage(start, i, o).content.blocks;
    }
  }

  ghost predicate StaleTo(now: Message, start: Message, k: int, strip: bool, o: PruneOptions)
  {
    && now.role == start.role && now.content.Blocks? == start.content.Blocks?
    && (now.content.Plain? ==> now == start)
    && |BlocksOf(now)| == |BlocksOf(start)|
    && (forall l | 0 <= l < |BlocksOf(now)| && l < k ::
          BlocksOf(now)[l] == StaleBlock(BlocksOf(start)[l], start.role, strip, o))
    && (forall l | 0 <= l < |BlocksOf(now)| && k <= l :: BlocksOf(now)[l] == BlocksOf(start)[l])
  }

  lemma StaleThroughout(now: Message, start: Message, strip: bool, o: PruneOptions)
    requires StaleTo(now, start, |BlocksOf(start)|, strip, o)
    ensures now == StaleMessage(start, strip, o)
  {
    if now.content.Blocks? {
      assert now.content.blocks == StaleMessage(start, strip, o).content.blocks;
    }
  }

  ghost predicate ShrunkTo(now: Message, start: Message, k: int, factor: real, minKeep: nat, stripImages: bool)
  {
    && now.role == start.role && now.content.Blocks? == start.content.Blocks?
    && (now.content.Plain? ==> now == start)
    && |BlocksOf(now)| == |BlocksOf(start)|
    && (forall l | 0 <= l < |BlocksOf(now)| && l < k ::
          BlocksOf(now)[l] == ShrinkBlock(BlocksOf(start)[l], factor, minKeep, stripImages))
    && (forall l | 0 <= l < |BlocksOf(now)| && k <= l :: BlocksOf(now)[l] == BlocksOf(start)[l])
  }

  lemma ShrunkThroughout(now: Message, start: Message, factor: real, minKeep: nat, stripImages: bool)
    requires ShrunkTo(now, start, |BlocksOf(start)|, factor, minKeep, stripImages)
    ensures now == ShrinkMessage(start, factor, minKeep, stripImages)
  {
    if now.content.Blocks? {
      assert now.content.blocks == ShrinkMessage(start, factor, minKeep, stripImages).content.blocks;
    }
  }

  /** The first `k` blocks are done: finishing from here gives what the specification gives. */
  ghost predicate StrippedTo(now: Message, start: Message, k: int, limit: nat, removed: nat, total: nat)
  {
    && now.role == start.role && now.content.Blocks? && start.content.Blocks?
    && |BlocksOf(now)| == |BlocksOf(start)| && 0 <= k <= |BlocksOf(start)| && total >= removed
    && (forall l | k <= l < |BlocksOf(now)| :: BlocksOf(now)[l] == BlocksOf(start)[l])
    && var rest := StripSome(BlocksOf(start)[k..], limit, total);
       StripSome(BlocksOf(start), limit, removed) == (BlocksOf(now)[..k] + rest.0, rest.1)
  }

  /** One block of a message stripped, and the count after it. */
  function Stripped(m: Message, k: nat, total: nat): (Message, nat)
    requires k < |BlocksOf(m)|
  {
    var b := BlocksOf(m)[k];
    if Strippable(b, true) then (WithBlock(m, k, NoteFor(b)), total + 1) else (m, total)
  }

  lemma StripStart(start: Message, limit: nat, removed: nat)
    requires start.content.Blocks?
    ensures StrippedTo(start, start, 0, limit, removed, removed)
  {
    var rest := StripSome(BlocksOf(start), limit, removed);
    assert BlocksOf(start)[0..] == BlocksOf(start);
    assert BlocksOf(start)[..0] + rest.0 == rest.0;
  }

  lemma StripStep(now: Message, start: Message, k: int, limit: nat, removed: nat, total: nat)
    requires StrippedTo(now, start, k, limit, removed, total) && k < |BlocksOf(start)| && Room(limit, total)
    ensures
      var (next, count) := Stripped(now, k, total);
      StrippedTo(next, start, k + 1, limit, removed, count)
  {
    var b := BlocksOf(start)[k];
    var hit := Strippable(b, true);
    var next := if hit then WithBlock(now, k, NoteFor(b)) else now;
    var rest := StripSome(BlocksOf(start)[k + 1..], limit, if hit then total + 1 else total);
    StripUnfold(BlocksOf(start), k, limit, total);
    Regroup(BlocksOf(now)[..k], [BlocksOf(next)[k]], rest.0);
    assert BlocksOf(next)[..k + 1] == BlocksOf(now)[..k] + [BlocksOf(next)[k]];
  }

  lemma StripUnfold(blocks: seq<Block>, k: nat, limit: nat, total: nat)
    requires k < |blocks| && Room(limit, total)
    ensures
      var hit := Strippable(blocks[k], true);
      var rest := StripSome(blocks[k + 1..], limit, if hit then total + 1 else total);
      StripSome(blocks[k..], limit, total) == ([if hit then NoteFor(blocks[k]) else blocks[k]] + rest.0, rest.1)
  {
    assert blocks[k..][1..] == blocks[k + 1..];
  }

  lemma StrippedThroughout(now: Message, start: Message, k: int, limit: nat, removed: nat, total: nat)
    requires StrippedTo(now, start, k, limit, removed, total)
    requires k == |BlocksOf(start)| || !Room(limit, total)
    ensures
      var r := StripSome(start.content.blocks, limit, removed);
      total == r.1 && now == start.(content := Blocks(r.0))
  {
    assert BlocksOf(now)[k..] == BlocksOf(start)[k..];
    assert BlocksOf(now) == BlocksOf(now)[..k] + BlocksOf(now)[k..];
  }
}
