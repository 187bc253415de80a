/** What the whole prune does to each block, in terms of what the block was and where it stood. */
module PruneMeaning {
  import opened ContextPrune
  import opened ContextPruneLaws
  import opened BackReferences
  import opened Decimals
  import opened Messages
  import opened Sequences

  /** Outside the newest `protectLast` messages. */
  predicate IsStale(msgs: seq<Message>, i: nat, o: PruneOptions) { i + o.protectLast < |msgs| }

  /** The block at a position after both passes: what the dedupe left of it, gone through the stale pass. */
  lemma PrunedBlock(msgs: seq<Message>, o: PruneOptions, i: nat, k: nat)
    requires IsPosition(msgs, i, k)
    ensures IsPosition(Prune(msgs, o), i, k)
    ensures BlocksOf(Prune(msgs, o)[i])[k] ==
      if IsStale(msgs, i, o)
      then StaleBlock(DedupeAt(msgs, i, k, o), msgs[i].role, !(o.protectRequest && InRequest(msgs, i)), o)
      else BlocksOf(msgs[i])[k]
  {
    var deduped := Dedupe(msgs, o);
    DedupeAtPosition(msgs, o, i, k);
    DedupeShape(msgs, o, i);
    SameRequest(msgs, o, i);
    StaleAt(deduped, o, i, k);
  }

  // ---- Calls ----

  /** Before and after of one argument of a call. */
  ghost predicate ArgPruned(before: Arg, after: Arg, stale: bool, o: PruneOptions)
  {
    if stale && before.Words? && |before.words| > o.inputOver then
      after == Words(before.words[..if o.inputKeep <= |before.words| then o.inputKeep else |before.words|]
                     + InputNote(|before.words| - o.inputKeep))
    else after == before
  }

  lemma ArgTrimmed(a: Arg, o: PruneOptions)
    ensures ArgPruned(a, TrimArg(a, o.inputOver, o.inputKeep), true, o)
  {
  }

  /**
   A call keeps its id, its name and its keys. An argument is shortened if and only if it is a string longer
   than `inputOver` in a stale assistant message; it then shows its first `inputKeep` characters and a note
   that says how many are missing.
   */
  lemma CallsArePrunedByArgument(msgs: seq<Message>, o: PruneOptions, i: nat, k: nat)
    requires IsPosition(msgs, i, k) && BlocksOf(msgs[i])[k].ToolUse?
    ensures
      var before, after := BlocksOf(msgs[i])[k], BlocksOf(Prune(msgs, o)[i])[k];
      && after.ToolUse? && after.id == before.id && after.name == before.name
      && after.input.Keys == before.input.Keys
      && forall key | key in before.input ::
           ArgPruned(before.input[key], after.input[key], msgs[i].role.Assistant? && IsStale(msgs, i, o), o)
  {
    PrunedBlock(msgs, o, i, k);
    var before := BlocksOf(msgs[i])[k];
    forall key | key in before.input
      ensures ArgPruned(before.input[key], TrimArg(before.input[key], o.inputOver, o.inputKeep), true, o)
    {
      ArgTrimmed(before.input[key], o);
    }
  }

  /** The note tells how much is missing, so what was cut can be read off it. */
  lemma NotesTell(m: int, n: int)
    requires InputNote(m) == InputNote(n)
    ensures m == n
  {
    var front := "\n\U{2026}[";
    assert InputNote(m) == (front + Decimal(m)) + INPUT_NOTE && InputNote(n) == (front + Decimal(n)) + INPUT_NOTE;
    SameBetween(front, Decimal(m), Decimal(n), INPUT_NOTE);
    DecimalTellsNumbers(m, n);
  }

  // ---- Text and attachments ----

  /** What people and the model wrote stays as it is. */
  lemma WordsAreNotPruned(msgs: seq<Message>, o: PruneOptions, i: nat)
    requires i < |msgs|
    ensures Prune(msgs, o)[i].role == msgs[i].role
    ensures msgs[i].content.Plain? ==> Prune(msgs, o)[i] == msgs[i]
    ensures forall k | 0 <= k < |BlocksOf(msgs[i])| && (BlocksOf(msgs[i])[k].Text? || BlocksOf(msgs[i])[k].Opaque?) ::
      IsPosition(Prune(msgs, o), i, k) && BlocksOf(Prune(msgs, o)[i])[k] == BlocksOf(msgs[i])[k]
  {
    DedupeShape(msgs, o, i);
    forall k | 0 <= k < |BlocksOf(msgs[i])| && (BlocksOf(msgs[i])[k].Text? || BlocksOf(msgs[i])[k].Opaque?)
      ensures IsPosition(Prune(msgs, o), i, k) && BlocksOf(Prune(msgs, o)[i])[k] == BlocksOf(msgs[i])[k]
    {
      PrunedBlock(msgs, o, i, k);
    }
  }

  /** An attachment goes if and only if it is stale, holds its data, may go, and is not part of the request. */
  lemma AttachmentsArePruned(msgs: seq<Message>, o: PruneOptions, i: nat, k: nat)
    requires IsPosition(msgs, i, k) && BlocksOf(msgs[i])[k].Attachment?
    ensures
      var before, after := BlocksOf(msgs[i])[k], BlocksOf(Prune(msgs, o)[i])[k];
      after ==
        if IsStale(msgs, i, o) && !(o.protectRequest && InRequest(msgs, i)) && before.base64
           && (before.media.Image? || o.stripDocuments)
        then Text(if before.media.Image? then IMAGE_NOTE else DOCUMENT_NOTE, 0)
        else before
  {
    PrunedBlock(msgs, o, i, k);
  }

  // ---- Results ----

  /** Some newer result, or an earlier one of the same message, is as large and has the same content. */
  ghost predicate HasNewerCopy(msgs: seq<Message>, i: int, k: int, o: PruneOptions)
    requires IsPosition(msgs, i, k) && BlocksOf(msgs[i])[k].ToolResult?
  {
    exists j, l :: IsPosition(msgs, j, l) && (j > i || (j == i && l < k))
      && BlocksOf(msgs[j])[l].ToolResult? && SizeOf(BlocksOf(msgs[j])[l]) >= o.minDup
      && Digest(BlocksOf(msgs[j])[l]) == Digest(BlocksOf(msgs[i])[k])
  }

  lemma SeenExactlyWhenCopied(msgs: seq<Message>, o: PruneOptions, i: nat, k: nat)
    requires IsPosition(msgs, i, k) && BlocksOf(msgs[i])[k].ToolResult?
    ensures SeenAlready(msgs, Digest(BlocksOf(msgs[i])[k]), i, k, o.minDup) <==> HasNewerCopy(msgs, i, k, o)
  {
    var digest := Digest(BlocksOf(msgs[i])[k]);
    if HasNewerCopy(msgs, i, k, o) {
      var j, l :| IsPosition(msgs, j, l) && (j > i || (j == i && l < k))
        && BlocksOf(msgs[j])[l].ToolResult? && SizeOf(BlocksOf(msgs[j])[l]) >= o.minDup
        && Digest(BlocksOf(msgs[j])[l]) == digest;
      assert VisitedBefore(j, l, i, k) && ShowsDigest(msgs, j, l, digest, o.minDup);
    }
    if SeenAlready(msgs, digest, i, k, o.minDup) {
      var j, l :|
        IsPosition(msgs, j, l) && VisitedBefore(j, l, i, k) && ShowsDigest(msgs, j, l, digest, o.minDup);
      assert HasNewerCopy(msgs, i, k, o);
    }
  }

  lemma DedupedAt(msgs: seq<Message>, o: PruneOptions, i: nat, k: nat)
    requires IsPosition(msgs, i, k)
    ensures
      var b := BlocksOf(msgs[i])[k];
      DedupeAt(msgs, i, k, o) ==
        if IsStale(msgs, i, o) && b.ToolResult? && SizeOf(b) >= o.minDup && HasNewerCopy(msgs, i, k, o)
        then b.(body := Whole(DUP_NOTE)) else b
  {
    if BlocksOf(msgs[i])[k].ToolResult? {
      SeenExactlyWhenCopied(msgs, o, i, k);
    }
  }

  /** A result becomes a back-reference if and only if it is stale, large, and has a newer copy. */
  lemma DedupedExactlyWhenCopied(msgs: seq<Message>, o: PruneOptions, i: nat, k: nat)
    requires IsPosition(msgs, i, k)
    ensures
      var before, after := BlocksOf(msgs[i])[k], BlocksOf(Dedupe(msgs, o)[i]);
      k < |after|
      && after[k] ==
           if IsStale(msgs, i, o) && before.ToolResult? && SizeOf(before) >= o.minDup && HasNewerCopy(msgs, i, k, o)
           then before.(body := Whole(DUP_NOTE)) else before
  {
    DedupeAtPosition(msgs, o, i, k);
    DedupedAt(msgs, o, i, k);
  }

  /** A text result that was not cut before: what of it the model sees after a trim to `keep` characters. */
  ghost predicate TextCut(text: string, after: Body, keep: nat)
  {
    if |text| <= keep then after == Whole(text)
    else
      && after.Cut? && after.count == |text| - keep && |after.head| + |after.tail| == keep
      && 3 * |after.head| <= 2 * keep < 3 * (|after.head| + 1)
      && text == after.head + text[|after.head|..|text| - |after.tail|] + after.tail
  }

  lemma TextIsCut(text: string, keep: nat, noteId: string)
    ensures TextCut(text, TrimBody(Whole(text), keep, noteId).0, keep)
  {
    if |text| > keep {
      var after := TrimBody(Whole(text), keep, noteId).0;
      assert after.head == text[..|after.head|] && after.tail == text[|text| - |after.tail|..];
    }
  }

  /** The stale pass on a text result. */
  lemma StaleText(b: Block, role: Role, strip: bool, o: PruneOptions)
    requires b.ToolResult? && b.body.Whole?
    ensures
      var after, text := StaleBlock(b, role, strip, o), b.body.text;
      && after.ToolResult? && after.id == b.id && after.isError == b.isError
      && if |text| > o.trimOver then TextCut(text, after.body, o.trimKeep) else after == b
  {
    TextIsCut(b.body.text, o.trimKeep, NoteId(b.id));
  }

  /**
   A stale text result that stays a result is cut if and only if it is longer than `trimOver`, then to `trimKeep`
   characters: two thirds from its head, the rest from its end, and the count of what is missing in between.
   */
  lemma TextResultsArePruned(msgs: seq<Message>, o: PruneOptions, i: nat, k: nat)
    requires IsPosition(msgs, i, k) && BlocksOf(msgs[i])[k].ToolResult? && BlocksOf(msgs[i])[k].body.Whole?
    ensures
      var before, after := BlocksOf(msgs[i])[k], BlocksOf(Prune(msgs, o)[i])[k];
      && after.ToolResult? && after.id == before.id && after.isError == before.isError
      && var dup := IsStale(msgs, i, o) && |before.body.text| >= o.minDup && HasNewerCopy(msgs, i, k, o);
         var text := if dup then DUP_NOTE else before.body.text;
         if IsStale(msgs, i, o) && |text| > o.trimOver then TextCut(text, after.body, o.trimKeep)
         else after.body == Whole(text)
  {
    PrunedBlock(msgs, o, i, k);
    DedupedAt(msgs, o, i, k);
    StaleText(DedupeAt(msgs, i, k, o), msgs[i].role, !(o.protectRequest && InRequest(msgs, i)), o);
  }
}
