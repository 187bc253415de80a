/** What the reducers keep, for every history and every setting. */
module ContextPruneLaws {
  import opened Messages
  import opened ContextPrune

  // ---- Outlines: calls, results and their ids never change ----

  lemma StaleBlockMark(b: Block, role: Role, strip: bool, o: PruneOptions)
    ensures MarkOf(StaleBlock(b, role, strip, o)) == MarkOf(b)
  {
  }

  lemma StaleKeepsOutlines(msgs: seq<Message>, o: PruneOptions)
    ensures SameOutlines(msgs, Stale(msgs, o))
  {
    forall i | 0 <= i < |msgs| ensures SameOutline(msgs[i], Stale(msgs, o)[i]) {
      var strip := !(o.protectRequest && InRequest(msgs, i));
      forall k | 0 <= k < |BlocksOf(msgs[i])|
        ensures MarkOf(BlocksOf(msgs[i])[k]) == MarkOf(BlocksOf(StaleMessage(msgs[i], strip, o))[k])
      {
        StaleBlockMark(BlocksOf(msgs[i])[k], msgs[i].role, strip, o);
      }
    }
  }

  lemma DedupeShape(msgs: seq<Message>, o: PruneOptions, i: nat)
    requires i < |msgs|
    ensures SameOutline(msgs[i], Dedupe(msgs, o)[i])
    ensures forall k | 0 <= k < |BlocksOf(msgs[i])| :: BlocksOf(Dedupe(msgs, o)[i])[k] == DedupeAt(msgs, i, k, o)
    ensures i >= Cutoff(|msgs|, o) ==> Dedupe(msgs, o)[i] == msgs[i]
  {
    var out := DedupeMessage(msgs, i, o);
    forall k | 0 <= k < |BlocksOf(msgs[i])| ensures MarkOf(DedupeAt(msgs, i, k, o)) == MarkOf(BlocksOf(msgs[i])[k]) {
    }
    if i >= Cutoff(|msgs|, o) && msgs[i].content.Blocks? {
      assert out.content.blocks == msgs[i].content.blocks;
    }
  }

  lemma PruneKeepsOutlines(msgs: seq<Message>, o: PruneOptions)
    ensures SameOutlines(msgs, Prune(msgs, o))
  {
    forall i | 0 <= i < |msgs| ensures SameOutline(msgs[i], Dedupe(msgs, o)[i]) {
      DedupeShape(msgs, o, i);
    }
    StaleKeepsOutlines(Dedupe(msgs, o), o);
    SameOutlinesTransitive(msgs, Dedupe(msgs, o), Prune(msgs, o));
  }

  lemma ShrinkKeepsOutlines(msgs: seq<Message>, factor: real, minKeep: nat, stripImages: bool)
    ensures SameOutlines(msgs, Shrink(msgs, factor, minKeep, stripImages))
  {
    forall i | 0 <= i < |msgs| ensures SameOutline(msgs[i], Shrink(msgs, factor, minKeep, stripImages)[i]) {
      forall k | 0 <= k < |BlocksOf(msgs[i])|
        ensures MarkOf(ShrinkBlock(BlocksOf(msgs[i])[k], factor, minKeep, stripImages)) == MarkOf(BlocksOf(msgs[i])[k])
      {
      }
    }
  }

  /** Each block is as it was, or a removed attachment; as many were removed as the count says. */
  lemma {:induction false} StripSomeShape(blocks: seq<Block>, limit: nat, removed: nat)
    ensures
      var r := StripSome(blocks, limit, removed);
      && (forall k | 0 <= k < |blocks| ::
            r.0[k] == blocks[k] || (Strippable(blocks[k], true) && r.0[k] == NoteFor(blocks[k])))
      && (Room(limit, r.1) ==> forall k | 0 <= k < |blocks| :: !Strippable(r.0[k], true))
      && (limit > 0 && removed <= limit ==> r.1 <= limit)
  {
    if blocks != [] && Room(limit, removed) {
      var hit := Strippable(blocks[0], true);
      StripSomeShape(blocks[1..], limit, if hit then removed + 1 else removed);
    }
  }

  lemma StripOneOutline(m: Message, limit: nat, removed: nat)
    requires m.content.Blocks?
    ensures SameOutline(m, m.(content := Blocks(StripSome(m.content.blocks, limit, removed).0)))
  {
    StripSomeShape(m.content.blocks, limit, removed);
  }

  lemma SameOutlinesReflexive(msgs: seq<Message>)
    ensures SameOutlines(msgs, msgs)
  {
  }

  lemma {:induction false} StripSpanKeepsOutlines(msgs: seq<Message>, lo: int, i: int, limit: nat, removed: nat)
    requires i < |msgs|
    ensures SameOutlines(msgs, StripSpan(msgs, lo, i, limit, removed).0)
    decreases i - lo + 1
  {
    if i < lo || i < 0 {
      SameOutlinesReflexive(msgs);
    } else if msgs[i].content.Plain? {
      StripSpanKeepsOutlines(msgs, lo, i - 1, limit, removed);
    } else {
      var r := StripSome(msgs[i].content.blocks, limit, removed);
      StripOneOutline(msgs[i], limit, removed);
      var next := msgs[i := msgs[i].(content := Blocks(r.0))];
      assert SameOutlines(msgs, next) by {
        SameOutlinesReflexive(msgs);
      }
      StripSpanKeepsOutlines(next, lo, i - 1, limit, r.1);
      SameOutlinesTransitive(msgs, next, StripSpan(next, lo, i - 1, limit, r.1).0);
    }
  }

  lemma StripCurrentKeepsOutlines(msgs: seq<Message>, limit: nat)
    ensures SameOutlines(msgs, StripCurrent(msgs, limit).0)
  {
    var last := RequestIndex(msgs);
    StripSpanKeepsOutlines(msgs, SpanStart(msgs, last), last, limit, 0);
  }

  // ---- The protected tail and the request ----

  /** The newest `protect_last` messages are exactly as they were. */
  lemma PruneProtectsTheTail(msgs: seq<Message>, o: PruneOptions, i: nat)
    requires i < |msgs| && i + o.protectLast >= |msgs|
    ensures Prune(msgs, o)[i] == msgs[i]
  {
    DedupeShape(msgs, o, i);
  }

  lemma {:induction false} TextsAgree(xs: seq<Block>, ys: seq<Block>)
    requires SameButResults(xs, ys)
    ensures TextsOf(xs) == TextsOf(ys)
  {
    if xs != [] {
      var restX, restY := xs[1..], ys[1..];
      TextsAgree(restX, restY);
      assert xs[0] == ys[0] || (xs[0].ToolResult? && ys[0].ToolResult?);
      if b :| b in restX && b.Text? {
        var k :| 0 <= k < |restX| && restX[k] == b;
        assert restY[k] == b;
      }
      if b :| b in restY && b.Text? {
        var k :| 0 <= k < |restY| && restY[k] == b;
        assert restX[k] == b;
      }
    }
  }

  lemma OnlyResultsAgree(m: Message, n: Message)
    requires SameButResults(BlocksOf(m), BlocksOf(n)) && OnlyResults(m)
    ensures OnlyResults(n)
  {
    var xs, ys := BlocksOf(m), BlocksOf(n);
    forall b | b in ys ensures b.ToolResult? {
      var k :| 0 <= k < |ys| && ys[k] == b;
      assert xs[k] in xs;
    }
  }

  lemma DedupeKeepsRequests(msgs: seq<Message>, o: PruneOptions, i: nat)
    requires i < |msgs|
    ensures IsRequest(Dedupe(msgs, o)[i]) <==> IsRequest(msgs[i])
  {
    var m, n := msgs[i], DedupeMessage(msgs, i, o);
    DedupeShape(msgs, o, i);
    assert SameButResults(BlocksOf(m), BlocksOf(n)) && SameButResults(BlocksOf(n), BlocksOf(m));
    TextsAgree(BlocksOf(m), BlocksOf(n));
    if OnlyResults(m) {
      OnlyResultsAgree(m, n);
    }
    if OnlyResults(n) {
      OnlyResultsAgree(n, m);
    }
  }

  lemma SameSpanStart(xs: seq<Message>, ys: seq<Message>, at: int)
    requires |xs| == |ys| && at < |xs| && forall i | 0 <= i < |xs| :: IsRequest(xs[i]) <==> IsRequest(ys[i])
    ensures SpanStart(xs, at) == SpanStart(ys, at)
    decreases at + 1
  {
    if at >= 0 {
      assert IsRequest(xs[at]) <==> IsRequest(ys[at]);
      SameSpanStart(xs, ys, at - 1);
    }
  }

  lemma SameRequestsSameSpan(xs: seq<Message>, ys: seq<Message>)
    requires |xs| == |ys| && forall i | 0 <= i < |xs| :: IsRequest(xs[i]) <==> IsRequest(ys[i])
    ensures RequestIndex(xs) == RequestIndex(ys)
    ensures SpanStart(xs, RequestIndex(xs)) == SpanStart(ys, RequestIndex(ys))
  {
    SameSpanStart(xs, ys, RequestIndex(xs));
  }

  /** However many tool rounds followed it, the request being answered keeps its images and documents. */
  lemma PruneProtectsTheRequest(msgs: seq<Message>, o: PruneOptions, i: nat, k: nat)
    requires o.protectRequest && i < |msgs| && InRequest(msgs, i)
    requires k < |BlocksOf(msgs[i])| && BlocksOf(msgs[i])[k].Attachment?
    ensures BlocksOf(Prune(msgs, o)[i])[k] == BlocksOf(msgs[i])[k]
  {
    forall j | 0 <= j < |msgs| ensures IsRequest(Dedupe(msgs, o)[j]) <==> IsRequest(msgs[j]) {
      DedupeKeepsRequests(msgs, o, j);
    }
    SameRequestsSameSpan(msgs, Dedupe(msgs, o));
    DedupeAtPosition(msgs, o, i, k);
    StaleKeepsUnstripped(Dedupe(msgs, o), o, i, k);
  }

  lemma StaleKeepsUnstripped(msgs: seq<Message>, o: PruneOptions, i: nat, k: nat)
    requires o.protectRequest && i < |msgs| && InRequest(msgs, i)
    requires k < |BlocksOf(msgs[i])| && BlocksOf(msgs[i])[k].Attachment?
    ensures BlocksOf(Stale(msgs, o)[i])[k] == BlocksOf(msgs[i])[k]
  {
    var b := BlocksOf(msgs[i])[k];
    assert StaleBlock(b, msgs[i].role, false, o) == b;
  }

  // ---- Deduplication keeps information ----

  ghost predicate Full(msgs: seq<Message>, i: int, k: int, digest: (Body, string))
  {
    IsPosition(msgs, i, k) && BlocksOf(msgs[i])[k].ToolResult? && Digest(BlocksOf(msgs[i])[k]) == digest
  }

  lemma DedupeAtPosition(msgs: seq<Message>, o: PruneOptions, i: int, k: int)
    requires IsPosition(msgs, i, k)
    ensures IsPosition(Dedupe(msgs, o), i, k) && BlocksOf(Dedupe(msgs, o)[i])[k] == DedupeAt(msgs, i, k, o)
  {
    DedupeShape(msgs, o, i);
  }

  /** Every large result still stands in full, in the same or a later message. */
  lemma {:induction false} DedupeKeepsEveryLargeResult(msgs: seq<Message>, o: PruneOptions, i: nat, k: nat)
    requires IsPosition(msgs, i, k) && Large(BlocksOf(msgs[i])[k], o.minDup)
    ensures exists j, l :: j >= i && Full(Dedupe(msgs, o), j, l, Digest(BlocksOf(msgs[i])[k]))
    decreases |msgs| - i, k
  {
    var b := BlocksOf(msgs[i])[k];
    DedupeAtPosition(msgs, o, i, k);
    if DedupeAt(msgs, i, k, o) == b {
      assert Full(Dedupe(msgs, o), i, k, Digest(b));
    } else {
      var j, l :| IsPosition(msgs, j, l) && VisitedBefore(j, l, i, k) && ShowsDigest(msgs, j, l, Digest(b), o.minDup);
      DedupeKeepsEveryLargeResult(msgs, o, j, l);
    }
  }

  const BACK_REFERENCE: (Body, string) := (Whole(DUP_NOTE), "")

  lemma FullCopyIsOriginal(msgs: seq<Message>, o: PruneOptions, i: int, k: int, digest: (Body, string))
    requires digest != BACK_REFERENCE && Full(Dedupe(msgs, o), i, k, digest)
    ensures IsPosition(msgs, i, k) && BlocksOf(Dedupe(msgs, o)[i])[k] == BlocksOf(msgs[i])[k]
  {
    DedupeShape(msgs, o, i);
  }

  /**
   A full copy of a large content outside the protected tail is the only full copy there is; so the
   stale region holds at most one, and none when the tail holds one. (The back-reference itself is
   not a content.)
   */
  lemma DedupeLeavesOneCopy(msgs: seq<Message>, o: PruneOptions, i: int, k: int, j: int, l: int, digest: (Body, string))
    requires digest != BACK_REFERENCE && i < Cutoff(|msgs|, o)
    requires Full(Dedupe(msgs, o), i, k, digest) && Full(Dedupe(msgs, o), j, l, digest)
    requires Large(BlocksOf(Dedupe(msgs, o)[i])[k], o.minDup) && Large(BlocksOf(Dedupe(msgs, o)[j])[l], o.minDup)
    ensures (j, l) == (i, k)
  {
    FullCopyIsOriginal(msgs, o, i, k, digest);
    FullCopyIsOriginal(msgs, o, j, l, digest);
    DedupeAtPosition(msgs, o, i, k);
    DedupeAtPosition(msgs, o, j, l);
    if VisitedBefore(j, l, i, k) {
      assert ShowsDigest(msgs, j, l, digest, o.minDup);
    } else if VisitedBefore(i, k, j, l) {
      assert ShowsDigest(msgs, i, k, digest, o.minDup);
    }
  }

  // ---- Trimming a text result over and over ----

  /** A body that shows the first `h` and the last `t` characters of `text`, the marker counting the rest. */
  ghost predicate HeadTailView(body: Body, text: string, h: nat, t: nat)
  {
    || (h + t == |text| && body == Whole(text))
    || (h + t < |text| && body == Cut(text[..h], |text| - h - t, text[|text| - t..]))
  }

  ghost predicate IsView(body: Body, text: string)
  {
    exists h: nat, t: nat :: HeadTailView(body, text, h, t)
  }

  function TrimAll(body: Body, keeps: seq<nat>, noteId: string): Body
    decreases |keeps|
  {
    if keeps == [] then body else TrimAll(TrimBody(body, keeps[0], noteId).0, keeps[1..], noteId)
  }

  /** The sum of what each trim reports as removed. */
  function RemovedByAll(body: Body, keeps: seq<nat>, noteId: string): nat
    decreases |keeps|
  {
    if keeps == [] then 0
    else TrimBody(body, keeps[0], noteId).1 + RemovedByAll(TrimBody(body, keeps[0], noteId).0, keeps[1..], noteId)
  }

  /** Characters of the original that are not shown: what the marker counts. */
  function Hidden(body: Body): nat
  {
    if body.Cut? then body.count else 0
  }

  function Shown(body: Body): nat
  {
    match body
    case Whole(text) => |text|
    case Cut(head, _, tail) => |head| + |tail|
    case Parts(_) => 0
  }

  lemma TrimWholeView(text: string, keep: nat, noteId: string)
    requires keep < |text|
    ensures
      var (after, removed) := TrimBody(Whole(text), keep, noteId);
      HeadTailView(after, text, keep * 2 / 3, keep - keep * 2 / 3) && removed == |text| - keep
  {
  }

  lemma TrimCutView(text: string, h: nat, t: nat, keep: nat, noteId: string)
    requires h + t < |text| && keep < h + t
    ensures
      var newHead := Min(keep * 2 / 3, h);
      var newTail := Min(keep - newHead, t);
      var (after, removed) := TrimBody(Cut(text[..h], |text| - h - t, text[|text| - t..]), keep, noteId);
      HeadTailView(after, text, newHead, newTail) && removed == h + t - newHead - newTail
  {
    var newHead := Min(keep * 2 / 3, h);
    var newTail := Min(keep - newHead, t);
    assert text[..h][..newHead] == text[..newHead];
    assert text[|text| - t..][t - newTail..] == text[|text| - newTail..];
  }

  lemma TrimOnceView(body: Body, text: string, keep: nat, noteId: string)
    requires IsView(body, text)
    ensures
      var after := TrimBody(body, keep, noteId).0;
      && IsView(after, text) && Hidden(after) == Hidden(body) + TrimBody(body, keep, noteId).1
      && Shown(after) <= keep && Shown(after) <= Shown(body)
    ensures Shown(body) + Hidden(body) == |text|
  {
    var h: nat, t: nat :| HeadTailView(body, text, h, t);
    if Shown(body) > keep {
      if body.Whole? {
        TrimWholeView(text, keep, noteId);
      } else {
        TrimCutView(text, h, t, keep, noteId);
      }
    }
  }

  lemma {:induction false} TrimAllView(body: Body, text: string, keeps: seq<nat>, noteId: string)
    requires IsView(body, text)
    ensures
      var last := TrimAll(body, keeps, noteId);
      && IsView(last, text) && Hidden(last) == Hidden(body) + RemovedByAll(body, keeps, noteId)
      && Shown(last) + Hidden(last) == |text| && Shown(last) <= Shown(body)
      && forall k | k in keeps :: Shown(last) <= k
    decreases |keeps|
  {
    if keeps == [] {
      TrimOnceView(body, text, Shown(body), noteId);
    } else {
      TrimOnceView(body, text, keeps[0], noteId);
      TrimAllView(TrimBody(body, keeps[0], noteId).0, text, keeps[1..], noteId);
      forall k | k in keeps ensures Shown(TrimAll(body, keeps, noteId)) <= k {
        assert k == keeps[0] || k in keeps[1..];
      }
    }
  }

  /**
   After any trims with any keep sizes a text result is one view of the original: its head, a marker
   that counts exactly what is missing (the sum of what each trim reported), and its end; no more is
   shown than the smallest keep.
   */
  lemma RepeatedTrimsAreOneView(text: string, keeps: seq<nat>, noteId: string)
    ensures
      var last := TrimAll(Whole(text), keeps, noteId);
      && IsView(last, text) && Hidden(last) == RemovedByAll(Whole(text), keeps, noteId)
      && Shown(last) + Hidden(last) == |text|
      && forall k | k in keeps :: Shown(last) <= k
  {
    assert HeadTailView(Whole(text), text, |text|, 0);
    TrimAllView(Whole(text), text, keeps, noteId);
  }

  // ---- Trimming a result made of parts ----

  function NonText(parts: seq<Block>): seq<Block>
  {
    if parts == [] then [] else (if parts[0].Text? then [] else [parts[0]]) + NonText(parts[1..])
  }

  lemma {:induction false} KeptPartsFacts(parts: seq<Block>, budget: nat, noteId: string)
    ensures
      var kept := KeptParts(parts, budget, noteId);
      && NonText(kept) == NonText(parts)
      && PartsSize(kept, noteId) == Min(budget, PartsSize(parts, noteId))
      && |kept| == |parts| && forall k | 0 <= k < |parts| :: kept[k].Text? <==> parts[k].Text?
  {
    if parts != [] {
      var kept := KeptParts(parts, budget, noteId);
      if !parts[0].Text? {
        KeptPartsFacts(parts[1..], budget, noteId);
        assert kept[1..] == KeptParts(parts[1..], budget, noteId);
      } else {
        var size := |PartText(parts[0], noteId)|;
        var left := if size <= budget then budget - size else 0;
        KeptPartsFacts(parts[1..], left, noteId);
        assert kept[1..] == KeptParts(parts[1..], left, noteId);
      }
    }
  }

  lemma {:induction false} NonEmptyFacts(parts: seq<Block>, noteId: string)
    ensures NonText(NonEmpty(parts)) == NonText(parts)
    ensures PartsSize(NonEmpty(parts), noteId) == PartsSize(parts, noteId)
  {
    if parts != [] {
      NonEmptyFacts(parts[1..], noteId);
      if EmptyText(parts[0]) {
        assert NonEmpty(parts) == NonEmpty(parts[1..]);
      } else {
        assert NonEmpty(parts)[1..] == NonEmpty(parts[1..]);
      }
    }
  }

  lemma {:induction false} WithoutEmptiedFacts(parts: seq<Block>, noteId: string)
    ensures NonText(WithoutEmptied(parts)) == NonText(parts)
    ensures PartsSize(WithoutEmptied(parts), noteId) == PartsSize(parts, noteId)
    ensures (exists p | p in parts :: p.Text?) ==> exists p | p in WithoutEmptied(parts) :: p.Text?
  {
    if parts != [] {
      var out := WithoutEmptied(parts);
      WithoutEmptiedFacts(parts[1..], noteId);
      NonEmptyFacts(parts[1..], noteId);
      if !parts[0].Text? {
        assert out[1..] == WithoutEmptied(parts[1..]);
        if p :| p in parts && p.Text? {
          assert p in parts[1..];
          var q :| q in WithoutEmptied(parts[1..]) && q.Text?;
          assert q in out;
        }
      } else if EmptyText(parts[0]) && exists p | p in parts :: p.Text? && !EmptyText(p) {
        var p :| p in parts && p.Text? && !EmptyText(p);
        assert p in parts[1..];
      } else {
        assert out[1..] == NonEmpty(parts[1..]) && out[0] in out;
      }
    }
  }

  lemma {:induction false} LastTextFacts(parts: seq<Block>)
    ensures forall k | LastText(parts) < k < |parts| :: !parts[k].Text?
  {
    if parts != [] && !parts[|parts| - 1].Text? {
      LastTextFacts(parts[..|parts| - 1]);
    }
  }

  lemma LastTextAt(parts: seq<Block>, at: nat)
    requires at < |parts| && parts[at].Text? && forall k | at < k < |parts| :: !parts[k].Text?
    ensures LastText(parts) == at
  {
    LastTextFacts(parts);
  }

  lemma {:induction false} NonTextReplaced(parts: seq<Block>, at: nat, b: Block)
    requires at < |parts| && parts[at].Text? && b.Text?
    ensures NonText(parts[at := b]) == NonText(parts)
  {
    if at == 0 {
      assert parts[0 := b][1..] == parts[1..];
    } else {
      assert parts[at := b][1..] == parts[1..][at - 1 := b];
      NonTextReplaced(parts[1..], at - 1, b);
    }
  }

  lemma {:induction false} SizeReplaced(parts: seq<Block>, at: nat, b: Block, noteId: string)
    requires at < |parts| && parts[at].Text? && b.Text? && |PartText(b, noteId)| == |PartText(parts[at], noteId)|
    ensures PartsSize(parts[at := b], noteId) == PartsSize(parts, noteId)
  {
    if at == 0 {
      assert parts[0 := b][1..] == parts[1..];
    } else {
      assert parts[at := b][1..] == parts[1..][at - 1 := b];
      SizeReplaced(parts[1..], at - 1, b, noteId);
    }
  }

  lemma {:induction false} NoTextNoSize(parts: seq<Block>, noteId: string)
    requires forall k | 0 <= k < |parts| :: !parts[k].Text?
    ensures PartsSize(parts, noteId) == 0
  {
    if parts != [] {
      NoTextNoSize(parts[1..], noteId);
    }
  }

  /**
   Trimming a result made of parts keeps every part that is not text, in order; the text left fits
   `keep`; and the marker counts everything cut so far, this pass's characters included.
   */
  lemma TrimPartsConserves(parts: seq<Block>, keep: nat, noteId: string)
    requires PartsSize(parts, noteId) > keep
    ensures NonText(TrimParts(parts, keep, noteId).0) == NonText(parts)
    ensures PartsSize(Unmarked(TrimParts(parts, keep, noteId).0), noteId) <= keep
    ensures PartsSize(Unmarked(parts), noteId)
         == PartsSize(Unmarked(TrimParts(parts, keep, noteId).0), noteId) + TrimParts(parts, keep, noteId).1
    ensures Marker(TrimParts(parts, keep, noteId).0) == Marker(parts) + TrimParts(parts, keep, noteId).1
  {
    if LastText(parts) < 0 {
      LastTextFacts(parts);
      NoTextNoSize(parts, noteId);
    } else {
      UnmarkedFacts(parts);
      TrimOfClean(parts, Unmarked(parts), keep, noteId);
    }
  }

  lemma TrimOfClean(parts: seq<Block>, clean: seq<Block>, keep: nat, noteId: string)
    requires LastText(parts) >= 0 && PartsSize(parts, noteId) > keep && clean == Unmarked(parts)
    ensures
      var (left, dropped) := TrimParts(parts, keep, noteId);
      && NonText(left) == NonText(clean) && Marker(left) == Marker(parts) + dropped
      && PartsSize(Unmarked(left), noteId) == Min(keep, PartsSize(clean, noteId)) == PartsSize(clean, noteId) - dropped
  {
    UnmarkedFacts(parts);
    TidiedAndMarked(clean, LastText(parts), keep, Marker(parts), noteId);
  }

  lemma TidiedAndMarked(clean: seq<Block>, last: nat, keep: nat, marker: nat, noteId: string)
    requires last < |clean| && clean[last].Text? && DroppedChars(clean, keep, noteId) + marker > 0
    ensures
      var n := DroppedChars(clean, keep, noteId) + marker;
      var left := MarkLast(WithoutEmptied(KeptParts(clean, keep, noteId)), n, noteId);
      && NonText(left) == NonText(clean) && Marker(left) == n
      && PartsSize(Unmarked(left), noteId) == Min(keep, PartsSize(clean, noteId))
  {
    TidyFacts(clean, last, keep, noteId);
    MarkLastText(WithoutEmptied(KeptParts(clean, keep, noteId)), DroppedChars(clean, keep, noteId) + marker, noteId);
  }

  lemma UnmarkedFacts(parts: seq<Block>)
    requires LastText(parts) >= 0
    ensures NonText(Unmarked(parts)) == NonText(parts)
    ensures |Unmarked(parts)| == |parts| && Unmarked(parts)[LastText(parts)].Text?
    ensures Marker(parts) == 0 ==> Unmarked(parts) == parts
  {
    var last := LastText(parts);
    NonTextReplaced(parts, last, Text(parts[last].text, 0));
  }

  lemma TidyFacts(clean: seq<Block>, last: nat, keep: nat, noteId: string)
    requires last < |clean| && clean[last].Text?
    ensures
      var tidy := WithoutEmptied(KeptParts(clean, keep, noteId));
      && NonText(tidy) == NonText(clean) && LastText(tidy) >= 0
      && PartsSize(tidy, noteId) == Min(keep, PartsSize(clean, noteId))
  {
    KeptPartsFacts(clean, keep, noteId);
    var kept := KeptParts(clean, keep, noteId);
    assert kept[last].Text? && kept[last] in kept;
    WithoutEmptiedFacts(kept, noteId);
    var p :| p in WithoutEmptied(kept) && p.Text?;
    var k :| 0 <= k < |WithoutEmptied(kept)| && WithoutEmptied(kept)[k] == p;
    LastTextFacts(WithoutEmptied(kept));
  }

  lemma MarkLastText(tidy: seq<Block>, n: nat, noteId: string)
    requires n > 0 && LastText(tidy) >= 0
    ensures
      var left := MarkLast(tidy, n, noteId);
      && NonText(left) == NonText(tidy) && Marker(left) == n
      && PartsSize(Unmarked(left), noteId) == PartsSize(tidy, noteId)
  {
    var at := LastText(tidy);
    var text := PartText(tidy[at], noteId);
    var left := tidy[at := Text(text, n)];
    NonTextReplaced(tidy, at, Text(text, n));
    LastTextFacts(tidy);
    LastTextAt(left, at);
    assert Unmarked(left) == tidy[at := Text(text, 0)];
    SizeReplaced(tidy, at, Text(text, 0), noteId);
  }
}
