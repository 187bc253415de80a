/**
 What a back-reference of the dedupe pass points to, and whether it still stands in full when the whole prune
 is done: the note says so, but the same prune may shorten the copy it refers to.
 */
module BackReferences {
  import opened ContextPrune
  import opened ContextPruneLaws
  import opened Messages

  // ---- The referred copy ----

  /** The block is a back-reference after the dedupe pass. */
  ghost predicate Deduped(msgs: seq<Message>, i: int, k: int, o: PruneOptions)
    requires IsPosition(msgs, i, k)
  {
    var b := BlocksOf(msgs[i])[k];
    i < Cutoff(|msgs|, o) && Large(b, o.minDup) && SeenAlready(msgs, Digest(b), i, k, o.minDup)
  }

  /** The copy the pass saw first. */
  ghost predicate FirstSeen(msgs: seq<Message>, j: int, l: int, digest: (Body, string), minDup: nat)
  {
    IsPosition(msgs, j, l) && ShowsDigest(msgs, j, l, digest, minDup) && !SeenAlready(msgs, digest, j, l, minDup)
  }

  lemma {:induction false} SomethingIsFirst(msgs: seq<Message>, i: int, k: int, digest: (Body, string), minDup: nat)
    requires IsPosition(msgs, i, k) && ShowsDigest(msgs, i, k, digest, minDup)
    ensures exists j, l :: FirstSeen(msgs, j, l, digest, minDup) && (VisitedBefore(j, l, i, k) || (j == i && l == k))
    decreases |msgs| - i, k
  {
    if SeenAlready(msgs, digest, i, k, minDup) {
      var j, l :| IsPosition(msgs, j, l) && VisitedBefore(j, l, i, k) && ShowsDigest(msgs, j, l, digest, minDup);
      SomethingIsFirst(msgs, j, l, digest, minDup);
    } else {
      assert FirstSeen(msgs, i, k, digest, minDup);
    }
  }

  /** Every back-reference has exactly one copy it refers to, in the same or a later message. */
  lemma ReferenceHasItsCopy(msgs: seq<Message>, i: int, k: int, o: PruneOptions)
    requires IsPosition(msgs, i, k) && Deduped(msgs, i, k, o)
    ensures
      var digest := Digest(BlocksOf(msgs[i])[k]);
      && (exists j, l :: j >= i && FirstSeen(msgs, j, l, digest, o.minDup))
      && (forall j, l, j', l' | FirstSeen(msgs, j, l, digest, o.minDup) && FirstSeen(msgs, j', l', digest, o.minDup) ::
            j == j' && l == l')
  {
    var digest := Digest(BlocksOf(msgs[i])[k]);
    SomethingIsFirst(msgs, i, k, digest, o.minDup);
    forall j, l, j', l' | FirstSeen(msgs, j, l, digest, o.minDup) && FirstSeen(msgs, j', l', digest, o.minDup)
      ensures j == j' && l == l'
    {
      OnlyOneIsFirst(msgs, j, l, j', l', digest, o.minDup);
    }
  }

  lemma OnlyOneIsFirst(msgs: seq<Message>, j: int, l: int, j': int, l': int, digest: (Body, string), minDup: nat)
    requires FirstSeen(msgs, j, l, digest, minDup) && FirstSeen(msgs, j', l', digest, minDup)
    ensures j == j' && l == l'
  {
    assert !VisitedBefore(j, l, j', l') && !VisitedBefore(j', l', j, l);
  }

  // ---- When stripping changes a result ----

  /** An image or document the pass would remove, at any depth. */
  predicate Holds(b: Block, documents: bool)
    decreases b, 1
  {
    Strippable(b, documents) || (b.ToolResult? && b.body.Parts? && HoldsStrippable(b.body.parts, documents))
  }

  predicate HoldsStrippable(parts: seq<Block>, documents: bool)
    decreases parts
  {
    exists i | 0 <= i < |parts| :: Holds(parts[i], documents)
  }

  lemma HoldsInFrontOrBehind(parts: seq<Block>, documents: bool)
    requires parts != []
    ensures HoldsStrippable(parts, documents) <==>
      Holds(parts[0], documents) || HoldsStrippable(parts[1..], documents)
  {
    var rest := parts[1..];
    if HoldsStrippable(rest, documents) {
      var i :| 0 <= i < |rest| && Holds(rest[i], documents);
      assert parts[i + 1] == rest[i];
    }
    if HoldsStrippable(parts, documents) {
      var i :| 0 <= i < |parts| && Holds(parts[i], documents);
      assert i > 0 ==> rest[i - 1] == parts[i];
    }
  }

  /** Stripping shows in the parts that are not text: it changes them exactly when there is something to strip. */
  lemma {:induction false} StrippingShows(parts: seq<Block>, documents: bool)
    ensures |NonText(StripBlocks(parts, documents))| <= |NonText(parts)|
    ensures HoldsStrippable(parts, documents) <==> NonText(StripBlocks(parts, documents)) != NonText(parts)
    ensures !HoldsStrippable(parts, documents) ==> StripBlocks(parts, documents) == parts
    decreases parts
  {
    if parts != [] {
      var b, rest := parts[0], parts[1..];
      var out := StripBlocks(parts, documents);
      assert out[1..] == StripBlocks(rest, documents);
      StrippingShows(rest, documents);
      HoldsInFrontOrBehind(parts, documents);
      StrippingShowsIn(b, documents);
      StrippedInFront(b, StripBlock(b, documents), NonText(rest), NonText(StripBlocks(rest, documents)));
    }
  }

  lemma StrippingShowsIn(b: Block, documents: bool)
    ensures Holds(b, documents) <==> StripBlock(b, documents) != b
    ensures b.Text? ==> StripBlock(b, documents) == b
    decreases b, 1
  {
    if !Strippable(b, documents) && b.ToolResult? && b.body.Parts? {
      StrippingShows(b.body.parts, documents);
    }
  }

  /** A first part and the rest, before and after. */
  lemma StrippedInFront(b: Block, c: Block, rest: seq<Block>, after: seq<Block>)
    requires |after| <= |rest| && (c.Text? <== b.Text?) && (b.Text? ==> c == b)
    ensures
      var xs := (if b.Text? then [] else [b]) + rest;
      var ys := (if c.Text? then [] else [c]) + after;
      |ys| <= |xs| && (ys == xs <==> (b.Text? || b == c) && after == rest)
  {
    var xs := (if b.Text? then [] else [b]) + rest;
    var ys := (if c.Text? then [] else [c]) + after;
    if ys == xs && !b.Text? {
      assert !c.Text?;
      assert xs[0] == b && ys[0] == c && xs[1..] == rest && ys[1..] == after;
    } else if b.Text? {
      assert xs == rest && ys == after;
    }
  }

  // ---- When trimming changes a result ----

  /** Trimming to `keep` leaves the body as it is. */
  predicate KeepsAll(body: Body, keep: nat, noteId: string)
  {
    match body
    case Whole(text) => |text| <= keep
    case Cut(head, _, tail) => |head| + |tail| <= keep
    case Parts(parts) => PartsSize(parts, noteId) <= keep || OnlyItsNoteIsLong(parts, keep, noteId)
  }

  /** Without the note of an earlier trim the text fits, and no emptied part would be tidied away. */
  predicate OnlyItsNoteIsLong(parts: seq<Block>, keep: nat, noteId: string)
  {
    PartsSize(Unmarked(parts), noteId) <= keep && WithoutEmptied(Unmarked(parts)) == Unmarked(parts)
  }

  lemma {:induction false} EverythingKept(parts: seq<Block>, budget: nat, noteId: string)
    requires PartsSize(parts, noteId) <= budget
    ensures KeptParts(parts, budget, noteId) == parts
  {
    if parts != [] {
      var spent := if parts[0].Text? then |PartText(parts[0], noteId)| else 0;
      EverythingKept(parts[1..], budget - spent, noteId);
      assert parts == [parts[0]] + parts[1..];
    }
  }

  lemma {:induction false} NonEmptyShrinks(parts: seq<Block>)
    ensures |NonEmpty(parts)| <= |parts| && (|NonEmpty(parts)| == |parts| ==> NonEmpty(parts) == parts)
  {
    if parts != [] {
      NonEmptyShrinks(parts[1..]);
      assert parts == [parts[0]] + parts[1..];
    }
  }

  lemma {:induction false} TidyingShrinks(parts: seq<Block>)
    ensures |WithoutEmptied(parts)| <= |parts|
    ensures |WithoutEmptied(parts)| == |parts| ==> WithoutEmptied(parts) == parts
  {
    if parts != [] {
      TidyingShrinks(parts[1..]);
      NonEmptyShrinks(parts[1..]);
      assert parts == [parts[0]] + parts[1..];
    }
  }

  /** Marking the last text again restores what unmarking took away. */
  lemma MarkedAgain(parts: seq<Block>, noteId: string)
    requires LastText(parts) >= 0
    ensures MarkLast(Unmarked(parts), Marker(parts), noteId) == parts
  {
    var last := LastText(parts);
    LastTextFacts(parts);
    LastTextAt(Unmarked(parts), last);
  }

  lemma NothingDropped(parts: seq<Block>, clean: seq<Block>, keep: nat, noteId: string)
    requires clean == Unmarked(parts) && Marker(parts) > 0
    requires KeptParts(clean, keep, noteId) == clean && DroppedChars(clean, keep, noteId) == 0
    ensures TrimParts(parts, keep, noteId).0 == MarkLast(WithoutEmptied(clean), Marker(parts), noteId)
  {
  }

  lemma MarkingKeepsLength(parts: seq<Block>, n: nat, noteId: string)
    ensures |MarkLast(parts, n, noteId)| == |parts|
  {
  }

  lemma OnlyTidied(parts: seq<Block>, clean: seq<Block>, keep: nat, noteId: string)
    requires clean == Unmarked(parts) && |clean| == |parts| && LastText(parts) >= 0
    requires PartsSize(clean, noteId) <= keep < PartsSize(parts, noteId)
    requires Marker(parts) == 0 ==> clean == parts
    ensures TrimParts(parts, keep, noteId).0 == parts <==> WithoutEmptied(clean) == clean
  {
    EverythingKept(clean, keep, noteId);
    assert Marker(parts) > 0 && DroppedChars(clean, keep, noteId) == 0;
    NothingDropped(parts, clean, keep, noteId);
    MarkingKeepsLength(WithoutEmptied(clean), Marker(parts), noteId);
    TidyingShrinks(clean);
    MarkedAgain(parts, noteId);
  }

  lemma PartsTrimmed(parts: seq<Block>, keep: nat, noteId: string)
    requires PartsSize(parts, noteId) > keep
    ensures TrimParts(parts, keep, noteId).0 == parts <==> OnlyItsNoteIsLong(parts, keep, noteId)
  {
    SomeText(parts, noteId);
    UnmarkedFacts(parts);
    if PartsSize(Unmarked(parts), noteId) <= keep {
      OnlyTidied(parts, Unmarked(parts), keep, noteId);
    } else {
      TrimPartsConserves(parts, keep, noteId);
    }
  }

  lemma SomeText(parts: seq<Block>, noteId: string)
    requires PartsSize(parts, noteId) > 0
    ensures LastText(parts) >= 0
  {
    LastTextFacts(parts);
    if LastText(parts) < 0 {
      NoTextNoSize(parts, noteId);
    }
  }

  lemma TrimmingShows(body: Body, keep: nat, noteId: string)
    ensures TrimBody(body, keep, noteId).0 == body <==> KeepsAll(body, keep, noteId)
  {
    if body.Parts? && PartsSize(body.parts, noteId) > keep {
      PartsTrimmed(body.parts, keep, noteId);
    }
  }

  // ---- The whole prune ----

  /** The stale pass leaves the result alone: nothing to strip, and not too long, or nothing to trim. */
  predicate StaysFull(b: Block, strip: bool, o: PruneOptions)
    requires b.ToolResult?
  {
    && !(strip && Holds(b, o.stripDocuments))
    && (SizeOf(b) <= o.trimOver || KeepsAll(b.body, o.trimKeep, NoteId(b.id)))
  }

  lemma TrimmedPartsKeepTheRest(parts: seq<Block>, keep: nat, noteId: string)
    ensures TrimBody(Parts(parts), keep, noteId).0.Parts?
    ensures NonText(TrimBody(Parts(parts), keep, noteId).0.parts) == NonText(parts)
  {
    if PartsSize(parts, noteId) > keep {
      TrimPartsConserves(parts, keep, noteId);
    }
  }

  lemma StrippedThenTrimmed(b: Block, o: PruneOptions)
    requires b.ToolResult? && Holds(b, o.stripDocuments)
    ensures
      var after := TrimIfLong(StripBlock(b, o.stripDocuments), o);
      after.ToolResult? && after.id == b.id && after.body != b.body
  {
    var stripped := StripBlock(b, o.stripDocuments);
    StrippingShows(b.body.parts, o.stripDocuments);
    TrimmedPartsKeepTheRest(stripped.body.parts, o.trimKeep, NoteId(b.id));
  }

  lemma JustTrimmed(b: Block, o: PruneOptions)
    requires b.ToolResult?
    ensures TrimIfLong(b, o).ToolResult? && TrimIfLong(b, o).id == b.id
    ensures TrimIfLong(b, o).body == b.body <==>
      SizeOf(b) <= o.trimOver || KeepsAll(b.body, o.trimKeep, NoteId(b.id))
  {
    TrimmingShows(b.body, o.trimKeep, NoteId(b.id));
  }

  /** Only stripping and trimming touch a result. */
  lemma StaleResult(b: Block, role: Role, strip: bool, o: PruneOptions)
    requires b.ToolResult?
    ensures StaleBlock(b, role, strip, o) == TrimIfLong(if strip then StripBlock(b, o.stripDocuments) else b, o)
  {
  }

  lemma StaleShows(b: Block, role: Role, strip: bool, o: PruneOptions)
    requires b.ToolResult?
    ensures StaleBlock(b, role, strip, o).ToolResult? && StaleBlock(b, role, strip, o).id == b.id
    ensures StaleBlock(b, role, strip, o).body == b.body <==> StaysFull(b, strip, o)
  {
    StaleResult(b, role, strip, o);
    if strip && Holds(b, o.stripDocuments) {
      StrippedThenTrimmed(b, o);
    } else {
      StrippingShowsIn(b, o.stripDocuments);
      JustTrimmed(b, o);
    }
  }

  lemma SameRequest(msgs: seq<Message>, o: PruneOptions, j: nat)
    requires j < |msgs|
    ensures InRequest(Dedupe(msgs, o), j) <==> InRequest(msgs, j)
  {
    forall i | 0 <= i < |msgs| ensures IsRequest(Dedupe(msgs, o)[i]) <==> IsRequest(msgs[i]) {
      DedupeKeepsRequests(msgs, o, i);
    }
    SameRequestsSameSpan(msgs, Dedupe(msgs, o));
  }

  lemma StaleAt(msgs: seq<Message>, o: PruneOptions, j: nat, l: nat)
    requires IsPosition(msgs, j, l)
    ensures IsPosition(Stale(msgs, o), j, l)
    ensures BlocksOf(Stale(msgs, o)[j])[l] ==
      if j < Cutoff(|msgs|, o)
      then StaleBlock(BlocksOf(msgs[j])[l], msgs[j].role, !(o.protectRequest && InRequest(msgs, j)), o)
      else BlocksOf(msgs[j])[l]
  {
  }

  /**
   The back-reference says that the newer copy is shown in full. After the whole prune it is if and only if
   that copy lies in the protected tail, or the stale pass finds nothing in it to strip or to trim.
   */
  lemma ReferredCopyStandsInFullExactlyWhenUntouched(msgs: seq<Message>, o: PruneOptions,
      i: nat, k: nat, j: nat, l: nat)
    requires IsPosition(msgs, i, k) && Deduped(msgs, i, k, o)
    requires FirstSeen(msgs, j, l, Digest(BlocksOf(msgs[i])[k]), o.minDup)
    ensures Full(Prune(msgs, o), j, l, Digest(BlocksOf(msgs[i])[k])) <==>
      j >= Cutoff(|msgs|, o)
      || StaysFull(BlocksOf(msgs[j])[l], !(o.protectRequest && InRequest(msgs, j)), o)
  {
    var b, deduped := BlocksOf(msgs[j])[l], Dedupe(msgs, o);
    DedupeAtPosition(msgs, o, j, l);
    DedupeShape(msgs, o, j);
    SameRequest(msgs, o, j);
    StaleAt(deduped, o, j, l);
    StaleShows(b, deduped[j].role, !(o.protectRequest && InRequest(msgs, j)), o);
  }

  // ---- A copy that does not stand in full ----

  function ResultOf(text: string): Message
  {
    Message(User, Blocks([ToolResult(Ref("call"), Whole(text), false)]))
  }

  /** Two equal long results and no protected tail: the older one points to a newer one that was trimmed. */
  lemma ReferredCopyCanBeTrimmed(text: string, o: PruneOptions)
    requires o.protectLast == 0 && o.minDup <= |text| && o.trimKeep <= o.trimOver < |text|
    ensures
      var msgs := [ResultOf(text), ResultOf(text)];
      && Deduped(msgs, 0, 0, o) && FirstSeen(msgs, 1, 0, Digest(BlocksOf(msgs[0])[0]), o.minDup)
      && !Full(Prune(msgs, o), 1, 0, Digest(BlocksOf(msgs[0])[0]))
  {
    var msgs := [ResultOf(text), ResultOf(text)];
    var digest := Digest(BlocksOf(msgs[0])[0]);
    assert IsPosition(msgs, 0, 0) && IsPosition(msgs, 1, 0) && ShowsDigest(msgs, 1, 0, digest, o.minDup);
    assert VisitedBefore(1, 0, 0, 0);
    assert SeenAlready(msgs, digest, 0, 0, o.minDup);
    assert FirstSeen(msgs, 1, 0, digest, o.minDup);
    ReferredCopyStandsInFullExactlyWhenUntouched(msgs, o, 0, 0, 1, 0);
  }
}
