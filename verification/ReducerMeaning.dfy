/** What the reducers protect, what they leave of a text in parts, and how much a proportional shrink leaves. */
module ReducerMeaning {
  import opened ContextPrune
  import opened ContextPruneLaws
  import opened Decimals
  import opened Messages
  import opened PruneMeaning
  import opened Sequences

  // ---- The request being answered ----

  lemma {:induction false} LeadingSpace(space: string, rest: string)
    requires (forall ch | ch in space :: IsSpace(ch)) && (rest == "" || !IsSpace(rest[0]))
    ensures LStrip(space + rest) == rest
  {
    if space == "" {
      assert space + rest == rest;
    } else {
      assert (space + rest)[0] == space[0] && (space + rest)[1..] == space[1..] + rest;
      assert space[0] in space;
      LeadingSpace(space[1..], rest);
    }
  }

  predicate HasText(blocks: seq<Block>) { exists k | 0 <= k < |blocks| :: blocks[k].Text? }

  lemma HasTextInFront(blocks: seq<Block>)
    requires blocks != []
    ensures HasText(blocks) <==> blocks[0].Text? || HasText(blocks[1..])
    ensures HasText(blocks[1..]) <==> exists b | b in blocks[1..] :: b.Text?
  {
    var rest := blocks[1..];
    if HasText(blocks) && !blocks[0].Text? {
      var k :| 0 <= k < |blocks| && blocks[k].Text?;
      assert rest[k - 1] == blocks[k];
    }
    if HasText(rest) {
      var k :| 0 <= k < |rest| && rest[k].Text?;
      assert blocks[k + 1] == rest[k] && rest[k] in rest;
    }
  }

  lemma HasTextInParts(a: seq<Block>, b: seq<Block>)
    ensures HasText(a + b) <==> HasText(a) || HasText(b)
  {
    if HasText(a) {
      var k :| 0 <= k < |a| && a[k].Text?;
      assert (a + b)[k] == a[k];
    }
    if HasText(b) {
      var k :| 0 <= k < |b| && b[k].Text?;
      assert (a + b)[|a| + k] == b[k];
    }
    if HasText(a + b) {
      var k :| 0 <= k < |a + b| && (a + b)[k].Text?;
      assert if k < |a| then a[k].Text? else b[k - |a|].Text?;
    }
  }

  lemma {:induction false} NothingToRead(blocks: seq<Block>)
    requires !HasText(blocks)
    ensures TextsOf(blocks) == ""
  {
    if blocks != [] {
      HasTextInFront(blocks);
      NothingToRead(blocks[1..]);
    }
  }

  lemma TextFirst(b: Block, rest: seq<Block>)
    requires b.Text?
    ensures TextsOf([b] + rest) == if HasText(rest) then b.text + "\n" + TextsOf(rest) else b.text
  {
    var all := [b] + rest;
    assert all[1..] == rest;
    HasTextInFront(all);
  }

  /** The texts of a message's blocks are read with a line break between them. */
  lemma {:induction false} TextsAreJoined(a: seq<Block>, b: seq<Block>)
    ensures TextsOf(a + b) ==
      if !HasText(b) then TextsOf(a)
      else if !HasText(a) then TextsOf(b)
      else TextsOf(a) + "\n" + TextsOf(b)
  {
    if a == [] {
      assert a + b == b;
      if !HasText(b) {
        NothingToRead(b);
      }
    } else {
      var rest := a[1..];
      assert a + b == [a[0]] + (rest + b) && a == [a[0]] + rest;
      TextsAreJoined(rest, b);
      HasTextInParts(rest, b);
      HasTextInFront(a);
      if a[0].Text? {
        TextFirst(a[0], rest);
        TextFirst(a[0], rest + b);
      } else {
        SkipsWhatIsNoText(a[0], rest);
        SkipsWhatIsNoText(a[0], rest + b);
      }
    }
  }

  lemma SkipsWhatIsNoText(b: Block, rest: seq<Block>)
    requires !b.Text?
    ensures TextsOf([b] + rest) == TextsOf(rest)
  {
    assert ([b] + rest)[1..] == rest;
  }

  /**
   A message is the person's request if and only if it has the user's role, holds something else than results,
   and its text does not begin, behind white space, with one of the three notes the runtime writes itself.
   */
  lemma RequestsAreWhatThePersonSaid(m: Message, space: string, rest: string)
    requires MessageText(m) == space + rest
    requires (forall ch | ch in space :: IsSpace(ch)) && (rest == "" || !IsSpace(rest[0]))
    ensures IsRequest(m) <==>
      && m.role.User? && (BlocksOf(m) == [] || exists b :: b in BlocksOf(m) && !b.ToolResult?)
      && |"[Deliverable check"| == 18 && (|rest| < 18 || rest[..18] != "[Deliverable check")
      && |"[Turn budget"| == 12 && (|rest| < 12 || rest[..12] != "[Turn budget")
      && |"[Stopped:"| == 9 && (|rest| < 9 || rest[..9] != "[Stopped:")
  {
    LeadingSpace(space, rest);
  }

  /** From `i` to `last` every message is a request, and none comes later. */
  ghost predicate NewestRun(msgs: seq<Message>, i: nat, last: int)
  {
    && i <= last < |msgs| && (forall k | i <= k <= last :: IsRequest(msgs[k]))
    && forall k | last < k < |msgs| :: !IsRequest(msgs[k])
  }

  /** The protected messages are the newest unbroken run of requests. */
  lemma TheRequestIsTheNewestRun(msgs: seq<Message>, i: nat)
    ensures InRequest(msgs, i) <==> exists last :: NewestRun(msgs, i, last)
  {
    var newest := RequestIndex(msgs);
    if InRequest(msgs, i) {
      assert NewestRun(msgs, i, newest);
    }
    if last :| NewestRun(msgs, i, last) {
      assert IsRequest(msgs[last]) && last == newest;
      assert SpanStart(msgs, newest) <= i;
    }
  }

  // ---- What a result reads as: notes, sizes, digests ----

  /** White space is a blank or one of the five control characters from the tabulator on. */
  lemma WhichIsSpace(ch: char)
    ensures IsSpace(ch) <==> ch == ' ' || 9 <= ch as int <= 13
  {
  }

  /** A note can name a result whose id is a string with something in it. */
  lemma WhichIdsAreNamed(id: CallRef, space: string, rest: string)
    requires id.Ref? ==> id.id == space + rest
    requires (forall ch | ch in space :: IsSpace(ch)) && (rest == "" || !IsSpace(rest[0]))
    ensures NoteId(id) == if id.Ref? && rest != "" then id.id else ""
  {
    if id.Ref? && rest != "" {
      assert rest[0] in rest && rest[0] in id.id;
    }
  }

  /** The note of a trim tells how much is missing. */
  lemma ResultNotesTell(m: nat, n: nat, noteId: string)
    requires NoteBody(m, noteId) == NoteBody(n, noteId)
    ensures m == n
  {
    SameBetween("\n\U{2026}[", Digits(m), Digits(n), NoteEnd(noteId));
    DigitsTellNumbers(m, n);
  }

  predicate StandsAt(text: string, part: string, at: nat)
  {
    at + |part| <= |text| && text[at..at + |part|] == part
  }

  /** It names the result, if it can be named. */
  lemma ResultNotesName(n: nat, noteId: string)
    requires noteId != ""
    ensures exists at: nat :: StandsAt(NoteBody(n, noteId), noteId, at)
  {
    var lead := " chars of this result trimmed here to fit the context window; " + "ToolResultRead(id=\"";
    assert NoteEnd(noteId) == lead + noteId + ("\") shows all of it" + "]");
    var front := "\n\U{2026}[" + Digits(n) + lead;
    assert NoteBody(n, noteId) == front + noteId + ("\") shows all of it" + "]");
    assert StandsAt(NoteBody(n, noteId), noteId, |front|);
  }

  /** The size of a result is that of all its text as the model reads it, trim notes included. */
  lemma SizesCountTheNotes(b: Block)
    requires b.ToolResult?
    ensures
      SizeOf(b) ==
        if b.body.Whole? then |b.body.text|
        else if b.body.Cut? then |b.body.head| + |TrimNote(b.body.count, NoteId(b.id))| + |b.body.tail|
        else |AllText(b.body.parts, NoteId(b.id))|
  {
    if b.body.Parts? {
      SizeOfAllText(b.body.parts, NoteId(b.id));
    }
  }

  /** A text part is read with its trim note behind it, if it has one, and nothing else is. */
  lemma OnePartReads(b: Block, noteId: string)
    ensures
      AllText([b], noteId) ==
        if !b.Text? then "" else if b.cut == 0 then b.text else b.text + NoteBody(b.cut, noteId)
  {
    assert [b][1..] == [];
  }

  lemma {:induction false} PartsReadInOrder(a: seq<Block>, b: seq<Block>, noteId: string)
    ensures AllText(a + b, noteId) == AllText(a, noteId) + AllText(b, noteId)
  {
    if a == [] {
      assert a + b == b;
    } else {
      assert (a + b)[0] == a[0] && (a + b)[1..] == a[1..] + b;
      PartsReadInOrder(a[1..], b, noteId);
      Regroup(if a[0].Text? then PartText(a[0], noteId) else "", AllText(a[1..], noteId), AllText(b, noteId));
    }
  }

  /** Two results are duplicates when they read the same: equal content, and the same id where a note names it. */
  lemma DuplicatesReadTheSame(a: Block, b: Block)
    requires a.ToolResult? && b.ToolResult?
    ensures Digest(a) == Digest(b) <==>
      && a.body == b.body
      && (a.body.Cut? || (a.body.Parts? && exists k :: 0 <= k < |a.body.parts| && HasNote(a.body.parts[k])) ==>
            NoteId(a.id) == NoteId(b.id))
  {
    if a.body.Parts? {
      var parts := a.body.parts;
      if k :| 0 <= k < |parts| && HasNote(parts[k]) {
        assert parts[k] in parts;
      }
      if p :| p in parts && HasNote(p) {
        var k :| 0 <= k < |parts| && parts[k] == p;
      }
    }
  }

  predicate HasNote(b: Block) { b.Text? && b.cut > 0 }

  // ---- The text of a result in parts ----

  /** All the text of the parts, as the model reads it. */
  function AllText(parts: seq<Block>, noteId: string): string
  {
    if parts == [] then ""
    else (if parts[0].Text? then PartText(parts[0], noteId) else "") + AllText(parts[1..], noteId)
  }

  lemma {:induction false} SizeOfAllText(parts: seq<Block>, noteId: string)
    ensures |AllText(parts, noteId)| == PartsSize(parts, noteId)
  {
    if parts != [] {
      SizeOfAllText(parts[1..], noteId);
    }
  }

  lemma Begins<T>(head: seq<T>, rest: seq<T>, n: nat)
    ensures n >= |head| + |rest| ==> n >= |head + rest|
    ensures |head| <= n <= |head + rest| ==> (head + rest)[..n] == head + rest[..n - |head|]
    ensures n <= |head| ==> (head + rest)[..n] == head[..n]
  {
  }

  /** The first `n` of them, or all. */
  function First(text: string, n: nat): string { text[..Min(n, |text|)] }

  lemma {:induction false} KeptPartsAreThePrefix(parts: seq<Block>, budget: nat, noteId: string)
    ensures AllText(KeptParts(parts, budget, noteId), noteId) == First(AllText(parts, noteId), budget)
  {
    if parts != [] {
      var kept := KeptParts(parts, budget, noteId);
      var rest := AllText(parts[1..], noteId);
      if !parts[0].Text? {
        KeptPartsAreThePrefix(parts[1..], budget, noteId);
        assert kept[1..] == KeptParts(parts[1..], budget, noteId);
      } else {
        var text := PartText(parts[0], noteId);
        var left := if |text| <= budget then budget - |text| else 0;
        KeptPartsAreThePrefix(parts[1..], left, noteId);
        assert kept[1..] == KeptParts(parts[1..], left, noteId);
        Begins(text, rest, budget);
      }
    }
  }

  lemma {:induction false} NonEmptyText(parts: seq<Block>, noteId: string)
    ensures AllText(NonEmpty(parts), noteId) == AllText(parts, noteId)
  {
    if parts != [] {
      NonEmptyText(parts[1..], noteId);
      if EmptyText(parts[0]) {
        assert NonEmpty(parts) == NonEmpty(parts[1..]);
      } else {
        assert NonEmpty(parts)[1..] == NonEmpty(parts[1..]);
      }
    }
  }

  lemma {:induction false} WithoutEmptiedText(parts: seq<Block>, noteId: string)
    ensures AllText(WithoutEmptied(parts), noteId) == AllText(parts, noteId)
  {
    if parts != [] {
      var out := WithoutEmptied(parts);
      WithoutEmptiedText(parts[1..], noteId);
      NonEmptyText(parts[1..], noteId);
      if !parts[0].Text? {
        assert out[1..] == WithoutEmptied(parts[1..]);
      } else if EmptyText(parts[0]) && exists p | p in parts :: p.Text? && !EmptyText(p) {
        assert out == WithoutEmptied(parts[1..]);
      } else {
        assert out[1..] == NonEmpty(parts[1..]);
      }
    }
  }

  lemma {:induction false} TextReplaced(parts: seq<Block>, at: nat, b: Block, noteId: string)
    requires at < |parts| && parts[at].Text? && b.Text? && PartText(b, noteId) == PartText(parts[at], noteId)
    ensures AllText(parts[at := b], noteId) == AllText(parts, noteId)
  {
    if at == 0 {
      assert parts[0 := b][1..] == parts[1..];
    } else {
      assert parts[at := b][1..] == parts[1..][at - 1 := b];
      TextReplaced(parts[1..], at - 1, b, noteId);
    }
  }

  lemma MarkedText(tidy: seq<Block>, n: nat, noteId: string)
    requires n > 0 && LastText(tidy) >= 0
    ensures AllText(Unmarked(MarkLast(tidy, n, noteId)), noteId) == AllText(tidy, noteId)
  {
    var at := LastText(tidy);
    var text := PartText(tidy[at], noteId);
    LastTextFacts(tidy);
    LastTextAt(tidy[at := Text(text, n)], at);
    assert Unmarked(MarkLast(tidy, n, noteId)) == tidy[at := Text(text, 0)];
    TextReplaced(tidy, at, Text(text, 0), noteId);
  }

  /** What is left of a result in parts, its trim note aside, is the beginning of its text: as much as fits. */
  lemma TrimPartsShowsTheBeginning(parts: seq<Block>, keep: nat, noteId: string)
    requires PartsSize(parts, noteId) > keep
    ensures AllText(Unmarked(TrimParts(parts, keep, noteId).0), noteId) == First(AllText(Unmarked(parts), noteId), keep)
  {
    var clean := Unmarked(parts);
    SizeOfAllText(clean, noteId);
    KeptPartsAreThePrefix(clean, keep, noteId);
    if LastText(parts) < 0 {
      LastTextFacts(parts);
      NoTextNoSize(parts, noteId);
    } else {
      UnmarkedFacts(parts);
      TidyFacts(clean, LastText(parts), keep, noteId);
      WithoutEmptiedText(KeptParts(clean, keep, noteId), noteId);
      ClearOfMarks(parts, keep, noteId);
    }
  }

  lemma ClearOfMarks(parts: seq<Block>, keep: nat, noteId: string)
    requires LastText(parts) >= 0 && PartsSize(parts, noteId) > keep
    requires LastText(WithoutEmptied(KeptParts(Unmarked(parts), keep, noteId))) >= 0
    ensures
      AllText(Unmarked(TrimParts(parts, keep, noteId).0), noteId)
      == AllText(WithoutEmptied(KeptParts(Unmarked(parts), keep, noteId)), noteId)
  {
    var clean := Unmarked(parts);
    UnmarkedFacts(parts);
    var n := DroppedChars(clean, keep, noteId) + Marker(parts);
    assert n > 0;
    MarkedText(WithoutEmptied(KeptParts(clean, keep, noteId)), n, noteId);
  }

  /** What fits is left alone, and nothing is counted as removed. */
  lemma WhatFitsIsLeft(body: Body, keep: nat, noteId: string)
    requires body.Whole? ==> |body.text| <= keep
    requires body.Cut? ==> |body.head| + |body.tail| <= keep
    requires body.Parts? ==> |AllText(body.parts, noteId)| <= keep
    ensures TrimBody(body, keep, noteId) == (body, 0)
  {
    if body.Parts? {
      SizeOfAllText(body.parts, noteId);
    }
  }

  // ---- Attachments inside a result ----

  lemma {:induction false} StripsEachPart(parts: seq<Block>, documents: bool, k: nat)
    requires k < |parts|
    ensures |StripBlocks(parts, documents)| == |parts|
    ensures StripBlocks(parts, documents)[k] == StripBlock(parts[k], documents)
  {
    if k > 0 {
      StripsEachPart(parts[1..], documents, k - 1);
    } else if |parts| > 1 {
      StripsEachPart(parts[1..], documents, 0);
    }
  }

  /** Of an attachment with its data a note is left: of every image, of a document only when they may go too. */
  lemma AttachmentBecomesANote(b: Block, documents: bool)
    ensures b.Attachment? ==>
      StripBlock(b, documents) ==
        if b.base64 && (b.media.Image? || documents)
        then Text(if b.media.Image? then IMAGE_NOTE else DOCUMENT_NOTE, 0) else b
    ensures !b.Attachment? && !(b.ToolResult? && b.body.Parts?) ==> StripBlock(b, documents) == b
    ensures b.ToolResult? && b.body.Parts? ==>
      && StripBlock(b, documents).ToolResult? && StripBlock(b, documents).body.Parts?
      && b.(body := StripBlock(b, documents).body) == StripBlock(b, documents)
  {
  }

  // ---- The proportional shrink ----

  /** `keep` is the share `factor` of `size`, rounded down, but at least `minKeep`. */
  ghost predicate Share(size: nat, factor: real, minKeep: nat, keep: nat)
  {
    && keep >= minKeep
    && (factor <= 0.0 ==> keep == minKeep)
    && (factor > 0.0 ==> keep as real > size as real * factor - 1.0)
    && (factor > 0.0 && keep > minKeep ==> keep as real <= size as real * factor)
  }

  lemma KeepsTheShare(size: nat, factor: real, minKeep: nat)
    ensures Share(size, factor, minKeep, ShrinkKeep(size, factor, minKeep))
  {
    if factor <= 0.0 {
      assert size as real * 0.0 == 0.0;
    } else {
      var scaled := size as real * factor;
      assert scaled.Floor as real <= scaled < scaled.Floor as real + 1.0;
    }
  }

  lemma SharesAreUnique(size: nat, factor: real, minKeep: nat, k: nat, l: nat)
    requires Share(size, factor, minKeep, k) && Share(size, factor, minKeep, l)
    ensures k == l
  {
    assert k < l ==> l as real >= k as real + 1.0;
    assert l < k ==> k as real >= l as real + 1.0;
  }

  lemma ShrunkBlockAt(msgs: seq<Message>, factor: real, minKeep: nat, images: bool, i: nat, k: nat)
    requires IsPosition(msgs, i, k)
    ensures IsPosition(Shrink(msgs, factor, minKeep, images), i, k)
    ensures BlocksOf(Shrink(msgs, factor, minKeep, images)[i])[k]
      == ShrinkBlock(BlocksOf(msgs[i])[k], factor, minKeep, images)
  {
  }

  /** Only results shrink. A text result is cut to its share if and only if that is less than the whole. */
  lemma ResultsShrinkToTheirShare(msgs: seq<Message>, factor: real, minKeep: nat, images: bool, i: nat, k: nat,
      share: nat)
    requires IsPosition(msgs, i, k)
    ensures
      var b, after := BlocksOf(msgs[i])[k], BlocksOf(Shrink(msgs, factor, minKeep, images)[i]);
      && k < |after| && (!b.ToolResult? ==> after[k] == b)
      && (b.ToolResult? ==> after[k].ToolResult? && after[k].id == b.id && after[k].isError == b.isError)
      && (b.ToolResult? && b.body.Whole? && Share(|b.body.text|, factor, minKeep, share) ==>
            TextCut(b.body.text, after[k].body, share))
  {
    ShrunkBlockAt(msgs, factor, minKeep, images, i, k);
    var b := BlocksOf(msgs[i])[k];
    if b.ToolResult? && b.body.Whole? {
      KeepsTheShare(|b.body.text|, factor, minKeep);
      TextIsCut(b.body.text, ShrinkKeep(|b.body.text|, factor, minKeep), NoteId(b.id));
      if Share(|b.body.text|, factor, minKeep, share) {
        SharesAreUnique(|b.body.text|, factor, minKeep, share, ShrinkKeep(|b.body.text|, factor, minKeep));
      }
    }
  }

  /** Any other result is trimmed to the share of its size as the model reads it, if it is larger than that. */
  lemma OtherResultsShrinkToTheirShare(b: Block, factor: real, minKeep: nat, images: bool, share: nat)
    requires b.ToolResult? && Share(SizeOf(if images then StripBlock(b, false) else b), factor, minKeep, share)
    ensures
      var stripped := if images then StripBlock(b, false) else b;
      ShrinkBlock(b, factor, minKeep, images).body ==
        if SizeOf(stripped) > share then TrimBody(stripped.body, share, NoteId(b.id)).0 else stripped.body
  {
    var size := SizeOf(if images then StripBlock(b, false) else b);
    KeepsTheShare(size, factor, minKeep);
    SharesAreUnique(size, factor, minKeep, share, ShrinkKeep(size, factor, minKeep));
  }
}
