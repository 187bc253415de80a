/**
 The deterministic reducers (src/xgen_agent_runtime/core/context_prune.py): duplicate results become
 a back-reference, stale images and long results and inputs are shortened, all in place.
 */
module ContextPrune {
  import opened Decimals
  import opened Messages

  datatype PruneOptions = PruneOptions(
    protectLast: nat, minDup: nat, trimOver: nat, trimKeep: nat, inputOver: nat, inputKeep: nat,
    stripDocuments: bool, protectRequest: bool)

  const DUP_NOTE := "[duplicate tool output: identical to a more recent result, which is shown in full]"
  const IMAGE_NOTE :=
    "[image removed to fit the context window: you cannot see it any more; re-open its file if you need it]"
  const DOCUMENT_NOTE :=
    "[document removed to fit the context window: you cannot read it here any more; " +
    "re-open its file if you need it]"

  predicate IsSpace(ch: char) { ch in " \t\n\r" || ch == 11 as char || ch == 12 as char }

  /** The id a trim note can name, or "" when the result has none to read it by. */
  function NoteId(id: CallRef): string
  {
    if id.Ref? && exists ch | ch in id.id :: !IsSpace(ch) then id.id else ""
  }

  function NoteEnd(noteId: string): string
  {
    " chars of this result trimmed here to fit the context window; "
    + (if noteId != "" then "ToolResultRead(id=\"" + noteId + "\") shows all of it"
       else "ConversationHistory (view='search') finds the trimmed part")
    + "]"
  }

  function NoteBody(n: nat, noteId: string): string
  {
    "\n\U{2026}[" + Digits(n) + NoteEnd(noteId)
  }

  function TrimNote(n: nat, noteId: string): string
  {
    NoteBody(n, noteId) + "\U{2026}\n"
  }

  const INPUT_NOTE :=
    " chars of this call's input trimmed here to fit the context window; the call ran with the full input]"

  function InputNote(n: int): string
  {
    "\n\U{2026}[" + Decimal(n) + INPUT_NOTE
  }

  function Min(a: int, b: int): int { if a <= b then a else b }

  function Max(a: int, b: int): int { if a >= b then a else b }

  // ---- Sizes and digests of results ----

  /** A text part as the model reads it, its trim note included. */
  function PartText(part: Block, noteId: string): string
    requires part.Text?
  {
    if part.cut > 0 then part.text + NoteBody(part.cut, noteId) else part.text
  }

  function PartsSize(parts: seq<Block>, noteId: string): nat
  {
    if parts == [] then 0
    else (if parts[0].Text? then |PartText(parts[0], noteId)| else 0) + PartsSize(parts[1..], noteId)
  }

  function BodySize(body: Body, noteId: string): nat
  {
    match body
    case Whole(text) => |text|
    case Cut(head, count, tail) => |head + TrimNote(count, noteId) + tail|
    case Parts(parts) => PartsSize(parts, noteId)
  }

  function SizeOf(b: Block): nat
    requires b.ToolResult?
  {
    BodySize(b.body, NoteId(b.id))
  }

  predicate Marked(body: Body)
  {
    body.Cut? || (body.Parts? && exists p | p in body.parts :: p.Text? && p.cut > 0)
  }

  /** What the content hash tells apart: the content, and the id where a trim note spells it out. */
  function Digest(b: Block): (Body, string)
    requires b.ToolResult?
  {
    (b.body, if Marked(b.body) then NoteId(b.id) else "")
  }

  // ---- Trimming one result ----

  /** The last `n` characters, all of them when there are fewer. */
  function Last(text: string, n: nat): string
  {
    text[|text| - Min(n, |text|)..]
  }

  function KeptParts(parts: seq<Block>, budget: nat, noteId: string): seq<Block>
  {
    if parts == [] then []
    else if !parts[0].Text? then [parts[0]] + KeptParts(parts[1..], budget, noteId)
    else
      var text := PartText(parts[0], noteId);
      if |text| <= budget then [parts[0]] + KeptParts(parts[1..], budget - |text|, noteId)
      else [Text(text[..budget], 0)] + KeptParts(parts[1..], 0, noteId)
  }

  function DroppedChars(parts: seq<Block>, budget: nat, noteId: string): nat
  {
    PartsSize(parts, noteId) - Min(budget, PartsSize(parts, noteId))
  }

  /** Index of the last text part, or -1. */
  function LastText(parts: seq<Block>): (i: int)
    ensures -1 <= i < |parts| && (i >= 0 ==> parts[i].Text?)
  {
    if parts == [] then -1
    else if parts[|parts| - 1].Text? then |parts| - 1
    else LastText(parts[..|parts| - 1])
  }

  predicate EmptyText(p: Block) { p.Text? && p.text == "" && p.cut == 0 }

  function NonEmpty(parts: seq<Block>): seq<Block>
  {
    if parts == [] then []
    else (if EmptyText(parts[0]) then [] else [parts[0]]) + NonEmpty(parts[1..])
  }

  /** Drops emptied text parts, but leaves one text part for the marker. */
  function WithoutEmptied(parts: seq<Block>): seq<Block>
  {
    if parts == [] then []
    else if !parts[0].Text? then [parts[0]] + WithoutEmptied(parts[1..])
    else if EmptyText(parts[0]) && exists p | p in parts :: p.Text? && !EmptyText(p) then WithoutEmptied(parts[1..])
    else [parts[0]] + NonEmpty(parts[1..])
  }

  /** The parts without the trim note at the end of the last text, and the count in that note. */
  function Unmarked(parts: seq<Block>): seq<Block>
  {
    var last := LastText(parts);
    if last >= 0 && parts[last].cut > 0 then parts[last := Text(parts[last].text, 0)] else parts
  }

  function Marker(parts: seq<Block>): nat
  {
    if LastText(parts) < 0 then 0 else parts[LastText(parts)].cut
  }

  function MarkLast(parts: seq<Block>, n: nat, noteId: string): seq<Block>
  {
    var last := LastText(parts);
    if last < 0 then parts else parts[last := Text(PartText(parts[last], noteId), n)]
  }

  function TrimParts(parts: seq<Block>, keep: nat, noteId: string): (seq<Block>, nat)
  {
    var clean := Unmarked(parts);
    var dropped := DroppedChars(clean, keep, noteId);
    var kept := KeptParts(clean, keep, noteId);
    if dropped + Marker(parts) == 0 then (kept, 0)
    else (MarkLast(WithoutEmptied(kept), dropped + Marker(parts), noteId), dropped)
  }

  /** The trimmed body and how many characters this pass removed. */
  function TrimBody(body: Body, keep: nat, noteId: string): (Body, nat)
  {
    var head := keep * 2 / 3;
    match body
    case Whole(text) =>
      if |text| <= keep then (body, 0)
      else (Cut(text[..head], |text| - keep, Last(text, keep - head)), |text| - keep)
    case Cut(headText, count, tailText) =>
      var shown := |headText| + |tailText|;
      if shown <= keep then (body, 0)
      else
        var newHead := headText[..Min(head, |headText|)];
        var newTail := Last(tailText, keep - |newHead|);
        var removed := shown - |newHead| - |newTail|;
        (Cut(newHead, removed + count, newTail), removed)
    case Parts(parts) =>
      if PartsSize(parts, noteId) <= keep then (body, 0)
      else
        var (left, dropped) := TrimParts(parts, keep, noteId);
        (Parts(left), dropped)
  }

  function TrimResult(b: Block, keep: nat): Block
    requires b.ToolResult?
  {
    b.(body := TrimBody(b.body, keep, NoteId(b.id)).0)
  }

  // ---- Images, documents, inputs ----

  predicate Strippable(b: Block, documents: bool)
  {
    b.Attachment? && b.base64 && (b.media.Image? || documents)
  }

  function NoteFor(b: Block): Block
    requires b.Attachment?
  {
    Text(if b.media.Image? then IMAGE_NOTE else DOCUMENT_NOTE, 0)
  }

  function StripBlock(b: Block, documents: bool): Block
    decreases b, 1
  {
    if Strippable(b, documents) then NoteFor(b)
    else if b.ToolResult? && b.body.Parts? then b.(body := Parts(StripBlocks(b.body.parts, documents)))
    else b
  }

  function StripBlocks(blocks: seq<Block>, documents: bool): seq<Block>
    decreases blocks
  {
    if blocks == [] then [] else [StripBlock(blocks[0], documents)] + StripBlocks(blocks[1..], documents)
  }

  function TrimArg(a: Arg, over: nat, keep: nat): Arg
  {
    if a.Words? && |a.words| > over then Words(a.words[..Min(keep, |a.words|)] + InputNote(|a.words| - keep)) else a
  }

  function TrimInput(b: Block, over: nat, keep: nat): Block
  {
    if b.ToolUse? then b.(input := map key | key in b.input :: TrimArg(b.input[key], over, keep)) else b
  }

  // ---- The request being answered ----

  function TextsOf(blocks: seq<Block>): string
  {
    if blocks == [] then ""
    else if !blocks[0].Text? then TextsOf(blocks[1..])
    else if exists b | b in blocks[1..] :: b.Text? then blocks[0].text + "\n" + TextsOf(blocks[1..])
    else blocks[0].text
  }

  function MessageText(m: Message): string
  {
    if m.content.Plain? then m.content.text else TextsOf(m.content.blocks)
  }

  function LStrip(text: string): string
  {
    if text != "" && IsSpace(text[0]) then LStrip(text[1..]) else text
  }

  predicate IsRuntimeNote(m: Message)
  {
    var text := LStrip(MessageText(m));
    "[Deliverable check" <= text || "[Turn budget" <= text || "[Stopped:" <= text
  }

  predicate OnlyResults(m: Message)
  {
    BlocksOf(m) != [] && forall b | b in BlocksOf(m) :: b.ToolResult?
  }

  predicate IsRequest(m: Message)
  {
    m.role.User? && !IsRuntimeNote(m) && !OnlyResults(m)
  }

  /** Index of the newest message that is the person's request, or -1. */
  function RequestIndex(msgs: seq<Message>): (i: int)
    ensures -1 <= i < |msgs| && (i >= 0 ==> IsRequest(msgs[i]))
    ensures forall k | i < k < |msgs| :: !IsRequest(msgs[k])
  {
    if msgs == [] then -1
    else if IsRequest(msgs[|msgs| - 1]) then |msgs| - 1
    else RequestIndex(msgs[..|msgs| - 1])
  }

  /** First of the unbroken run of request messages that ends at `i`. */
  function SpanStart(msgs: seq<Message>, i: int): (lo: int)
    requires i < |msgs|
    ensures i < 0 ==> lo == 0
    ensures i >= 0 ==> 0 <= lo <= i + 1 && forall k | lo <= k <= i :: IsRequest(msgs[k])
    ensures i >= 0 && lo > 0 ==> !IsRequest(msgs[lo - 1])
    decreases i + 1
  {
    if i < 0 then 0
    else if !IsRequest(msgs[i]) then i + 1
    else SpanStart(msgs, i - 1)
  }

  predicate InRequest(msgs: seq<Message>, i: int)
  {
    var last := RequestIndex(msgs);
    SpanStart(msgs, last) <= i <= last
  }

  // ---- The prune, specified block by block ----

  function Cutoff(count: nat, o: PruneOptions): nat
  {
    Max(0, count - o.protectLast)
  }

  /** The dedupe pass walks messages from the newest back, the blocks of one message forwards. */
  predicate VisitedBefore(j: int, l: int, i: int, k: int)
  {
    j > i || (j == i && l < k)
  }

  predicate Large(b: Block, minDup: nat) { b.ToolResult? && SizeOf(b) >= minDup }

  ghost predicate SeenAlready(msgs: seq<Message>, digest: (Body, string), i: int, k: int, minDup: nat)
  {
    exists j, l :: IsPosition(msgs, j, l) && VisitedBefore(j, l, i, k) && ShowsDigest(msgs, j, l, digest, minDup)
  }

  ghost predicate ShowsDigest(msgs: seq<Message>, j: int, l: int, digest: (Body, string), minDup: nat)
    requires IsPosition(msgs, j, l)
  {
    Large(BlocksOf(msgs[j])[l], minDup) && Digest(BlocksOf(msgs[j])[l]) == digest
  }

  ghost function DedupeAt(msgs: seq<Message>, i: int, k: int, o: PruneOptions): Block
    requires IsPosition(msgs, i, k)
  {
    var b := BlocksOf(msgs[i])[k];
    if i < Cutoff(|msgs|, o) && Large(b, o.minDup) && SeenAlready(msgs, Digest(b), i, k, o.minDup)
    then b.(body := Whole(DUP_NOTE)) else b
  }

  ghost function DedupeMessage(msgs: seq<Message>, i: int, o: PruneOptions): Message
    requires 0 <= i < |msgs|
  {
    if msgs[i].content.Plain? then msgs[i]
    else
      msgs[i].(content := Blocks(seq(|msgs[i].content.blocks|,
        k requires 0 <= k < |msgs[i].content.blocks| => DedupeAt(msgs, i, k, o))))
  }

  ghost function Dedupe(msgs: seq<Message>, o: PruneOptions): seq<Message>
  {
    seq(|msgs|, i requires 0 <= i < |msgs| => DedupeMessage(msgs, i, o))
  }

  function TrimIfLong(b: Block, o: PruneOptions): Block
  {
    if b.ToolResult? && SizeOf(b) > o.trimOver then TrimResult(b, o.trimKeep) else b
  }

  function StaleBlock(b: Block, role: Role, strip: bool, o: PruneOptions): Block
  {
    var stripped := if strip then StripBlock(b, o.stripDocuments) else b;
    var shortened := if role.Assistant? then TrimInput(stripped, o.inputOver, o.inputKeep) else stripped;
    TrimIfLong(shortened, o)
  }

  function StaleMessage(m: Message, strip: bool, o: PruneOptions): Message
  {
    if m.content.Plain? then m
    else
      m.(content := Blocks(seq(|m.content.blocks|,
        k requires 0 <= k < |m.content.blocks| => StaleBlock(m.content.blocks[k], m.role, strip, o))))
  }

  function Stale(msgs: seq<Message>, o: PruneOptions): seq<Message>
  {
    seq(|msgs|, i requires 0 <= i < |msgs| =>
      if i < Cutoff(|msgs|, o) then StaleMessage(msgs[i], !(o.protectRequest && InRequest(msgs, i)), o) else msgs[i])
  }

  ghost function Prune(msgs: seq<Message>, o: PruneOptions): seq<Message>
  {
    Stale(Dedupe(msgs, o), o)
  }

  // ---- The other two reducers ----

  function ShrinkKeep(size: nat, factor: real, minKeep: nat): nat
  {
    var scaled := size as real * (if factor < 0.0 then 0.0 else factor);
    Max(minKeep, scaled.Floor)
  }

  function ShrinkBlock(b: Block, factor: real, minKeep: nat, stripImages: bool): Block
  {
    if !b.ToolResult? then b
    else
      var stripped := if stripImages then StripBlock(b, false) else b;
      var size := SizeOf(stripped);
      var keep := ShrinkKeep(size, factor, minKeep);
      if size > keep then TrimResult(stripped, keep) else stripped
  }

  function ShrinkMessage(m: Message, factor: real, minKeep: nat, stripImages: bool): Message
  {
    if m.content.Plain? then m
    else
      m.(content := Blocks(seq(|m.content.blocks|,
        k requires 0 <= k < |m.content.blocks| => ShrinkBlock(m.content.blocks[k], factor, minKeep, stripImages))))
  }

  function Shrink(msgs: seq<Message>, factor: real, minKeep: nat, stripImages: bool): seq<Message>
  {
    seq(|msgs|, i requires 0 <= i < |msgs| => ShrinkMessage(msgs[i], factor, minKeep, stripImages))
  }

  /** How many attachments may still go: no bound when `limit` is 0. */
  predicate Room(limit: nat, removed: nat) { limit == 0 || removed < limit }

  /** Replaces attachments from the first block on, as long as there is room. */
  function StripSome(blocks: seq<Block>, limit: nat, removed: nat): (r: (seq<Block>, nat))
    ensures |r.0| == |blocks| && r.1 >= removed
  {
    if blocks == [] || !Room(limit, removed) then (blocks, removed)
    else
      var hit := Strippable(blocks[0], true);
      var (rest, total) := StripSome(blocks[1..], limit, if hit then removed + 1 else removed);
      ([if hit then NoteFor(blocks[0]) else blocks[0]] + rest, total)
  }

  /** The newest message of the request first. */
  function StripSpan(msgs: seq<Message>, lo: int, i: int, limit: nat, removed: nat): (r: (seq<Message>, nat))
    requires i < |msgs|
    ensures |r.0| == |msgs|
    decreases i - lo + 1
  {
    if i < lo || i < 0 then (msgs, removed)
    else if msgs[i].content.Plain? then StripSpan(msgs, lo, i - 1, limit, removed)
    else
      var (blocks, total) := StripSome(msgs[i].content.blocks, limit, removed);
      StripSpan(msgs[i := msgs[i].(content := Blocks(blocks))], lo, i - 1, limit, total)
  }

  function StripCurrent(msgs: seq<Message>, limit: nat): (seq<Message>, nat)
  {
    var last := RequestIndex(msgs);
    StripSpan(msgs, SpanStart(msgs, last), last, limit, 0)
  }
}
