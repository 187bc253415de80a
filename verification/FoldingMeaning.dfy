/** When a tool result is folded, in terms of what the results say: its tool, its error flag, its keys and fields. */
module FoldingMeaning {
  import opened Folding
  import opened FoldingLaws
  import opened Messages

  // ---- The tool a result belongs to ----

  /** An assistant message calls a tool of this name under this id, at this position. */
  ghost predicate CallsTool(msgs: seq<Message>, i: int, k: int, id: CallRef, name: string)
  {
    && IsPosition(msgs, i, k) && msgs[i].role.Assistant?
    && BlocksOf(msgs[i])[k].ToolUse? && BlocksOf(msgs[i])[k].id == id && BlocksOf(msgs[i])[k].name == name
  }

  predicate Later(i: int, k: int, j: int, l: int) { j > i || (j == i && l > k) }

  /** The last call with this id calls a tool of this name. */
  ghost predicate LastCallIsTo(msgs: seq<Message>, id: CallRef, name: string)
  {
    exists i, k :: CallsTool(msgs, i, k, id, name)
      && forall j, l, other | Later(i, k, j, l) :: !CallsTool(msgs, j, l, id, other)
  }

  /** The same among the blocks of one message. */
  ghost predicate LastIn(blocks: seq<Block>, id: CallRef, name: string)
  {
    exists k :: 0 <= k < |blocks| && blocks[k].ToolUse? && blocks[k].id == id && blocks[k].name == name
      && forall l | k < l < |blocks| :: !(blocks[l].ToolUse? && blocks[l].id == id)
  }

  ghost predicate NoneIn(blocks: seq<Block>, id: CallRef)
  {
    forall k | 0 <= k < |blocks| :: !(blocks[k].ToolUse? && blocks[k].id == id)
  }

  lemma LastInOfRest(blocks: seq<Block>, id: CallRef, name: string)
    requires blocks != []
    ensures LastIn(blocks, id, name) <==>
      LastIn(blocks[1..], id, name)
      || (NoneIn(blocks[1..], id) && blocks[0].ToolUse? && blocks[0].id == id && blocks[0].name == name)
    ensures NoneIn(blocks, id) <==> NoneIn(blocks[1..], id) && !(blocks[0].ToolUse? && blocks[0].id == id)
  {
    var rest := blocks[1..];
    forall k | 0 <= k < |rest| ensures rest[k] == blocks[k + 1] {
    }
    if LastIn(rest, id, name) {
      var k :| 0 <= k < |rest| && rest[k].ToolUse? && rest[k].id == id && rest[k].name == name
        && forall l | k < l < |rest| :: !(rest[l].ToolUse? && rest[l].id == id);
      forall l | k + 1 < l < |blocks| ensures !(blocks[l].ToolUse? && blocks[l].id == id) {
        assert rest[l - 1] == blocks[l];
      }
      assert blocks[k + 1] == rest[k];
    }
    if NoneIn(rest, id) {
      forall l | 0 < l < |blocks| ensures !(blocks[l].ToolUse? && blocks[l].id == id) {
        assert rest[l - 1] == blocks[l];
      }
    }
    if LastIn(blocks, id, name) {
      var k :| 0 <= k < |blocks| && blocks[k].ToolUse? && blocks[k].id == id && blocks[k].name == name
        && forall l | k < l < |blocks| :: !(blocks[l].ToolUse? && blocks[l].id == id);
      if k > 0 {
        assert rest[k - 1] == blocks[k];
      }
    }
  }

  lemma {:induction false} NamesInAreLast(blocks: seq<Block>, known: map<CallRef, string>, id: CallRef, name: string)
    ensures var out := NamesIn(blocks, known);
      id in out && out[id] == name <==>
        LastIn(blocks, id, name) || (NoneIn(blocks, id) && id in known && known[id] == name)
  {
    if blocks != [] {
      LastInOfRest(blocks, id, name);
      var next := if blocks[0].ToolUse? then known[blocks[0].id := blocks[0].name] else known;
      NamesInAreLast(blocks[1..], next, id, name);
      OnlyOneLast(blocks[1..], id, name);
    }
  }

  lemma OnlyOneLast(blocks: seq<Block>, id: CallRef, name: string)
    ensures LastIn(blocks, id, name) ==> !NoneIn(blocks, id)
  {
  }

  ghost predicate NoCalls(msgs: seq<Message>, id: CallRef)
  {
    forall i, k, name :: !CallsTool(msgs, i, k, id, name)
  }

  lemma CallsShift(msgs: seq<Message>, i: int, k: int, id: CallRef, name: string)
    requires msgs != []
    ensures CallsTool(msgs, i, k, id, name) <==>
      if i == 0 then CallsTool([msgs[0]], 0, k, id, name) else CallsTool(msgs[1..], i - 1, k, id, name)
  {
  }

  lemma NoCallsOfRest(msgs: seq<Message>, id: CallRef)
    requires msgs != []
    ensures NoCalls(msgs, id) <==>
      NoCalls(msgs[1..], id) && !(msgs[0].role.Assistant? && !NoneIn(BlocksOf(msgs[0]), id))
  {
    var rest := msgs[1..];
    if NoCalls(msgs, id) {
      forall i, k, name ensures !CallsTool(rest, i, k, id, name) {
        CallsShift(msgs, i + 1, k, id, name);
      }
      if msgs[0].role.Assistant? && !NoneIn(BlocksOf(msgs[0]), id) {
        var k :| 0 <= k < |BlocksOf(msgs[0])| && BlocksOf(msgs[0])[k].ToolUse? && BlocksOf(msgs[0])[k].id == id;
        assert CallsTool(msgs, 0, k, id, BlocksOf(msgs[0])[k].name);
      }
    } else {
      var i, k, name :| CallsTool(msgs, i, k, id, name);
      CallsShift(msgs, i, k, id, name);
    }
  }

  lemma LastCallBehind(msgs: seq<Message>, id: CallRef, name: string)
    requires msgs != [] && LastCallIsTo(msgs[1..], id, name)
    ensures LastCallIsTo(msgs, id, name)
  {
    var rest := msgs[1..];
    var i, k :| CallsTool(rest, i, k, id, name)
      && forall j, l, other | Later(i, k, j, l) :: !CallsTool(rest, j, l, id, other);
    CallsShift(msgs, i + 1, k, id, name);
    forall j, l, other | Later(i + 1, k, j, l) ensures !CallsTool(msgs, j, l, id, other) {
      CallsShift(msgs, j, l, id, other);
      assert Later(i, k, j - 1, l);
    }
  }

  lemma LastCallInFront(msgs: seq<Message>, id: CallRef, name: string)
    requires msgs != [] && msgs[0].role.Assistant? && NoCalls(msgs[1..], id) && LastIn(BlocksOf(msgs[0]), id, name)
    ensures LastCallIsTo(msgs, id, name)
  {
    var blocks := BlocksOf(msgs[0]);
    var k :| 0 <= k < |blocks| && blocks[k].ToolUse? && blocks[k].id == id && blocks[k].name == name
      && forall l | k < l < |blocks| :: !(blocks[l].ToolUse? && blocks[l].id == id);
    assert CallsTool(msgs, 0, k, id, name);
    forall j, l, other | Later(0, k, j, l) ensures !CallsTool(msgs, j, l, id, other) {
      CallsShift(msgs, j, l, id, other);
    }
  }

  lemma LastCallIsSomewhere(msgs: seq<Message>, id: CallRef, name: string)
    requires msgs != [] && LastCallIsTo(msgs, id, name)
    ensures LastCallIsTo(msgs[1..], id, name)
      || (NoCalls(msgs[1..], id) && msgs[0].role.Assistant? && LastIn(BlocksOf(msgs[0]), id, name))
  {
    var rest := msgs[1..];
    var i, k :| CallsTool(msgs, i, k, id, name)
      && forall j, l, other | Later(i, k, j, l) :: !CallsTool(msgs, j, l, id, other);
    if i > 0 {
      CallsShift(msgs, i, k, id, name);
      forall j, l, other | Later(i - 1, k, j, l) ensures !CallsTool(rest, j, l, id, other) {
        CallsShift(msgs, j + 1, l, id, other);
        assert Later(i, k, j + 1, l);
      }
    } else {
      forall j, l, other ensures !CallsTool(rest, j, l, id, other) {
        CallsShift(msgs, j + 1, l, id, other);
        assert j >= 0 ==> Later(0, k, j + 1, l);
      }
      var blocks := BlocksOf(msgs[0]);
      forall l | k < l < |blocks| ensures !(blocks[l].ToolUse? && blocks[l].id == id) {
        assert Later(0, k, 0, l);
        assert blocks[l].ToolUse? && blocks[l].id == id ==> CallsTool(msgs, 0, l, id, blocks[l].name);
      }
    }
  }

  /** The name known for an id is that of the last call with it, and of what was known before if there is none. */
  lemma {:induction false} ToolNamesAreOfTheLastCalls(msgs: seq<Message>, known: map<CallRef, string>,
      id: CallRef, name: string)
    ensures var out := ToolNames(msgs, known);
      id in out && out[id] == name <==>
        LastCallIsTo(msgs, id, name) || (NoCalls(msgs, id) && id in known && known[id] == name)
  {
    if msgs == [] {
      assert !LastCallIsTo(msgs, id, name);
    } else {
      var m := msgs[0];
      var next := if m.role.Assistant? then NamesIn(BlocksOf(m), known) else known;
      ToolNamesAreOfTheLastCalls(msgs[1..], next, id, name);
      NoCallsOfRest(msgs, id);
      if m.role.Assistant? {
        NamesInAreLast(BlocksOf(m), known, id, name);
        OnlyOneLast(BlocksOf(m), id, name);
      }
      if LastCallIsTo(msgs[1..], id, name) {
        LastCallBehind(msgs, id, name);
      } else if LastCallIsTo(msgs, id, name) {
        LastCallIsSomewhere(msgs, id, name);
      } else if NoCalls(msgs[1..], id) && m.role.Assistant? && LastIn(BlocksOf(m), id, name) {
        LastCallInFront(msgs, id, name);
      }
    }
  }

  // ---- What a result says ----

  /** A result is one text: as a whole, as its only part, or as the part behind the external-data label. */
  predicate SaysText(body: Body, text: string)
  {
    body == Whole(text) || body == Parts([Text(text, 0)]) || body == Parts([Text(LABEL, 0), Text(text, 0)])
  }

  function WithoutLabel(text: string): string { if LABEL <= text then text[|LABEL|..] else text }

  lemma OneTextOnly(body: Body, text: string)
    ensures TextOf(body) == Some(text) <==> SaysText(body, text)
  {
    if body.Parts? && TextOf(body) == Some(text) {
      var parts := body.parts;
      if |parts| == 2 {
        assert parts[1..] == [parts[1]] && parts == [parts[0], parts[1]];
      } else {
        assert parts == [parts[0]];
      }
    }
    assert [Text(LABEL, 0), Text(text, 0)][1..] == [Text(text, 0)];
  }

  /** A result's payload is the object its one text spells, with or without the external-data label in front. */
  lemma PayloadIsTheObject(c: Codec, body: Body, payload: Json)
    ensures Payload(c, body) == Some(payload) <==>
      payload.JObject? && exists text :: SaysText(body, text) && c.decode(WithoutLabel(text)) == Some(payload)
  {
    if TextOf(body).Some? {
      OneTextOnly(body, TextOf(body).value);
      var text := TextOf(body).value;
      assert text[0..] == text;
    }
    if text :| SaysText(body, text) && c.decode(WithoutLabel(text)) == Some(payload) {
      OneTextOnly(body, text);
      assert text[0..] == text;
    }
  }

  /** A result of an eligible tool, no error, whose object has every key value and carries one of the fields. */
  ghost predicate Complete(msgs: seq<Message>, i: int, k: int, s: FoldSpec, c: Codec)
  {
    && IsPosition(msgs, i, k)
    && var b := BlocksOf(msgs[i])[k];
       && b.ToolResult? && !b.isError
       && (exists name :: s.names(name) && LastCallIsTo(msgs, b.id, name))
       && var payload := Payload(c, b.body);
          && payload.Some?
          && (forall p | p in s.keys :: Field(payload.value, p) != JNull && Field(payload.value, p) != JString(""))
          && exists f :: f in s.fields && Field(payload.value, f) != JNull
               && Field(payload.value, f) != JString("") && Field(payload.value, f) != JString(s.note)
  }

  /** Two results that read the same at every key. */
  ghost predicate SameKeys(a: Block, b: Block, s: FoldSpec, c: Codec)
  {
    && a.ToolResult? && b.ToolResult? && Payload(c, a.body).Some? && Payload(c, b.body).Some?
    && forall p | p in s.keys :: Field(Payload(c, a.body).value, p) == Field(Payload(c, b.body).value, p)
  }

  lemma ShowsWhenComplete(msgs: seq<Message>, i: int, k: int, s: FoldSpec, c: Codec)
    requires IsPosition(msgs, i, k)
    ensures Shows(BlocksOf(msgs[i])[k], ToolNames(msgs, map[]), s, c).Some? <==> Complete(msgs, i, k, s, c)
  {
    var b, tools := BlocksOf(msgs[i])[k], ToolNames(msgs, map[]);
    if b.ToolResult? && !b.isError && Payload(c, b.body).Some? {
      NamedByTheLastCall(msgs, b.id, s);
      var payload := Payload(c, b.body).value;
      KeysAllThere(payload, s.keys, JNull);
      KeysAllThere(payload, s.keys, JString(""));
      var present := Present(payload, s.fields, s.note);
      if present != [] {
        assert present[0] in present && !Quiet(Field(payload, present[0]), s.note);
      }
      if f :| f in s.fields && !Quiet(Field(payload, f), s.note) {
        assert f in present;
      }
    }
  }

  lemma NamedByTheLastCall(msgs: seq<Message>, id: CallRef, s: FoldSpec)
    ensures var tools := ToolNames(msgs, map[]);
      id in tools && s.names(tools[id]) <==> exists name :: s.names(name) && LastCallIsTo(msgs, id, name)
  {
    var tools := ToolNames(msgs, map[]);
    if id in tools {
      ToolNamesAreOfTheLastCalls(msgs, map[], id, tools[id]);
    }
    if name :| s.names(name) && LastCallIsTo(msgs, id, name) {
      ToolNamesAreOfTheLastCalls(msgs, map[], id, name);
    }
  }

  lemma KeysAllThere(payload: Json, keys: seq<seq<string>>, value: Json)
    ensures value in Idents(payload, keys) <==> exists p :: p in keys && Field(payload, p) == value
  {
    var idents := Idents(payload, keys);
    if value in idents {
      var i :| 0 <= i < |idents| && idents[i] == value;
      assert keys[i] in keys;
    }
    if p :| p in keys && Field(payload, p) == value {
      var i :| 0 <= i < |keys| && keys[i] == p;
      assert idents[i] == value;
    }
  }

  lemma SameIdents(x: Json, y: Json, keys: seq<seq<string>>)
    ensures Idents(x, keys) == Idents(y, keys) <==> forall p | p in keys :: Field(x, p) == Field(y, p)
  {
    if Idents(x, keys) == Idents(y, keys) {
      forall p | p in keys ensures Field(x, p) == Field(y, p) {
        var i :| 0 <= i < |keys| && keys[i] == p;
        assert Idents(x, keys)[i] == Idents(y, keys)[i];
      }
    }
    if forall p | p in keys :: Field(x, p) == Field(y, p) {
      forall i | 0 <= i < |keys| ensures Idents(x, keys)[i] == Idents(y, keys)[i] {
        assert keys[i] in keys;
      }
    }
  }

  lemma ShowTheSame(msgs: seq<Message>, i: int, k: int, j: int, l: int, s: FoldSpec, c: Codec)
    requires Complete(msgs, i, k, s, c) && Complete(msgs, j, l, s, c)
    ensures
      var tools := ToolNames(msgs, map[]);
      Shows(BlocksOf(msgs[i])[k], tools, s, c) == Shows(BlocksOf(msgs[j])[l], tools, s, c)
      <==> SameKeys(BlocksOf(msgs[i])[k], BlocksOf(msgs[j])[l], s, c)
  {
    ShowsWhenComplete(msgs, i, k, s, c);
    ShowsWhenComplete(msgs, j, l, s, c);
    SameIdents(Payload(c, BlocksOf(msgs[i])[k].body).value, Payload(c, BlocksOf(msgs[j])[l].body).value, s.keys);
  }

  /** A newer complete result reads the same at every key. */
  ghost predicate Replaced(msgs: seq<Message>, i: int, k: int, s: FoldSpec, c: Codec)
  {
    && Complete(msgs, i, k, s, c)
    && exists j, l :: Later(i, k, j, l) && Complete(msgs, j, l, s, c)
         && SameKeys(BlocksOf(msgs[i])[k], BlocksOf(msgs[j])[l], s, c)
  }

  lemma ShownAfterWhenReplaced(msgs: seq<Message>, i: int, k: int, s: FoldSpec, c: Codec)
    requires Complete(msgs, i, k, s, c)
    ensures
      var tools := ToolNames(msgs, map[]);
      && Shows(BlocksOf(msgs[i])[k], tools, s, c).Some?
      && (ShownAfter(msgs, i, k, Shows(BlocksOf(msgs[i])[k], tools, s, c).value, tools, s, c)
          <==> Replaced(msgs, i, k, s, c))
  {
    var tools := ToolNames(msgs, map[]);
    ShowsWhenComplete(msgs, i, k, s, c);
    var ident := Shows(BlocksOf(msgs[i])[k], tools, s, c).value;
    if j, l :| IsPosition(msgs, j, l) && After(i, k, j, l) && Shows(BlocksOf(msgs[j])[l], tools, s, c) == Some(ident) {
      ShowsWhenComplete(msgs, j, l, s, c);
      ShowTheSame(msgs, i, k, j, l, s, c);
      assert Later(i, k, j, l);
    }
    if j, l :|
      Later(i, k, j, l) && Complete(msgs, j, l, s, c) && SameKeys(BlocksOf(msgs[i])[k], BlocksOf(msgs[j])[l], s, c)
    {
      ShowTheSame(msgs, i, k, j, l, s, c);
      assert IsPosition(msgs, j, l) && After(i, k, j, l);
    }
  }

  /**
   A block is changed if and only if it is a result of an eligible tool that is no error, has all key values
   and carries a field, and a later such result reads the same at every key. Nothing else changes, and nothing
   else causes a change.
   */
  lemma FoldedExactlyWhenReplaced(msgs: seq<Message>, s: FoldSpec, c: Codec, i: nat, k: nat)
    requires s.Valid() && Lawful(c) && IsPosition(msgs, i, k)
    ensures
      var out := Fold(msgs, s, c);
      IsPosition(out, i, k)
      && (BlocksOf(out[i])[k] != BlocksOf(msgs[i])[k] <==> s.keys != [] && Replaced(msgs, i, k, s, c))
  {
    if s.keys != [] {
      FoldShape(msgs, s, c, i);
      FoldChanges(msgs, s, c, i, k);
      assert BlocksOf(Fold(msgs, s, c)[i])[k] == FoldAt(msgs, i, k, ToolNames(msgs, map[]), s, c);
    }
  }

  lemma FoldChanges(msgs: seq<Message>, s: FoldSpec, c: Codec, i: nat, k: nat)
    requires s.Valid() && Lawful(c) && IsPosition(msgs, i, k)
    ensures FoldAt(msgs, i, k, ToolNames(msgs, map[]), s, c) != BlocksOf(msgs[i])[k] <==> Replaced(msgs, i, k, s, c)
  {
    var b, tools := BlocksOf(msgs[i])[k], ToolNames(msgs, map[]);
    ShowsWhenComplete(msgs, i, k, s, c);
    if Complete(msgs, i, k, s, c) {
      ShownAfterWhenReplaced(msgs, i, k, s, c);
      FoldedShowsNothing(b, tools, s, c);
    }
  }

  // ---- What a folded result reads ----

  /** The named fields are no part of one another, as far as this one is concerned. */
  ghost predicate Alone(f: seq<string>, fields: seq<seq<string>>)
  {
    forall g | g in fields && g != f :: Disjoint(g, f)
  }

  /** A field that said something reads as the note afterwards, and a field that said nothing as it did. */
  lemma FoldedFieldReadsTheNote(b: Block, s: FoldSpec, c: Codec, f: seq<string>)
    requires s.Valid() && Lawful(c) && b.ToolResult? && Payload(c, b.body).Some?
    requires f in s.fields && Alone(f, s.fields)
    ensures
      var before, after := Payload(c, b.body).value, Payload(c, FoldBlock(b, s, c).body);
      && after.Some?
      && Field(after.value, f) ==
           if Field(before, f) in {JNull, JString(""), JString(s.note)} then Field(before, f) else JString(s.note)
  {
    FoldedReadsBack(b, s, c);
    var payload := Payload(c, b.body).value;
    var present := Present(payload, s.fields, s.note);
    forall n | 0 <= n < |present| ensures present[n] in s.fields && present[n] != [] {
      assert present[n] in present;
    }
    if f in present {
      SetOnce(payload, present, JString(s.note), f);
    } else {
      forall n | 0 <= n < |present| ensures present[n] != [] && Disjoint(present[n], f) {
        assert present[n] in present;
      }
      DisjointUntouched(payload, present, JString(s.note), f);
    }
  }

  /** A path that leads somewhere can be written, and then reads as what was written. */
  lemma {:induction false} WrittenReads(node: Json, path: seq<string>, value: Json)
    requires node.JObject? && path != [] && Field(node, path) != JNull
    ensures Field(WithField(node, path, value), path) == value
    decreases |path|
  {
    var after := WithField(node, path, value);
    if |path| == 1 {
      assert Member(after, path[0]) == value && path[1..] == [];
    } else {
      var child := Member(node, path[0]);
      assert Field(node, path) == Field(child, path[1..]);
      assert child.JObject?;
      WrittenReads(child, path[1..], value);
      assert Member(after, path[0]) == WithField(child, path[1..], value);
    }
  }

  lemma {:induction false} SetOnce(node: Json, paths: seq<seq<string>>, value: Json, f: seq<string>)
    requires node.JObject?
    requires forall n | 0 <= n < |paths| :: paths[n] != [] && (paths[n] == f || Disjoint(paths[n], f))
    requires value != JNull && ((f in paths && Field(node, f) != JNull) || Field(node, f) == value)
    ensures Field(WithFields(node, paths, value), f) == value
    decreases |paths|
  {
    if paths != [] {
      var next := WithField(node, paths[0], value);
      if paths[0] == f {
        WrittenReads(node, f, value);
      } else {
        DisjointStep(node, paths[0], value, f);
      }
      var rest := paths[1..];
      forall n | 0 <= n < |rest| ensures rest[n] != [] && (rest[n] == f || Disjoint(rest[n], f)) {
        assert rest[n] == paths[n + 1];
      }
      SetOnce(next, rest, value, f);
    }
  }
}
