/** What retiring and folding guarantee, for every history. */
module FoldingLaws {
  import opened Messages
  import opened Folding

  // ---- Retiring ----

  lemma RetireShape(msgs: seq<Message>, isRetired: string -> bool, w: Wording)
    ensures
      var out := Retire(msgs, isRetired, w);
      && |out| == |msgs|
      && forall i | 0 <= i < |msgs| :: out[i].role == msgs[i].role && |BlocksOf(out[i])| == |BlocksOf(msgs[i])|
  {
  }

  /** Retiring takes the retired ids out of a message's calls and answers, and nothing else. */
  lemma RetireMessageIds(m: Message, ids: set<CallRef>, w: Wording)
    ensures Calls(RetireMessage(m, ids, w)) == Calls(m) - ids
    ensures Answers(RetireMessage(m, ids, w)) == Answers(m) - ids
    ensures forall b | b in BlocksOf(RetireMessage(m, ids, w)) && b.ToolResult? :: b in BlocksOf(m) && b.id !in ids
  {
    var xs, ys := BlocksOf(m), BlocksOf(RetireMessage(m, ids, w));
    assert |xs| == |ys| && forall k | 0 <= k < |xs| :: ys[k] == RetireBlock(xs[k], ids, w);
    forall id ensures id in CallSeq(ys) <==> id in CallSeq(xs) && id !in ids {
      CallSeqNames(xs, id);
      CallSeqNames(ys, id);
      if b :| b in xs && IsCall(b) && b.id == id {
        var k :| 0 <= k < |xs| && xs[k] == b;
        assert id !in ids ==> ys[k] == b && ys[k] in ys;
      }
    }
    forall id ensures id in Answers(RetireMessage(m, ids, w)) <==> id in Answers(m) && id !in ids {
      if b :| b in xs && IsAnswer(b) && b.id == id {
        var k :| 0 <= k < |xs| && xs[k] == b;
        assert id !in ids ==> ys[k] == b && ys[k] in ys;
      }
    }
  }

  /** Both sides of a pair go together: a well-paired history stays well paired. */
  lemma RetireKeepsPairing(msgs: seq<Message>, isRetired: string -> bool, w: Wording)
    requires WellPaired(msgs)
    ensures WellPaired(Retire(msgs, isRetired, w))
  {
    var ids, out := RetiredIds(msgs, isRetired), Retire(msgs, isRetired, w);
    forall i | 0 <= i < |msgs|
      ensures Calls(out[i]) == Calls(msgs[i]) - ids && Answers(out[i]) == Answers(msgs[i]) - ids
    {
      RetireMessageIds(msgs[i], ids, w);
    }
    forall j, b | 0 <= j < |out| && b in BlocksOf(out[j]) && b.ToolResult?
      ensures b.id.Names() && CalledBefore(out, j, b.id)
    {
      RetireMessageIds(msgs[j], ids, w);
      assert CalledBefore(msgs, j, b.id);
      var i :| 0 <= i < j && b.id in Calls(msgs[i]);
      assert b.id in Calls(out[i]);
    }
    forall i, id | 0 <= i < |out| && id in Calls(out[i]) ensures Answered(out, id) {
      assert id in Calls(msgs[i]);
      assert Answered(msgs, id);
      var j :| 0 <= j < |msgs| && id in Answers(msgs[j]);
      assert id in Answers(out[j]);
    }
  }

  lemma {:induction false} RetiredInMembers(blocks: seq<Block>, isRetired: string -> bool, k: nat)
    requires k < |blocks| && blocks[k].ToolUse? && isRetired(blocks[k].name)
    ensures blocks[k].id in RetiredIn(blocks, isRetired)
  {
    if k > 0 {
      RetiredInMembers(blocks[1..], isRetired, k - 1);
    }
  }

  lemma {:induction false} RetiredIdsMembers(msgs: seq<Message>, isRetired: string -> bool, i: nat, k: nat)
    requires i < |msgs| && msgs[i].role.Assistant? && k < |BlocksOf(msgs[i])|
    requires BlocksOf(msgs[i])[k].ToolUse? && isRetired(BlocksOf(msgs[i])[k].name)
    ensures BlocksOf(msgs[i])[k].id in RetiredIds(msgs, isRetired)
  {
    if i > 0 {
      RetiredIdsMembers(msgs[1..], isRetired, i - 1, k);
    } else {
      RetiredInMembers(BlocksOf(msgs[0]), isRetired, k);
    }
  }

  lemma {:induction false} RetiredInCome(blocks: seq<Block>, isRetired: string -> bool, id: CallRef) returns (k: nat)
    requires id in RetiredIn(blocks, isRetired)
    ensures k < |blocks| && blocks[k].ToolUse? && isRetired(blocks[k].name) && blocks[k].id == id
  {
    if blocks[0].ToolUse? && isRetired(blocks[0].name) && blocks[0].id == id {
      k := 0;
    } else {
      var l := RetiredInCome(blocks[1..], isRetired, id);
      k := l + 1;
    }
  }

  lemma {:induction false} RetiredIdsCome(msgs: seq<Message>, isRetired: string -> bool, id: CallRef)
    returns (i: nat, k: nat)
    requires id in RetiredIds(msgs, isRetired)
    ensures IsPosition(msgs, i, k) && CallsRetired(msgs, i, k, isRetired, id)
  {
    if id in RetiredIds(msgs[1..], isRetired) {
      i, k := RetiredIdsCome(msgs[1..], isRetired, id);
      i := i + 1;
    } else {
      i := 0;
      k := RetiredInCome(BlocksOf(msgs[0]), isRetired, id);
    }
  }

  /** An assistant's call, with this id, of a tool that is gone. */
  ghost predicate CallsRetired(msgs: seq<Message>, i: int, k: int, isRetired: string -> bool, id: CallRef)
    requires IsPosition(msgs, i, k)
  {
    var b := BlocksOf(msgs[i])[k];
    msgs[i].role.Assistant? && b.ToolUse? && isRetired(b.name) && b.id == id
  }

  /**
   A call or result turns into its text if and only if some assistant's call of a tool that is gone has its id;
   everything else stays as it was. No assistant's call of such a tool is left.
   */
  lemma RetiredExactlyWithACall(msgs: seq<Message>, isRetired: string -> bool, w: Wording, i: nat, k: nat)
    requires IsPosition(msgs, i, k)
    ensures
      var before, after := BlocksOf(msgs[i])[k], BlocksOf(Retire(msgs, isRetired, w)[i]);
      && k < |after|
      && after[k] == (
           if (before.ToolUse? || before.ToolResult?)
              && exists j, l :: IsPosition(msgs, j, l) && CallsRetired(msgs, j, l, isRetired, before.id)
           then Text(if before.ToolUse? then w.call(before) else w.result(before), 0) else before)
      && !(msgs[i].role.Assistant? && after[k].ToolUse? && isRetired(after[k].name))
  {
    var before := BlocksOf(msgs[i])[k];
    if before.ToolUse? || before.ToolResult? {
      if j, l :| IsPosition(msgs, j, l) && CallsRetired(msgs, j, l, isRetired, before.id) {
        RetiredIdsMembers(msgs, isRetired, j, l);
      }
      if before.id in RetiredIds(msgs, isRetired) {
        var j, l := RetiredIdsCome(msgs, isRetired, before.id);
      }
    }
    if msgs[i].role.Assistant? && before.ToolUse? && isRetired(before.name) {
      RetiredIdsMembers(msgs, isRetired, i, k);
    }
  }

  // ---- Folding: what one rewritten payload says ----

  /** Setting one path to the note keeps every quiet path quiet, and quiets the path itself. */
  lemma {:induction false} QuietStep(node: Json, path: seq<string>, note: string, other: seq<string>)
    requires node.JObject? && path != [] && other != []
    requires Quiet(Field(node, other), note) || other == path
    ensures Quiet(Field(WithField(node, path, JString(note)), other), note)
    decreases |path|
  {
    var value := JString(note);
    var after := WithField(node, path, value);
    if path[0] != other[0] {
      assert Member(after, other[0]) == Member(node, other[0]);
    } else if |path| == 1 {
      assert Member(after, other[0]) == value;
      assert |other| == 1 ==> other[1..] == [];
    } else {
      var child := Member(node, path[0]);
      if child.JObject? {
        assert Field(child, other[1..]) == Field(node, other);
        QuietStep(child, path[1..], note, other[1..]);
        assert Member(after, other[0]) == WithField(child, path[1..], value);
      }
    }
  }

  ghost predicate Disjoint(p: seq<string>, q: seq<string>)
  {
    exists n: nat :: n < |p| && n < |q| && p[n] != q[n]
  }

  lemma {:induction false} DisjointStep(node: Json, path: seq<string>, value: Json, other: seq<string>)
    requires node.JObject? && path != [] && Disjoint(path, other)
    ensures Field(WithField(node, path, value), other) == Field(node, other)
    decreases |path|
  {
    var after := WithField(node, path, value);
    if path[0] != other[0] {
      assert Member(after, other[0]) == Member(node, other[0]);
    } else {
      var n: nat :| n < |path| && n < |other| && path[n] != other[n];
      assert path[1..][n - 1] != other[1..][n - 1];
      var child := Member(node, path[0]);
      if child.JObject? {
        DisjointStep(child, path[1..], value, other[1..]);
        assert Member(after, other[0]) == WithField(child, path[1..], value);
      }
    }
  }

  lemma {:induction false} AllQuiet(node: Json, paths: seq<seq<string>>, note: string, other: seq<string>)
    requires node.JObject? && other != [] && forall i | 0 <= i < |paths| :: paths[i] != []
    requires Quiet(Field(node, other), note) || other in paths
    ensures Quiet(Field(WithFields(node, paths, JString(note)), other), note)
    decreases |paths|
  {
    if paths != [] {
      if Quiet(Field(node, other), note) || other == paths[0] {
        QuietStep(node, paths[0], note, other);
      }
      AllQuiet(WithField(node, paths[0], JString(note)), paths[1..], note, other);
    }
  }

  lemma {:induction false} DisjointUntouched(node: Json, paths: seq<seq<string>>, value: Json, other: seq<string>)
    requires node.JObject? && forall i | 0 <= i < |paths| :: paths[i] != [] && Disjoint(paths[i], other)
    ensures Field(WithFields(node, paths, value), other) == Field(node, other)
    decreases |paths|
  {
    if paths != [] {
      DisjointStep(node, paths[0], value, other);
      forall i | 0 <= i < |paths[1..]| ensures paths[1..][i] != [] && Disjoint(paths[1..][i], other) {
        assert paths[1..][i] == paths[i + 1];
      }
      DisjointUntouched(WithField(node, paths[0], value), paths[1..], value, other);
    }
  }

  lemma {:induction false} WithFieldIsWellFormed(node: Json, path: seq<string>, value: Json)
    requires node.JObject? && path != [] && WellFormed(node) && WellFormed(value)
    ensures WellFormed(WithField(node, path, value))
    decreases |path|
  {
    if |path| == 1 {
      WithMemberIsWellFormed(node, path[0], value);
    } else {
      var child := Member(node, path[0]);
      if child.JObject? {
        WithFieldIsWellFormed(child, path[1..], value);
        WithMemberIsWellFormed(node, path[0], WithField(child, path[1..], value));
      }
    }
  }

  lemma {:induction false} WithFieldsIsWellFormed(node: Json, paths: seq<seq<string>>, value: Json)
    requires node.JObject? && WellFormed(node) && WellFormed(value) && forall i | 0 <= i < |paths| :: paths[i] != []
    ensures WellFormed(WithFields(node, paths, value))
    decreases |paths|
  {
    if paths != [] {
      WithFieldIsWellFormed(node, paths[0], value);
      WithFieldsIsWellFormed(WithField(node, paths[0], value), paths[1..], value);
    }
  }

  /** A rewritten result reads back as the rewritten object. */
  lemma FoldedReadsBack(b: Block, s: FoldSpec, c: Codec)
    requires s.Valid() && Lawful(c) && b.ToolResult? && Payload(c, b.body).Some?
    ensures
      var payload := Payload(c, b.body).value;
      Payload(c, FoldBlock(b, s, c).body)
      == Some(WithFields(payload, Present(payload, s.fields, s.note), JString(s.note)))
  {
    var payload := Payload(c, b.body).value;
    var folded := WithFields(payload, Present(payload, s.fields, s.note), JString(s.note));
    var mark := LabelOf(TextOf(b.body).value);
    var text := mark + c.encode(folded);
    WithFieldsIsWellFormed(payload, Present(payload, s.fields, s.note), JString(s.note));
    assert c.decode(c.encode(folded)) == Some(folded) && !(LABEL <= c.encode(folded));
    assert TextOf(WithText(b.body, text)) == Some(text);
    assert LabelOf(text) == mark;
    assert text[|mark|..] == c.encode(folded);
  }

  /**
   Folding a result replaces the named fields and nothing else: the call id, the error flag and every
   path apart from the named fields are as before, and each named field reads as the note or as nothing.
   */
  lemma FoldTouchesNamedFieldsOnly(b: Block, s: FoldSpec, c: Codec, other: seq<string>)
    requires s.Valid() && Lawful(c) && b.ToolResult? && Payload(c, b.body).Some?
    ensures
      var after := FoldBlock(b, s, c);
      && after.ToolResult? && after.id == b.id && after.isError == b.isError
      && Payload(c, after.body).Some?
      && (other in s.fields ==> Quiet(Field(Payload(c, after.body).value, other), s.note))
      && ((forall f | f in s.fields :: Disjoint(f, other)) ==>
           Field(Payload(c, after.body).value, other) == Field(Payload(c, b.body).value, other))
  {
    FoldedReadsBack(b, s, c);
    var payload := Payload(c, b.body).value;
    var present := Present(payload, s.fields, s.note);
    forall i | 0 <= i < |present| ensures present[i] in s.fields {
      assert present[i] in present;
    }
    if other in s.fields {
      AllQuiet(payload, present, s.note, other);
    }
    if forall f | f in s.fields :: Disjoint(f, other) {
      DisjointUntouched(payload, present, JString(s.note), other);
    }
  }

  /** A folded result carries none of the fields any more, so it can neither fold again nor cause a fold. */
  lemma FoldedShowsNothing(b: Block, tools: map<CallRef, string>, s: FoldSpec, c: Codec)
    requires s.Valid() && Lawful(c) && Shows(b, tools, s, c).Some?
    ensures Shows(FoldBlock(b, s, c), tools, s, c) == None
  {
    FoldedReadsBack(b, s, c);
    var payload := Payload(c, b.body).value;
    var present := Present(payload, s.fields, s.note);
    var folded := WithFields(payload, present, JString(s.note));
    var left := Present(folded, s.fields, s.note);
    if left != [] {
      var f := left[0];
      assert f in left;
      AllQuiet(payload, present, s.note, f);
    }
  }

  // ---- Folding: the whole history ----

  lemma FoldAtShape(msgs: seq<Message>, s: FoldSpec, c: Codec, tools: map<CallRef, string>, i: nat, k: nat)
    requires s.Valid() && IsPosition(msgs, i, k)
    ensures
      var before, after := BlocksOf(msgs[i])[k], FoldAt(msgs, i, k, tools, s, c);
      MarkOf(after) == MarkOf(before) && (!before.ToolResult? ==> after == before)
  {
  }

  lemma FoldMessageShape(msgs: seq<Message>, s: FoldSpec, c: Codec, tools: map<CallRef, string>, i: nat)
    requires s.Valid() && i < |msgs|
    ensures
      var after := FoldMessage(msgs, i, tools, s, c);
      && SameOutline(msgs[i], after)
      && forall k | 0 <= k < |BlocksOf(msgs[i])| && !BlocksOf(msgs[i])[k].ToolResult? ::
           BlocksOf(after)[k] == BlocksOf(msgs[i])[k]
  {
    var after := FoldMessage(msgs, i, tools, s, c);
    forall k | 0 <= k < |BlocksOf(msgs[i])|
      ensures MarkOf(BlocksOf(after)[k]) == MarkOf(BlocksOf(msgs[i])[k])
      ensures !BlocksOf(msgs[i])[k].ToolResult? ==> BlocksOf(after)[k] == BlocksOf(msgs[i])[k]
    {
      FoldAtShape(msgs, s, c, tools, i, k);
    }
  }

  lemma FoldShape(msgs: seq<Message>, s: FoldSpec, c: Codec, i: nat)
    requires s.Valid() && i < |msgs|
    ensures SameOutline(msgs[i], Fold(msgs, s, c)[i])
    ensures forall k | 0 <= k < |BlocksOf(msgs[i])| && !BlocksOf(msgs[i])[k].ToolResult? ::
              BlocksOf(Fold(msgs, s, c)[i])[k] == BlocksOf(msgs[i])[k]
  {
    FoldMessageShape(msgs, s, c, ToolNames(msgs, map[]), i);
  }

  lemma FoldKeepsOutlines(msgs: seq<Message>, s: FoldSpec, c: Codec)
    requires s.Valid()
    ensures SameOutlines(msgs, Fold(msgs, s, c))
  {
    forall i | 0 <= i < |msgs| ensures SameOutline(msgs[i], Fold(msgs, s, c)[i]) {
      FoldShape(msgs, s, c, i);
    }
  }

  lemma {:induction false} NamesInAgree(xs: seq<Block>, ys: seq<Block>, known: map<CallRef, string>)
    requires |xs| == |ys|
    requires forall k | 0 <= k < |xs| :: xs[k] == ys[k] || (xs[k].ToolResult? && ys[k].ToolResult?)
    ensures NamesIn(xs, known) == NamesIn(ys, known)
  {
    if xs != [] {
      assert xs[0] == ys[0] || (xs[0].ToolResult? && ys[0].ToolResult?);
      var next := if xs[0].ToolUse? then known[xs[0].id := xs[0].name] else known;
      NamesInAgree(xs[1..], ys[1..], next);
    }
  }

  ghost predicate SameRoleButResults(m: Message, n: Message)
  {
    m.role == n.role && SameButResults(BlocksOf(m), BlocksOf(n))
  }

  lemma {:induction false} ToolNamesAgree(xs: seq<Message>, ys: seq<Message>, known: map<CallRef, string>)
    requires |xs| == |ys| && forall i | 0 <= i < |xs| :: SameRoleButResults(xs[i], ys[i])
    ensures ToolNames(xs, known) == ToolNames(ys, known)
  {
    if xs != [] {
      assert SameRoleButResults(xs[0], ys[0]);
      if xs[0].role.Assistant? {
        NamesInAgree(BlocksOf(xs[0]), BlocksOf(ys[0]), known);
        ToolNamesAgree(xs[1..], ys[1..], NamesIn(BlocksOf(xs[0]), known));
      } else {
        ToolNamesAgree(xs[1..], ys[1..], known);
      }
    }
  }

  lemma FoldKeepsToolNames(msgs: seq<Message>, s: FoldSpec, c: Codec)
    requires s.Valid()
    ensures ToolNames(Fold(msgs, s, c), map[]) == ToolNames(msgs, map[])
  {
    var out := Fold(msgs, s, c);
    forall i | 0 <= i < |msgs| ensures SameRoleButResults(msgs[i], out[i]) {
      FoldShape(msgs, s, c, i);
    }
    ToolNamesAgree(msgs, out, map[]);
  }

  /** After folding, what still shows something was not folded, and nothing later shows the same. */
  lemma FoldedHistoryHasNoTwins(msgs: seq<Message>, s: FoldSpec, c: Codec, i: int, k: int)
    requires s.Valid() && Lawful(c) && s.keys != [] && IsPosition(msgs, i, k)
    ensures
      var out, tools := Fold(msgs, s, c), ToolNames(msgs, map[]);
      IsPosition(out, i, k) && FoldAt(out, i, k, tools, s, c) == BlocksOf(out[i])[k]
  {
    var out, tools := Fold(msgs, s, c), ToolNames(msgs, map[]);
    FoldShape(msgs, s, c, i);
    var before, after := BlocksOf(msgs[i])[k], BlocksOf(out[i])[k];
    var ident := Shows(after, tools, s, c);
    if ident.Some? && ShownAfter(out, i, k, ident.value, tools, s, c) {
      FoldedKeepsShowing(msgs, s, c, i, k);
      var j, l :| IsPosition(out, j, l) && After(i, k, j, l) && Shows(BlocksOf(out[j])[l], tools, s, c) == ident;
      FoldShape(msgs, s, c, j);
      FoldedKeepsShowing(msgs, s, c, j, l);
    }
  }

  lemma FoldedKeepsShowing(msgs: seq<Message>, s: FoldSpec, c: Codec, i: int, k: int)
    requires s.Valid() && Lawful(c) && s.keys != [] && IsPosition(msgs, i, k)
    requires |BlocksOf(Fold(msgs, s, c)[i])| == |BlocksOf(msgs[i])|
    requires Shows(BlocksOf(Fold(msgs, s, c)[i])[k], ToolNames(msgs, map[]), s, c).Some?
    ensures BlocksOf(Fold(msgs, s, c)[i])[k] == BlocksOf(msgs[i])[k]
    ensures
      var ident := Shows(BlocksOf(msgs[i])[k], ToolNames(msgs, map[]), s, c);
      ident.Some? && !ShownAfter(msgs, i, k, ident.value, ToolNames(msgs, map[]), s, c)
  {
    var tools := ToolNames(msgs, map[]);
    var before := BlocksOf(msgs[i])[k];
    var ident := Shows(before, tools, s, c);
    assert BlocksOf(Fold(msgs, s, c)[i])[k] == FoldAt(msgs, i, k, tools, s, c);
    if ident.Some? {
      FoldedShowsNothing(before, tools, s, c);
    }
  }

  lemma FoldIsIdempotent(msgs: seq<Message>, s: FoldSpec, c: Codec)
    requires s.Valid() && Lawful(c)
    ensures Fold(Fold(msgs, s, c), s, c) == Fold(msgs, s, c)
  {
    var out := Fold(msgs, s, c);
    var again := Fold(out, s, c);
    if s.keys != [] {
      FoldKeepsToolNames(msgs, s, c);
      forall i | 0 <= i < |out| ensures again[i] == out[i] {
        FoldShape(msgs, s, c, i);
        FoldShape(out, s, c, i);
        forall k | 0 <= k < |BlocksOf(out[i])| ensures BlocksOf(again[i])[k] == BlocksOf(out[i])[k] {
          FoldedHistoryHasNoTwins(msgs, s, c, i, k);
        }
        assert BlocksOf(again[i]) == BlocksOf(out[i]);
      }
    }
  }
}
