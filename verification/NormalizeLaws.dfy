/** What the request-boundary normalisation guarantees, for every history. */
module NormalizeLaws {
  import opened Messages
  import opened MessageRepair
  import opened Sequences

  // ---- The invariants, restated along the list so that they can be followed by induction ----

  ghost predicate Clean(msgs: seq<Message>, seen: set<CallRef>)
  {
    msgs != [] ==>
      && (forall b | b in BlocksOf(msgs[0]) :: !IsOrphan(b, seen))
      && Clean(msgs[1..], seen + Calls(msgs[0]))
  }

  ghost predicate CalledWithin(msgs: seq<Message>, seen: set<CallRef>, j: nat, id: CallRef)
    requires j <= |msgs|
  {
    id in seen || CalledBefore(msgs, j, id)
  }

  lemma CalledShift(msgs: seq<Message>, seen: set<CallRef>, j: nat, id: CallRef)
    requires 0 < j <= |msgs|
    ensures CalledWithin(msgs, seen, j, id) <==> CalledWithin(msgs[1..], seen + Calls(msgs[0]), j - 1, id)
  {
    if CalledBefore(msgs, j, id) {
      var i :| 0 <= i < j && id in Calls(msgs[i]);
      assert i > 0 ==> id in Calls(msgs[1..][i - 1]);
    }
    if CalledBefore(msgs[1..], j - 1, id) {
      var i :| 0 <= i < j - 1 && id in Calls(msgs[1..][i]);
      assert id in Calls(msgs[i + 1]);
    }
  }

  ghost predicate ResultsCalledWithin(msgs: seq<Message>, seen: set<CallRef>)
  {
    forall j, b | 0 <= j < |msgs| && b in BlocksOf(msgs[j]) && b.ToolResult? ::
      b.id.Names() && CalledWithin(msgs, seen, j, b.id)
  }

  lemma {:induction false} CleanByIndex(msgs: seq<Message>, seen: set<CallRef>)
    ensures Clean(msgs, seen) <==> ResultsCalledWithin(msgs, seen)
  {
    if msgs != [] {
      var rest, seen' := msgs[1..], seen + Calls(msgs[0]);
      CleanByIndex(rest, seen');
      if Clean(msgs, seen) {
        forall j, b | 0 <= j < |msgs| && b in BlocksOf(msgs[j]) && b.ToolResult?
          ensures b.id.Names() && CalledWithin(msgs, seen, j, b.id)
        {
          if j > 0 {
            assert b in BlocksOf(rest[j - 1]);
            CalledShift(msgs, seen, j, b.id);
          }
        }
      }
      if ResultsCalledWithin(msgs, seen) {
        forall b | b in BlocksOf(msgs[0]) ensures !IsOrphan(b, seen) {
          assert b.ToolResult? ==> CalledWithin(msgs, seen, 0, b.id);
        }
        forall j, b | 0 <= j < |rest| && b in BlocksOf(rest[j]) && b.ToolResult?
          ensures b.id.Names() && CalledWithin(rest, seen', j, b.id)
        {
          assert b in BlocksOf(msgs[j + 1]);
          assert CalledWithin(msgs, seen, j + 1, b.id);
          CalledShift(msgs, seen, j + 1, b.id);
        }
      }
    }
  }

  // ---- Dropping orphans ----

  lemma {:induction false} PairedKeeps(blocks: seq<Block>, seen: set<CallRef>)
    ensures forall b :: b in Paired(blocks, seen) <==> b in blocks && !IsOrphan(b, seen)
    ensures |Paired(blocks, seen)| <= |blocks|
    ensures |Paired(blocks, seen)| == |blocks| <==> forall b | b in blocks :: !IsOrphan(b, seen)
    ensures |Paired(blocks, seen)| == |blocks| ==> Paired(blocks, seen) == blocks
  {
    if blocks != [] {
      PairedKeeps(blocks[1..], seen);
      assert blocks == [blocks[0]] + blocks[1..];
    }
  }

  lemma {:induction false} PairedKeepsCalls(blocks: seq<Block>, seen: set<CallRef>)
    ensures CallSeq(Paired(blocks, seen)) == CallSeq(blocks)
  {
    if blocks != [] {
      PairedKeepsCalls(blocks[1..], seen);
      if !IsOrphan(blocks[0], seen) {
        assert Paired(blocks, seen)[1..] == Paired(blocks[1..], seen);
      } else {
        assert Paired(blocks, seen) == Paired(blocks[1..], seen);
      }
    }
  }

  /** One message: what stays is the message without its orphans; if nothing stays, it called nothing. */
  lemma DropFromKeeps(m: Message, seen: set<CallRef>)
    ensures |DropFrom(m, seen)| <= 1
    ensures DropFrom(m, seen) == [] ==> CallIds(m) == []
    ensures forall n | n in DropFrom(m, seen) ::
      && n.role == m.role && CallIds(n) == CallIds(m)
      && forall b :: b in BlocksOf(n) <==> b in BlocksOf(m) && !IsOrphan(b, seen)
    ensures (forall b | b in BlocksOf(m) :: !IsOrphan(b, seen)) ==> DropFrom(m, seen) == [m]
    ensures DropFrom(m, seen) == [] ==> forall b | b in BlocksOf(m) :: IsOrphan(b, seen)
  {
    PairedKeeps(BlocksOf(m), seen);
    PairedKeepsCalls(BlocksOf(m), seen);
  }

  lemma {:induction false} DropOrphansIsClean(msgs: seq<Message>, seen: set<CallRef>)
    ensures Clean(DropOrphans(msgs, seen), seen)
  {
    if msgs != [] {
      DropFromKeeps(msgs[0], seen);
      DropOrphansIsClean(msgs[1..], seen + Calls(msgs[0]));
      var out := DropOrphans(msgs, seen);
      if DropFrom(msgs[0], seen) == [] {
        assert Calls(msgs[0]) == {};
        assert seen + Calls(msgs[0]) == seen;
        assert out == DropOrphans(msgs[1..], seen);
      } else {
        assert out[1..] == DropOrphans(msgs[1..], seen + Calls(msgs[0]));
      }
    }
  }

  lemma {:induction false} CleanIsFixed(msgs: seq<Message>, seen: set<CallRef>)
    requires Clean(msgs, seen)
    ensures DropOrphans(msgs, seen) == msgs
  {
    if msgs != [] {
      DropFromKeeps(msgs[0], seen);
      CleanIsFixed(msgs[1..], seen + Calls(msgs[0]));
    }
  }

  // ---- Inserting answers ----

  lemma MissingNames(m: Message, answered: set<CallRef>)
    ensures forall id :: id in Missing(m, answered) <==> id in Calls(m) && id !in answered
    ensures forall id | id in Missing(m, answered) :: id.Names()
    ensures Missing(m, answered) != [] ==>
      && Answers(SyntheticMessage(Missing(m, answered))) == Calls(m) - answered
      && CallIds(SyntheticMessage(Missing(m, answered))) == []
  {
    forall id ensures id in Missing(m, answered) <==> id in Calls(m) && id !in answered {
      WithoutMembers(CallIds(m), answered, id);
    }
    forall id | id in Missing(m, answered) ensures id.Names() {
      NamedCalls(m, id);
    }
    SyntheticAnswers(Missing(m, answered));
  }

  ghost function AllCalls(msgs: seq<Message>): set<CallRef>
  {
    if msgs == [] then {} else Calls(msgs[0]) + AllCalls(msgs[1..])
  }

  lemma {:induction false} AnswersSplit(a: seq<Message>, b: seq<Message>)
    ensures AllAnswers(a + b) == AllAnswers(a) + AllAnswers(b)
    ensures AllCalls(a + b) == AllCalls(a) + AllCalls(b)
  {
    if a == [] {
      assert a + b == b;
    } else {
      assert (a + b)[1..] == a[1..] + b;
      AnswersSplit(a[1..], b);
    }
  }

  /** One message with its answers: the calls are those of the message, the answers its own and the added. */
  lemma WithAnswersFacts(m: Message, answered: set<CallRef>)
    ensures AllCalls(WithAnswers(m, answered)) == Calls(m)
    ensures AllAnswers(WithAnswers(m, answered)) == Answers(m) + (Calls(m) - answered)
  {
    var missing := Missing(m, answered);
    MissingNames(m, answered);
    if missing == [] {
      assert AllCalls([m]) == Calls(m) && AllAnswers([m]) == Answers(m);
      forall id | id in Calls(m) ensures id in answered {
        assert id in missing <==> id !in answered;
      }
    } else {
      var s := SyntheticMessage(missing);
      AnswersSplit([m], [s]);
      assert AllCalls([m]) == Calls(m) && AllAnswers([m]) == Answers(m);
      assert AllCalls([s]) == {} && AllAnswers([s]) == Answers(s);
      assert [m] + [s] == WithAnswers(m, answered);
    }
  }

  lemma {:induction false} InsertMissingFacts(msgs: seq<Message>, answered: set<CallRef>)
    ensures AllCalls(InsertMissing(msgs, answered)) == AllCalls(msgs)
    ensures AllAnswers(InsertMissing(msgs, answered)) == AllAnswers(msgs) + (AllCalls(msgs) - answered)
  {
    if msgs != [] {
      InsertMissingFacts(msgs[1..], answered);
      WithAnswersFacts(msgs[0], answered);
      AnswersSplit(WithAnswers(msgs[0], answered), InsertMissing(msgs[1..], answered));
    }
  }

  lemma CleanBehindAnswers(m: Message, seen: set<CallRef>, answered: set<CallRef>, tail: seq<Message>)
    requires Clean([m], seen) && Clean(tail, seen + Calls(m))
    ensures Clean(WithAnswers(m, answered) + tail, seen)
  {
    var missing, out, seen' := Missing(m, answered), WithAnswers(m, answered) + tail, seen + Calls(m);
    MissingNames(m, answered);
    if missing == [] {
      assert out[1..] == tail;
    } else {
      var s := SyntheticMessage(missing);
      assert out[1..] == [s] + tail && ([s] + tail)[1..] == tail;
      assert Calls(s) == {} && seen' + Calls(s) == seen';
      forall b | b in BlocksOf(s) ensures !IsOrphan(b, seen') {
        var i :| 0 <= i < |missing| && b == SyntheticResult(missing[i]);
        assert missing[i] in missing;
      }
      assert Clean([s] + tail, seen');
    }
  }

  lemma {:induction false} InsertMissingStaysClean(msgs: seq<Message>, seen: set<CallRef>, answered: set<CallRef>)
    requires Clean(msgs, seen)
    ensures Clean(InsertMissing(msgs, answered), seen)
  {
    if msgs != [] {
      InsertMissingStaysClean(msgs[1..], seen + Calls(msgs[0]), answered);
      CleanBehindAnswers(msgs[0], seen, answered, InsertMissing(msgs[1..], answered));
    }
  }

  // ---- Main results ----

  lemma {:induction false} AllCallsByIndex(msgs: seq<Message>, id: CallRef)
    ensures id in AllCalls(msgs) <==> exists i :: 0 <= i < |msgs| && id in Calls(msgs[i])
  {
    if msgs != [] {
      AllCallsByIndex(msgs[1..], id);
      if id in AllCalls(msgs[1..]) {
        var i :| 0 <= i < |msgs[1..]| && id in Calls(msgs[1..][i]);
        assert id in Calls(msgs[i + 1]);
      }
      if i :| 0 <= i < |msgs| && id in Calls(msgs[i]) {
        assert i > 0 ==> id in Calls(msgs[1..][i - 1]);
      }
    }
  }

  lemma PairingByList(msgs: seq<Message>)
    ensures WellPaired(msgs) <==> Clean(msgs, {}) && AllCalls(msgs) <= AllAnswers(msgs)
  {
    CleanByIndex(msgs, {});
    assert ResultsCalledWithin(msgs, {}) <==> ResultsFollowCalls(msgs) by {
      if ResultsFollowCalls(msgs) {
        forall j, b | 0 <= j < |msgs| && b in BlocksOf(msgs[j]) && b.ToolResult?
          ensures b.id.Names() && CalledWithin(msgs, {}, j, b.id)
        {
          assert CalledBefore(msgs, j, b.id);
        }
      }
      if ResultsCalledWithin(msgs, {}) {
        forall j, b | 0 <= j < |msgs| && b in BlocksOf(msgs[j]) && b.ToolResult?
          ensures b.id.Names() && CalledBefore(msgs, j, b.id)
        {
          assert CalledWithin(msgs, {}, j, b.id);
        }
      }
    }
    forall id ensures (id in AllAnswers(msgs) <==> Answered(msgs, id)) {
      AllAnswersAreTheAnswered(msgs, id);
    }
    forall id ensures id in AllCalls(msgs) <==> exists i :: 0 <= i < |msgs| && id in Calls(msgs[i]) {
      AllCallsByIndex(msgs, id);
    }
  }

  /** Whatever the history, the request is well paired: no orphan result, no unanswered call. */
  lemma NormalizeIsWellPaired(msgs: seq<Message>)
    ensures WellPaired(Normalize(msgs))
  {
    var kept := DropOrphans(msgs, {});
    DropOrphansIsClean(msgs, {});
    InsertMissingStaysClean(kept, {}, AllAnswers(kept));
    InsertMissingFacts(kept, AllAnswers(kept));
    PairingByList(Normalize(msgs));
  }

  /** Normalisation leaves a history alone exactly when it is already well paired. */
  lemma NormalizeFixesExactlyTheWellPaired(msgs: seq<Message>)
    ensures Normalize(msgs) == msgs <==> WellPaired(msgs)
  {
    NormalizeIsWellPaired(msgs);
    if WellPaired(msgs) {
      PairingByList(msgs);
      CleanIsFixed(msgs, {});
      forall i | 0 <= i < |msgs| ensures Missing(msgs[i], AllAnswers(msgs)) == [] {
        MissingNames(msgs[i], AllAnswers(msgs));
        var missing := Missing(msgs[i], AllAnswers(msgs));
        if missing != [] {
          assert missing[0] in missing;
          AllCallsByIndex(msgs, missing[0]);
        }
      }
      NothingMissing(msgs, AllAnswers(msgs));
    }
  }

  lemma NormalizeIsIdempotent(msgs: seq<Message>)
    ensures Normalize(Normalize(msgs)) == Normalize(msgs)
  {
    NormalizeIsWellPaired(msgs);
    NormalizeFixesExactlyTheWellPaired(Normalize(msgs));
  }

  // ---- Nothing else changes ----

  datatype Entry = Said(role: Role, text: string) | Piece(role: Role, block: Block)

  function BlockEntries(role: Role, blocks: seq<Block>, seen: set<CallRef>, ids: set<CallRef>): seq<Entry>
  {
    if blocks == [] then []
    else
      (if IsOrphan(blocks[0], seen) || (blocks[0].ToolResult? && blocks[0].id !in ids) then []
       else [Piece(role, blocks[0])])
      + BlockEntries(role, blocks[1..], seen, ids)
  }

  function EntriesOf(m: Message, seen: set<CallRef>, ids: set<CallRef>): seq<Entry>
  {
    if m.content.Plain? then [Said(m.role, m.content.text)]
    else BlockEntries(m.role, m.content.blocks, seen, ids)
  }

  /** One group for what a message says; a message that says nothing has none. */
  function Group(entries: seq<Entry>): seq<seq<Entry>>
  {
    if entries == [] then [] else [entries]
  }

  /** What a history says, message by message: every text, every block, each paired result for one of `ids`. */
  function Record(msgs: seq<Message>, seen: set<CallRef>, ids: set<CallRef>): seq<seq<Entry>>
  {
    if msgs == [] then []
    else Group(EntriesOf(msgs[0], seen, ids)) + Record(msgs[1..], seen + Calls(msgs[0]), ids)
  }

  lemma {:induction false} PairedKeepsEntries(role: Role, blocks: seq<Block>, seen: set<CallRef>, ids: set<CallRef>)
    ensures BlockEntries(role, Paired(blocks, seen), seen, ids) == BlockEntries(role, blocks, seen, ids)
  {
    if blocks != [] {
      PairedKeepsEntries(role, blocks[1..], seen, ids);
      if !IsOrphan(blocks[0], seen) {
        assert Paired(blocks, seen)[1..] == Paired(blocks[1..], seen);
      } else {
        assert Paired(blocks, seen) == Paired(blocks[1..], seen);
      }
    }
  }

  lemma {:induction false} DropOrphansKeepsRecord(msgs: seq<Message>, seen: set<CallRef>, ids: set<CallRef>)
    ensures Record(DropOrphans(msgs, seen), seen, ids) == Record(msgs, seen, ids)
  {
    if msgs != [] {
      var m, seen' := msgs[0], seen + Calls(msgs[0]);
      DropFromKeeps(m, seen);
      PairedKeepsEntries(m.role, BlocksOf(m), seen, ids);
      DropOrphansKeepsRecord(msgs[1..], seen', ids);
      var kept, tail := DropFrom(m, seen), DropOrphans(msgs[1..], seen');
      if kept == [] {
        assert Calls(m) == {} && seen' == seen;
        assert kept + tail == tail;
      } else {
        assert (kept + tail)[0] == kept[0] && (kept + tail)[1..] == tail;
        assert Calls(kept[0]) == Calls(m);
      }
    }
  }

  lemma {:induction false} ForeignResultsSayNothing(role: Role, blocks: seq<Block>, seen: set<CallRef>,
      ids: set<CallRef>)
    requires forall b | b in blocks :: b.ToolResult? && b.id !in ids
    ensures BlockEntries(role, blocks, seen, ids) == []
  {
    if blocks != [] {
      ForeignResultsSayNothing(role, blocks[1..], seen, ids);
    }
  }

  lemma SyntheticSaysNothing(missing: seq<CallRef>, seen: set<CallRef>, ids: set<CallRef>, tail: seq<Message>)
    requires forall id | id in missing :: id.Names() && id !in ids
    ensures Record([SyntheticMessage(missing)] + tail, seen, ids) == Record(tail, seen, ids)
  {
    var s := SyntheticMessage(missing);
    SyntheticAnswers(missing);
    assert ([s] + tail)[1..] == tail;
    assert Calls(s) == {} && seen + Calls(s) == seen;
    forall b | b in BlocksOf(s) ensures b.ToolResult? && b.id !in ids {
      var i :| 0 <= i < |missing| && b == SyntheticResult(missing[i]);
      assert missing[i] in missing;
    }
    ForeignResultsSayNothing(s.role, BlocksOf(s), seen, ids);
  }

  lemma RecordBehindAnswers(m: Message, seen: set<CallRef>, ids: set<CallRef>, tail: seq<Message>)
    ensures Record(WithAnswers(m, ids) + tail, seen, ids) ==
      Group(EntriesOf(m, seen, ids)) + Record(tail, seen + Calls(m), ids)
  {
    var missing, out := Missing(m, ids), WithAnswers(m, ids) + tail;
    MissingNames(m, ids);
    if missing == [] {
      assert out[1..] == tail;
    } else {
      assert out[1..] == [SyntheticMessage(missing)] + tail;
      SyntheticSaysNothing(missing, seen + Calls(m), ids, tail);
    }
  }

  lemma {:induction false} InsertMissingKeepsRecord(msgs: seq<Message>, seen: set<CallRef>, ids: set<CallRef>)
    ensures Record(InsertMissing(msgs, ids), seen, ids) == Record(msgs, seen, ids)
  {
    if msgs != [] {
      InsertMissingKeepsRecord(msgs[1..], seen + Calls(msgs[0]), ids);
      RecordBehindAnswers(msgs[0], seen, ids, InsertMissing(msgs[1..], ids));
    }
  }

  /**
   The request says what the history says, message by message: every text, every block that is not a
   result and every result that follows its call stay, in order, in messages of their own. Only orphan
   results go, and only results for calls nobody answered (ids outside `AllAnswers(DropOrphans(msgs, {}))`)
   are added.
   */
  lemma NormalizeKeepsTheRecord(msgs: seq<Message>)
    ensures
      var ids := AllAnswers(DropOrphans(msgs, {}));
      Record(Normalize(msgs), {}, ids) == Record(msgs, {}, ids)
  {
    var kept := DropOrphans(msgs, {});
    DropOrphansKeepsRecord(msgs, {}, AllAnswers(kept));
    InsertMissingKeepsRecord(kept, {}, AllAnswers(kept));
  }

  // ---- When every call has a later result ----

  /**
   A result for `id` somewhere follows a call of `id`, so `id` counts as answered in the whole
   history, whichever call it was.
   */
  ghost predicate AnsweredSomewhere(msgs: seq<Message>, id: CallRef)
  {
    exists i, j :: 0 <= i < j < |msgs| && id in Calls(msgs[i]) && id in Answers(msgs[j])
  }

  /** No call hides behind another call's result: an id answered somewhere is answered after each of its calls. */
  ghost predicate NoHiddenCall(msgs: seq<Message>)
  {
    forall i, id | 0 <= i < |msgs| && id in Calls(msgs[i]) && AnsweredSomewhere(msgs, id) ::
      AnsweredAfter(msgs, i, id)
  }

  ghost predicate LaterWhenIn(msgs: seq<Message>, ids: set<CallRef>)
  {
    msgs != [] ==>
      && (forall id | id in Calls(msgs[0]) && id in ids :: id in AllAnswers(msgs[1..]))
      && LaterWhenIn(msgs[1..], ids)
  }

  ghost predicate LaterAt(msgs: seq<Message>, ids: set<CallRef>)
  {
    forall i, id | 0 <= i < |msgs| && id in Calls(msgs[i]) && id in ids :: AnsweredAfter(msgs, i, id)
  }

  lemma AnsweredAfterShift(msgs: seq<Message>, i: nat, id: CallRef)
    requires 0 < i < |msgs|
    ensures AnsweredAfter(msgs, i, id) <==> AnsweredAfter(msgs[1..], i - 1, id)
  {
    var rest := msgs[1..];
    if AnsweredAfter(rest, i - 1, id) {
      var j :| i - 1 < j < |rest| && id in Answers(rest[j]);
      assert id in Answers(msgs[j + 1]);
    }
    if AnsweredAfter(msgs, i, id) {
      var j :| i < j < |msgs| && id in Answers(msgs[j]);
      assert id in Answers(rest[j - 1]);
    }
  }

  lemma AnsweredAfterByList(msgs: seq<Message>, i: nat, id: CallRef)
    requires i < |msgs|
    ensures AnsweredAfter(msgs, i, id) <==> id in AllAnswers(msgs[i + 1..])
  {
    var rest := msgs[i + 1..];
    AllAnswersAreTheAnswered(rest, id);
    if Answered(rest, id) {
      var j :| 0 <= j < |rest| && id in Answers(rest[j]);
      assert id in Answers(msgs[i + 1 + j]);
    }
    if AnsweredAfter(msgs, i, id) {
      var j :| i < j < |msgs| && id in Answers(msgs[j]);
      assert id in Answers(rest[j - i - 1]);
    }
  }

  lemma {:induction false} LaterByIndex(msgs: seq<Message>, ids: set<CallRef>)
    ensures LaterWhenIn(msgs, ids) <==> LaterAt(msgs, ids)
  {
    if msgs != [] {
      var rest := msgs[1..];
      LaterByIndex(rest, ids);
      if LaterAt(msgs, ids) {
        forall i, id | 0 <= i < |rest| && id in Calls(rest[i]) && id in ids ensures AnsweredAfter(rest, i, id) {
          assert id in Calls(msgs[i + 1]);
          AnsweredAfterShift(msgs, i + 1, id);
        }
        forall id | id in Calls(msgs[0]) && id in ids ensures id in AllAnswers(rest) {
          AnsweredAfterByList(msgs, 0, id);
        }
      }
      if LaterWhenIn(msgs, ids) {
        forall i, id | 0 <= i < |msgs| && id in Calls(msgs[i]) && id in ids ensures AnsweredAfter(msgs, i, id) {
          if i == 0 {
            AnsweredAfterByList(msgs, 0, id);
          } else {
            assert id in Calls(rest[i - 1]);
            AnsweredAfterShift(msgs, i, id);
          }
        }
      }
    }
  }

  lemma LaterBehindSynthetic(missing: seq<CallRef>, tail: seq<Message>, all: set<CallRef>)
    requires forall id | id in missing :: id.Names()
    ensures LaterWhenIn([SyntheticMessage(missing)] + tail, all) <==> LaterWhenIn(tail, all)
    ensures AllAnswers([SyntheticMessage(missing)] + tail) == (set id | id in missing) + AllAnswers(tail)
  {
    SyntheticAnswers(missing);
    assert ([SyntheticMessage(missing)] + tail)[1..] == tail;
  }

  lemma LaterBehindMessage(m: Message, tail: seq<Message>, all: set<CallRef>)
    requires Calls(m) <= all
    ensures LaterWhenIn([m] + tail, all) <==> Calls(m) <= AllAnswers(tail) && LaterWhenIn(tail, all)
  {
    assert ([m] + tail)[0] == m && ([m] + tail)[1..] == tail;
  }

  lemma LaterBehindGap(m: Message, missing: seq<CallRef>, ids: set<CallRef>, tail: seq<Message>, all: set<CallRef>)
    requires Calls(m) <= all && (set id | id in missing) == Calls(m) - ids
    requires forall id | id in missing :: id.Names()
    ensures LaterWhenIn([m, SyntheticMessage(missing)] + tail, all)
       <==> Calls(m) * ids <= AllAnswers(tail) && LaterWhenIn(tail, all)
  {
    LaterBehindSynthetic(missing, tail, all);
    LaterBehindMessage(m, [SyntheticMessage(missing)] + tail, all);
    Regroup([m], [SyntheticMessage(missing)], tail);
  }

  lemma LaterBehindAnswers(m: Message, ids: set<CallRef>, tail: seq<Message>, all: set<CallRef>)
    requires Calls(m) <= all
    ensures LaterWhenIn(WithAnswers(m, ids) + tail, all)
       <==> Calls(m) * ids <= AllAnswers(tail) && LaterWhenIn(tail, all)
  {
    MissingNames(m, ids);
    var missing := Missing(m, ids);
    assert (set id | id in missing) == Calls(m) - ids;
    if missing == [] {
      LaterBehindMessage(m, tail, all);
      assert Calls(m) - ids == {};
      assert Calls(m) * ids == Calls(m);
    } else {
      LaterBehindGap(m, missing, ids, tail, all);
    }
  }

  lemma {:induction false} LaterAfterInsertion(msgs: seq<Message>, ids: set<CallRef>, all: set<CallRef>)
    requires AllCalls(msgs) <= all && ids <= all
    ensures LaterWhenIn(InsertMissing(msgs, ids), all) <==> LaterWhenIn(msgs, ids)
  {
    if msgs != [] {
      LaterAfterInsertion(msgs[1..], ids, all);
      InsertMissingFacts(msgs[1..], ids);
      LaterBehindAnswers(msgs[0], ids, InsertMissing(msgs[1..], ids), all);
    }
  }

  lemma {:induction false} DropOrphansKeepsKnownAnswers(msgs: seq<Message>, seen: set<CallRef>, id: CallRef)
    requires id in seen
    ensures id in AllAnswers(DropOrphans(msgs, seen)) <==> id in AllAnswers(msgs)
  {
    if msgs != [] {
      var m := msgs[0];
      DropOrphansKeepsKnownAnswers(msgs[1..], seen + Calls(m), id);
      DropFromKeeps(m, seen);
      AnswersSplit(DropFrom(m, seen), DropOrphans(msgs[1..], seen + Calls(m)));
      if id in Answers(m) {
        var b :| b in BlocksOf(m) && IsAnswer(b) && b.id == id;
        assert !IsOrphan(b, seen);
        var n := DropFrom(m, seen)[0];
        assert n in DropFrom(m, seen) && b in BlocksOf(n);
      }
      if DropFrom(m, seen) != [] {
        var n := DropFrom(m, seen)[0];
        assert n in DropFrom(m, seen) && Answers(n) <= Answers(m);
        assert AllAnswers(DropFrom(m, seen)) == Answers(n);
      }
    }
  }

  lemma {:induction false} LaterAfterDropping(msgs: seq<Message>, seen: set<CallRef>, ids: set<CallRef>)
    ensures LaterWhenIn(DropOrphans(msgs, seen), ids) <==> LaterWhenIn(msgs, ids)
  {
    if msgs != [] {
      var m, seen' := msgs[0], seen + Calls(msgs[0]);
      LaterAfterDropping(msgs[1..], seen', ids);
      DropFromKeeps(m, seen);
      var kept, tail := DropFrom(m, seen), DropOrphans(msgs[1..], seen');
      if kept == [] {
        assert Calls(m) == {} && kept + tail == tail;
      } else {
        assert kept[0] in kept && Calls(kept[0]) == Calls(m) && (kept + tail)[1..] == tail;
        forall id | id in Calls(m) ensures id in AllAnswers(tail) <==> id in AllAnswers(msgs[1..]) {
          DropOrphansKeepsKnownAnswers(msgs[1..], seen', id);
        }
      }
    }
  }

  lemma OrphansAnswerNothing(m: Message, seen: set<CallRef>, id: CallRef)
    requires id !in seen
    ensures id !in AllAnswers(DropFrom(m, seen))
  {
    DropFromKeeps(m, seen);
    if DropFrom(m, seen) != [] {
      var n := DropFrom(m, seen)[0];
      assert n in DropFrom(m, seen) && AllAnswers(DropFrom(m, seen)) == Answers(n);
    }
  }

  lemma AnsweredSomewhereByFirst(msgs: seq<Message>, id: CallRef)
    requires msgs != []
    ensures AnsweredSomewhere(msgs, id) <==>
      (id in Calls(msgs[0]) && id in AllAnswers(msgs[1..])) || AnsweredSomewhere(msgs[1..], id)
  {
    var rest := msgs[1..];
    AllAnswersAreTheAnswered(rest, id);
    if i, j :| 0 <= i < j < |msgs| && id in Calls(msgs[i]) && id in Answers(msgs[j]) {
      assert msgs[j] == rest[j - 1] && (i > 0 ==> msgs[i] == rest[i - 1]);
    }
    if i, j :| 0 <= i < j < |rest| && id in Calls(rest[i]) && id in Answers(rest[j]) {
      assert msgs[i + 1] == rest[i] && msgs[j + 1] == rest[j];
    }
    if j :| 0 <= j < |rest| && id in Answers(rest[j]) {
      assert msgs[j + 1] == rest[j];
    }
  }

  lemma {:induction false} KeptAnswers(msgs: seq<Message>, seen: set<CallRef>, id: CallRef)
    requires id !in seen
    ensures id in AllAnswers(DropOrphans(msgs, seen)) <==> AnsweredSomewhere(msgs, id)
  {
    if msgs != [] {
      var m, seen', rest := msgs[0], seen + Calls(msgs[0]), msgs[1..];
      OrphansAnswerNothing(m, seen, id);
      AnswersSplit(DropFrom(m, seen), DropOrphans(rest, seen'));
      AnsweredSomewhereByFirst(msgs, id);
      if id in Calls(m) {
        DropOrphansKeepsKnownAnswers(rest, seen', id);
        if AnsweredSomewhere(rest, id) {
          SomewhereIsAnswered(rest, id);
        }
      } else {
        KeptAnswers(rest, seen', id);
      }
    }
  }

  lemma SomewhereIsAnswered(msgs: seq<Message>, id: CallRef)
    requires AnsweredSomewhere(msgs, id)
    ensures id in AllAnswers(msgs)
  {
    var i, j :| 0 <= i < j < |msgs| && id in Calls(msgs[i]) && id in Answers(msgs[j]);
    AllAnswersAreTheAnswered(msgs, id);
  }

  /**
   A request answers every call later exactly when the history hides no call: a call id used twice,
   answered once between the two calls, leaves the second call without a later result.
   */
  lemma NormalizeAnswersCallsLater(msgs: seq<Message>)
    ensures CallsHaveLaterResults(Normalize(msgs)) <==> NoHiddenCall(msgs)
  {
    var kept := DropOrphans(msgs, {});
    var ids := AllAnswers(kept);
    var all := AllCalls(kept) + ids;
    var out := Normalize(msgs);
    LaterAfterInsertion(kept, ids, all);
    LaterAfterDropping(msgs, {}, ids);
    LaterByIndex(msgs, ids);
    LaterByIndex(out, all);
    InsertMissingFacts(kept, ids);
    forall i, id | 0 <= i < |out| && id in Calls(out[i]) ensures id in all {
      AllCallsByIndex(out, id);
    }
    assert CallsHaveLaterResults(out) <==> LaterAt(out, all);
    forall id ensures id in ids <==> AnsweredSomewhere(msgs, id) {
      KeptAnswers(msgs, {}, id);
    }
    assert NoHiddenCall(msgs) <==> LaterAt(msgs, ids);
  }

  lemma DistinctCallsHideNothing(msgs: seq<Message>)
    requires DistinctCalls(msgs)
    ensures CallsHaveLaterResults(Normalize(msgs))
  {
    NormalizeAnswersCallsLater(msgs);
    forall i, id | 0 <= i < |msgs| && id in Calls(msgs[i]) && AnsweredSomewhere(msgs, id)
      ensures AnsweredAfter(msgs, i, id)
    {
      var k, j :| 0 <= k < j < |msgs| && id in Calls(msgs[k]) && id in Answers(msgs[j]);
      assert k == i;
    }
  }

  /** The documentation promises a later result for every call; a reused id breaks that promise. */
  lemma ReusedIdHidesACall(call: string)
    requires call != ""
    ensures
      var m := Message(Assistant, Blocks([ToolUse(Ref(call), "t", map[])]));
      var r := Message(User, Blocks([ToolResult(Ref(call), Whole(""), false)]));
      !CallsHaveLaterResults(Normalize([m, r, m]))
  {
    var id := Ref(call);
    var use, result := ToolUse(id, "t", map[]), ToolResult(id, Whole(""), false);
    var m, r := Message(Assistant, Blocks([use])), Message(User, Blocks([result]));
    var msgs := [m, r, m];
    NormalizeAnswersCallsLater(msgs);
    CallSeqNames([use], id);
    assert use in [use] && id in CallIds(m);
    assert result in BlocksOf(r) && id in Answers(r);
    assert AnsweredSomewhere(msgs, id) by {
      assert id in Calls(msgs[0]) && id in Answers(msgs[1]);
    }
    assert id in Calls(msgs[2]) && !AnsweredAfter(msgs, 2, id);
  }

  // ---- The in-place recovery agrees with the request-boundary pass ----

  /** Calls before the newest calling message are answered; its own ids, if answered at all, are answered after it. */
  ghost predicate OnlyTheNewestDangles(msgs: seq<Message>)
  {
    LastCaller(msgs) >= 0 ==> OnlyDanglesAt(msgs, LastCaller(msgs))
  }

  ghost predicate OnlyDanglesAt(msgs: seq<Message>, last: nat)
    requires last < |msgs|
  {
    EarlierAnswered(msgs, last) && AnsweredInTime(msgs, last)
  }

  ghost predicate EarlierAnswered(msgs: seq<Message>, last: nat)
    requires last < |msgs|
  {
    forall i, id | 0 <= i < last && id in Calls(msgs[i]) :: Answered(msgs, id)
  }

  ghost predicate AnsweredInTime(msgs: seq<Message>, i: nat)
    requires i < |msgs|
  {
    forall id | id in Calls(msgs[i]) && Answered(msgs, id) :: AnsweredAfter(msgs, i, id)
  }

  ghost predicate NoGapBefore(msgs: seq<Message>, last: nat, answered: set<CallRef>)
    requires last <= |msgs|
  {
    forall i | 0 <= i < last :: Missing(msgs[i], answered) == []
  }

  lemma NoCallsAfterTheLast(msgs: seq<Message>, last: nat, answered: set<CallRef>)
    requires last < |msgs| && forall i | last < i < |msgs| :: CallIds(msgs[i]) == []
    ensures InsertMissing(msgs, answered)
         == InsertMissing(msgs[..last], answered) + (WithAnswers(msgs[last], answered) + msgs[last + 1..])
  {
    assert msgs == msgs[..last] + msgs[last..] && msgs[last..][1..] == msgs[last + 1..];
    InsertMissingSplits(msgs[..last], msgs[last..], answered);
    NothingMissing(msgs[last + 1..], answered);
  }

  lemma {:induction false} WithoutAgree(ids: seq<CallRef>, some: set<CallRef>, more: set<CallRef>)
    requires some <= more
    ensures Without(ids, some) == Without(ids, more) <==> forall id | id in ids && id in more :: id in some
  {
    if ids != [] {
      WithoutAgree(ids[1..], some, more);
      if ids[0] in more && ids[0] !in some {
        WithoutMembers(ids, some, ids[0]);
        WithoutMembers(ids, more, ids[0]);
      } else {
        var head := if ids[0] in some then [] else [ids[0]];
        assert Without(ids, some) == head + Without(ids[1..], some);
        assert Without(ids, more) == head + Without(ids[1..], more);
        if Without(ids, some) == Without(ids, more) {
          assert Without(ids[1..], some) == Without(ids, some)[|head|..] == Without(ids[1..], more);
        }
      }
    }
  }

  lemma SyntheticInjective(a: seq<CallRef>, b: seq<CallRef>)
    requires SyntheticMessage(a) == SyntheticMessage(b)
    ensures a == b
  {
    assert SyntheticResults(a) == SyntheticResults(b);
    forall i | 0 <= i < |a| ensures a[i] == b[i] {
      assert SyntheticResults(a)[i] == SyntheticResults(b)[i];
    }
  }

  /** An inserted answer is a new message: it answers ids that nobody answered. */
  lemma InsertedAnswerIsNew(msgs: seq<Message>, m: Message, answered: set<CallRef>)
    requires msgs != [] && AllAnswers(msgs) <= answered && Missing(m, answered) != []
    ensures msgs[0] != SyntheticMessage(Missing(m, answered))
  {
    MissingNames(m, answered);
    var id := Missing(m, answered)[0];
    assert id in Missing(m, answered);
    assert id in Answers(SyntheticMessage(Missing(m, answered)));
    assert Answers(msgs[0]) <= AllAnswers(msgs);
  }

  lemma PrefixAfter<T>(head: T, rest: seq<T>, out: seq<T>)
    requires [head] + rest <= [head] + out
    ensures rest <= out
  {
    var longer := [head] + out;
    assert forall i | 0 <= i < |rest| :: rest[i] == ([head] + rest)[i + 1] == longer[i + 1] == out[i];
  }

  /** The first message has no gap: the message right behind it is one that was there. */
  lemma FirstHasNoGap(m: Message, rest: seq<Message>, answered: set<CallRef>, tail: seq<Message>)
    requires rest != [] && AllAnswers(rest) <= answered
    requires [m] + rest <= WithAnswers(m, answered) + tail
    ensures Missing(m, answered) == []
    ensures rest <= tail
  {
    if Missing(m, answered) != [] {
      var answer := SyntheticMessage(Missing(m, answered));
      assert ([m] + rest)[1] == rest[0] && ([m, answer] + tail)[1] == answer;
      InsertedAnswerIsNew(rest, m, answered);
    } else {
      PrefixAfter(m, rest, tail);
    }
  }

  lemma Regrouped<T>(init: seq<T>, last: T, a: seq<T>, b: seq<T>, c: seq<T>)
    requires init != []
    ensures init + [last] == [init[0]] + (init[1..] + [last])
    ensures (a + b) + c == a + (b + c)
  {
  }

  /** A gap before the last message shows: an inserted answer is none of the messages that were there. */
  lemma {:induction false} GapBreaksPrefix(init: seq<Message>, last: Message, answered: set<CallRef>,
      tail: seq<Message>)
    requires AllAnswers(init + [last]) <= answered
    requires init + [last] <= InsertMissing(init, answered) + tail
    ensures forall i | 0 <= i < |init| :: Missing(init[i], answered) == []
  {
    if init != [] {
      var inserted := InsertMissing(init[1..], answered);
      Regrouped(init, last, WithAnswers(init[0], answered), inserted, tail);
      FewerAnswers(init[0], init[1..] + [last]);
      FirstHasNoGap(init[0], init[1..] + [last], answered, inserted + tail);
      GapBreaksPrefix(init[1..], last, answered, tail);
    }
  }

  lemma FewerAnswers(m: Message, rest: seq<Message>)
    ensures AllAnswers(rest) <= AllAnswers([m] + rest)
  {
    assert ([m] + rest)[1..] == rest;
  }

  lemma AgreementAt(msgs: seq<Message>, i: nat)
    requires i < |msgs|
    ensures Missing(msgs[i], AllAnswers(msgs)) == Missing(msgs[i], AllAnswers(msgs[i + 1..]))
       <==> AnsweredInTime(msgs, i)
  {
    var all, late := AllAnswers(msgs), AllAnswers(msgs[i + 1..]);
    assert late <= all by {
      AnswersSplit(msgs[..i + 1], msgs[i + 1..]);
      assert msgs[..i + 1] + msgs[i + 1..] == msgs;
    }
    WithoutAgree(CallIds(msgs[i]), late, all);
    forall id ensures id in all <==> Answered(msgs, id) {
      AllAnswersAreTheAnswered(msgs, id);
    }
    forall id ensures id in late <==> AnsweredAfter(msgs, i, id) {
      AnsweredAfterByList(msgs, i, id);
    }
  }

  lemma NothingMissingWhenAnswered(msgs: seq<Message>, m: Message)
    ensures Missing(m, AllAnswers(msgs)) == [] <==> forall id | id in Calls(m) :: Answered(msgs, id)
  {
    var missing := Missing(m, AllAnswers(msgs));
    MissingNames(m, AllAnswers(msgs));
    forall id ensures id in AllAnswers(msgs) <==> Answered(msgs, id) {
      AllAnswersAreTheAnswered(msgs, id);
    }
    if missing != [] {
      assert missing[0] in missing;
    }
  }

  lemma NoEarlierGap(msgs: seq<Message>, last: nat)
    requires last < |msgs|
    ensures NoGapBefore(msgs, last, AllAnswers(msgs)) <==> EarlierAnswered(msgs, last)
  {
    forall i | 0 <= i < last
      ensures Missing(msgs[i], AllAnswers(msgs)) == [] <==> forall id | id in Calls(msgs[i]) :: Answered(msgs, id)
    {
      NothingMissingWhenAnswered(msgs, msgs[i]);
    }
  }

  lemma OrphanFreeIsFixed(msgs: seq<Message>)
    requires ResultsFollowCalls(msgs)
    ensures DropOrphans(msgs, {}) == msgs
  {
    CleanByIndex(msgs, {});
    forall j, b | 0 <= j < |msgs| && b in BlocksOf(msgs[j]) && b.ToolResult?
      ensures b.id.Names() && CalledWithin(msgs, {}, j, b.id)
    {
      assert CalledBefore(msgs, j, b.id);
    }
    CleanIsFixed(msgs, {});
  }

  lemma NobodyCalls(msgs: seq<Message>)
    requires LastCaller(msgs) < 0
    ensures InsertMissing(msgs, AllAnswers(msgs)) == msgs
  {
    LastCallerFacts(msgs, -1);
    NothingMissing(msgs, AllAnswers(msgs));
  }

  lemma RecoveryAgreesAt(msgs: seq<Message>, last: nat)
    requires last == LastCaller(msgs)
    ensures Repair(msgs) == InsertMissing(msgs, AllAnswers(msgs)) <==> OnlyDanglesAt(msgs, last)
  {
    RecoveryAgreesByGaps(msgs, last);
    GapsOrDangles(msgs, last);
  }

  /**
   On a history without orphan results the in-place recovery and the request-boundary pass give the
   same list exactly when only the newest calling message can dangle.
   */
  lemma RecoveryAgreesWithNormalize(msgs: seq<Message>)
    requires ResultsFollowCalls(msgs)
    ensures Repair(msgs) == Normalize(msgs) <==> OnlyTheNewestDangles(msgs)
  {
    OrphanFreeIsFixed(msgs);
    if LastCaller(msgs) < 0 {
      NobodyCalls(msgs);
    } else {
      RecoveryAgreesAt(msgs, LastCaller(msgs));
    }
  }

  /** The repaired list, piece by piece. */
  function Patched(pre: seq<Message>, m: Message, missing: seq<CallRef>, post: seq<Message>): seq<Message>
  {
    if missing == [] then pre + ([m] + post) else pre + ([m, SyntheticMessage(missing)] + post)
  }

  lemma PatchesDiffer(pre: seq<Message>, m: Message, a: seq<CallRef>, b: seq<CallRef>, post: seq<Message>)
    requires Patched(pre, m, a, post) == Patched(pre, m, b, post)
    ensures a == b
  {
    var x, y := Patched(pre, m, a, post), Patched(pre, m, b, post);
    assert |x| == |pre| + 1 + |post| + (if a == [] then 0 else 1);
    assert |y| == |pre| + 1 + |post| + (if b == [] then 0 else 1);
    if a != [] {
      assert x[|pre| + 1] == SyntheticMessage(a) && y[|pre| + 1] == SyntheticMessage(b);
      SyntheticInjective(a, b);
    }
  }

  lemma InsertionIsAPatch(msgs: seq<Message>, last: nat, answered: set<CallRef>)
    requires last == LastCaller(msgs)
    ensures InsertMissing(msgs, answered)
         == Patched(InsertMissing(msgs[..last], answered), msgs[last], Missing(msgs[last], answered), msgs[last + 1..])
  {
    LastCallerFacts(msgs, last);
    NoCallsAfterTheLast(msgs, last, answered);
  }

  lemma PatchesAgree(pre: seq<Message>, m: Message, post: seq<Message>, answered: set<CallRef>, late: seq<CallRef>,
      all: seq<CallRef>)
    requires AllAnswers(pre + [m]) <= answered
    ensures Patched(pre, m, late, post) == Patched(InsertMissing(pre, answered), m, all, post) <==>
      (forall i | 0 <= i < |pre| :: Missing(pre[i], answered) == []) && all == late
  {
    if Patched(pre, m, late, post) == Patched(InsertMissing(pre, answered), m, all, post) {
      NoGapWhenEqual(pre, m, answered, late, all, post);
      NothingMissing(pre, answered);
      PatchesDiffer(pre, m, late, all, post);
    } else if forall i | 0 <= i < |pre| :: Missing(pre[i], answered) == [] {
      NothingMissing(pre, answered);
    }
  }

  lemma GapsOrDangles(msgs: seq<Message>, last: nat)
    requires last < |msgs|
    ensures
      NoGapBefore(msgs, last, AllAnswers(msgs))
      && Missing(msgs[last], AllAnswers(msgs)) == Missing(msgs[last], AllAnswers(msgs[last + 1..]))
      <==> OnlyDanglesAt(msgs, last)
  {
    NoEarlierGap(msgs, last);
    AgreementAt(msgs, last);
  }

  lemma RecoveryAgreesByGaps(msgs: seq<Message>, last: nat)
    requires last == LastCaller(msgs)
    ensures Repair(msgs) == InsertMissing(msgs, AllAnswers(msgs)) <==>
      NoGapBefore(msgs, last, AllAnswers(msgs))
      && Missing(msgs[last], AllAnswers(msgs)) == Missing(msgs[last], AllAnswers(msgs[last + 1..]))
  {
    RepairIsAPatch(msgs, last, Unanswered(msgs));
    InsertionIsAPatch(msgs, last, AllAnswers(msgs));
    PatchesAgreeAt(msgs, last, AllAnswers(msgs), Unanswered(msgs));
  }

  lemma PatchesAgreeAt(msgs: seq<Message>, last: nat, answered: set<CallRef>, late: seq<CallRef>)
    requires last < |msgs| && AllAnswers(msgs) <= answered
    ensures
      Patched(msgs[..last], msgs[last], late, msgs[last + 1..])
      == Patched(InsertMissing(msgs[..last], answered), msgs[last], Missing(msgs[last], answered), msgs[last + 1..])
      <==> NoGapBefore(msgs, last, answered) && Missing(msgs[last], answered) == late
  {
    var pre := msgs[..last];
    SplitAround(msgs, last, msgs[last]);
    EarlyAnswers(msgs, pre + [msgs[last]], msgs[last + 1..]);
    PatchesAgree(pre, msgs[last], msgs[last + 1..], answered, late, Missing(msgs[last], answered));
    assert forall i | 0 <= i < last :: pre[i] == msgs[i];
  }

  lemma EarlyAnswers(msgs: seq<Message>, early: seq<Message>, late: seq<Message>)
    requires msgs == early + late
    ensures AllAnswers(early) <= AllAnswers(msgs)
  {
    AnswersSplit(early, late);
  }

  lemma SplitAround<T>(xs: seq<T>, i: nat, extra: T)
    requires i < |xs|
    ensures xs == xs[..i] + ([xs[i]] + xs[i + 1..]) == (xs[..i] + [xs[i]]) + xs[i + 1..]
    ensures xs[..i + 1] + [extra] + xs[i + 1..] == xs[..i] + ([xs[i], extra] + xs[i + 1..])
    ensures xs[..i + 1] == xs[..i] + [xs[i]]
  {
  }

  lemma RepairIsAPatch(msgs: seq<Message>, last: nat, missing: seq<CallRef>)
    requires last == LastCaller(msgs) && missing == Unanswered(msgs)
    ensures Repair(msgs) == Patched(msgs[..last], msgs[last], missing, msgs[last + 1..])
  {
    SplitAround(msgs, last, SyntheticMessage(missing));
  }

  lemma PrefixOfPatch(pre: seq<Message>, m: Message, missing: seq<CallRef>, post: seq<Message>)
    ensures pre + [m] <= Patched(pre, m, missing, post)
  {
  }

  lemma NoGapWhenEqual(pre: seq<Message>, m: Message, answered: set<CallRef>, late: seq<CallRef>,
      all: seq<CallRef>, post: seq<Message>)
    requires AllAnswers(pre + [m]) <= answered
    requires Patched(pre, m, late, post) == Patched(InsertMissing(pre, answered), m, all, post)
    ensures forall i | 0 <= i < |pre| :: Missing(pre[i], answered) == []
  {
    var tail := if all == [] then [m] + post else [m, SyntheticMessage(all)] + post;
    PrefixOfPatch(pre, m, late, post);
    GapBreaksPrefix(pre, m, answered, tail);
  }
}
