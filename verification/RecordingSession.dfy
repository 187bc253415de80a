/**
 The session's bookkeeping as it runs: metadata and shared dictionaries updated in place. Every
 operation takes the abstract session to what `Recording` specifies.
 */
module RecordingSession {
  import opened Messages
  import opened Recording

  /** Walks both lists from the end while they hold the same objects. */
  method CountKept(before: seq<Ref>, after: seq<Ref>) returns (kept: nat)
    ensures kept == KeptSuffix(before, after)
  {
    var bi, ai := |before| - 1, |after| - 1;
    kept := 0;
    while bi >= 0 && ai >= 0 && before[bi] == after[ai]
      invariant kept + bi == |before| - 1 && kept + ai == |after| - 1 && bi >= -1 && ai >= -1
      invariant KeptSuffix(before, after) == KeptFrom(before, after, kept)
    {
      kept, bi, ai := kept + 1, bi - 1, ai - 1;
    }
  }

  method MoveRecorder(before: seq<Ref>, after: seq<Ref>, kept: nat, queue: seq<Ref>, mark: nat) returns (m: Moved)
    requires kept <= |before| && kept <= |after|
    ensures m == MoveAcross(before, after, kept, queue, mark)
  {
    var start, synthetic := |before| - kept, |after| - kept;
    var queue', gone := queue, [];
    if mark < start {
      var lost := before[mark..start];
      queue', gone := Newest(queue + lost), Dropped(queue + lost);
    }
    m := Moved(queue', Min(Translate(mark, start, synthetic), |after|), gone);
  }

  class Session {
    var store: map<Ref, Message>
    var messages: seq<Ref>
    var lastRecorded: nat
    var strategyRecorded: nat
    var archived: Option<nat>
    var windowLen: nat
    var pendingStm: seq<Ref>
    var pendingArchive: seq<Ref>
    var ledger: map<Ref, Message>

    ghost var stm: seq<Fate>
    ghost var archive: seq<Fate>
    ghost var dueStm: seq<Ref>
    ghost var dueArchive: seq<Ref>
    ghost var birth: map<Ref, Message>

    ghost function Abs(): State
      reads this
    {
      State(store, messages, lastRecorded, strategyRecorded, archived, windowLen, pendingStm, pendingArchive, ledger,
            stm, archive, dueStm, dueArchive, birth)
    }

    constructor (store: map<Ref, Message>, messages: seq<Ref>, recorded: nat, archived: Option<nat>, windowLen: nat)
      ensures Abs() == Begin(store, messages, recorded, archived, windowLen)
    {
      this.store, this.messages := store, messages;
      lastRecorded, strategyRecorded, this.archived, this.windowLen := recorded, 0, archived, windowLen;
      pendingStm, pendingArchive, ledger, stm, archive := [], [], map[], [], [];
      dueStm := From(messages, recorded);
      dueArchive := From(messages, if archived.Some? then archived.value else windowLen);
      birth := store;
    }

    method AddMessage(ref: Ref, content: Message)
      requires Enabled(Abs(), Append(ref, content))
      modifies `store, `messages, `dueStm, `dueArchive, `birth
      ensures Abs() == Next(old(Abs()), Append(ref, content))
    {
      store := store[ref := content];
      messages := messages + [ref];
      dueStm, dueArchive, birth := dueStm + [ref], dueArchive + [ref], birth[ref := content];
    }

    method KeepOriginal(ref: Ref)
      requires ref in store
      modifies this`ledger
      ensures Abs() == Recording.KeepOriginal(old(Abs()), ref)
    {
      if ref in ledger {
        return;
      }
      if ledger != map[] {
        var live := (set r | r in messages) + (set r | r in pendingStm) + (set r | r in pendingArchive);
        ledger := map r | r in ledger && r in live :: ledger[r];
      }
      ledger := ledger[ref := store[ref]];
    }

    /** A reducer: the hook first, then the change in place. */
    method ReduceInPlace(ref: Ref, content: Message)
      requires Enabled(Abs(), Reduce(ref, content))
      modifies `ledger, `store
      ensures Abs() == Next(old(Abs()), Reduce(ref, content))
    {
      KeepOriginal(ref);
      store := store[ref := content];
    }

    /** The user's words join the last message, with no copy of it kept, or become a message of their own. */
    method AppendSteer(text: string, ref: Ref)
      requires ref !in store
      modifies `store, `messages, `dueStm, `dueArchive, `birth
      ensures Abs() == Steer(old(Abs()), text, ref)
    {
      if messages == [] || messages[|messages| - 1] !in store || store[messages[|messages| - 1]].role != User {
        AddMessage(ref, Message(User, Plain(text)));
        return;
      }
      var last := messages[|messages| - 1];
      birth := SaidAfterSteering(Abs(), text, birth);
      store := store[last := Steered(store[last], text)];
    }

    /** Stage 10 adds the clipped results, then has memory keep them as the tools returned them. */
    method AddClippedResults(ref: Ref, clipped: Message, full: Message)
      requires Enabled(Abs(), AppendClipped(ref, clipped, full))
      modifies this
      ensures Abs() == Next(old(Abs()), AppendClipped(ref, clipped, full))
    {
      AddMessage(ref, clipped);
      birth := birth[ref := full];
      KeepFull(ref, full);
    }

    method KeepFull(ref: Ref, full: Message)
      requires ref in store
      modifies `ledger
      ensures ledger == Recording.KeepOriginal(old(Abs()), ref).ledger[ref := full]
    {
      KeepOriginal(ref);
      ledger := ledger[ref := full];
    }

    method ReconcileRecordedIndex(after: seq<Ref>)
      modifies this
      ensures Abs() == Reconcile(old(Abs()), after)
    {
      var kept := CountKept(messages, after);
      if |messages| - kept == 0 && |after| - kept == 0 {
        messages := after;
      } else {
        ShiftWatermarks(after, kept);
      }
    }

    method ShiftWatermarks(after: seq<Ref>, kept: nat)
      requires kept == KeptSuffix(messages, after) && !(kept == |messages| && kept == |after|)
      modifies this
      ensures Abs() == Reconcile(old(Abs()), after)
    {
      var stm := MoveRecorder(messages, after, kept, pendingStm, RecordedUpto());
      var archive := MoveRecorder(messages, after, kept, pendingArchive, ArchivedUpto());
      Install(after, stm, archive, WindowAfter(messages, after, kept, windowLen));
    }

    method Install(after: seq<Ref>, stm: Moved, archive: Moved, window: nat)
      modifies this
      ensures Abs() == Shift(old(Abs()), after, stm, archive, window)
    {
      InstallLists(after, stm.queue, archive.queue);
      InstallMarks(stm.mark, archive.mark, window);
      this.stm := this.stm + Losses(stm.gone);
      this.archive := this.archive + Losses(archive.gone);
    }

    method InstallLists(after: seq<Ref>, stm: seq<Ref>, archive: seq<Ref>)
      modifies `messages, `pendingStm, `pendingArchive
      ensures messages == after && pendingStm == stm && pendingArchive == archive
    {
      messages, pendingStm, pendingArchive := after, stm, archive;
    }

    method InstallMarks(stm: nat, archive: nat, window: nat)
      modifies `lastRecorded, `strategyRecorded, `archived, `windowLen
      ensures lastRecorded == strategyRecorded == stm && archived == Some(archive) && windowLen == window
    {
      lastRecorded, strategyRecorded, archived, windowLen := stm, stm, Some(archive), window;
    }

    function RecordedUpto(): nat
      reads this
    {
      Max(lastRecorded, strategyRecorded)
    }

    function ArchivedUpto(): nat
      reads this
    {
      if archived.Some? then archived.value else windowLen
    }

    /** Drops the entries of messages that have now been recorded. */
    method ForgetOriginals(refs: seq<Ref>)
      modifies this`ledger
      ensures ledger == Forget(old(ledger), refs)
    {
      var i := 0;
      while i < |refs|
        invariant 0 <= i <= |refs|
        invariant ledger == Forget(old(ledger), refs[..i])
      {
        ledger := map r | r in ledger && r != refs[i] :: ledger[r];
        assert forall r :: r in refs[..i + 1] <==> r in refs[..i] || r == refs[i];
        i := i + 1;
      }
      assert refs[..|refs|] == refs;
    }

    /** Stage 18: what compaction took first, then what is ahead of the watermark, each in its original words. */
    method DriveProvider() returns (written: seq<Message>)
      requires Enabled(Abs(), RecordStm)
      modifies this
      ensures Abs() == Next(old(Abs()), RecordStm)
      ensures |written| == |OwedStm(old(Abs()))|
      ensures forall i | 0 <= i < |written| :: written[i] == OriginalOf(old(Abs()), OwedStm(old(Abs()))[i])
    {
      var upto := Min(RecordedUpto(), |messages|);
      var compacted := pendingStm;
      var newMsgs := compacted + messages[upto..];
      written := [];
      var i := 0;
      while i < |newMsgs|
        invariant 0 <= i <= |newMsgs| && |written| == i
        invariant forall j | 0 <= j < i :: written[j] == OriginalOf(Abs(), newMsgs[j])
      {
        written := written + [if newMsgs[i] in ledger then ledger[newMsgs[i]] else store[newMsgs[i]]];
        i := i + 1;
      }
      if newMsgs != [] {
        stm := stm + Originals(Abs(), newMsgs);
        MarkRecorded();
        ForgetOriginals(newMsgs);
      }
    }

    /** Nothing is ahead of the watermark or queued any more. */
    method MarkRecorded()
      modifies `lastRecorded, `strategyRecorded, `pendingStm
      ensures lastRecorded == strategyRecorded == |messages| && pendingStm == []
    {
      lastRecorded, strategyRecorded, pendingStm := |messages|, |messages|, [];
    }
  }
}
