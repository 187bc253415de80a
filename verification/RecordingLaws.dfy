/** What memory keeps, over every run of a session. */
module RecordingLaws {
  import opened Messages
  import opened Recording
  import opened Sequences

  function Refs(fates: seq<Fate>): seq<Ref>
  {
    seq(|fates|, i requires 0 <= i < |fates| => fates[i].ref)
  }

  ghost predicate Distinct(refs: seq<Ref>)
  {
    forall i, j | 0 <= i < j < |refs| :: refs[i] != refs[j]
  }

  /** Every message due is settled, queued or still ahead of the watermark: in order, once. */
  ghost predicate InOrder(due: seq<Ref>, fates: seq<Fate>, queue: seq<Ref>, messages: seq<Ref>, mark: nat)
  {
    mark <= |messages| && due == Refs(fates) + Owed(queue, messages, mark)
  }

  /** Nothing dangles: every reference has an object behind it. */
  ghost predicate Grounded(s: State)
  {
    && (forall r | r in s.messages :: r in s.store)
    && (forall r | r in s.pendingStm :: r in s.store)
    && (forall r | r in s.pendingArchive :: r in s.store)
    && (forall r | r in s.dueStm :: r in s.store && r in s.birth)
    && (forall r | r in s.dueArchive :: r in s.store)
    && s.birth.Keys <= s.store.Keys && s.ledger.Keys <= s.store.Keys
  }

  /** A message short-term memory has yet to record still reads as it was before any reduction. */
  ghost predicate OriginalsReadable(s: State)
    requires Grounded(s)
  {
    forall r | r in OwedStm(s) :: r in s.birth && r in s.store && OriginalOf(s, r) == s.birth[r]
  }

  ghost predicate FaithfulRecord(s: State)
  {
    forall f | f in s.stm && f.Recorded? :: f.ref in s.birth && f.content == s.birth[f.ref]
  }

  ghost predicate Inv(s: State)
  {
    && Grounded(s)
    && InOrder(s.dueStm, s.stm, s.pendingStm, s.messages, StmUpto(s))
    && InOrder(s.dueArchive, s.archive, s.pendingArchive, s.messages, ArchiveUpto(s))
    && Distinct(s.dueStm) && Distinct(s.dueArchive)
    && OriginalsReadable(s) && FaithfulRecord(s)
  }

  // ---- One compaction ----

  /** Short-term memory has two watermarks; a message counts as recorded when it lies behind either. */
  lemma BothMarksCount(s: State, i: nat)
    requires i < |s.messages| && Distinct(s.messages)
    ensures s.messages[i] in From(s.messages, StmUpto(s)) <==> i >= s.lastRecorded && i >= s.strategyRecorded
  {
    var ahead := From(s.messages, StmUpto(s));
    if s.messages[i] in ahead {
      var k :| 0 <= k < |ahead| && ahead[k] == s.messages[i];
      assert s.messages[|s.messages| - |ahead| + k] == s.messages[i];
    }
    if i >= s.lastRecorded && i >= s.strategyRecorded {
      assert ahead[i - (|s.messages| - |ahead|)] == s.messages[i];
    }
  }

  lemma DropInto<T>(a: seq<T>, k: seq<T>, n: nat)
    requires n <= |a + k|
    ensures n <= |a| ==> (a + k)[n..] == a[n..] + k
    ensures n >= |a| ==> (a + k)[n..] == k[n - |a|..]
  {
  }

  lemma SliceBefore<T>(a: seq<T>, k: seq<T>, n: nat)
    requires n <= |a|
    ensures (a + k)[n..|a|] == a[n..]
  {
  }

  lemma SuffixStaysAhead(gone: seq<Ref>, summaries: seq<Ref>, kept: seq<Ref>, mark: nat)
    ensures
      From(gone + kept, mark)
      == SummarizedUnseen(gone + kept, mark, |gone|)
       + From(summaries + kept, Min(Translate(mark, |gone|, |summaries|), |summaries + kept|))
  {
    DropInto(gone, kept, Min(mark, |gone + kept|));
    DropInto(summaries, kept, Min(Translate(mark, |gone|, |summaries|), |summaries + kept|));
    if mark < |gone| {
      SliceBefore(gone, kept, mark);
    }
  }

  lemma SplitEnd<T>(xs: seq<T>, n: nat)
    requires n <= |xs|
    ensures xs == xs[..|xs| - n] + xs[|xs| - n..]
  {
  }

  lemma FromAfterMove(before: seq<Ref>, after: seq<Ref>, mark: nat, kept: nat)
    requires kept <= |before| && kept <= |after| && before[|before| - kept..] == after[|after| - kept..]
    ensures
      From(before, mark)
      == SummarizedUnseen(before, mark, |before| - kept)
       + From(after, Min(Translate(mark, |before| - kept, |after| - kept), |after|))
  {
    SplitEnd(before, kept);
    SplitEnd(after, kept);
    SuffixStaysAhead(before[..|before| - kept], after[..|after| - kept], before[|before| - kept..], mark);
  }

  lemma CapSplits(queue: seq<Ref>, unseen: seq<Ref>)
    ensures CutOff(queue, unseen) + Queued(queue, unseen) == queue + unseen
    ensures CutOff(queue, unseen) != [] <==> unseen != [] && |queue + unseen| > CAP
  {
  }

  lemma MoveKeepsOwed(before: seq<Ref>, after: seq<Ref>, kept: nat, queue: seq<Ref>, mark: nat)
    requires kept <= |before| && kept <= |after| && before[|before| - kept..] == after[|after| - kept..]
    ensures
      var m := MoveAcross(before, after, kept, queue, mark);
      var unseen := SummarizedUnseen(before, mark, |before| - kept);
      && Owed(queue, before, mark) == m.gone + Owed(m.queue, after, m.mark)
      && m.mark <= |after| && (m.gone != [] <==> unseen != [] && |queue + unseen| > CAP)
  {
    var m := MoveAcross(before, after, kept, queue, mark);
    var unseen := SummarizedUnseen(before, mark, |before| - kept);
    FromAfterMove(before, after, mark, kept);
    CapSplits(queue, unseen);
    Regroup(queue, unseen, From(after, m.mark));
    Regroup(m.gone, m.queue, From(after, m.mark));
  }

  /** What one recorder still owes is unchanged by any replacement list, save what the cap drops from its front. */
  lemma ReconcileKeepsOwed(before: seq<Ref>, after: seq<Ref>, queue: seq<Ref>, mark: nat)
    ensures
      var m := Move(before, after, queue, mark);
      var unseen := SummarizedUnseen(before, mark, |before| - KeptSuffix(before, after));
      && Owed(queue, before, mark) == m.gone + Owed(m.queue, after, m.mark)
      && m.mark <= |after| && (m.gone != [] <==> unseen != [] && |queue + unseen| > CAP)
  {
    KeptSuffixIsCommon(before, after);
    MoveKeepsOwed(before, after, KeptSuffix(before, after), queue, mark);
  }

  lemma WindowMoves(before: seq<Ref>, after: seq<Ref>, kept: nat, mark: nat)
    requires kept <= |before| && kept <= |after| && before[|before| - kept..] == after[|after| - kept..]
    ensures
      var window := WindowAfter(before, after, kept, mark);
      if mark == 0 then window == 0
      else if mark <= |before| - kept then window == |after| - kept
      else window <= |after| && From(before, mark) == after[window..]
  {
    if mark > |before| - kept {
      FromAfterMove(before, after, mark, kept);
    }
  }

  /**
   The short-term window follows a replaced list: no window stays none; one that ended before the kept messages
   now ends where they begin, behind the summaries; any other ends in front of the same messages as before.
   */
  lemma WindowFollowsTheList(s: State, after: seq<Ref>)
    requires after != s.messages
    ensures
      var kept, window := KeptSuffix(s.messages, after), Reconcile(s, after).windowLen;
      if s.windowLen == 0 then window == 0
      else if s.windowLen <= |s.messages| - kept then window == |after| - kept
      else window <= |after| && From(s.messages, s.windowLen) == after[window..]
  {
    var kept := KeptSuffix(s.messages, after);
    KeptSuffixIsCommon(s.messages, after);
    WindowMoves(s.messages, after, kept, s.windowLen);
    if kept == |s.messages| && kept == |after| {
      UnchangedList(s.messages, after);
    }
  }

  /** Every prepended summary lies below the new watermark. */
  lemma SummariesLieBelowTheWatermark(s: State, after: seq<Ref>)
    requires after != s.messages
    ensures
      var synthetic := |after| - KeptSuffix(s.messages, after);
      StmUpto(Reconcile(s, after)) >= synthetic && ArchiveUpto(Reconcile(s, after)) >= synthetic
  {
    var kept := KeptSuffix(s.messages, after);
    if kept == |s.messages| && kept == |after| {
      UnchangedList(s.messages, after);
    }
  }

  lemma RefsJoin(a: seq<Fate>, b: seq<Fate>)
    ensures Refs(a + b) == Refs(a) + Refs(b)
  {
  }

  lemma RefsOfLosses(refs: seq<Ref>)
    ensures Refs(Losses(refs)) == refs
  {
  }

  lemma InOrderAfterMove(due: seq<Ref>, fates: seq<Fate>, queue: seq<Ref>, before: seq<Ref>, mark: nat, after: seq<Ref>)
    requires InOrder(due, fates, queue, before, mark)
    ensures
      var m := Move(before, after, queue, mark);
      InOrder(due, fates + Losses(m.gone), m.queue, after, m.mark)
  {
    var m := Move(before, after, queue, mark);
    ReconcileKeepsOwed(before, after, queue, mark);
    RefsJoin(fates, Losses(m.gone));
    RefsOfLosses(m.gone);
    Regroup(Refs(fates), m.gone, Owed(m.queue, after, m.mark));
  }

  lemma UnchangedList(before: seq<Ref>, after: seq<Ref>)
    requires KeptSuffix(before, after) == |before| == |after|
    ensures before == after
  {
    KeptSuffixIsCommon(before, after);
  }

  lemma ReconcileKeepsInv(s: State, after: seq<Ref>)
    requires Inv(s) && forall r | r in after :: r in s.store
    ensures Inv(Reconcile(s, after))
  {
    var t := Reconcile(s, after);
    var kept := KeptSuffix(s.messages, after);
    if kept == |s.messages| && kept == |after| {
      UnchangedList(s.messages, after);
    } else {
      InOrderAfterMove(s.dueStm, s.stm, s.pendingStm, s.messages, StmUpto(s), after);
      InOrderAfterMove(s.dueArchive, s.archive, s.pendingArchive, s.messages, ArchiveUpto(s), after);
      ReconcileKeepsOwed(s.messages, after, s.pendingStm, StmUpto(s));
      ReconcileKeepsOwed(s.messages, after, s.pendingArchive, ArchiveUpto(s));
      assert OwedStm(s) == Move(s.messages, after, s.pendingStm, StmUpto(s)).gone + OwedStm(t);
      ReconcileKeepsGrounded(s, after);
      forall r | r in OwedStm(t) ensures r in s.birth && OriginalOf(t, r) == t.birth[r] {
        assert r in OwedStm(s);
      }
      forall f | f in t.stm && f.Recorded? ensures f in s.stm {
      }
    }
  }

  lemma MoveDrawsFrom(before: seq<Ref>, after: seq<Ref>, queue: seq<Ref>, mark: nat, r: Ref)
    requires r in Move(before, after, queue, mark).queue
    ensures r in queue || r in before
  {
    var kept := KeptSuffix(before, after);
    var unseen := SummarizedUnseen(before, mark, |before| - kept);
    assert r in queue + unseen by {
      CapSplits(queue, unseen);
    }
  }

  lemma ReconcileKeepsGrounded(s: State, after: seq<Ref>)
    requires Grounded(s) && forall r | r in after :: r in s.store
    ensures Grounded(Reconcile(s, after))
  {
    var t := Reconcile(s, after);
    forall r | r in t.pendingStm ensures r in s.store {
      if r !in s.pendingStm {
        MoveDrawsFrom(s.messages, after, s.pendingStm, StmUpto(s), r);
      }
    }
    forall r | r in t.pendingArchive ensures r in s.store {
      if r !in s.pendingArchive {
        MoveDrawsFrom(s.messages, after, s.pendingArchive, ArchiveUpto(s), r);
      }
    }
  }

  // ---- The other steps ----

  lemma FromGrows(refs: seq<Ref>, mark: nat, ref: Ref)
    requires mark <= |refs|
    ensures From(refs + [ref], mark) == From(refs, mark) + [ref]
  {
  }

  lemma AppendKeepsInv(s: State, ref: Ref, content: Message, birth: Message)
    requires Inv(s) && ref !in s.store
    ensures
      var t := Appended(s, ref, content, birth);
      && Grounded(t) && Distinct(t.dueStm) && Distinct(t.dueArchive) && FaithfulRecord(t)
      && InOrder(t.dueStm, t.stm, t.pendingStm, t.messages, StmUpto(t))
      && InOrder(t.dueArchive, t.archive, t.pendingArchive, t.messages, ArchiveUpto(t))
      && OwedStm(t) == OwedStm(s) + [ref]
      && (forall r | r in OwedStm(s) :: r in t.birth && OriginalOf(t, r) == t.birth[r])
  {
    var t := Appended(s, ref, content, birth);
    FromGrows(s.messages, StmUpto(s), ref);
    FromGrows(s.messages, ArchiveUpto(s), ref);
    Regroup(s.pendingStm, From(s.messages, StmUpto(s)), [ref]);
    Regroup(s.pendingArchive, From(s.messages, ArchiveUpto(s)), [ref]);
    Regroup(Refs(s.stm), OwedStm(s), [ref]);
    Regroup(Refs(s.archive), OwedArchive(s), [ref]);
    forall r | r in OwedStm(s) ensures r in t.birth && OriginalOf(t, r) == t.birth[r] {
      assert r in s.dueStm && r in s.store;
    }
  }

  /** Making room in the ledger drops no entry a recorder will still read. */
  lemma KeepOriginalKeepsReadable(s: State, ref: Ref)
    requires Grounded(s) && ref in s.messages && OriginalsReadable(s)
    ensures
      var t := KeepOriginal(s, ref);
      Grounded(t) && OriginalsReadable(t) && ref in t.ledger && t.store == s.store
  {
    var t := KeepOriginal(s, ref);
    forall r | r in OwedStm(t) ensures OriginalOf(t, r) == s.birth[r] {
      assert r in OwedStm(s);
      assert r in Live(s);
    }
  }

  lemma RecordStmKeepsInv(s: State)
    requires Inv(s)
    ensures Inv(Next(s, RecordStm))
  {
    var t, owed := Next(s, RecordStm), OwedStm(s);
    if owed != [] {
      var written := Originals(s, owed);
      RefsJoin(s.stm, written);
      assert Refs(written) == owed;
      assert OwedStm(t) == [];
      assert t.dueStm == Refs(t.stm) + OwedStm(t);
      forall f | f in t.stm && f.Recorded? ensures f.ref in t.birth && f.content == t.birth[f.ref] {
        if f !in s.stm {
          var i :| 0 <= i < |owed| && f == written[i];
          assert owed[i] in OwedStm(s);
        }
      }
    }
  }

  lemma RecordArchiveKeepsInv(s: State)
    requires Inv(s)
    ensures Inv(Next(s, RecordArchive))
  {
    var t, owed := Next(s, RecordArchive), OwedArchive(s);
    var written := Currents(s, owed);
    RefsJoin(s.archive, written);
    assert Refs(written) == owed;
    assert OwedArchive(t) == [];
    assert OwedStm(t) == OwedStm(s);
    assert t.dueArchive == Refs(t.archive) + OwedArchive(t);
  }

  lemma CompactKeepsInv(s: State, after: seq<Ref>, made: map<Ref, Message>)
    requires Inv(s) && Enabled(s, Compact(after, made))
    ensures Inv(Next(s, Compact(after, made)))
  {
    var t := s.(store := s.store + made);
    assert OwedStm(t) == OwedStm(s);
    forall r | r in OwedStm(t) ensures OriginalOf(t, r) == t.birth[r] {
      assert r in s.store && r !in made;
    }
    assert Inv(t);
    ReconcileKeepsInv(t, after);
  }

  lemma AppendClippedKeepsInv(s: State, ref: Ref, clipped: Message, full: Message)
    requires Inv(s) && ref !in s.store
    ensures Inv(Next(s, AppendClipped(ref, clipped, full)))
  {
    var a := Appended(s, ref, clipped, full);
    AppendKeepsInv(s, ref, clipped, full);
    var t := Next(s, AppendClipped(ref, clipped, full));
    assert OwedStm(t) == OwedStm(s) + [ref];
    forall r | r in OwedStm(t) ensures OriginalOf(t, r) == t.birth[r] {
      if r != ref {
        assert r in OwedStm(s) && r in s.store;
        assert r in Live(a);
      }
    }
  }

  /** What was recorded is no longer owed. */
  lemma OwedIsUnrecorded(s: State, r: Ref)
    requires Inv(s) && r in OwedStm(s)
    ensures forall f | f in s.stm :: f.ref != r
  {
    var owed := OwedStm(s);
    var j :| 0 <= j < |owed| && owed[j] == r;
    forall f | f in s.stm ensures f.ref != r {
      var i :| 0 <= i < |s.stm| && s.stm[i] == f;
      assert s.dueStm[i] == f.ref && s.dueStm[|s.stm| + j] == r;
    }
  }

  lemma SteerKeepsInv(s: State, text: string)
    requires Inv(s) && LastIsUser(s)
    ensures Inv(Next(s, SteerInto(text)))
  {
    var t := Next(s, SteerInto(text));
    assert OwedStm(t) == OwedStm(s) && OwedArchive(t) == OwedArchive(s);
    if Reachable(s) {
      OwedIsUnrecorded(s, LastRef(s));
    }
  }

  lemma StepKeepsInv(s: State, step: Step)
    requires Inv(s) && Enabled(s, step)
    ensures Inv(Next(s, step))
  {
    match step
    case Append(ref, content) =>
      AppendKeepsInv(s, ref, content, content);
    case AppendClipped(ref, clipped, full) =>
      AppendClippedKeepsInv(s, ref, clipped, full);
    case Reduce(ref, content) =>
      KeepOriginalKeepsReadable(s, ref);
      var t := Next(s, step);
      assert OwedStm(t) == OwedStm(s) && OwedArchive(t) == OwedArchive(s);
    case SteerInto(text) =>
      SteerKeepsInv(s, text);
    case Compact(after, made) =>
      CompactKeepsInv(s, after, made);
    case RecordStm =>
      RecordStmKeepsInv(s);
    case RecordArchive =>
      RecordArchiveKeepsInv(s);
  }

  lemma {:induction false} RunKeepsInv(s: State, steps: seq<Step>)
    requires Inv(s) && ValidRun(s, steps)
    ensures Inv(Run(s, steps))
    decreases |steps|
  {
    if steps != [] {
      StepKeepsInv(s, steps[0]);
      RunKeepsInv(Next(s, steps[0]), steps[1..]);
    }
  }

  lemma BeginHasInv(store: map<Ref, Message>, messages: seq<Ref>, recorded: nat, archived: Option<nat>, windowLen: nat)
    requires (forall r | r in messages :: r in store) && Distinct(messages)
    requires recorded <= |messages| && (if archived.Some? then archived.value else windowLen) <= |messages|
    ensures Inv(Begin(store, messages, recorded, archived, windowLen))
  {
    var s := Begin(store, messages, recorded, archived, windowLen);
    NothingYet(From(messages, StmUpto(s)));
    NothingYet(From(messages, ArchiveUpto(s)));
    SuffixIsDistinct(messages, recorded);
    SuffixIsDistinct(messages, ArchiveUpto(s));
  }

  lemma NothingYet(due: seq<Ref>)
    ensures due == Refs([]) + ([] + due)
  {
  }

  lemma SuffixIsDistinct(refs: seq<Ref>, mark: nat)
    requires Distinct(refs)
    ensures Distinct(From(refs, mark))
  {
  }

  // ---- Main results, in terms of the run alone ----

  function AppendedIn(step: Step): seq<Ref>
  {
    match step
    case Append(ref, _) => [ref]
    case AppendClipped(ref, _, _) => [ref]
    case _ => []
  }

  /** The real messages of a run, in the order they were appended. */
  function AppendedBy(steps: seq<Step>): seq<Ref>
  {
    if steps == [] then [] else AppendedIn(steps[0]) + AppendedBy(steps[1..])
  }

  ghost function SaidIn(s: State, step: Step, said: map<Ref, Message>): map<Ref, Message>
    requires Enabled(s, step)
  {
    match step
    case Append(ref, content) => said[ref := content]
    case AppendClipped(ref, _, full) => said[ref := full]
    case SteerInto(text) => SaidAfterSteering(s, text, said)
    case _ => said
  }

  /**
   What each real message said, for memory: a clipped result counts as the tool returned it, and words
   steered into a message as part of it where memory can still take them up.
   */
  ghost function SaidBy(s: State, steps: seq<Step>, said: map<Ref, Message>): map<Ref, Message>
    requires ValidRun(s, steps)
    decreases |steps|
  {
    if steps == [] then said else SaidBy(Next(s, steps[0]), steps[1..], SaidIn(s, steps[0], said))
  }

  lemma DueInOneStep(s: State, step: Step)
    requires Enabled(s, step)
    ensures Next(s, step).dueStm == s.dueStm + AppendedIn(step)
    ensures Next(s, step).dueArchive == s.dueArchive + AppendedIn(step)
    ensures Next(s, step).birth == SaidIn(s, step, s.birth)
  {
  }

  lemma {:induction false} DueIsWhatWasAppended(s: State, steps: seq<Step>)
    requires ValidRun(s, steps)
    ensures Run(s, steps).dueStm == s.dueStm + AppendedBy(steps)
    ensures Run(s, steps).dueArchive == s.dueArchive + AppendedBy(steps)
    ensures Run(s, steps).birth == SaidBy(s, steps, s.birth)
    decreases |steps|
  {
    if steps != [] {
      DueInOneStep(s, steps[0]);
      DueIsWhatWasAppended(Next(s, steps[0]), steps[1..]);
      Regroup(s.dueStm, AppendedIn(steps[0]), AppendedBy(steps[1..]));
      Regroup(s.dueArchive, AppendedIn(steps[0]), AppendedBy(steps[1..]));
    }
  }

  /** Refs and contents a recorder wrote, in order. */
  ghost predicate WroteFaithfully(fates: seq<Fate>, said: map<Ref, Message>)
  {
    forall f | f in fates && f.Recorded? :: f.ref in said && f.content == said[f.ref]
  }

  /**
   Over any run of appends, reductions, steered words, compactions and recordings, each recorder's
   outcomes followed by what it still owes are the real messages in order, each once; short-term memory
   wrote every message as it was before any reduction; no summary was ever recorded.
   */
  lemma RecordIsExactlyOnceAndFaithful(store: map<Ref, Message>, messages: seq<Ref>, recorded: nat,
      archived: Option<nat>, windowLen: nat, steps: seq<Step>)
    requires (forall r | r in messages :: r in store) && Distinct(messages)
    requires recorded <= |messages| && (if archived.Some? then archived.value else windowLen) <= |messages|
    requires ValidRun(Begin(store, messages, recorded, archived, windowLen), steps)
    ensures
      var s := Begin(store, messages, recorded, archived, windowLen);
      var t := Run(s, steps);
      && Refs(t.stm) + OwedStm(t) == messages[recorded..] + AppendedBy(steps)
      && Refs(t.archive) + OwedArchive(t) == messages[ArchiveUpto(s)..] + AppendedBy(steps)
      && Distinct(Refs(t.stm) + OwedStm(t)) && Distinct(Refs(t.archive) + OwedArchive(t))
      && WroteFaithfully(t.stm, SaidBy(s, steps, store))
  {
    var s := Begin(store, messages, recorded, archived, windowLen);
    BeginHasInv(store, messages, recorded, archived, windowLen);
    RunKeepsInv(s, steps);
    DueIsWhatWasAppended(s, steps);
  }

  // ---- When a message is lost ----

  datatype Recorder = Stm | Archive

  function QueueOf(s: State, r: Recorder): seq<Ref> { if r.Stm? then s.pendingStm else s.pendingArchive }

  function UptoOf(s: State, r: Recorder): nat { if r.Stm? then StmUpto(s) else ArchiveUpto(s) }

  function FatesOf(s: State, r: Recorder): seq<Fate> { if r.Stm? then s.stm else s.archive }

  /** The replacement summarizes messages the recorder has not seen, and they do not fit behind its queue. */
  predicate OverflowsQueue(messages: seq<Ref>, after: seq<Ref>, queue: seq<Ref>, upto: nat)
  {
    var unseen := SummarizedUnseen(messages, upto, |messages| - KeptSuffix(messages, after));
    unseen != [] && |queue + unseen| > CAP
  }

  predicate Overflows(s: State, after: seq<Ref>, r: Recorder)
  {
    OverflowsQueue(s.messages, after, QueueOf(s, r), UptoOf(s, r))
  }

  /** No compaction of the run overflows the recorder's queue. */
  ghost predicate FitsTheCap(s: State, steps: seq<Step>, r: Recorder)
    requires ValidRun(s, steps)
    decreases |steps|
  {
    steps != [] ==>
      && !(steps[0].Compact? && Overflows(s, steps[0].after, r))
      && FitsTheCap(Next(s, steps[0]), steps[1..], r)
  }

  ghost predicate NothingLost(fates: seq<Fate>)
  {
    forall f | f in fates :: f.Recorded?
  }

  lemma LossesAreLost(fates: seq<Fate>, gone: seq<Ref>)
    ensures NothingLost(fates + Losses(gone)) <==> NothingLost(fates) && gone == []
  {
    if gone == [] {
      assert Losses(gone) == [];
      NothingAdded(fates);
    } else {
      assert (fates + Losses(gone))[|fates|] == Lost(gone[0]);
      assert Lost(gone[0]) in fates + Losses(gone);
    }
    assert forall f | f in fates :: f in fates + Losses(gone);
  }

  lemma RecordedAreNotLost(fates: seq<Fate>, more: seq<Fate>)
    requires NothingLost(more)
    ensures NothingLost(fates + more) <==> NothingLost(fates)
  {
    assert forall f | f in fates :: f in fates + more;
  }

  /** Moving one recorder loses something exactly when its queue overflows. */
  lemma MoveLoses(messages: seq<Ref>, after: seq<Ref>, queue: seq<Ref>, upto: nat, fates: seq<Fate>)
    ensures NothingLost(fates + Losses(Move(messages, after, queue, upto).gone)) <==>
      NothingLost(fates) && !OverflowsQueue(messages, after, queue, upto)
  {
    CapSplits(queue, SummarizedUnseen(messages, upto, |messages| - KeptSuffix(messages, after)));
    LossesAreLost(fates, Move(messages, after, queue, upto).gone);
  }

  lemma NothingMoves(messages: seq<Ref>, after: seq<Ref>, queue: seq<Ref>, upto: nat)
    requires KeptSuffix(messages, after) == |messages|
    ensures !OverflowsQueue(messages, after, queue, upto)
  {
  }

  lemma FatesGrow(s: State, after: seq<Ref>, r: Recorder)
    requires !(KeptSuffix(s.messages, after) == |s.messages| == |after|)
    ensures FatesOf(Reconcile(s, after), r) ==
      FatesOf(s, r) + Losses(Move(s.messages, after, QueueOf(s, r), UptoOf(s, r)).gone)
  {
  }

  /** One replacement loses something exactly when it overflows the queue. */
  lemma CompactLoses(s: State, after: seq<Ref>, r: Recorder)
    ensures NothingLost(FatesOf(Reconcile(s, after), r)) <==>
      NothingLost(FatesOf(s, r)) && !Overflows(s, after, r)
  {
    if KeptSuffix(s.messages, after) == |s.messages| == |after| {
      NothingMoves(s.messages, after, QueueOf(s, r), UptoOf(s, r));
    } else {
      FatesGrow(s, after, r);
      MoveLoses(s.messages, after, QueueOf(s, r), UptoOf(s, r), FatesOf(s, r));
    }
  }

  lemma RecordLosesNothing(s: State, step: Step, r: Recorder)
    requires Enabled(s, step) && (step.RecordStm? || step.RecordArchive?)
    ensures NothingLost(FatesOf(Next(s, step), r)) <==> NothingLost(FatesOf(s, r))
  {
    if step.RecordStm? {
      if OwedStm(s) != [] {
        RecordedAreNotLost(s.stm, Originals(s, OwedStm(s)));
      }
    } else {
      RecordedAreNotLost(s.archive, Currents(s, OwedArchive(s)));
    }
  }

  lemma StepLoses(s: State, step: Step, r: Recorder)
    requires Enabled(s, step)
    ensures NothingLost(FatesOf(Next(s, step), r)) <==>
      NothingLost(FatesOf(s, r)) && !(step.Compact? && Overflows(s, step.after, r))
  {
    match step
    case Compact(after, made) => CompactLoses(s.(store := s.store + made), after, r);
    case RecordStm => RecordLosesNothing(s, step, r);
    case RecordArchive => RecordLosesNothing(s, step, r);
    case _ =>
  }

  lemma {:induction false} RunLoses(s: State, steps: seq<Step>, r: Recorder)
    requires ValidRun(s, steps)
    ensures NothingLost(FatesOf(Run(s, steps), r)) <==> NothingLost(FatesOf(s, r)) && FitsTheCap(s, steps, r)
    decreases |steps|
  {
    if steps != [] {
      StepLoses(s, steps[0], r);
      RunLoses(Next(s, steps[0]), steps[1..], r);
    }
  }

  /** For each recorder: a message is lost exactly when some compaction of the run overflows its queue. */
  lemma LossesHappenExactlyPastTheCap(store: map<Ref, Message>, messages: seq<Ref>, recorded: nat,
      archived: Option<nat>, windowLen: nat, steps: seq<Step>, r: Recorder)
    requires ValidRun(Begin(store, messages, recorded, archived, windowLen), steps)
    ensures
      var s := Begin(store, messages, recorded, archived, windowLen);
      NothingLost(FatesOf(Run(s, steps), r)) <==> FitsTheCap(s, steps, r)
  {
    RunLoses(Begin(store, messages, recorded, archived, windowLen), steps, r);
  }

  lemma OneTooMany(refs: seq<Ref>)
    requires |refs| == CAP + 1
    ensures Move(refs, [], [], 0).gone == [refs[0]]
  {
    assert KeptSuffix(refs, []) == 0;
    assert SummarizedUnseen(refs, 0, |refs|) == refs && [] + refs == refs;
  }

  /** One message more than the cap, all summarized before the recorder saw any: the oldest is lost. */
  lemma OneTooManyIsLost(store: map<Ref, Message>, refs: seq<Ref>)
    requires |refs| == CAP + 1
    ensures
      var s := Begin(store, refs, 0, None, 0);
      Enabled(s, Compact([], map[])) && Next(s, Compact([], map[])).stm == [Lost(refs[0])]
  {
    var s := Begin(store, refs, 0, None, 0);
    OneTooMany(refs);
    FatesGrow(s.(store := s.store + map[]), [], Stm);
    assert Losses([refs[0]]) == [Lost(refs[0])];
  }

  /** Every message recorded, in order, as it was said. */
  function AsSaid(due: seq<Ref>, said: map<Ref, Message>): seq<Fate>
    requires forall r | r in due :: r in said
  {
    seq(|due|, i requires 0 <= i < |due| => Recorded(due[i], said[due[i]]))
  }

  /**
   Memory holds the whole real history after the next recording, every message once, in order and in its
   original words, if and only if no compaction of the run overflowed the queue.
   */
  lemma NothingIsForgottenWithinTheCap(store: map<Ref, Message>, messages: seq<Ref>, recorded: nat,
      archived: Option<nat>, windowLen: nat, steps: seq<Step>)
    requires (forall r | r in messages :: r in store) && Distinct(messages)
    requires recorded <= |messages| && (if archived.Some? then archived.value else windowLen) <= |messages|
    requires ValidRun(Begin(store, messages, recorded, archived, windowLen), steps)
    ensures
      var s := Begin(store, messages, recorded, archived, windowLen);
      var t := Run(s, steps);
      && Enabled(t, RecordStm)
      && var due := messages[recorded..] + AppendedBy(steps);
         var said := SaidBy(s, steps, store);
         && (forall r | r in due :: r in said)
         && (Next(t, RecordStm).stm == AsSaid(due, said) <==> FitsTheCap(s, steps, Stm))
  {
    var s := Begin(store, messages, recorded, archived, windowLen);
    BeginHasInv(store, messages, recorded, archived, windowLen);
    RunKeepsInv(s, steps);
    DueIsWhatWasAppended(s, steps);
    RunLoses(s, steps, Stm);
    RecordingEndsEverything(Run(s, steps));
  }

  lemma RecordingEndsEverything(s: State)
    requires Inv(s)
    ensures Enabled(s, RecordStm) && forall r | r in s.dueStm :: r in s.birth
    ensures Next(s, RecordStm).stm == AsSaid(s.dueStm, s.birth) <==> NothingLost(s.stm)
  {
    StepKeepsInv(s, RecordStm);
    StepLoses(s, RecordStm, Stm);
    assert OwedStm(Next(s, RecordStm)) == [];
    AllRecorded(Next(s, RecordStm));
  }

  lemma AllRecorded(s: State)
    requires Inv(s) && OwedStm(s) == []
    ensures forall r | r in s.dueStm :: r in s.birth
    ensures s.stm == AsSaid(s.dueStm, s.birth) <==> NothingLost(s.stm)
  {
    assert s.dueStm == Refs(s.stm);
    if NothingLost(s.stm) {
      forall i | 0 <= i < |s.stm| ensures s.stm[i] == Recorded(s.dueStm[i], s.birth[s.dueStm[i]]) {
        assert s.stm[i] in s.stm && s.dueStm[i] == Refs(s.stm)[i];
      }
    }
  }

  // ---- Steered words ----

  lemma SteeredChanges(m: Message, text: string)
    requires text != ""
    ensures Steered(m, text) != m
  {
    match m.content
    case Blocks(blocks) => assert |BlocksOf(Steered(m, text))| == |blocks| + 1;
    case Plain(prev) => assert |Steered(m, text).content.text| > |prev|;
  }

  /** One message the recorder reads differently makes what it writes different. */
  lemma OneReadDiffers(s: State, t: State, owed: seq<Ref>, r: Ref)
    requires (forall x | x in owed :: x in s.store) && (forall x | x in owed :: x in t.store)
    requires r in s.store && r in t.store
    requires forall x | x in owed && x != r :: OriginalOf(s, x) == OriginalOf(t, x)
    ensures Originals(s, owed) == Originals(t, owed) <==> (r in owed ==> OriginalOf(s, r) == OriginalOf(t, r))
  {
    if r in owed {
      var i :| 0 <= i < |owed| && owed[i] == r;
      assert Originals(s, owed)[i] == Recorded(r, OriginalOf(s, r));
      assert Originals(t, owed)[i] == Recorded(r, OriginalOf(t, r));
    }
    if r in owed ==> OriginalOf(s, r) == OriginalOf(t, r) {
      forall i | 0 <= i < |owed| ensures Originals(s, owed)[i] == Originals(t, owed)[i] {
        assert owed[i] in owed;
      }
    }
  }

  lemma SteeringTheLastMessage(s: State, text: string)
    requires Inv(s) && LastIsUser(s) && text != ""
    ensures
      var t := Next(s, SteerInto(text));
      && Enabled(s, RecordStm) && Enabled(t, RecordStm)
      && (Next(t, RecordStm).stm != Next(s, RecordStm).stm <==> LastRef(s) in OwedStm(s) && LastRef(s) !in s.ledger)
  {
    var t := Next(s, SteerInto(text));
    SteerKeepsInv(s, text);
    SteeredChanges(s.store[LastRef(s)], text);
    assert OwedStm(t) == OwedStm(s);
    OneReadDiffers(s, t, OwedStm(s), LastRef(s));
    SameFront(s.stm, Originals(s, OwedStm(s)), Originals(t, OwedStm(s)));
  }

  lemma SameFront<T>(front: seq<T>, a: seq<T>, b: seq<T>)
    requires |a| == |b|
    ensures front + a == front + b <==> a == b
  {
    if front + a == front + b {
      assert (front + a)[|front|..] == a && (front + b)[|front|..] == b;
    }
  }

  lemma SteeringANewMessage(s: State, m: Message, ref: Ref)
    requires Inv(s) && ref !in s.store
    ensures
      var t := Next(s, Append(ref, m));
      && Enabled(s, RecordStm) && Enabled(t, RecordStm)
      && |Next(t, RecordStm).stm| == |Next(s, RecordStm).stm| + 1
  {
    AppendKeepsInv(s, ref, m, m);
  }

  /**
   The documentation promises that memory records what was really said. Words steered into the last
   message change what the next recording writes if and only if that message is still owed and the
   ledger holds no copy of it; words that become a message of their own always do.
   */
  lemma SteeredWordsAreRecordedWhenOwedAndUnkept(s: State, text: string, ref: Ref)
    requires Inv(s) && ref !in s.store && text != ""
    ensures
      var t := Steer(s, text, ref);
      && Enabled(s, RecordStm) && Enabled(t, RecordStm)
      && (Next(t, RecordStm).stm != Next(s, RecordStm).stm <==>
            (LastIsUser(s) ==> LastRef(s) in OwedStm(s) && LastRef(s) !in s.ledger))
  {
    if LastIsUser(s) {
      SteeringTheLastMessage(s, text);
    } else {
      SteeringANewMessage(s, Message(User, Plain(text)), ref);
    }
  }

  /**
   In any session: a tool result clipped to the window, then the user's words, then the recorder. What is
   recorded is the tool's full result; the words are not.
   */
  lemma SteeredIntoAClippedResultIsForgotten(s: State, ref: Ref, clipped: Message, full: Message, text: string)
    requires Inv(s) && ref !in s.store && clipped.role.User?
    ensures
      var a := Next(s, AppendClipped(ref, clipped, full));
      && Enabled(a, SteerInto(text))
      && var t := Next(a, SteerInto(text));
         && Enabled(t, RecordStm) && t.store[ref] == Steered(clipped, text)
         && Next(t, RecordStm).stm == s.stm + Originals(t, OwedStm(t))
         && OwedStm(t) == OwedStm(s) + [ref] && OriginalOf(t, ref) == full
  {
    var a := Next(s, AppendClipped(ref, clipped, full));
    AppendClippedKeepsInv(s, ref, clipped, full);
    AppendKeepsInv(s, ref, clipped, full);
    assert OwedStm(a) == OwedStm(s) + [ref];
    SteerKeepsInv(a, text);
  }
}
