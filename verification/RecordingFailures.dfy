/**
 Recordings that fail half way: what short-term memory then holds, over any run. A recording writes the owed
 messages one by one and moves the watermark only at its end, so what a failed one wrote is written again.
 */
module RecordingFailures {
  import opened Messages
  import opened Recording
  import opened RecordingLaws
  import opened Sequences

  datatype Event =
    | Does(step: Step)
    | Fails(k: nat)  // a recording raises after it wrote the first `k` owed messages

  /** The session, and everything that was ever written to short-term memory. */
  datatype Memory = Memory(session: State, written: seq<Fate>)

  predicate Allowed(m: Memory, e: Event)
  {
    match e
    case Does(step) => Enabled(m.session, step)
    case Fails(k) => Enabled(m.session, RecordStm) && k <= |OwedStm(m.session)|
  }

  function After(m: Memory, e: Event): Memory
    requires Allowed(m, e)
  {
    match e
    case Does(step) =>
      Memory(Next(m.session, step),
             m.written + if step.RecordStm? then Originals(m.session, OwedStm(m.session)) else [])
    case Fails(k) => m.(written := m.written + Originals(m.session, OwedStm(m.session))[..k])
  }

  ghost predicate ValidEvents(m: Memory, events: seq<Event>)
    decreases |events|
  {
    events != [] ==> Allowed(m, events[0]) && ValidEvents(After(m, events[0]), events[1..])
  }

  ghost function AfterAll(m: Memory, events: seq<Event>): Memory
    requires ValidEvents(m, events)
    decreases |events|
  {
    if events == [] then m else AfterAll(After(m, events[0]), events[1..])
  }

  /** The steps of the session: a failed recording is none. */
  function Done(events: seq<Event>): seq<Step>
  {
    if events == [] then [] else (if events[0].Does? then [events[0].step] else []) + Done(events[1..])
  }

  /** How often a message was written. */
  function Copies(fates: seq<Fate>, r: Ref): nat
  {
    if fates == [] then 0
    else
      var last := fates[|fates| - 1];
      Copies(fates[..|fates| - 1], r) + if last.Recorded? && last.ref == r then 1 else 0
  }

  /** The failed recordings that had written the message before they failed. */
  ghost function Reached(m: Memory, events: seq<Event>, r: Ref): nat
    requires ValidEvents(m, events)
    decreases |events|
  {
    if events == [] then 0
    else
      (if events[0].Fails? && r in OwedStm(m.session)[..events[0].k] then 1 else 0)
        + Reached(After(m, events[0]), events[1..], r)
  }

  lemma {:induction false} CopiesJoin(a: seq<Fate>, b: seq<Fate>, r: Ref)
    ensures Copies(a + b, r) == Copies(a, r) + Copies(b, r)
    decreases |b|
  {
    if b == [] {
      NothingAdded(a);
    } else {
      var init := b[..|b| - 1];
      assert (a + b)[..|a + b| - 1] == a + init;
      CopiesJoin(a, init, r);
    }
  }

  lemma {:induction false} NoCopiesOfTheLost(refs: seq<Ref>, r: Ref)
    ensures Copies(Losses(refs), r) == 0
    decreases |refs|
  {
    if refs != [] {
      assert Losses(refs)[..|refs| - 1] == Losses(refs[..|refs| - 1]);
      NoCopiesOfTheLost(refs[..|refs| - 1], r);
    }
  }

  /** In a list without repetitions a message is written once, if it is there. */
  lemma {:induction false} OneCopyEach(fates: seq<Fate>, r: Ref)
    requires Distinct(Refs(fates))
    ensures Copies(fates, r) == if exists f :: f in fates && f.Recorded? && f.ref == r then 1 else 0
    decreases |fates|
  {
    if fates != [] {
      var n := |fates| - 1;
      var init, last := fates[..n], fates[n];
      assert Refs(init) == Refs(fates)[..n];
      OneCopyEach(init, r);
      assert forall f | f in fates :: f in init || f == last;
      if f :| f in init && f.Recorded? && f.ref == r {
        var i :| 0 <= i < n && init[i] == f;
        assert Refs(fates)[i] == r;
        assert Refs(fates)[i] != Refs(fates)[n] == last.ref;
        assert f in fates;
      }
    }
  }

  lemma OwedIsDistinct(s: State)
    requires Inv(s)
    ensures Distinct(OwedStm(s))
  {
    assert forall i | 0 <= i < |OwedStm(s)| :: s.dueStm[|s.stm| + i] == OwedStm(s)[i];
  }

  lemma FrontCopies(s: State, k: nat, r: Ref)
    requires Inv(s) && k <= |OwedStm(s)| && Enabled(s, RecordStm)
    ensures Copies(Originals(s, OwedStm(s))[..k], r) == if r in OwedStm(s)[..k] then 1 else 0
  {
    var owed := OwedStm(s);
    var front := Originals(s, owed)[..k];
    OwedIsDistinct(s);
    assert Refs(front) == owed[..k];
    OneCopyEach(front, r);
    if r in owed[..k] {
      var i :| 0 <= i < k && owed[i] == r;
      assert front[i].Recorded? && front[i].ref == r && front[i] in front;
    }
    if f :| f in front && f.Recorded? && f.ref == r {
      var i :| 0 <= i < k && front[i] == f;
      assert owed[..k][i] == r;
    }
  }

  /** A step writes to memory what it books as recorded. */
  lemma StepCopies(s: State, step: Step, r: Ref)
    requires Enabled(s, step)
    ensures Copies(Next(s, step).stm, r) ==
      Copies(s.stm, r) + if step.RecordStm? then Copies(Originals(s, OwedStm(s)), r) else 0
  {
    match step
    case Compact(after, made) => CompactCopies(s.(store := s.store + made), after, r);
    case RecordStm => CopiesJoin(s.stm, Originals(s, OwedStm(s)), r);
    case _ =>
  }

  lemma CompactCopies(s: State, after: seq<Ref>, r: Ref)
    ensures Copies(Reconcile(s, after).stm, r) == Copies(s.stm, r)
  {
    if !(KeptSuffix(s.messages, after) == |s.messages| == |after|) {
      FatesGrow(s, after, Stm);
      var gone := Move(s.messages, after, QueueOf(s, Stm), UptoOf(s, Stm)).gone;
      CopiesJoin(s.stm, Losses(gone), r);
      NoCopiesOfTheLost(gone, r);
    }
  }

  lemma EventCopies(m: Memory, e: Event, r: Ref)
    requires Inv(m.session) && Allowed(m, e)
    ensures Inv(After(m, e).session)
    ensures Copies(After(m, e).written, r) - Copies(After(m, e).session.stm, r) ==
      Copies(m.written, r) - Copies(m.session.stm, r)
      + if e.Fails? && r in OwedStm(m.session)[..e.k] then 1 else 0
  {
    match e
    case Does(step) =>
      StepKeepsInv(m.session, step);
      StepCopies(m.session, step, r);
      if step.RecordStm? {
        CopiesJoin(m.written, Originals(m.session, OwedStm(m.session)), r);
      } else {
        NothingAdded(m.written);
      }
    case Fails(k) =>
      CopiesJoin(m.written, Originals(m.session, OwedStm(m.session))[..k], r);
      FrontCopies(m.session, k, r);
  }

  lemma {:induction false} EventsCopies(m: Memory, events: seq<Event>, r: Ref)
    requires Inv(m.session) && ValidEvents(m, events)
    ensures Inv(AfterAll(m, events).session)
    ensures Copies(AfterAll(m, events).written, r) - Copies(AfterAll(m, events).session.stm, r) ==
      Copies(m.written, r) - Copies(m.session.stm, r) + Reached(m, events, r)
    decreases |events|
  {
    if events != [] {
      EventCopies(m, events[0], r);
      EventsCopies(After(m, events[0]), events[1..], r);
    }
  }

  /** Failures leave no trace in the session. */
  lemma {:induction false} FailuresLeaveTheSession(m: Memory, events: seq<Event>)
    requires ValidEvents(m, events)
    ensures ValidRun(m.session, Done(events))
    ensures AfterAll(m, events).session == Run(m.session, Done(events))
    decreases |events|
  {
    if events != [] {
      FailuresLeaveTheSession(After(m, events[0]), events[1..]);
      if events[0].Does? {
        assert Done(events)[1..] == Done(events[1..]);
      } else {
        assert Done(events) == Done(events[1..]);
      }
    }
  }

  /** The recorder's books say the message was recorded. */
  predicate IsRecorded(s: State, r: Ref)
  {
    exists f :: f in s.stm && f.Recorded? && f.ref == r
  }

  /**
   Over any run with recordings that fail half way: the session is the one without the failures, so exactly
   once by its own books; and a message stands in memory once for the recording that is booked, plus once for
   every failed recording that had written it.
   */
  lemma MemoryHoldsTheFailedOnesToo(store: map<Ref, Message>, messages: seq<Ref>, recorded: nat,
      archived: Option<nat>, windowLen: nat, events: seq<Event>, r: Ref)
    requires (forall r | r in messages :: r in store) && Distinct(messages)
    requires recorded <= |messages| && (if archived.Some? then archived.value else windowLen) <= |messages|
    requires ValidEvents(Memory(Begin(store, messages, recorded, archived, windowLen), []), events)
    ensures
      var m := Memory(Begin(store, messages, recorded, archived, windowLen), []);
      var end := AfterAll(m, events);
      && ValidRun(m.session, Done(events)) && end.session == Run(m.session, Done(events))
      && Copies(end.written, r) == (if IsRecorded(end.session, r) then 1 else 0) + Reached(m, events, r)
      && (IsRecorded(end.session, r) ==> (Copies(end.written, r) > 1 <==> Reached(m, events, r) > 0))
  {
    var m := Memory(Begin(store, messages, recorded, archived, windowLen), []);
    BeginHasInv(store, messages, recorded, archived, windowLen);
    FailuresLeaveTheSession(m, events);
    EventsCopies(m, events, r);
    var end := AfterAll(m, events).session;
    BookedIsDistinct(end);
    OneCopyEach(end.stm, r);
  }

  lemma BookedIsDistinct(s: State)
    requires Inv(s)
    ensures Distinct(Refs(s.stm))
  {
    assert forall i | 0 <= i < |s.stm| :: s.dueStm[i] == Refs(s.stm)[i];
  }

  /** One message, a recording that fails after writing it, and the recording that follows: it is there twice. */
  lemma HalfWayRecordingIsRepeated(said: Message)
    ensures
      var m := Memory(Begin(map[0 := said], [0], 0, Some(1), 0), []);
      var events := [Fails(1), Does(RecordStm)];
      ValidEvents(m, events) && AfterAll(m, events).written == [Recorded(0, said), Recorded(0, said)]
  {
    var m := Memory(Begin(map[0 := said], [0], 0, Some(1), 0), []);
    assert OwedStm(m.session) == [0];
    var a := After(m, Fails(1));
    var b := After(a, Does(RecordStm));
    assert Originals(m.session, [0]) == [Recorded(0, said)];
    assert a.written == [Recorded(0, said)] && b.written == [Recorded(0, said), Recorded(0, said)];
    var events := [Fails(1), Does(RecordStm)];
    assert events[1..] == [Does(RecordStm)] && [Does(RecordStm)][1..] == [];
    assert ValidEvents(b, []) && ValidEvents(a, [Does(RecordStm)]);
  }
}
