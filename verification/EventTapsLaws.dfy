/** Every tap sees the stream from its cursor on, with no gap and no duplicate, over every interleaving. */
module EventTapsLaws {
  import opened Messages
  import opened EventTaps

  ghost predicate Numbered(log: seq<Event>)
  {
    forall i | 0 <= i < |log| :: log[i].seqNo == i + 1
  }

  /** The journal holds the newest events, as many as fit. */
  ghost predicate JournalInv(f: Feed)
  {
    && f.size >= 1 && f.seqNo == |f.log| && Numbered(f.log)
    && |f.journal| == (if |f.log| <= f.size then |f.log| else f.size)
    && f.journal == f.log[|f.log| - |f.journal|..]
  }

  function Slice(log: seq<Event>, a: nat, b: nat): seq<Event>
  {
    if a < b <= |log| then log[a..b] else []
  }

  // ---- Where a tap stands, counted in events of the log ----

  /** Its queue ends here: at the sentinel, or with the newest event. */
  function QueueEnd(t: Tap, count: nat): nat { if t.closing then t.closedAt else count }

  function QueueStart(t: Tap, count: nat): int { QueueEnd(t, count) - |t.queue| }

  /** Everything before this was looked at. */
  function Position(t: Tap, count: nat): int
  {
    if t.replay != [] then t.snapAt - |t.replay| else Max(t.snapAt, QueueStart(t, count))
  }

  ghost predicate Queued(t: Tap, log: seq<Event>)
  {
    && QueueEnd(t, |log|) <= |log| && 0 <= QueueStart(t, |log|)
    && t.queue == log[QueueStart(t, |log|)..QueueEnd(t, |log|)]
  }

  ghost predicate Waiting(t: Tap, log: seq<Event>)
  {
    && Queued(t, log) && t.replay == [] && t.out == [] && t.lastSeq == t.cursor
    && t.from == QueueStart(t, |log|)
  }

  ghost predicate Following(t: Tap, log: seq<Event>)
  {
    var at, start := Position(t, |log|), QueueStart(t, |log|);
    && Queued(t, log)
    && |t.replay| <= t.snapAt <= |log| && t.replay == log[t.snapAt - |t.replay|..t.snapAt]
    && (t.replay != [] ==> start <= t.snapAt)
    && t.cursor <= t.from && (at < t.from ==> t.cursor == t.from)
    && (t.from >= t.snapAt > start ==> t.cursor == t.from)
    && t.out == Slice(log, t.from, at)
    && t.lastSeq == if at <= t.from then t.cursor else at
  }

  /** What a tap has yielded is one stretch of the log, from its first event on. */
  ghost predicate Contiguous(t: Tap, log: seq<Event>)
  {
    t.out == Slice(log, t.from, t.from + |t.out|)
  }

  ghost predicate TapInv(t: Tap, log: seq<Event>)
  {
    && Contiguous(t, log)
    && (t.attached ==> if t.snapped then Following(t, log) else Waiting(t, log))
  }

  ghost predicate Inv(f: Feed)
  {
    JournalInv(f) && TapsInv(f.taps, f.log)
  }

  ghost predicate TapsInv(taps: seq<Tap>, log: seq<Event>)
  {
    forall i | 0 <= i < |taps| :: TapInv(taps[i], log)
  }

  /** As far as this tap can ever see: its queue's end, or what the snapshot showed. */
  function Reach(t: Tap, count: nat): nat { Max(QueueEnd(t, count), t.snapAt) }

  // ---- One step ----

  lemma DropThenAppend<T>(xs: seq<T>, x: T, k: nat)
    requires k <= |xs|
    ensures xs[k..] + [x] == (xs + [x])[k..]
    ensures (xs[k..] + [x])[1..] == (xs + [x])[k + 1..]
  {
  }

  lemma RecordKeepsJournal(f: Feed, payload: int)
    requires JournalInv(f)
    ensures JournalInv(Next(f, Record(payload)))
  {
    var e := Event(f.seqNo + 1, payload);
    DropThenAppend(f.log, e, |f.log| - |f.journal|);
    forall i | 0 <= i < |f.log + [e]| ensures (f.log + [e])[i].seqNo == i + 1 {
      assert i < |f.log| ==> (f.log + [e])[i] == f.log[i];
    }
  }

  lemma SliceGrows(log: seq<Event>, e: Event, a: nat, b: nat)
    requires b <= |log|
    ensures Slice(log + [e], a, b) == Slice(log, a, b)
  {
  }

  lemma PrefixSlice<T>(xs: seq<T>, x: T, a: nat, b: nat)
    requires a <= b <= |xs|
    ensures (xs + [x])[a..b] == xs[a..b]
  {
  }

  lemma SuffixSlice<T>(xs: seq<T>, x: T, a: nat)
    requires a <= |xs|
    ensures (xs + [x])[a..|xs| + 1] == xs[a..] + [x]
  {
  }

  lemma ContiguousGrows(t: Tap, log: seq<Event>, e: Event)
    requires Contiguous(t, log)
    ensures Contiguous(Put(t, e), log + [e])
  {
    if t.out != [] {
      SliceGrows(log, e, t.from, t.from + |t.out|);
    }
  }

  lemma PutKeepsTap(t: Tap, log: seq<Event>, e: Event)
    requires TapInv(t, log)
    ensures TapInv(Put(t, e), log + [e])
  {
    var u, more := Put(t, e), log + [e];
    ContiguousGrows(t, log, e);
    if t.attached {
      if !t.closing {
        SuffixSlice(log, e, QueueStart(t, |log|));
      } else {
        PrefixSlice(log, e, QueueStart(t, |log|), t.closedAt);
      }
      assert QueueStart(u, |more|) == QueueStart(t, |log|) && Queued(u, more);
      assert Position(u, |more|) == Position(t, |log|);
      if t.snapped {
        PrefixSlice(log, e, t.snapAt - |t.replay|, t.snapAt);
        SliceGrows(log, e, t.from, Position(t, |log|));
      }
    }
  }

  lemma ReplayStarts(t: Tap, u: Tap, f: Feed)
    requires JournalInv(f) && Waiting(t, f.log) && t.cursor >= 0 && u == Snapped(t, f)
    ensures Following(u, f.log)
  {
    var n := |f.log|;
    assert QueueStart(u, n) == QueueStart(t, n) <= n && Queued(u, f.log);
    assert Position(u, n) == n - |f.journal| <= u.from;
  }

  lemma LiveStarts(t: Tap, u: Tap, f: Feed)
    requires JournalInv(f) && Waiting(t, f.log) && t.cursor < 0 && u == Snapped(t, f)
    ensures Following(u, f.log)
  {
    var n := |f.log|;
    assert QueueStart(u, n) == QueueStart(t, n) == u.from && Queued(u, f.log);
    assert Position(u, n) == u.from;
  }

  lemma SnapshotKeepsTap(t: Tap, f: Feed)
    requires JournalInv(f) && TapInv(t, f.log) && t.attached && !t.snapped
    ensures TapInv(Snapped(t, f), f.log)
  {
    if t.cursor >= 0 {
      ReplayStarts(t, Snapped(t, f), f);
    } else {
      LiveStarts(t, Snapped(t, f), f);
    }
  }

  lemma {:induction false} ReadOnSlice(log: seq<Event>, a: nat, b: nat, lastSeq: int)
    requires Numbered(log) && a <= b <= |log|
    ensures
      var j := Max(a, lastSeq);
      ReadOn(log[a..b], lastSeq) == if j < b then (log[j + 1..b], Some(log[j])) else ([], None)
    decreases b - a
  {
    if a < b {
      assert log[a..b][1..] == log[a + 1..b];
      if log[a].seqNo <= lastSeq {
        ReadOnSlice(log, a + 1, b, lastSeq);
      }
    }
  }

  /** The next event to yield is the first one not looked at, or the first of all if the tap is not there yet. */
  lemma PullFromReplay(t: Tap, log: seq<Event>)
    requires Numbered(log) && Following(t, log) && t.replay != []
    ensures
      var j := Max(Position(t, |log|), t.from);
      ReadOn(t.replay, t.lastSeq) == if j < t.snapAt then (log[j + 1..t.snapAt], Some(log[j])) else ([], None)
  {
    ReadOnSlice(log, t.snapAt - |t.replay|, t.snapAt, t.lastSeq);
  }

  lemma PullFromQueue(t: Tap, log: seq<Event>)
    requires Numbered(log) && Following(t, log) && t.replay == []
    ensures
      var j, end := Max(Position(t, |log|), t.from), QueueEnd(t, |log|);
      ReadOn(t.queue, t.lastSeq) == if j < end then (log[j + 1..end], Some(log[j])) else ([], None)
  {
    ReadOnSlice(log, QueueStart(t, |log|), QueueEnd(t, |log|), t.lastSeq);
  }

  lemma SliceExtends(log: seq<Event>, from: nat, at: int, j: nat)
    requires at <= j < |log| && j == Max(at, from)
    ensures (if at <= from then [] else Slice(log, from, at)) + [log[j]] == Slice(log, from, j + 1)
    ensures |Slice(log, from, j + 1)| == j + 1 - from
  {
  }

  lemma YieldKeepsFollowing(t: Tap, u: Tap, log: seq<Event>, j: nat)
    requires Numbered(log) && Following(t, log) && j == Max(Position(t, |log|), t.from) && j < |log|
    requires u == t.(replay := u.replay, queue := u.queue, lastSeq := log[j].seqNo, out := t.out + [log[j]])
    requires Queued(u, log) && Position(u, |log|) == j + 1
    requires |u.replay| <= u.snapAt && u.replay == log[u.snapAt - |u.replay|..u.snapAt]
    requires u.replay != [] ==> QueueStart(u, |log|) <= u.snapAt
    requires QueueStart(u, |log|) == QueueStart(t, |log|) || QueueStart(u, |log|) >= u.snapAt
    ensures Following(u, log) && Contiguous(u, log)
  {
    SliceExtends(log, t.from, Position(t, |log|), j);
    assert u.out == Slice(log, u.from, Position(u, |log|));
  }

  /** A replay that holds nothing new leaves the tap where it is: its cursor lies past the snapshot. */
  lemma ReplaySkipped(t: Tap, log: seq<Event>)
    requires Numbered(log) && Following(t, log) && t.replay != [] && ReadOn(t.replay, t.lastSeq).1.None?
    ensures Following(t.(replay := []), log)
  {
    PullFromReplay(t, log);
  }

  lemma PullReplayStep(t: Tap, log: seq<Event>)
    requires Numbered(log) && Following(t, log) && t.attached && t.snapped && t.replay != []
    requires ReadOn(t.replay, t.lastSeq).1.Some?
    ensures TapInv(Pulled(t).0, log)
  {
    PullFromReplay(t, log);
    YieldKeepsFollowing(t, Pulled(t).0, log, Max(Position(t, |log|), t.from));
  }

  lemma PullQueueYields(t: Tap, log: seq<Event>)
    requires Numbered(log) && Following(t, log) && t.attached && t.snapped && t.replay == []
    requires ReadOn(t.queue, t.lastSeq).1.Some?
    ensures TapInv(Pulled(t).0, log)
  {
    PullFromQueue(t, log);
    var j, u := Max(Position(t, |log|), t.from), Pulled(t).0;
    assert QueueStart(u, |log|) == j + 1;
    YieldKeepsFollowing(t, u, log, j);
  }

  lemma PullQueueWaits(t: Tap, log: seq<Event>)
    requires Numbered(log) && Following(t, log) && t.attached && t.snapped && t.replay == []
    requires ReadOn(t.queue, t.lastSeq).1.None?
    ensures Following(t.(queue := []), log)
    ensures t.out == Slice(log, t.from, Reach(t, |log|))
  {
    PullFromQueue(t, log);
  }

  lemma PullQueueStep(t: Tap, log: seq<Event>)
    requires Numbered(log) && Following(t, log) && t.attached && t.snapped && t.replay == []
    requires Contiguous(t, log)
    ensures TapInv(Pulled(t).0, log)
    ensures Pulled(t).1.None? ==> t.out == Slice(log, t.from, Reach(t, |log|))
  {
    if ReadOn(t.queue, t.lastSeq).1.Some? {
      PullQueueYields(t, log);
    } else {
      PullQueueWaits(t, log);
    }
  }

  /** A pull keeps the tap in order; when it finds nothing, everything so far was yielded. */
  lemma PullKeepsTap(t: Tap, log: seq<Event>)
    requires Numbered(log) && TapInv(t, log)
    ensures TapInv(Pulled(t).0, log)
    ensures t.attached && t.snapped && Pulled(t).1.None? ==> t.out == Slice(log, t.from, Reach(t, |log|))
  {
    if t.attached && t.snapped {
      if t.replay == [] {
        PullQueueStep(t, log);
      } else if ReadOn(t.replay, t.lastSeq).1.Some? {
        PullReplayStep(t, log);
      } else {
        ReplaySkipped(t, log);
        PullQueueStep(t.(replay := []), log);
      }
    }
  }

  lemma RecordKeepsInv(f: Feed, payload: int)
    requires Inv(f)
    ensures Inv(Next(f, Record(payload)))
  {
    RecordKeepsJournal(f, payload);
    PutAllKeepsTaps(f.taps, f.log, Event(f.seqNo + 1, payload));
  }

  lemma PutAllKeepsTaps(taps: seq<Tap>, log: seq<Event>, e: Event)
    requires TapsInv(taps, log)
    ensures TapsInv(PutAll(taps, e), log + [e])
  {
    var more := PutAll(taps, e);
    forall i | 0 <= i < |more| ensures TapInv(more[i], log + [e]) {
      PutKeepsTap(taps[i], log, e);
    }
  }

  lemma SentinelKeepsTap(t: Tap, log: seq<Event>)
    requires TapInv(t, log)
    ensures TapInv(Sentinel(t, |log|), log)
  {
  }

  lemma CloseKeepsInv(f: Feed)
    requires Inv(f)
    ensures Inv(Next(f, Close))
  {
    var taps := SentinelAll(f.taps, f.seqNo);
    forall i | 0 <= i < |taps| ensures TapInv(taps[i], f.log) {
      SentinelKeepsTap(f.taps[i], f.log);
    }
  }

  lemma TapStepKeepsInv(f: Feed, i: nat, t: Tap)
    requires Inv(f) && i < |f.taps| && TapInv(t, f.log)
    ensures Inv(f.(taps := f.taps[i := t]))
  {
  }

  lemma OpenKeepsInv(f: Feed, cursor: int)
    requires Inv(f)
    ensures Inv(Next(f, Open(cursor)))
  {
    assert TapInv(Opened(f, cursor), f.log);
  }

  lemma StepKeepsInv(f: Feed, step: Step)
    requires Inv(f) && Enabled(f, step)
    ensures Inv(Next(f, step))
  {
    match step
    case Record(payload) => RecordKeepsInv(f, payload);
    case Open(cursor) => OpenKeepsInv(f, cursor);
    case Snapshot(i) =>
      SnapshotKeepsTap(f.taps[i], f);
      TapStepKeepsInv(f, i, Snapped(f.taps[i], f));
    case Pull(i) =>
      PullKeepsTap(f.taps[i], f.log);
      TapStepKeepsInv(f, i, Pulled(f.taps[i]).0);
    case Detach(i) => TapStepKeepsInv(f, i, f.taps[i].(attached := false));
    case Close => CloseKeepsInv(f);
  }

  lemma {:induction false} RunKeepsInv(f: Feed, steps: seq<Step>)
    requires Inv(f) && ValidRun(f, steps)
    ensures Inv(Run(f, steps))
    decreases |steps|
  {
    if steps != [] {
      StepKeepsInv(f, steps[0]);
      RunKeepsInv(Next(f, steps[0]), steps[1..]);
    }
  }

  // ---- Main results ----

  /**
   What a tap has yielded is a gapless stretch of the log right behind `from`, with contiguous numbers;
   and when it finds nothing more it has yielded every event up to now, or up to the teardown.
   */
  ghost predicate YieldsTheStream(f: Feed, t: Tap)
  {
    && Numbered(f.log)
    && t.out == Slice(f.log, t.from, t.from + |t.out|)
    && (forall j | 0 <= j < |t.out| :: t.out[j].seqNo == t.from + j + 1)
    && (t.attached && t.snapped && Pulled(t).1.None? ==> t.out == Slice(f.log, t.from, Reach(t, |f.log|)))
  }

  /** Over any interleaving of events, taps, pulls, detaches and teardown, every tap yields the stream. */
  lemma TapsYieldTheStream(size: nat, steps: seq<Step>)
    requires size >= 1 && ValidRun(Fresh(size), steps)
    ensures
      var f := Run(Fresh(size), steps);
      forall t | t in f.taps :: YieldsTheStream(f, t)
  {
    RunKeepsInv(Fresh(size), steps);
    var f := Run(Fresh(size), steps);
    forall t | t in f.taps ensures YieldsTheStream(f, t) {
      TapIsInOrder(f, t);
    }
  }

  lemma TapIsInOrder(f: Feed, t: Tap)
    requires Inv(f) && t in f.taps
    ensures YieldsTheStream(f, t)
  {
    PullKeepsTap(t, f.log);
    ContiguousNumbers(t, f.log);
  }

  lemma ContiguousNumbers(t: Tap, log: seq<Event>)
    requires Numbered(log) && Contiguous(t, log)
    ensures forall j | 0 <= j < |t.out| :: t.out[j].seqNo == t.from + j + 1
  {
    forall j | 0 <= j < |t.out| ensures t.out[j].seqNo == t.from + j + 1 {
      assert t.out[j] == log[t.from + j];
    }
  }

  /**
   Where a tap starts: a cursor of 0 or more starts at the oldest event past it that the journal still
   holds when the snapshot is taken; a negative cursor starts behind the events there were on opening.
   */
  lemma TapsStartAtTheirCursor(size: nat, steps: seq<Step>, i: nat)
    requires size >= 1 && ValidRun(Fresh(size), steps) && Enabled(Run(Fresh(size), steps), Snapshot(i))
    ensures
      var f := Run(Fresh(size), steps);
      var t, u := f.taps[i], Next(f, Snapshot(i)).taps[i];
      && u.attached && u.snapped && u.out == []
      && (t.cursor >= 0 ==>
            && (forall e | e in f.journal && e.seqNo > t.cursor :: e.seqNo > u.from)
            && (u.from < |f.log| ==> f.log[u.from] in f.journal && f.log[u.from].seqNo > t.cursor)
            && (u.from >= |f.log| ==> u.from == t.cursor || f.log == []))
      && (t.cursor < 0 ==> u.from == t.from && t.from + |t.queue| == QueueEnd(t, |f.log|))
  {
    var f := Run(Fresh(size), steps);
    RunKeepsInv(Fresh(size), steps);
    var t, u := f.taps[i], Next(f, Snapshot(i)).taps[i];
    assert TapInv(t, f.log);
    if t.cursor >= 0 {
      var oldest := |f.log| - |f.journal|;
      forall e | e in f.journal && e.seqNo > t.cursor ensures e.seqNo > u.from {
        var j :| 0 <= j < |f.journal| && f.journal[j] == e;
        assert e == f.log[oldest + j];
      }
      if u.from < |f.log| {
        assert f.journal[u.from - oldest] == f.log[u.from];
      }
    }
  }

  // ---- Taps that only follow ----

  lemma LiveStartStays(f: Feed, step: Step, i: nat)
    requires Enabled(f, step) && i < |f.taps| && f.taps[i].cursor < 0
    ensures i < |Next(f, step).taps|
    ensures Next(f, step).taps[i].cursor == f.taps[i].cursor && Next(f, step).taps[i].from == f.taps[i].from
    ensures f.log <= Next(f, step).log
  {
  }

  lemma {:induction false} LiveStartStaysThroughout(f: Feed, steps: seq<Step>, i: nat)
    requires ValidRun(f, steps) && i < |f.taps| && f.taps[i].cursor < 0
    ensures i < |Run(f, steps).taps| && Run(f, steps).taps[i].from == f.taps[i].from
    ensures f.log <= Run(f, steps).log
    decreases |steps|
  {
    if steps != [] {
      LiveStartStays(f, steps[0], i);
      LiveStartStaysThroughout(Next(f, steps[0]), steps[1..], i);
    }
  }

  /**
   A tap opened with a negative cursor yields what is recorded from then on and nothing before, whatever
   happens between its opening, its snapshot and its pulls.
   */
  lemma LiveTapsStartAtTheirOpening(size: nat, before: seq<Step>, cursor: int, after: seq<Step>)
    requires size >= 1 && cursor < 0 && ValidRun(Fresh(size), before) && !Run(Fresh(size), before).closed
    requires ValidRun(Next(Run(Fresh(size), before), Open(cursor)), after)
    ensures
      var f := Run(Fresh(size), before);
      var g := Run(Next(f, Open(cursor)), after);
      && |f.taps| < |g.taps| && f.log <= g.log
      && g.taps[|f.taps|].out == Slice(g.log, |f.log|, |f.log| + |g.taps[|f.taps|].out|)
  {
    var f := Run(Fresh(size), before);
    RunKeepsInv(Fresh(size), before);
    StepKeepsInv(f, Open(cursor));
    RunKeepsInv(Next(f, Open(cursor)), after);
    LiveStartStaysThroughout(Next(f, Open(cursor)), after, |f.taps|);
    assert TapInv(Run(Next(f, Open(cursor)), after).taps[|f.taps|], Run(Next(f, Open(cursor)), after).log);
  }

  /** Once set, the start never moves, whatever happens to the tap and around it. */
  lemma StartStays(f: Feed, step: Step, i: nat)
    requires Enabled(f, step) && i < |f.taps| && f.taps[i].snapped
    ensures i < |Next(f, step).taps| && Next(f, step).taps[i].snapped
    ensures Next(f, step).taps[i].from == f.taps[i].from
  {
  }

  /** A tap yields when it is pulled, what the pull returns, and at no other time; a closed generator never again. */
  lemma YieldsWhenPulled(f: Feed, step: Step, i: nat)
    requires Enabled(f, step) && i < |f.taps|
    ensures i < |Next(f, step).taps|
    ensures
      var e := Pulled(f.taps[i]).1;
      Next(f, step).taps[i].out == f.taps[i].out + (if step == Pull(i) && e.Some? then [e.value] else [])
    ensures !f.taps[i].attached || step == Detach(i) ==>
      !Next(f, step).taps[i].attached && Next(f, step).taps[i].out == f.taps[i].out
  {
  }

  /** What one consumer does is nothing to the stream or to any other tap. */
  lemma ConsumersAreIndependent(f: Feed, step: Step, i: nat, j: nat)
    requires Enabled(f, step) && (step == Snapshot(i) || step == Pull(i) || step == Detach(i)) && j != i
    ensures
      var g := Next(f, step);
      && |g.taps| == |f.taps| && (j < |f.taps| ==> g.taps[j] == f.taps[j])
      && (g.log, g.journal, g.seqNo, g.closed) == (f.log, f.journal, f.seqNo, f.closed)
  {
  }

  lemma OneMore(f: Feed, step: Step, rest: seq<Step>)
    requires Enabled(f, step) && ValidRun(Next(f, step), rest)
    ensures ValidRun(f, [step] + rest) && Run(f, [step] + rest) == Run(Next(f, step), rest)
  {
    assert ([step] + rest)[1..] == rest;
  }

  /** A tap on a new stream, one event, and the tap has it. */
  lemma OneTapSeesOneEvent(size: nat, payload: int)
    ensures
      var steps := [Open(-1), Snapshot(0), Record(payload), Pull(0)];
      && ValidRun(Fresh(size), steps)
      && |Run(Fresh(size), steps).taps| == 1 && Run(Fresh(size), steps).taps[0].attached
      && Run(Fresh(size), steps).taps[0].out == [Event(1, payload)]
  {
    var f0 := Fresh(size);
    var f1 := Next(f0, Open(-1));
    var f2 := Next(f1, Snapshot(0));
    var f3 := Next(f2, Record(payload));
    assert f3.taps[0].queue == [Event(1, payload)];
    OneMore(f3, Pull(0), []);
    OneMore(f2, Record(payload), [Pull(0)]);
    OneMore(f1, Snapshot(0), [Record(payload)] + [Pull(0)]);
    OneMore(f0, Open(-1), [Snapshot(0)] + ([Record(payload)] + [Pull(0)]));
    assert [Open(-1), Snapshot(0), Record(payload), Pull(0)]
        == [Open(-1)] + ([Snapshot(0)] + ([Record(payload)] + [Pull(0)]));
  }

  // ---- Teardown ----

  /** A live tap has a close sentinel ahead of it if and only if the pipeline is closed. */
  ghost predicate SentinelsInPlace(f: Feed)
  {
    forall t | t in f.taps && t.attached :: t.closing <==> f.closed
  }

  lemma StepKeepsSentinels(f: Feed, step: Step)
    requires Enabled(f, step) && SentinelsInPlace(f)
    ensures SentinelsInPlace(Next(f, step))
  {
    var g := Next(f, step);
    forall t | t in g.taps && t.attached ensures t.closing <==> g.closed {
      var i :| 0 <= i < |g.taps| && g.taps[i] == t;
      if i < |f.taps| {
        assert f.taps[i] in f.taps;
      }
    }
  }

  lemma {:induction false} RunKeepsSentinels(f: Feed, steps: seq<Step>)
    requires ValidRun(f, steps) && SentinelsInPlace(f)
    ensures SentinelsInPlace(Run(f, steps))
    decreases |steps|
  {
    if steps != [] {
      StepKeepsSentinels(f, steps[0]);
      RunKeepsSentinels(Next(f, steps[0]), steps[1..]);
    }
  }

  /** While the pipeline is open a tap that finds nothing waits on; once it is closed such a tap ends. */
  lemma TapsEndExactlyWhenClosed(size: nat, steps: seq<Step>, i: nat)
    requires size >= 1 && ValidRun(Fresh(size), steps) && i < |Run(Fresh(size), steps).taps|
    ensures
      var f := Run(Fresh(size), steps);
      var t := f.taps[i];
      t.attached && t.snapped && Pulled(t).1.None? ==> (Next(f, Pull(i)).taps[i].attached <==> !f.closed)
  {
    RunKeepsSentinels(Fresh(size), steps);
    assert Run(Fresh(size), steps).taps[i] in Run(Fresh(size), steps).taps;
  }

  lemma SentinelStays(f: Feed, step: Step, i: nat)
    requires Enabled(f, step) && i < |f.taps| && f.taps[i].closing
    ensures i < |Next(f, step).taps| && Next(f, step).taps[i].closing
    ensures Next(f, step).taps[i].closedAt == f.taps[i].closedAt && f.log <= Next(f, step).log
  {
  }

  lemma {:induction false} SentinelStaysThroughout(f: Feed, steps: seq<Step>, i: nat)
    requires ValidRun(f, steps) && i < |f.taps| && f.taps[i].closing
    ensures i < |Run(f, steps).taps| && Run(f, steps).taps[i].closing
    ensures Run(f, steps).taps[i].closedAt == f.taps[i].closedAt && f.log <= Run(f, steps).log
    decreases |steps|
  {
    if steps != [] {
      SentinelStays(f, steps[0], i);
      SentinelStaysThroughout(Next(f, steps[0]), steps[1..], i);
    }
  }

  /**
   A tap that is live at the teardown yields everything recorded up to then (and what a later snapshot shows),
   however late it is pulled; when it has, it ends, and nothing recorded afterwards reaches it.
   */
  lemma TeardownLosesNothing(size: nat, before: seq<Step>, i: nat, after: seq<Step>)
    requires size >= 1 && ValidRun(Fresh(size), before) && !Run(Fresh(size), before).closed
    requires i < |Run(Fresh(size), before).taps| && Run(Fresh(size), before).taps[i].attached
    requires ValidRun(Next(Run(Fresh(size), before), Close), after)
    ensures
      var f := Run(Fresh(size), before);
      var g := Run(Next(f, Close), after);
      && i < |g.taps| && f.log <= g.log
      && var t := g.taps[i];
         t.attached && t.snapped && Pulled(t).1.None? ==>
           !Pulled(t).0.attached && t.out == Slice(g.log, t.from, Max(|f.log|, t.snapAt))
  {
    var f := Run(Fresh(size), before);
    RunKeepsInv(Fresh(size), before);
    RunKeepsSentinels(Fresh(size), before);
    assert f.taps[i] in f.taps;
    StepKeepsInv(f, Close);
    RunKeepsInv(Next(f, Close), after);
    SentinelStaysThroughout(Next(f, Close), after, i);
    PullKeepsTap(Run(Next(f, Close), after).taps[i], Run(Next(f, Close), after).log);
  }
}
