/**
 The unified event stream (src/xgen_agent_runtime/core/pipeline.py): one sequence number, a bounded
 journal, and any number of taps that replay and then follow. Each method body is one await-free
 stretch, so a run is any interleaving of them.
 */
module EventTaps {
  import opened Messages

  datatype Event = Event(seqNo: nat, payload: int)

  /**
   One tap. `queue` holds what was put there up to the close sentinel, which is `closing`. The last
   three fields record the run: what was yielded, the number of events before the first one this tap
   is to yield, and how many events there were when it took its snapshot or met the sentinel.
   */
  datatype Tap = Tap(
    cursor: int, lastSeq: int, snapped: bool, replay: seq<Event>, queue: seq<Event>,
    closing: bool, attached: bool,
    out: seq<Event>, from: nat, snapAt: nat, closedAt: nat)

  datatype Feed = Feed(size: nat, seqNo: nat, journal: seq<Event>, taps: seq<Tap>, closed: bool, log: seq<Event>)

  datatype Step =
    | Record(payload: int)
    | Open(cursor: int)
    | Snapshot(i: nat)
    | Pull(i: nat)
    | Detach(i: nat)
    | Close

  function Max(a: int, b: int): int { if a >= b then a else b }

  /** A ring that holds `size` events drops the oldest. */
  function Push(journal: seq<Event>, size: nat, e: Event): seq<Event>
  {
    var all := journal + [e];
    if |all| > size then all[|all| - size..] else all
  }

  function Put(t: Tap, e: Event): Tap
  {
    if t.attached && !t.closing then t.(queue := t.queue + [e]) else t
  }

  function PutAll(taps: seq<Tap>, e: Event): seq<Tap>
  {
    seq(|taps|, i requires 0 <= i < |taps| => Put(taps[i], e))
  }

  function Sentinel(t: Tap, count: nat): Tap
  {
    if t.attached && !t.closing then t.(closing := true, closedAt := count) else t
  }

  function SentinelAll(taps: seq<Tap>, count: nat): seq<Tap>
  {
    seq(|taps|, i requires 0 <= i < |taps| => Sentinel(taps[i], count))
  }

  /** Reads on until an event past the cursor: what is left, and that event. */
  function ReadOn(events: seq<Event>, lastSeq: int): (r: (seq<Event>, Option<Event>))
    ensures |r.0| <= |events|
  {
    if events == [] then ([], None)
    else if events[0].seqNo > lastSeq then (events[1..], Some(events[0]))
    else ReadOn(events[1..], lastSeq)
  }

  function Yield(t: Tap, e: Event): Tap
  {
    t.(lastSeq := e.seqNo, out := t.out + [e])
  }

  /** One request for the next event: the replay first, then the queue, then the sentinel. */
  function Pulled(t: Tap): (Tap, Option<Event>)
  {
    if !t.attached || !t.snapped then (t, None)
    else
      var (replay, e) := ReadOn(t.replay, t.lastSeq);
      if e.Some? then (Yield(t.(replay := replay), e.value), e)
      else
        var (queue, f) := ReadOn(t.queue, t.lastSeq);
        if f.Some? then (Yield(t.(replay := [], queue := queue), f.value), f)
        else (t.(replay := [], queue := [], attached := !t.closing), None)
  }

  /** The journal as it stands, unless the tap is live-only. */
  function Snapped(t: Tap, f: Feed): Tap
  {
    if t.cursor < 0 then t.(snapped := true, snapAt := t.from)
    else
      t.(snapped := true, replay := f.journal, snapAt := f.seqNo,
         from := Max(t.cursor, f.seqNo - |f.journal|))
  }

  predicate Enabled(f: Feed, step: Step)
  {
    match step
    case Snapshot(i) => i < |f.taps| && f.taps[i].attached && !f.taps[i].snapped
    case Pull(i) => i < |f.taps|
    case Detach(i) => i < |f.taps|
    case _ => true
  }

  function Opened(f: Feed, cursor: int): Tap
  {
    Tap(cursor, cursor, false, [], [], false, true, [], f.seqNo, f.seqNo, 0)
  }

  function Next(f: Feed, step: Step): Feed
    requires Enabled(f, step)
  {
    match step
    case Record(payload) =>
      var e := Event(f.seqNo + 1, payload);
      f.(seqNo := f.seqNo + 1, journal := Push(f.journal, f.size, e), taps := PutAll(f.taps, e), log := f.log + [e])
    case Open(cursor) => if f.closed then f else f.(taps := f.taps + [Opened(f, cursor)])
    case Snapshot(i) => f.(taps := f.taps[i := Snapped(f.taps[i], f)])
    case Pull(i) => f.(taps := f.taps[i := Pulled(f.taps[i]).0])
    case Detach(i) => f.(taps := f.taps[i := f.taps[i].(attached := false)])
    case Close => f.(closed := true, taps := SentinelAll(f.taps, f.seqNo))
  }

  ghost predicate ValidRun(f: Feed, steps: seq<Step>)
    decreases |steps|
  {
    steps != [] ==> Enabled(f, steps[0]) && ValidRun(Next(f, steps[0]), steps[1..])
  }

  ghost function Run(f: Feed, steps: seq<Step>): Feed
    requires ValidRun(f, steps)
    decreases |steps|
  {
    if steps == [] then f else Run(Next(f, steps[0]), steps[1..])
  }

  function Fresh(size: nat): Feed { Feed(size, 0, [], [], false, []) }

  // ---- The stream as it runs ----

  class EventStream {
    const size: nat
    var seqNo: nat
    var journal: seq<Event>
    var taps: seq<Tap>
    var closed: bool
    ghost var log: seq<Event>

    ghost function Abs(): Feed
      reads this
    {
      Feed(size, seqNo, journal, taps, closed, log)
    }

    constructor (size: nat)
      requires size >= 1
      ensures Abs() == Fresh(size)
    {
      this.size := size;
      seqNo, journal, taps, closed, log := 0, [], [], false, [];
    }

    /** Stamps the event, journals it, and puts it into every tap's queue. */
    method RecordEvent(payload: int) returns (event: Event)
      modifies this
      ensures Abs() == Next(old(Abs()), Record(payload))
      ensures event == Event(old(seqNo) + 1, payload)
    {
      seqNo := seqNo + 1;
      event := Event(seqNo, payload);
      journal := Push(journal, size, event);
      log := log + [event];
      var i := 0;
      while i < |taps|
        invariant 0 <= i <= |taps| == |old(taps)|
        invariant forall j | 0 <= j < i :: taps[j] == Put(old(taps)[j], event)
        invariant forall j | i <= j < |taps| :: taps[j] == old(taps)[j]
        modifies `taps
      {
        taps := taps[i := Put(taps[i], event)];
        i := i + 1;
      }
      assert taps == PutAll(old(taps), event);
    }

    /** A new tap registers its queue; on a closed pipeline there is nothing to follow. */
    method OpenTap(cursor: int) returns (i: Option<nat>)
      modifies `taps
      ensures Abs() == Next(old(Abs()), Open(cursor))
      ensures i == if old(closed) then None else Some(|old(taps)|)
    {
      if closed {
        return None;
      }
      i := Some(|taps|);
      taps := taps + [Tap(cursor, cursor, false, [], [], false, true, [], seqNo, seqNo, 0)];
    }

    /** The snapshot of the journal, taken after the queue was registered. */
    method SnapshotJournal(i: nat)
      requires Enabled(Abs(), Snapshot(i))
      modifies `taps
      ensures Abs() == Next(old(Abs()), Snapshot(i))
    {
      var t := taps[i];
      if t.cursor >= 0 {
        t := t.(replay := journal, snapAt := seqNo, from := Max(t.cursor, seqNo - |journal|));
      } else {
        t := t.(snapAt := t.from);
      }
      taps := taps[i := t.(snapped := true)];
    }

    /** The generator's two loops, up to the next event it yields or the wait for one. */
    method NextEvent(i: nat) returns (event: Option<Event>)
      requires Enabled(Abs(), Pull(i))
      modifies `taps
      ensures Abs() == Next(old(Abs()), Pull(i))
      ensures event == Pulled(old(taps)[i]).1
    {
      var t := taps[i];
      if !t.attached || !t.snapped {
        assert taps[i := t] == taps;
        return None;
      }
      var replay, queue := t.replay, t.queue;
      while replay != []
        invariant ReadOn(replay, t.lastSeq) == ReadOn(t.replay, t.lastSeq)
        decreases |replay|
      {
        var e := replay[0];
        replay := replay[1..];
        if e.seqNo > t.lastSeq {
          taps := taps[i := Yield(t.(replay := replay), e)];
          return Some(e);
        }
      }
      while queue != []
        invariant ReadOn(queue, t.lastSeq) == ReadOn(t.queue, t.lastSeq)
        decreases |queue|
      {
        var e := queue[0];
        queue := queue[1..];
        if e.seqNo > t.lastSeq {
          taps := taps[i := Yield(t.(replay := [], queue := queue), e)];
          return Some(e);
        }
      }
      taps := taps[i := t.(replay := [], queue := [], attached := !t.closing)];
      event := None;
    }

    /** The consumer closes its generator. */
    method DetachTap(i: nat)
      requires Enabled(Abs(), Detach(i))
      modifies `taps
      ensures Abs() == Next(old(Abs()), Detach(i))
    {
      taps := taps[i := taps[i].(attached := false)];
    }

    /** Teardown puts the close sentinel into every live queue. */
    method CloseStream()
      modifies `taps, `closed
      ensures Abs() == Next(old(Abs()), Close)
    {
      closed := true;
      var i := 0;
      while i < |taps|
        invariant 0 <= i <= |taps| == |old(taps)|
        invariant forall j | 0 <= j < i :: taps[j] == Sentinel(old(taps)[j], seqNo)
        invariant forall j | i <= j < |taps| :: taps[j] == old(taps)[j]
        modifies `taps
      {
        taps := taps[i := Sentinel(taps[i], seqNo)];
        i := i + 1;
      }
      assert taps == SentinelAll(old(taps), seqNo);
    }
  }
}
