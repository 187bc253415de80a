/**
 What memory records of a conversation that is reduced and compacted while it runs: the originals
 ledger (src/xgen_agent_runtime/core/originals.py), the watermarks and the queue of summarized but
 unrecorded messages (src/xgen_agent_runtime/core/compaction.py), and the recorders that read them.
 Messages are objects: a `Ref` is a message's identity, the store holds what it says now.
 */
module Recording {
  import opened Messages

  type Ref = nat

  const CAP := 300

  /** What became of one real message, for one recorder. */
  datatype Fate = Recorded(ref: Ref, content: Message) | Lost(ref: Ref)

  datatype State = State(
    store: map<Ref, Message>,
    messages: seq<Ref>,
    lastRecorded: nat,            // Stage 18's watermark
    strategyRecorded: nat,        // the recording strategy's watermark
    archived: Option<nat>,        // the archive's watermark, absent until first set
    windowLen: nat,
    pendingStm: seq<Ref>,         // summarized away before the recorder saw them
    pendingArchive: seq<Ref>,
    ledger: map<Ref, Message>,    // copies made before a reducer changed a message
    // What happened, for the theorems: each recorder's outcomes, the messages each had to record,
    // and what every message said before any reduction, with the steered words memory can still take up.
    stm: seq<Fate>, archive: seq<Fate>,
    dueStm: seq<Ref>, dueArchive: seq<Ref>,
    birth: map<Ref, Message>)

  // ---- Watermarks ----

  function Max(a: nat, b: nat): nat { if a >= b then a else b }

  function Min(a: nat, b: nat): nat { if a <= b then a else b }

  function StmUpto(s: State): nat { Max(s.lastRecorded, s.strategyRecorded) }

  function ArchiveUpto(s: State): nat { if s.archived.Some? then s.archived.value else s.windowLen }

  function From(refs: seq<Ref>, mark: nat): seq<Ref> { refs[Min(mark, |refs|)..] }

  /** The lists, read from the end, hold the same object at distance `i`. */
  predicate SameFromEnd(before: seq<Ref>, after: seq<Ref>, i: nat)
  {
    i < |before| && i < |after| && before[|before| - 1 - i] == after[|after| - 1 - i]
  }

  /** Counts on from `n` while the lists, read from the end, hold the same objects. */
  function KeptFrom(before: seq<Ref>, after: seq<Ref>, n: nat): (kept: nat)
    requires n <= |before| && n <= |after|
    ensures n <= kept <= |before| && kept <= |after|
    ensures forall i | n <= i < kept :: SameFromEnd(before, after, i)
    ensures !SameFromEnd(before, after, kept)
    decreases |before| - n
  {
    if !SameFromEnd(before, after, n) then n else KeptFrom(before, after, n + 1)
  }

  /** Length of the longest common suffix, by identity. */
  function KeptSuffix(before: seq<Ref>, after: seq<Ref>): (kept: nat)
    ensures kept <= |before| && kept <= |after|
  {
    KeptFrom(before, after, 0)
  }

  lemma KeptSuffixIsCommon(before: seq<Ref>, after: seq<Ref>)
    ensures
      var kept := KeptSuffix(before, after);
      before[|before| - kept..] == after[|after| - kept..] && !SameFromEnd(before, after, kept)
  {
    var kept := KeptSuffix(before, after);
    var xs, ys := before[|before| - kept..], after[|after| - kept..];
    forall j | 0 <= j < kept ensures xs[j] == ys[j] {
      assert SameFromEnd(before, after, kept - 1 - j);
    }
  }

  function Translate(mark: nat, start: nat, synthetic: nat): nat
  {
    if mark <= start then synthetic else synthetic + (mark - start)
  }

  /** Messages summarized away before this recorder saw them. */
  function SummarizedUnseen(before: seq<Ref>, mark: nat, start: nat): seq<Ref>
    requires start <= |before|
  {
    if mark < start then before[mark..start] else []
  }

  function Newest(queue: seq<Ref>): seq<Ref>
  {
    if |queue| <= CAP then queue else queue[|queue| - CAP..]
  }

  function Dropped(queue: seq<Ref>): seq<Ref>
  {
    if |queue| <= CAP then [] else queue[..|queue| - CAP]
  }

  function Losses(refs: seq<Ref>): seq<Fate>
  {
    seq(|refs|, i requires 0 <= i < |refs| => Lost(refs[i]))
  }

  /** The queue after a compaction; a recorder that lost nothing keeps its queue as it is. */
  function Queued(queue: seq<Ref>, unseen: seq<Ref>): seq<Ref>
  {
    if unseen == [] then queue else Newest(queue + unseen)
  }

  function CutOff(queue: seq<Ref>, unseen: seq<Ref>): seq<Ref>
  {
    if unseen == [] then [] else Dropped(queue + unseen)
  }

  /** One recorder across one compaction: its queue, its watermark, and what the cap dropped. */
  datatype Moved = Moved(queue: seq<Ref>, mark: nat, gone: seq<Ref>)

  function MoveAcross(before: seq<Ref>, after: seq<Ref>, kept: nat, queue: seq<Ref>, mark: nat): Moved
    requires kept <= |before| && kept <= |after|
  {
    var start, synthetic := |before| - kept, |after| - kept;
    var unseen := SummarizedUnseen(before, mark, start);
    Moved(Queued(queue, unseen), Min(Translate(mark, start, synthetic), |after|), CutOff(queue, unseen))
  }

  function Move(before: seq<Ref>, after: seq<Ref>, queue: seq<Ref>, mark: nat): Moved
  {
    MoveAcross(before, after, KeptSuffix(before, after), queue, mark)
  }

  function WindowAfter(before: seq<Ref>, after: seq<Ref>, kept: nat, window: nat): nat
    requires kept <= |before| && kept <= |after|
  {
    if window > 0 then Min(Translate(window, |before| - kept, |after| - kept), |after|) else 0
  }

  function Shift(s: State, after: seq<Ref>, stm: Moved, archive: Moved, window: nat): State
  {
    s.(messages := after, windowLen := window,
       pendingStm := stm.queue, lastRecorded := stm.mark, strategyRecorded := stm.mark,
       pendingArchive := archive.queue, archived := Some(archive.mark),
       stm := s.stm + Losses(stm.gone), archive := s.archive + Losses(archive.gone))
  }

  /** The message list becomes `after`; every watermark and both queues follow it. */
  function Reconcile(s: State, after: seq<Ref>): State
  {
    var kept := KeptSuffix(s.messages, after);
    if kept == |s.messages| && kept == |after| then s.(messages := after)
    else
      Shift(s, after, Move(s.messages, after, s.pendingStm, StmUpto(s)),
            Move(s.messages, after, s.pendingArchive, ArchiveUpto(s)),
            WindowAfter(s.messages, after, kept, s.windowLen))
  }

  // ---- The originals ledger ----

  /** Messages still reachable: the conversation and both queues. */
  function Live(s: State): set<Ref>
  {
    (set r | r in s.messages) + (set r | r in s.pendingStm) + (set r | r in s.pendingArchive)
  }

  function Restrict(ledger: map<Ref, Message>, refs: set<Ref>): map<Ref, Message>
  {
    map r | r in ledger && r in refs :: ledger[r]
  }

  /** The first copy wins; entries of messages that left the state go. */
  function KeepOriginal(s: State, ref: Ref): State
    requires ref in s.store
  {
    if ref in s.ledger then s
    else s.(ledger := Restrict(s.ledger, Live(s))[ref := s.store[ref]])
  }

  function OriginalOf(s: State, ref: Ref): Message
    requires ref in s.store
  {
    if ref in s.ledger then s.ledger[ref] else s.store[ref]
  }

  function Forget(ledger: map<Ref, Message>, refs: seq<Ref>): map<Ref, Message>
  {
    map r | r in ledger && r !in refs :: ledger[r]
  }

  // ---- Steered words (src/xgen_agent_runtime/core/steer.py): the one in-place edit without a copy ----

  function Steered(m: Message, text: string): Message
  {
    match m.content
    case Blocks(blocks) => m.(content := Blocks(blocks + [Text(text, 0)]))
    case Plain(prev) => m.(content := Plain(if prev != "" then prev + "\n\n" + text else text))
  }

  // ---- The steps of a session ----

  datatype Step =
    | Append(ref: Ref, content: Message)
    | AppendClipped(ref: Ref, clipped: Message, full: Message)  // Stage 10 clips what the model reads
    | Reduce(ref: Ref, content: Message)                         // in place, after keep_original
    | SteerInto(text: string)                                    // in place, with no copy kept
    | Compact(after: seq<Ref>, made: map<Ref, Message>)         // any replacement list, any new messages
    | RecordStm
    | RecordArchive

  /** The conversation ends with words of the user (or tool results, which the user's role carries). */
  predicate LastIsUser(s: State)
  {
    && s.messages != [] && s.messages[|s.messages| - 1] in s.store
    && s.store[s.messages[|s.messages| - 1]].role.User?
  }

  function LastRef(s: State): Ref
    requires LastIsUser(s)
  {
    s.messages[|s.messages| - 1]
  }

  predicate Enabled(s: State, step: Step)
  {
    match step
    case Append(ref, _) => ref !in s.store
    case AppendClipped(ref, _, _) => ref !in s.store
    case Reduce(ref, _) => ref in s.messages && ref in s.store
    case SteerInto(_) => LastIsUser(s)
    case Compact(after, made) =>
      made.Keys !! s.store.Keys && forall r | r in after :: r in s.store || r in made
    case RecordStm => (forall r | r in s.pendingStm :: r in s.store) && (forall r | r in s.messages :: r in s.store)
    case RecordArchive =>
      (forall r | r in s.pendingArchive :: r in s.store) && (forall r | r in s.messages :: r in s.store)
  }

  function Appended(s: State, ref: Ref, content: Message, birth: Message): State
  {
    s.(store := s.store[ref := content], messages := s.messages + [ref],
       dueStm := s.dueStm + [ref], dueArchive := s.dueArchive + [ref], birth := s.birth[ref := birth])
  }

  function Owed(queue: seq<Ref>, messages: seq<Ref>, mark: nat): seq<Ref>
  {
    queue + From(messages, mark)
  }

  function OwedStm(s: State): seq<Ref> { Owed(s.pendingStm, s.messages, StmUpto(s)) }

  function OwedArchive(s: State): seq<Ref> { Owed(s.pendingArchive, s.messages, ArchiveUpto(s)) }

  /** What short-term memory writes: each message as it really was. */
  function Originals(s: State, refs: seq<Ref>): seq<Fate>
    requires forall r | r in refs :: r in s.store
  {
    seq(|refs|, i requires 0 <= i < |refs| => Recorded(refs[i], OriginalOf(s, refs[i])))
  }

  /** What the archive writes: each message as it stands. */
  function Currents(s: State, refs: seq<Ref>): seq<Fate>
    requires forall r | r in refs :: r in s.store
  {
    seq(|refs|, i requires 0 <= i < |refs| => Recorded(refs[i], s.store[refs[i]]))
  }

  /** Memory has yet to record the last message, and will read it as it stands. */
  predicate Reachable(s: State)
    requires LastIsUser(s)
  {
    LastRef(s) in OwedStm(s) && LastRef(s) !in s.ledger
  }

  /** What the messages say for memory: words steered into a message count where memory can still take them up. */
  function SaidAfterSteering(s: State, text: string, said: map<Ref, Message>): map<Ref, Message>
    requires LastIsUser(s)
  {
    if Reachable(s) && LastRef(s) in said then said[LastRef(s) := Steered(said[LastRef(s)], text)] else said
  }

  function Next(s: State, step: Step): State
    requires Enabled(s, step)
  {
    match step
    case Append(ref, content) => Appended(s, ref, content, content)
    case AppendClipped(ref, clipped, full) =>
      var t := KeepOriginal(Appended(s, ref, clipped, full), ref);
      t.(ledger := t.ledger[ref := full])
    case Reduce(ref, content) =>
      var t := KeepOriginal(s, ref);
      t.(store := t.store[ref := content])
    case SteerInto(text) =>
      s.(store := s.store[LastRef(s) := Steered(s.store[LastRef(s)], text)],
         birth := SaidAfterSteering(s, text, s.birth))
    case Compact(after, made) => Reconcile(s.(store := s.store + made), after)
    case RecordStm =>
      var owed := OwedStm(s);
      if owed == [] then s
      else
        s.(stm := s.stm + Originals(s, owed), lastRecorded := |s.messages|, strategyRecorded := |s.messages|,
           ledger := Forget(s.ledger, owed), pendingStm := [])
    case RecordArchive =>
      s.(archive := s.archive + Currents(s, OwedArchive(s)), archived := Some(|s.messages|), pendingArchive := [])
  }

  ghost predicate ValidRun(s: State, steps: seq<Step>)
    decreases |steps|
  {
    steps != [] ==> Enabled(s, steps[0]) && ValidRun(Next(s, steps[0]), steps[1..])
  }

  ghost function Run(s: State, steps: seq<Step>): State
    requires ValidRun(s, steps)
    decreases |steps|
  {
    if steps == [] then s else Run(Next(s, steps[0]), steps[1..])
  }

  /** A session begins with a rehydrated list; what lies behind a watermark is recorded already. */
  function Begin(store: map<Ref, Message>, messages: seq<Ref>, recorded: nat, archived: Option<nat>,
      windowLen: nat): State
  {
    var archivedUpto := if archived.Some? then archived.value else windowLen;
    State(store, messages, recorded, 0, archived, windowLen, [], [], map[], [], [],
          From(messages, recorded), From(messages, archivedUpto), store)
  }

  /** The text joins the last message when that is the user's; otherwise it is a new user message. */
  function Steer(s: State, text: string, ref: Ref): State
    requires ref !in s.store
  {
    if LastIsUser(s) then Next(s, SteerInto(text)) else Next(s, Append(ref, Message(User, Plain(text))))
  }
}
