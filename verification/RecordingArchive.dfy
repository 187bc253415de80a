/**
 What the conversation archive writes. It reads messages as they stand, so a message that was reduced or
 clipped before it is archived is not archived as it was said.
 */
module RecordingArchive {
  import opened Messages
  import opened Recording
  import opened RecordingLaws

  // ---- What was said, and what of it the conversation still shows ----

  /** A clipped result counts as the tool returned it; words steered into a message are part of it. */
  ghost function SpokenIn(s: State, step: Step, said: map<Ref, Message>): map<Ref, Message>
    requires Enabled(s, step)
  {
    match step
    case Append(ref, content) => said[ref := content]
    case AppendClipped(ref, _, full) => said[ref := full]
    case SteerInto(text) =>
      var last := LastRef(s);
      if last in said then said[last := Steered(said[last], text)] else said
    case _ => said
  }

  ghost function SpokenBy(s: State, steps: seq<Step>, said: map<Ref, Message>): map<Ref, Message>
    requires ValidRun(s, steps)
    decreases |steps|
  {
    if steps == [] then said else SpokenBy(Next(s, steps[0]), steps[1..], SpokenIn(s, steps[0], said))
  }

  /** Messages that were clipped, or whose last reduction left something else than what was said. */
  ghost function AlteredIn(s: State, step: Step, said: map<Ref, Message>, altered: set<Ref>): set<Ref>
    requires Enabled(s, step)
  {
    match step
    case AppendClipped(ref, clipped, full) => if clipped != full then altered + {ref} else altered
    case Reduce(ref, content) => if ref in said && content != said[ref] then altered + {ref} else altered - {ref}
    case _ => altered
  }

  ghost function AlteredBy(s: State, steps: seq<Step>, said: map<Ref, Message>, altered: set<Ref>): set<Ref>
    requires ValidRun(s, steps)
    decreases |steps|
  {
    if steps == [] then altered
    else
      AlteredBy(Next(s, steps[0]), steps[1..], SpokenIn(s, steps[0], said), AlteredIn(s, steps[0], said, altered))
  }

  /** The conversation shows what was said, but for the altered messages. */
  ghost predicate Shows(s: State, said: map<Ref, Message>, altered: set<Ref>)
  {
    && said.Keys <= s.store.Keys && altered <= said.Keys
    && forall r | r in said :: s.store[r] == said[r] <==> r !in altered
  }

  lemma SteeredTells(m: Message, n: Message, text: string)
    requires Steered(m, text) == Steered(n, text)
    ensures m == n
  {
    match (m.content, n.content)
    case (Blocks(xs), Blocks(ys)) =>
      assert (xs + [Text(text, 0)])[..|xs|] == xs && (ys + [Text(text, 0)])[..|ys|] == ys;
    case (Plain(x), Plain(y)) => PlainTells(x, y, text);
    case _ =>
  }

  lemma PlainTells(x: string, y: string, text: string)
    requires (if x != "" then x + "\n\n" + text else text) == (if y != "" then y + "\n\n" + text else text)
    ensures x == y
  {
    assert |x| == |y|;
    if x != "" {
      assert (x + "\n\n" + text)[..|x|] == x && (y + "\n\n" + text)[..|y|] == y;
    }
  }

  lemma SteeringKeepsShows(s: State, text: string, said: map<Ref, Message>, altered: set<Ref>)
    requires LastIsUser(s) && Shows(s, said, altered)
    ensures Shows(Next(s, SteerInto(text)), SpokenIn(s, SteerInto(text), said), altered)
  {
    var last := LastRef(s);
    if last in said && Steered(s.store[last], text) == Steered(said[last], text) {
      SteeredTells(s.store[last], said[last], text);
    }
  }

  lemma CompactKeepsStore(s: State, after: seq<Ref>)
    ensures Reconcile(s, after).store == s.store
  {
  }

  lemma CompactKeepsShows(s: State, after: seq<Ref>, made: map<Ref, Message>,
      said: map<Ref, Message>, altered: set<Ref>)
    requires Enabled(s, Compact(after, made)) && Shows(s, said, altered)
    ensures Shows(Next(s, Compact(after, made)), said, altered)
  {
    CompactKeepsStore(s.(store := s.store + made), after);
    assert forall r | r in said :: (s.store + made)[r] == s.store[r];
  }

  lemma StepKeepsShows(s: State, step: Step, said: map<Ref, Message>, altered: set<Ref>)
    requires Enabled(s, step) && Shows(s, said, altered)
    ensures Shows(Next(s, step), SpokenIn(s, step, said), AlteredIn(s, step, said, altered))
  {
    match step
    case SteerInto(text) => SteeringKeepsShows(s, text, said, altered);
    case Compact(after, made) => CompactKeepsShows(s, after, made, said, altered);
    case _ =>
  }

  lemma {:induction false} RunKeepsShows(s: State, steps: seq<Step>, said: map<Ref, Message>, altered: set<Ref>)
    requires ValidRun(s, steps) && Shows(s, said, altered)
    ensures Shows(Run(s, steps), SpokenBy(s, steps, said), AlteredBy(s, steps, said, altered))
    decreases |steps|
  {
    if steps != [] {
      StepKeepsShows(s, steps[0], said, altered);
      RunKeepsShows(Next(s, steps[0]), steps[1..], SpokenIn(s, steps[0], said), AlteredIn(s, steps[0], said, altered));
    }
  }

  lemma {:induction false} SpokenCovers(s: State, steps: seq<Step>, said: map<Ref, Message>)
    requires ValidRun(s, steps)
    ensures said.Keys <= SpokenBy(s, steps, said).Keys
    ensures forall r | r in AppendedBy(steps) :: r in SpokenBy(s, steps, said)
    decreases |steps|
  {
    if steps != [] {
      SpokenCovers(Next(s, steps[0]), steps[1..], SpokenIn(s, steps[0], said));
      assert forall r | r in AppendedBy(steps) :: r in AppendedIn(steps[0]) || r in AppendedBy(steps[1..]);
    }
  }

  // ---- The main result ----

  /** Every owed message goes into the archive as it was said, but for the altered ones. */
  ghost predicate ArchivesAsSaid(s: State, said: map<Ref, Message>, altered: set<Ref>)
  {
    && Enabled(s, RecordArchive)
    && var owed := OwedArchive(s);
       var after := Next(s, RecordArchive).archive;
       && |after| == |s.archive| + |owed| && after[..|s.archive|] == s.archive
       && forall i | 0 <= i < |owed| ::
            && owed[i] in said && after[|s.archive| + i].Recorded? && after[|s.archive| + i].ref == owed[i]
            && (after[|s.archive| + i].content == said[owed[i]] <==> owed[i] !in altered)
  }

  /**
   At every archiving of every run: the archive writes of a message what was said if and only if the message
   was not clipped and no reduction had left it changed, whatever short-term memory did before.
   */
  lemma ArchiveWritesWhatWasSaidUnlessAltered(store: map<Ref, Message>, messages: seq<Ref>, recorded: nat,
      archived: Option<nat>, windowLen: nat, steps: seq<Step>)
    requires (forall r | r in messages :: r in store) && Distinct(messages)
    requires recorded <= |messages| && (if archived.Some? then archived.value else windowLen) <= |messages|
    requires ValidRun(Begin(store, messages, recorded, archived, windowLen), steps)
    ensures
      var s := Begin(store, messages, recorded, archived, windowLen);
      ArchivesAsSaid(Run(s, steps), SpokenBy(s, steps, store), AlteredBy(s, steps, store, {}))
  {
    var s := Begin(store, messages, recorded, archived, windowLen);
    BeginHasInv(store, messages, recorded, archived, windowLen);
    RunKeepsInv(s, steps);
    DueIsWhatWasAppended(s, steps);
    RunKeepsShows(s, steps, store, {});
    SpokenCovers(s, steps, store);
    OwedIsSpoken(Run(s, steps), SpokenBy(s, steps, store), AlteredBy(s, steps, store, {}));
  }

  lemma OwedIsSpoken(s: State, said: map<Ref, Message>, altered: set<Ref>)
    requires Inv(s) && Shows(s, said, altered) && forall r | r in s.dueArchive :: r in said
    ensures ArchivesAsSaid(s, said, altered)
  {
    var owed := OwedArchive(s);
    forall i | 0 <= i < |owed| ensures owed[i] in said {
      assert s.dueArchive[|s.archive| + i] == owed[i];
    }
  }
}
