/**
 The rollout log writer (src/xgen_agent_runtime/core/rollout_recorder.py): pending lines, a file that is
 only ever appended to, one retry after a failure, and a queue of commands. Every I/O operation may fail,
 as an arbitrary script says; a write that returns has appended its line.
 */
module RolloutWriter {
  import opened Sequences

  const NEWLINE: Byte := 10

  /** Records are encoded as one line each: the only newline is the last byte. */
  type Line = line: seq<Byte> | line != [] && FirstEnd(line) == |line| && line[|line| - 1] == NEWLINE witness [10]

  /** Where the first line ends, its newline included. */
  function FirstEnd(bytes: seq<Byte>): (end: nat)
    ensures end <= |bytes| && (bytes != [] ==> end > 0)
  {
    if bytes == [] then 0 else if bytes[0] == NEWLINE then 1 else 1 + FirstEnd(bytes[1..])
  }

  /** What a reader of the log sees. */
  function ReadLines(bytes: seq<Byte>): seq<seq<Byte>>
  {
    if bytes == [] then [] else [bytes[..FirstEnd(bytes)]] + ReadLines(bytes[FirstEnd(bytes)..])
  }

  /** The bytes of the first `n` lines. */
  function Prefix(lines: seq<Line>, n: nat): seq<Byte>
    requires n <= |lines|
  {
    if n == 0 then [] else Prefix(lines, n - 1) + lines[n - 1]
  }

  function Concat(lines: seq<Line>): seq<Byte> { Prefix(lines, |lines|) }

  predicate Terminated(bytes: seq<Byte>) { bytes != [] ==> bytes[|bytes| - 1] == NEWLINE }

  /** A file that was cut short in the middle of a line is first given its newline. */
  function Repaired(bytes: seq<Byte>): seq<Byte>
  {
    if Terminated(bytes) then bytes else bytes + [NEWLINE]
  }

  datatype Command = Add(lines: seq<Line>) | Flush | Shutdown

  /** The answer to a flush or shutdown, with the bytes known to be durable when it was given. */
  datatype Ack = Ack(at: nat, ok: bool, durable: seq<Byte>)

  /** The lines that the first `n` commands add. */
  function Accepted(commands: seq<Command>, n: nat): seq<Line>
    requires n <= |commands|
  {
    if n == 0 then [] else Accepted(commands, n - 1) + LinesOf(commands[n - 1])
  }

  class WriterState {
    const fails: nat -> bool
    var clock: nat                 // I/O operations so far
    var onDisk: bool
    var bytes: seq<Byte>
    var synced: nat                // leading bytes that are durable
    var open: bool
    var pending: seq<Line>
    ghost const base: seq<Byte>    // what the file held before
    ghost var written: seq<Line>

    ghost predicate Valid()
      reads this
    {
      && synced <= |bytes|
      && (!onDisk ==> bytes == [] && base == [] && written == [] && !open)
      && Covers(bytes, base, written)
      && (open ==> bytes == Repaired(base) + Concat(written))
    }

    constructor (fails: nat -> bool, onDisk: bool, bytes: seq<Byte>)
      requires !onDisk ==> bytes == []
      ensures Valid() && base == bytes && written == [] && pending == [] && !open
      ensures this.fails == fails && this.bytes == bytes
    {
      this.fails, clock, this.onDisk, this.bytes, synced := fails, 0, onDisk, bytes, 0;
      open, pending, base, written := false, [], bytes, [];
    }

    method AddLines(lines: seq<Line>)
      requires Valid()
      modifies `pending
      ensures Valid() && pending == old(pending) + lines
    {
      pending := pending + lines;
    }

    /** One I/O operation. */
    method Attempt() returns (ok: bool)
      modifies `clock
      ensures clock == old(clock) + 1 && ok == !fails(old(clock))
    {
      ok := !fails(clock);
      clock := clock + 1;
    }

    method EnsureOpen() returns (ok: bool)
      requires Valid()
      modifies `clock, `onDisk, `bytes, `open
      ensures Valid() && (ok ==> open) && old(bytes) <= bytes
      ensures clock >= old(clock) && (!ok ==> clock > old(clock) && fails(clock - 1))
    {
      if open {
        return true;
      }
      OpeningRepairs(base, written, bytes);
      ok := Attempt(); // make the directory, open for appending
      if !ok { return; }
      onDisk := true;
      ok := Attempt(); // look at the last byte
      if !ok { return; }
      if !Terminated(bytes) {
        ok := Attempt(); // write the missing newline
        if !ok { return; }
        bytes := bytes + [NEWLINE];
      }
      ok := Attempt(); // seek to the end
      if !ok { return; }
      open := true;
    }

    method Close() returns (ok: bool)
      requires Valid()
      modifies `clock, `open
      ensures Valid() && !open
      ensures clock >= old(clock) && (!ok ==> clock > old(clock) && fails(clock - 1))
    {
      ok := true;
      if open {
        open := false;
        ok := Attempt();
      }
    }

    /** One line, behind everything the file holds. */
    method WriteLine(line: Line) returns (ok: bool)
      requires Valid() && open
      modifies `clock, `bytes, `written
      ensures Valid() && clock == old(clock) + 1 && ok == !fails(old(clock))
      ensures bytes == (if ok then old(bytes) + line else old(bytes))
      ensures written == (if ok then old(written) + [line] else old(written))
    {
      ok := Attempt();
      if ok {
        AppendLine(written, line);
        Regroup(Repaired(base), Concat(written), line);
        bytes := bytes + line;
        written := written + [line];
      }
    }

    /** Writes pending lines one by one; what was written is no longer pending, whatever fails later. */
    method WriteLines() returns (ok: bool)
      requires Valid() && open
      modifies `clock, `bytes, `pending, `written
      ensures Valid() && old(bytes) <= bytes && (ok ==> pending == [])
      ensures written + pending == old(written + pending)
      ensures clock >= old(clock) && (!ok ==> clock > old(clock) && fails(clock - 1))
    {
      var lines := pending;
      ghost var before, wrote, added := bytes, written, [];
      ok := true;
      var count := 0;
      NothingTaken(wrote, lines);
      NothingAdded(before);
      while count < |lines| && ok
        invariant 0 <= count <= |lines| && Valid()
        invariant written == wrote + lines[..count]
        invariant bytes == before + added
        invariant clock >= old(clock) && (!ok ==> clock > old(clock) && fails(clock - 1))
        decreases |lines| - count, if ok then 1 else 0
        modifies `clock, `bytes, `written
      {
        OneMoreLine(wrote, lines, count);
        Regroup(before, added, lines[count]);
        ok := WriteLine(lines[count]);
        if ok {
          added := added + lines[count];
          count := count + 1;
        }
      }
      SplitAt(wrote, lines, count);
      IsPrefix(before, added);
      pending := lines[count..];
    }

    method WritePendingOnce(durable: bool) returns (ok: bool)
      requires Valid()
      modifies `clock, `onDisk, `bytes, `open, `pending, `written, `synced
      ensures Valid() && old(bytes) <= bytes && synced >= old(synced)
      ensures written + pending == old(written + pending)
      ensures ok ==> pending == []
      ensures ok && durable ==> synced == |bytes|
      ensures clock >= old(clock) && (!ok ==> clock > old(clock) && fails(clock - 1))
    {
      if pending == [] && !open && (!durable || !onDisk) {
        return true;
      }
      ok := EnsureOpen();
      if !ok { return; }
      ok := WriteLines();
      if !ok { return; }
      ok := Attempt(); // flush
      if !ok || !durable { return; }
      ok := Attempt(); // fsync
      if ok {
        synced := |bytes|;
      }
    }

    /** Writes the pending suffix, reopening and retrying once: only a second failure gets out. */
    method WritePending(durable: bool) returns (ok: bool)
      requires Valid()
      modifies `clock, `onDisk, `bytes, `open, `pending, `written, `synced
      ensures Valid() && old(bytes) <= bytes && synced >= old(synced)
      ensures written + pending == old(written + pending)
      ensures ok ==> pending == []
      ensures ok && durable ==> synced == |bytes|
      ensures clock >= old(clock) && (!ok ==> TwoFailed(fails, old(clock), clock))
    {
      ok := WritePendingOnce(durable);
      if ok { return; }
      ghost var first := clock - 1;
      ok := Close();
      if ok {
        ok := WritePendingOnce(durable);
      }
      if !ok {
        assert old(clock) <= first < clock - 1 && fails(first) && fails(clock - 1);
      }
    }

    /** One command: lines are queued, and written on when the file is open; a barrier is answered. */
    method Serve(command: Command) returns (ok: bool)
      requires Valid()
      modifies `clock, `onDisk, `bytes, `open, `pending, `written, `synced
      ensures Valid() && old(bytes) <= bytes
      ensures written + pending == old(written + pending) + LinesOf(command)
      ensures !command.Add? && ok ==> pending == [] && synced == |bytes|
      ensures clock >= old(clock) && (!ok ==> TwoFailed(fails, old(clock), clock))
    {
      if command.Add? {
        AddLines(command.lines);
        ok := true;
        if open {
          ok := WritePending(false);
        }
      } else {
        ok := WritePending(true);
      }
    }

    /** The next command from the queue, and the answer to it when it is a barrier. */
    method ServeNext(commands: seq<Command>, at: nat, acks: seq<Ack>, ghost times: seq<nat>)
      returns (acks': seq<Ack>, stop: bool, ghost times': seq<nat>)
      requires at < |commands| && Valid() && written + pending == Accepted(commands, at)
      requires Answered(acks, commands, at) && Durable(acks, commands, at, base, bytes)
      requires Told(acks, times, commands, at, clock, false, fails)
      modifies `clock, `onDisk, `bytes, `open, `pending, `written, `synced
      ensures Valid() && written + pending == Accepted(commands, at + 1)
      ensures Answered(acks', commands, at + 1) && Durable(acks', commands, at + 1, base, bytes)
      ensures Told(acks', times', commands, at + 1, clock, stop, fails) && times'[0] == times[0]
      ensures stop ==> pending == []
    {
      ghost var before := bytes;
      var ok := Serve(commands[at]);
      times' := times + [clock];
      LaterBytesKeepAcks(acks, commands, at, base, before, bytes);
      if commands[at].Add? {
        NothingAdded(acks);
        OneMoreAnswer(acks, [], commands, at);
        OneMoreTold(acks, [], times, commands, at, clock, fails);
        return acks, false, times';
      }
      var a := Ack(at, ok, bytes[..synced]);
      if ok {
        BarrierCovers(Accepted(commands, at), written, pending, base, bytes, synced);
      }
      OneMoreAnswer(acks, [a], commands, at);
      OneMorePromise(acks, a, commands, at, base, bytes);
      OneMoreTold(acks, [a], times, commands, at, clock, fails);
      acks', stop := acks + [a], ok && commands[at].Shutdown?;
    }

    /**
     The writer's loop over its queue, up to a successful shutdown. Every line accepted so far is in the
     file or pending, in order, once; and a successful flush or shutdown was given when the file held
     every line accepted before it, durably, and nothing else besides what it held at the start. A failed one
     had two failed operations of its own: `times` tells how many operations came before each command.
     */
    method WriterLoop(commands: seq<Command>)
      returns (acks: seq<Ack>, handled: nat, stop: bool, ghost times: seq<nat>)
      requires Valid() && written == [] && pending == []
      modifies `clock, `onDisk, `bytes, `open, `pending, `written, `synced
      ensures Valid() && handled <= |commands|
      ensures written + pending == Accepted(commands, handled)
      ensures Answered(acks, commands, handled) && Durable(acks, commands, handled, base, bytes)
      ensures Told(acks, times, commands, handled, clock, stop, fails) && times[0] == old(clock)
      ensures (handled < |commands| ==> stop) && (stop ==> pending == [])
    {
      acks, handled, stop, times := [], 0, false, [clock];
      NothingAnswered(commands, base, bytes);
      NothingAdded(written);
      while handled < |commands| && !stop
        invariant handled <= |commands| && Valid()
        invariant written + pending == Accepted(commands, handled)
        invariant Answered(acks, commands, handled) && Durable(acks, commands, handled, base, bytes)
        invariant Told(acks, times, commands, handled, clock, stop, fails) && times[0] == old(clock)
        invariant stop ==> pending == []
        decreases |commands| - handled, if stop then 0 else 1
      {
        acks, stop, times := ServeNext(commands, handled, acks, times);
        handled := handled + 1;
      }
    }
  }

  /** Two of the operations from `from` on, before `to`, failed. */
  ghost predicate TwoFailed(fails: nat -> bool, from: nat, to: nat)
  {
    exists i: nat, j: nat :: from <= i < j < to && fails(i) && fails(j)
  }

  /**
   The commands have a stretch of operations each, up to `now`. Who was told "failed" was told so after two
   failures in that stretch; and the first successful shutdown is the last command handled.
   */
  ghost predicate Told(acks: seq<Ack>, times: seq<nat>, commands: seq<Command>, handled: nat, now: nat, stop: bool,
    fails: nat -> bool)
  {
    && |times| == handled + 1 && handled <= |commands| && times[handled] == now
    && (forall i | 0 <= i < handled :: times[i] <= times[i + 1])
    && (forall i | 0 <= i < |acks| ::
          && acks[i].at < handled
          && (!acks[i].ok ==> TwoFailed(fails, times[acks[i].at], times[acks[i].at + 1]))
          && (acks[i].ok && commands[acks[i].at].Shutdown? ==> stop && acks[i].at == handled - 1))
    && (stop ==>
          acks != [] && acks[|acks| - 1].ok && acks[|acks| - 1].at == handled - 1 && commands[handled - 1].Shutdown?)
  }

  lemma OneMoreTold(acks: seq<Ack>, more: seq<Ack>, times: seq<nat>, commands: seq<Command>, handled: nat, now: nat,
      fails: nat -> bool)
    requires handled < |commands| && |times| == handled + 1 && times[handled] <= now
    requires Told(acks, times, commands, handled, times[handled], false, fails)
    requires |more| == if commands[handled].Add? then 0 else 1
    requires more != [] ==>
      more[0].at == handled && (!more[0].ok ==> TwoFailed(fails, times[handled], now))
    ensures Told(acks + more, times + [now], commands, handled + 1, now,
      more != [] && more[0].ok && commands[handled].Shutdown?, fails)
  {
    var all, later := acks + more, times + [now];
    forall i | 0 <= i < |all|
      ensures all[i].at < handled + 1
      ensures !all[i].ok ==> TwoFailed(fails, later[all[i].at], later[all[i].at + 1])
    {
      assert all[i] == if i < |acks| then acks[i] else more[0];
    }
  }

  /** A barrier that left nothing pending covers every line accepted before it. */
  lemma BarrierCovers(accepted: seq<Line>, written: seq<Line>, pending: seq<Line>, base: seq<Byte>,
      bytes: seq<Byte>, synced: nat)
    requires written + pending == accepted + [] && pending == [] && synced == |bytes| && Covers(bytes, base, written)
    ensures Covers(bytes[..synced], base, accepted) && bytes[..synced] <= bytes
  {
    NothingAdded(written);
    NothingAdded(accepted);
    assert bytes[..synced] == bytes;
  }

  lemma OneMoreLine<T>(done: seq<T>, lines: seq<T>, k: nat)
    requires k < |lines|
    ensures (done + lines[..k]) + [lines[k]] == done + lines[..k + 1]
  {
  }

  lemma NothingTaken<T>(done: seq<T>, lines: seq<T>)
    ensures done == done + lines[..0]
  {
  }

  lemma SplitAt<T>(done: seq<T>, lines: seq<T>, k: nat)
    requires k <= |lines|
    ensures (done + lines[..k]) + lines[k..] == done + lines
    ensures k == |lines| ==> lines[k..] == []
  {
  }

  lemma IsPrefix<T>(a: seq<T>, b: seq<T>)
    ensures a <= a + b
  {
  }

  function LinesOf(c: Command): seq<Line>
  {
    if c.Add? then c.lines else []
  }

  /** Where the barriers among the first `n` commands stand. */
  function Barriers(commands: seq<Command>, n: nat): seq<nat>
    requires n <= |commands|
  {
    if n == 0 then [] else Barriers(commands, n - 1) + (if commands[n - 1].Add? then [] else [n - 1])
  }

  /** They are exactly the commands that add nothing, in order. */
  lemma {:induction false} BarriersAreTheOthers(commands: seq<Command>, n: nat)
    requires n <= |commands|
    ensures forall i :: i in Barriers(commands, n) <==> 0 <= i < n && !commands[i].Add?
    ensures forall k, l | 0 <= k < l < |Barriers(commands, n)| :: Barriers(commands, n)[k] < Barriers(commands, n)[l]
  {
    if n > 0 {
      BarriersAreTheOthers(commands, n - 1);
      var early := Barriers(commands, n - 1);
      forall k | 0 <= k < |early| ensures early[k] < n - 1 {
        assert early[k] in early;
      }
    }
  }

  lemma PrefixStays<T>(a: seq<T>, b: seq<T>, c: seq<T>, more: seq<T>)
    requires a <= b && c == b + more
    ensures a <= c
  {
  }

  lemma OneMoreAccepted(commands: seq<Command>, n: nat)
    requires n < |commands|
    ensures Accepted(commands, n + 1) == Accepted(commands, n) + LinesOf(commands[n])
  {
  }

  /** The lines of each command stand together among those accepted, behind all lines of earlier commands. */
  lemma {:induction false} AcceptedHoldsEachLine(commands: seq<Command>, n: nat, i: nat)
    requires i < n <= |commands| && commands[i].Add?
    ensures Accepted(commands, i) + commands[i].lines <= Accepted(commands, n)
  {
    OneMoreAccepted(commands, n - 1);
    if i + 1 < n {
      AcceptedHoldsEachLine(commands, n - 1, i);
      PrefixStays<seq<Byte>>(Accepted(commands, i) + commands[i].lines, Accepted(commands, n - 1),
        Accepted(commands, n), LinesOf(commands[n - 1]));
    }
  }

  /** Nothing else is accepted. */
  lemma {:induction false} AcceptedHoldsNothingElse(commands: seq<Command>, n: nat, at: nat)
    requires n <= |commands| && at < |Accepted(commands, n)|
    ensures exists i ::
      && 0 <= i < n && commands[i].Add?
      && |Accepted(commands, i)| <= at < |Accepted(commands, i)| + |commands[i].lines|
  {
    if at < |Accepted(commands, n - 1)| {
      AcceptedHoldsNothingElse(commands, n - 1, at);
    } else {
      assert commands[n - 1].Add? && at < |Accepted(commands, n - 1)| + |commands[n - 1].lines|;
    }
  }

  /** Every barrier among the first commands was answered, in order, and nothing else was. */
  ghost predicate Answered(acks: seq<Ack>, commands: seq<Command>, handled: nat)
    requires handled <= |commands|
  {
    && |acks| == |Barriers(commands, handled)|
    && forall i | 0 <= i < |acks| :: acks[i].at == Barriers(commands, handled)[i]
  }

  /** What a successful barrier promised is in the file for good. */
  ghost predicate Durable(acks: seq<Ack>, commands: seq<Command>, handled: nat, base: seq<Byte>, bytes: seq<Byte>)
    requires handled <= |commands|
  {
    forall i | 0 <= i < |acks| && acks[i].ok ::
      && acks[i].at < handled && acks[i].durable <= bytes
      && Covers(acks[i].durable, base, Accepted(commands, acks[i].at))
  }

  lemma LaterBytesKeepAcks(acks: seq<Ack>, commands: seq<Command>, handled: nat, base: seq<Byte>,
      before: seq<Byte>, bytes: seq<Byte>)
    requires handled <= |commands| && Durable(acks, commands, handled, base, before) && before <= bytes
    ensures Durable(acks, commands, handled, base, bytes)
  {
    forall i | 0 <= i < |acks| && acks[i].ok ensures acks[i].durable <= bytes {
      assert acks[i].durable <= before;
    }
  }

  lemma OneMoreAnswer(acks: seq<Ack>, more: seq<Ack>, commands: seq<Command>, handled: nat)
    requires handled < |commands| && Answered(acks, commands, handled)
    requires if commands[handled].Add? then more == [] else |more| == 1 && more[0].at == handled
    ensures Answered(acks + more, commands, handled + 1)
  {
    var all, at := acks + more, Barriers(commands, handled);
    forall i | 0 <= i < |all| ensures all[i].at == Barriers(commands, handled + 1)[i] {
      assert i < |acks| ==> all[i] == acks[i] && acks[i].at == at[i];
    }
  }

  lemma NothingAnswered(commands: seq<Command>, base: seq<Byte>, bytes: seq<Byte>)
    ensures Answered([], commands, 0) && Durable([], commands, 0, base, bytes) && Accepted(commands, 0) == []
  {
  }

  lemma OneMorePromise(acks: seq<Ack>, a: Ack, commands: seq<Command>, handled: nat, base: seq<Byte>, bytes: seq<Byte>)
    requires handled < |commands| && Durable(acks, commands, handled, base, bytes) && a.at == handled
    requires a.ok ==> a.durable <= bytes && Covers(a.durable, base, Accepted(commands, handled))
    ensures Durable(acks + [a], commands, handled + 1, base, bytes)
  {
    var all := acks + [a];
    forall i | 0 <= i < |all| && all[i].ok
      ensures all[i].at < handled + 1 && all[i].durable <= bytes
      ensures Covers(all[i].durable, base, Accepted(commands, all[i].at))
    {
      assert i < |acks| ==> all[i] == acks[i];
    }
  }

  /** The file holds the old content, its last line finished, and then exactly these lines. */
  ghost predicate Covers(durable: seq<Byte>, base: seq<Byte>, lines: seq<Line>)
  {
    durable == Repaired(base) + Concat(lines) || (durable == base && lines == [])
  }

  lemma {:induction false} SamePrefix(lines: seq<Line>, line: Line, n: nat)
    requires n <= |lines|
    ensures Prefix(lines + [line], n) == Prefix(lines, n)
  {
    if n > 0 {
      SamePrefix(lines, line, n - 1);
    }
  }

  lemma AppendLine(lines: seq<Line>, line: Line)
    ensures Concat(lines + [line]) == Concat(lines) + line
  {
    SamePrefix(lines, line, |lines|);
  }

  lemma LinesEndTheFile(base: seq<Byte>, lines: seq<Line>)
    ensures Terminated(Repaired(base) + Concat(lines))
  {
    var n := |lines|;
    if n > 0 {
      LastByte(Repaired(base) + Prefix(lines, n - 1), lines[n - 1]);
      Regroup(Repaired(base), Prefix(lines, n - 1), lines[n - 1]);
    }
  }

  lemma LastByte(bytes: seq<Byte>, line: Line)
    ensures Terminated(bytes + line)
  {
  }

  /** Whatever the file holds, it is fit for appending once its last line is finished. */
  lemma OpeningRepairs(base: seq<Byte>, lines: seq<Line>, bytes: seq<Byte>)
    requires Covers(bytes, base, lines)
    ensures Repaired(bytes) == Repaired(base) + Concat(lines)
  {
    LinesEndTheFile(base, lines);
  }

  // ---- What a reader of the log sees ----

  lemma {:induction false} FirstEndStays(a: seq<Byte>, b: seq<Byte>)
    requires a != [] && Terminated(a)
    ensures FirstEnd(a + b) == FirstEnd(a) && Terminated(a[FirstEnd(a)..])
  {
    assert (a + b)[1..] == a[1..] + b;
    if a[0] != NEWLINE {
      FirstEndStays(a[1..], b);
      assert a[1..][FirstEnd(a[1..])..] == a[FirstEnd(a)..];
    }
  }

  lemma {:induction false} ReadOneMore(a: seq<Byte>, line: Line)
    requires Terminated(a)
    ensures ReadLines(a + line) == ReadLines(a) + [line]
  {
    if a == [] {
      assert a + line == line && line[..|line|] == line && line[|line|..] == [];
    } else {
      var end := FirstEnd(a);
      FirstEndStays(a, line);
      assert (a + line)[..end] == a[..end] && (a + line)[end..] == a[end..] + line;
      ReadOneMore(a[end..], line);
      Regroup([a[..end]], ReadLines(a[end..]), [line]);
    }
  }

  lemma {:induction false} ReadBack(start: seq<Byte>, lines: seq<Line>, n: nat)
    requires Terminated(start) && n <= |lines|
    ensures Terminated(start + Prefix(lines, n)) && ReadLines(start + Prefix(lines, n)) == ReadLines(start) + lines[..n]
  {
    if n == 0 {
      NothingAdded(start);
      NothingAdded(ReadLines(start));
    } else {
      ReadBack(start, lines, n - 1);
      Regroup(start, Prefix(lines, n - 1), lines[n - 1]);
      ReadOneMore(start + Prefix(lines, n - 1), lines[n - 1]);
      LastByte(start + Prefix(lines, n - 1), lines[n - 1]);
      OneMoreLine(ReadLines(start), lines, n - 1);
    }
  }

  /**
   What a successful barrier covers reads back record by record: the lines the file held before, an
   unfinished last one finished, then exactly the lines accepted, once each and in order.
   */
  lemma CoveredFileReadsBack(durable: seq<Byte>, base: seq<Byte>, lines: seq<Line>)
    requires Covers(durable, base, lines)
    ensures ReadLines(durable) == ReadLines(Repaired(base)) + lines || (durable == base && lines == [])
  {
    if durable == Repaired(base) + Concat(lines) {
      ReadBack(Repaired(base), lines, |lines|);
      assert lines[..|lines|] == lines;
    }
  }
}
