/**
 The bounded output buffer (src/xgen_agent_runtime/core/_head_tail_buffer.py): it keeps the start and the
 end of a byte stream under a fixed budget, and depends on nothing but the stream.
 */
module HeadTail {
  import opened Sequences

  /** The first `n` bytes, all of them when there are fewer. */
  function First(bytes: seq<Byte>, n: nat): seq<Byte>
  {
    if |bytes| <= n then bytes else bytes[..n]
  }

  /** What is left behind them. */
  function Beyond(bytes: seq<Byte>, n: nat): seq<Byte>
  {
    if |bytes| <= n then [] else bytes[n..]
  }

  /** The last `n` bytes, all of them when there are fewer. */
  function Last(bytes: seq<Byte>, n: nat): seq<Byte>
  {
    if |bytes| <= n then bytes else bytes[|bytes| - n..]
  }

  /** How many bytes the last `n` leave out. */
  function Left(bytes: seq<Byte>, n: nat): nat
  {
    if |bytes| <= n then 0 else |bytes| - n
  }

  lemma LastOfJoin(bytes: seq<Byte>, more: seq<Byte>, n: nat)
    requires |more| <= n
    ensures Last(bytes + more, n) == Last(bytes, n - |more|) + more
  {
  }

  lemma LastOfMany(bytes: seq<Byte>, more: seq<Byte>, n: nat)
    requires |more| >= n
    ensures Last(bytes + more, n) == Last(more, n)
  {
  }

  lemma LastOfLast(bytes: seq<Byte>, n: nat, m: nat)
    requires m <= n
    ensures Last(Last(bytes, n), m) == Last(bytes, m)
  {
  }

  /** A longer stream: what still fits goes to the head, the rest behind the rest. */
  lemma StreamGrows(stream: seq<Byte>, chunk: seq<Byte>, h: nat)
    ensures
      var room := h - |First(stream, h)|;
      && First(stream + chunk, h) == First(stream, h) + First(chunk, room)
      && Beyond(stream + chunk, h) == Beyond(stream, h) + Beyond(chunk, room)
  {
  }

  /**
   What a buffer with head budget `h` and tail budget `t` shows is the beginning and the end of the
   stream: nothing is made up, every byte is retained or counted, and nothing is lost within the budget.
   */
  lemma BufferKeepsBothEnds(stream: seq<Byte>, h: nat, t: nat)
    ensures
      var head, rest := First(stream, h), Beyond(stream, h);
      var tail := Last(rest, t);
      && head <= stream && tail == stream[|stream| - |tail|..]
      && |head| + |tail| + Left(rest, t) == |stream|
      && Left(rest, t) == (if |stream| <= h + t then 0 else |stream| - h - t)
      && (|stream| <= h + t ==> head + tail == stream)
      && (|stream| > h + t ==> |head| == h && |tail| == t)
  {
  }

  class Buffer {
    const maxBytes: nat
    const headBudget: nat
    const tailBudget: nat
    var head: seq<Byte>
    var tail: seq<Byte>
    var omitted: nat
    ghost var stream: seq<Byte>

    ghost predicate Valid()
      reads this
    {
      && headBudget + tailBudget == maxBytes
      && head == First(stream, headBudget)
      && tail == Last(Beyond(stream, headBudget), tailBudget)
      && omitted == Left(Beyond(stream, headBudget), tailBudget)
    }

    /** Half of the budget, rounded down, is for the head. */
    constructor (maxBytes: nat)
      ensures Valid() && stream == []
      ensures this.maxBytes == maxBytes && headBudget == maxBytes / 2
    {
      this.maxBytes, headBudget, tailBudget := maxBytes, maxBytes / 2, maxBytes - maxBytes / 2;
      head, tail, omitted, stream := [], [], 0, [];
    }

    /** Whatever the chunk, the buffer shows the longer stream. */
    method PushChunk(chunk: seq<Byte>)
      requires Valid()
      modifies this
      ensures Valid() && stream == old(stream) + chunk
    {
      if chunk == [] {
        assert stream + chunk == stream;
        return;
      }
      StreamGrows(stream, chunk, headBudget);
      var incoming, room := chunk, headBudget - |head|;
      if room > 0 {
        var part := First(incoming, room);
        head := head + part;
        incoming := incoming[|part|..];
        NothingBeyond(chunk, room);
      } else {
        EverythingBeyond(head, chunk);
      }
      PushTail(incoming, Beyond(stream, headBudget));
      stream := stream + chunk;
    }

    /** The tail becomes the end of the longer rest, and what falls out of it is counted. */
    method PushTail(chunk: seq<Byte>, ghost rest: seq<Byte>)
      requires tail == Last(rest, tailBudget) && omitted == Left(rest, tailBudget)
      modifies `tail, `omitted
      ensures tail == Last(rest + chunk, tailBudget) && omitted == Left(rest + chunk, tailBudget)
    {
      if chunk == [] {
        assert rest + chunk == rest;
        return;
      }
      if tailBudget == 0 {
        omitted := omitted + |chunk|;
        return;
      }
      var remaining := tailBudget - |tail|;
      var excess := if |chunk| > remaining then |chunk| - remaining else 0;
      omitted := omitted + excess;
      if excess <= |tail| {
        LastOfJoin(rest, chunk, tailBudget);
        LastOfLast(rest, tailBudget, tailBudget - |chunk|);
        tail := tail[excess..] + chunk;
        return;
      }
      LastOfMany(rest, chunk, tailBudget);
      tail := chunk[excess - |tail|..];
    }

    /** All that is retained; the whole stream as long as it fits. */
    method ToBytes() returns (bytes: seq<Byte>)
      requires Valid()
      ensures bytes == First(stream, headBudget) + Last(Beyond(stream, headBudget), tailBudget)
      ensures |stream| <= maxBytes ==> bytes == stream
    {
      BufferKeepsBothEnds(stream, headBudget, tailBudget);
      bytes := head + tail;
    }

    function TotalBytes(): nat
      reads this
    {
      |head| + |tail| + omitted
    }
  }

  lemma NothingBeyond(chunk: seq<Byte>, room: nat)
    ensures chunk[|First(chunk, room)|..] == Beyond(chunk, room)
  {
  }

  lemma EverythingBeyond(head: seq<Byte>, chunk: seq<Byte>)
    ensures head + First(chunk, 0) == head && Beyond(chunk, 0) == chunk
  {
  }

  function Concat(chunks: seq<seq<Byte>>, n: nat): seq<Byte>
    requires n <= |chunks|
  {
    if n == 0 then [] else Concat(chunks, n - 1) + chunks[n - 1]
  }

  /**
   However a stream is cut into chunks, the same stream leaves the same buffer: its first half-budget of
   bytes, the end of what follows, and counts that add up to the whole.
   */
  method Collect(chunks: seq<seq<Byte>>, max: nat) returns (b: Buffer)
    ensures
      var stream := Concat(chunks, |chunks|);
      && fresh(b) && b.Valid() && b.stream == stream && b.maxBytes == max && b.headBudget == max / 2
      && b.head == First(stream, max / 2) && b.tail == Last(Beyond(stream, max / 2), max - max / 2)
      && b.omitted == (if |stream| <= max then 0 else |stream| - max) && b.TotalBytes() == |stream|
  {
    b := new Buffer(max);
    var i := 0;
    while i < |chunks|
      invariant 0 <= i <= |chunks| && fresh(b) && b.Valid() && b.stream == Concat(chunks, i)
      invariant b.maxBytes == max && b.headBudget == max / 2
    {
      b.PushChunk(chunks[i]);
      i := i + 1;
    }
    BufferKeepsBothEnds(b.stream, b.headBudget, b.tailBudget);
  }
}
