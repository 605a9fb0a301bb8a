/** The bounded terminal buffer with absolute cursors, and what a reader that
    chains its cursors sees of the unbounded log behind it. */
module RingBuffer {
  import opened Bytes
  import opened FrameSpec
  import opened FrameChunks

  datatype BufferRead = BufferRead(data: seq<Byte>, nextCursor: nat, dropped: bool)

  /** The cursor of the oldest byte still kept of `log`. */
  function StartOf(log: seq<Byte>, limit: nat): (start: nat)
    ensures start <= |log| && |log| - start <= limit
    ensures start > 0 ==> |log| - start == limit
  {
    |log| - |Last(log, limit)|
  }

  /** Where a read from `cursor` begins: there, or at the oldest kept byte if that
      is later, and never beyond the end. */
  function ReadFrom(log: seq<Byte>, limit: nat, cursor: nat): (from: nat)
    ensures from <= |log|
    ensures cursor <= |log| ==> from >= cursor && (from > cursor <==> |log| - cursor > limit)
  {
    var start := StartOf(log, limit);
    if cursor < start then start else if cursor > |log| then |log| else cursor
  }

  /** A read in terms of the log. */
  function ReadLog(log: seq<Byte>, limit: nat, cursor: nat): (r: BufferRead)
    ensures r.nextCursor == |log| && |r.data| == |log| - ReadFrom(log, limit, cursor)
  {
    BufferRead(log[ReadFrom(log, limit, cursor)..], |log|, cursor < StartOf(log, limit))
  }

  /** A read's next cursor lies below the caller's exactly when that is past the end. */
  lemma NextCursorBelow(log: seq<Byte>, limit: nat, cursor: nat)
    ensures ReadLog(log, limit, cursor).nextCursor < cursor <==> cursor > |log|
    ensures cursor > |log| ==> ReadLog(log, limit, cursor).data == []
  {
    hide Last, StartOf;
    assert log[|log|..] == [];
  }

  class TerminalRingBuffer {
    const maxBytes: nat
    var data: seq<Byte>
    var start: nat
    ghost var log: seq<Byte>

    ghost predicate Valid()
      reads this
    {
      maxBytes >= 1 && data == Last(log, maxBytes) && start == StartOf(log, maxBytes)
    }

    constructor (maxBytes: nat)
      requires maxBytes >= 1
      ensures Valid() && log == [] && this.maxBytes == maxBytes
    {
      this.maxBytes := maxBytes;
      data, start, log := [], 0, [];
    }

    method Append(more: seq<Byte>)
      requires Valid()
      modifies this
      ensures Valid() && log == old(log) + more
    {
      hide Last, StartOf, Overflow;
      if more == [] {
        assert log + more == log;
        return;
      }
      var grown := data + more;
      var overflow := Overflow(grown, maxBytes);
      TailOfTail(log, more, maxBytes);
      log := log + more;
      data := grown[overflow..];
      start := start + overflow;
    }

    method Read(cursor: nat) returns (r: BufferRead)
      requires Valid()
      ensures r == ReadLog(log, maxBytes, cursor)
    {
      var dropped := cursor < start;
      var effective := if cursor < start then start else cursor;
      var offset := if effective - start < |data| then effective - start else |data|;
      assert data[offset..] == log[start + offset..];
      r := BufferRead(data[offset..], start + |data|, dropped);
    }
  }

  /** How many bytes overflow. */
  function Overflow(grown: seq<Byte>, limit: nat): (cut: nat)
    ensures cut <= |grown|
  {
    if |grown| > limit then |grown| - limit else 0
  }

  lemma TailOfTail(s: seq<Byte>, data: seq<Byte>, limit: nat)
    ensures var grown := Last(s, limit) + data;
            Last(s + data, limit) == grown[Overflow(grown, limit)..] &&
            StartOf(s + data, limit) == StartOf(s, limit) + Overflow(grown, limit)
  {
    LastOfTail(s, data, limit);
    LastIs(Last(s, limit) + data, limit);
  }

  /** What happens to a buffer and the one reader that polls it. */
  datatype Event = Arrive(data: seq<Byte>) | Poll

  /** One read: the part of the log it returned, those bytes, and its drop flag. */
  datatype Taken = Taken(from: nat, to: nat, data: seq<Byte>, dropped: bool)

  datatype Reader = Reader(log: seq<Byte>, cursor: nat, taken: seq<Taken>)

  function TakeNext(log: seq<Byte>, limit: nat, cursor: nat): Taken {
    var read := ReadLog(log, limit, cursor);
    Taken(ReadFrom(log, limit, cursor), read.nextCursor, read.data, read.dropped)
  }

  function Step(r: Reader, limit: nat, event: Event): Reader {
    match event
    case Arrive(data) => r.(log := r.log + data)
    case Poll => r.(cursor := |r.log|, taken := r.taken + [TakeNext(r.log, limit, r.cursor)])
  }

  function Run(r: Reader, limit: nat, events: seq<Event>): Reader
    decreases |events|
  {
    if events == [] then r else Run(Step(r, limit, events[0]), limit, events[1..])
  }

  const Fresh := Reader([], 0, [])

  function Chunks(taken: seq<Taken>): (chunks: seq<seq<Byte>>)
    ensures |chunks| == |taken|
  {
    if taken == [] then [] else Chunks(taken[..|taken| - 1]) + [taken[|taken| - 1].data]
  }

  predicate AnyDropped(taken: seq<Taken>) {
    exists t <- taken :: t.dropped
  }

  /** A read that follows one that ended at `before`: a slice of the log that starts
      there, or later with the drop flag set. */
  predicate Follows(log: seq<Byte>, before: nat, t: Taken) {
    before <= t.from <= t.to <= |log| && t.data == log[t.from..t.to] && (t.dropped <==> t.from > before)
  }

  /** The reads are slices of the log one after the other, up to the cursor. */
  predicate Chained(log: seq<Byte>, taken: seq<Taken>, cursor: nat) {
    if taken == [] then cursor == 0
    else
      var last := taken[|taken| - 1];
      cursor == last.to && last.from <= last.to <= |log| &&
      exists before :: 0 <= before <= last.from && Chained(log, taken[..|taken| - 1], before) && Follows(log, before, last)
  }

  lemma {:induction false} ChainedGrows(log: seq<Byte>, more: seq<Byte>, taken: seq<Taken>, cursor: nat)
    requires Chained(log, taken, cursor)
    ensures Chained(log + more, taken, cursor)
    decreases |taken|
  {
    if taken != [] {
      var last := taken[|taken| - 1];
      var before: nat :| before <= last.from && Chained(log, taken[..|taken| - 1], before) && Follows(log, before, last);
      ChainedGrows(log, more, taken[..|taken| - 1], before);
      assert (log + more)[last.from..last.to] == log[last.from..last.to];
      assert Follows(log + more, before, last);
    }
  }

  lemma TakeFollows(log: seq<Byte>, limit: nat, cursor: nat)
    requires cursor <= |log|
    ensures Follows(log, cursor, TakeNext(log, limit, cursor))
    ensures TakeNext(log, limit, cursor).dropped <==> |log| - cursor > limit
  {
    hide Last, StartOf;
    assert log[ReadFrom(log, limit, cursor)..] == log[ReadFrom(log, limit, cursor)..|log|];
  }

  lemma ChainedSnoc(log: seq<Byte>, taken: seq<Taken>, cursor: nat, next: Taken)
    requires Chained(log, taken, cursor) && Follows(log, cursor, next)
    ensures Chained(log, taken + [next], next.to)
  {
    assert (taken + [next])[..|taken|] == taken;
  }

  lemma StepChained(r: Reader, limit: nat, event: Event)
    requires r.cursor <= |r.log| && Chained(r.log, r.taken, r.cursor)
    ensures var s := Step(r, limit, event);
            s.cursor <= |s.log| && Chained(s.log, s.taken, s.cursor) &&
            (AnyDropped(s.taken) <==> AnyDropped(r.taken) || (event.Poll? && |r.log| - r.cursor > limit))
  {
    hide Chained, Follows, ReadFrom, ReadLog, Last, StartOf;
    if event.Poll? {
      TakeFollows(r.log, limit, r.cursor);
      ChainedSnoc(r.log, r.taken, r.cursor, TakeNext(r.log, limit, r.cursor));
      var s := Step(r, limit, event);
      assert s.taken[|r.taken|] in s.taken && forall t <- r.taken :: t in s.taken;
    } else {
      ChainedGrows(r.log, event.data, r.taken, r.cursor);
    }
  }

  /** Without a set drop flag the pieces read so far are the log, up to the cursor. */
  lemma {:induction false} ChunksAreLog(log: seq<Byte>, taken: seq<Taken>, cursor: nat)
    requires cursor <= |log| && Chained(log, taken, cursor) && !AnyDropped(taken)
    ensures Flatten(Chunks(taken)) == log[..cursor]
    decreases |taken|
  {
    if taken != [] {
      var init, last := taken[..|taken| - 1], taken[|taken| - 1];
      var before: nat :| before <= last.from && Chained(log, init, before) && Follows(log, before, last);
      assert last in taken && forall t <- init :: t in taken;
      ChunksAreLog(log, init, before);
      FlattenAppend(Chunks(init), [last.data]);
      assert Flatten([last.data]) == last.data + [];
    }
  }

  /** Where a chain of reads has got to. */
  function EndOf(taken: seq<Taken>): nat {
    if taken == [] then 0 else taken[|taken| - 1].to
  }

  lemma ChunksSnoc(taken: seq<Taken>, next: Taken)
    ensures Chunks(taken + [next]) == Chunks(taken) + [next.data]
  {
    assert (taken + [next])[..|taken|] == taken;
  }

  /** THE EXACT CONDITION, for any later part of a chain of reads: joined together they
      are that part of the log if and only if none of them has its drop flag set;
      otherwise they are shorter. */
  lemma {:induction false} TailJoined(log: seq<Byte>, taken: seq<Taken>, cursor: nat, m: nat)
    requires Chained(log, taken, cursor) && m <= |taken|
    ensures EndOf(taken[..m]) <= cursor <= |log|
    ensures var joined := Flatten(Chunks(taken)[m..]);
      && |joined| <= cursor - EndOf(taken[..m])
      && (joined == log[EndOf(taken[..m])..cursor] <==> !AnyDropped(taken[m..]))
    decreases |taken|
  {
    hide Follows, Chunks, Flatten, AnyDropped;
    if m == |taken| {
      assert taken[..m] == taken && taken[m..] == [] && Chunks(taken)[m..] == [];
      ChainEnds(log, taken, cursor);
      NothingJoined(log, cursor);
    } else {
      var init, last := taken[..|taken| - 1], taken[|taken| - 1];
      var before: nat :| before <= last.from && Chained(log, init, before) && Follows(log, before, last);
      TailJoined(log, init, before, m);
      assert taken == init + [last] && init[..m] == taken[..m];
      TailSnoc(log, init, before, last, m);
    }
  }

  lemma NothingJoined(log: seq<Byte>, cursor: nat)
    requires cursor <= |log|
    ensures Flatten<Byte>([]) == log[cursor..cursor] == [] && !AnyDropped([])
  {
  }

  lemma TailSnoc(log: seq<Byte>, init: seq<Taken>, before: nat, last: Taken, m: nat)
    requires m <= |init| && EndOf(init[..m]) <= before <= |log| && Follows(log, before, last)
    requires |Flatten(Chunks(init)[m..])| <= before - EndOf(init[..m])
    requires Flatten(Chunks(init)[m..]) == log[EndOf(init[..m])..before] <==> !AnyDropped(init[m..])
    ensures var joined := Flatten(Chunks(init + [last])[m..]);
      && |joined| <= last.to - EndOf(init[..m])
      && (joined == log[EndOf(init[..m])..last.to] <==> !AnyDropped((init + [last])[m..]))
  {
    hide Chunks, Flatten, AnyDropped, EndOf;
    assert (init + [last])[m..] == init[m..] + [last];
    ChunksSnoc(init, last);
    var front := Chunks(init)[m..];
    assert (Chunks(init) + [last.data])[m..] == front + [last.data];
    FlattenSnoc(front, last.data);
    DroppedSnoc(init[m..], last);
    JoinedSnoc(log, EndOf(init[..m]), before, last, Flatten(front));
  }

  lemma ChainEnds(log: seq<Byte>, taken: seq<Taken>, cursor: nat)
    requires Chained(log, taken, cursor)
    ensures EndOf(taken) == cursor <= |log|
  {
  }

  lemma DroppedSnoc(taken: seq<Taken>, last: Taken)
    ensures AnyDropped(taken + [last]) <==> AnyDropped(taken) || last.dropped
  {
    assert forall t <- taken :: t in taken + [last];
    assert last in taken + [last];
  }

  lemma JoinedSnoc(log: seq<Byte>, from: nat, before: nat, last: Taken, joined: seq<Byte>)
    requires from <= before && Follows(log, before, last) && |joined| <= before - from
    ensures joined + last.data == log[from..last.to] <==> joined == log[from..before] && !last.dropped
  {
    if joined + last.data == log[from..last.to] {
      assert |joined| + (last.to - last.from) == last.to - from;
      assert last.from == before;
      assert (joined + last.data)[..|joined|] == joined;
      assert log[from..last.to][..before - from] == log[from..before];
    }
    if joined == log[from..before] && !last.dropped {
      assert log[from..before] + log[before..last.to] == log[from..last.to];
    }
  }

  /** At no poll does the reader lag by more than the buffer holds. */
  predicate KeepsUp(r: Reader, limit: nat, events: seq<Event>)
    decreases |events|
  {
    events == [] ||
    ((events[0].Poll? ==> |r.log| - r.cursor <= limit) && KeepsUp(Step(r, limit, events[0]), limit, events[1..]))
  }

  lemma {:induction false} RunChained(r: Reader, limit: nat, events: seq<Event>)
    requires r.cursor <= |r.log| && Chained(r.log, r.taken, r.cursor)
    ensures var s := Run(r, limit, events);
            s.cursor <= |s.log| && Chained(s.log, s.taken, s.cursor) &&
            (AnyDropped(s.taken) <==> AnyDropped(r.taken) || !KeepsUp(r, limit, events))
    decreases |events|
  {
    hide Chained, Step, AnyDropped;
    if events != [] {
      StepChained(r, limit, events[0]);
      RunChained(Step(r, limit, events[0]), limit, events[1..]);
    }
  }

  /** REFINEMENT OF THE LOG. Whatever arrives and whenever the reader polls: the
      reads are slices of the log in order, a drop flag is set exactly when the
      reader once lagged by more than the buffer holds, and otherwise the reads
      joined together are the log up to the cursor. */
  lemma ReaderSeesLog(limit: nat, events: seq<Event>)
    ensures var r := Run(Fresh, limit, events);
            r.cursor <= |r.log| && Chained(r.log, r.taken, r.cursor) &&
            (AnyDropped(r.taken) <==> !KeepsUp(Fresh, limit, events)) &&
            (KeepsUp(Fresh, limit, events) ==> Flatten(Chunks(r.taken)) == r.log[..r.cursor])
  {
    RunChained(Fresh, limit, events);
    hide Chained, KeepsUp, Run;
    var r := Run(Fresh, limit, events);
    if KeepsUp(Fresh, limit, events) {
      ChunksAreLog(r.log, r.taken, r.cursor);
    }
  }

  /** A reader sees the log up to its cursor if and only if it keeps up. */
  lemma SeesLogIff(limit: nat, events: seq<Event>)
    ensures var r := Run(Fresh, limit, events);
      r.cursor <= |r.log| && (Flatten(Chunks(r.taken)) == r.log[..r.cursor] <==> KeepsUp(Fresh, limit, events))
  {
    hide Chained, KeepsUp, Run, AnyDropped, Flatten, Chunks;
    ReaderSeesLog(limit, events);
    var r := Run(Fresh, limit, events);
    TailJoined(r.log, r.taken, r.cursor, 0);
    assert r.taken[..0] == [] && r.taken[0..] == r.taken && Chunks(r.taken)[0..] == Chunks(r.taken);
  }

  /** A frame parser fed by such a reader answers as if it had been given the log
      itself. */
  lemma ParserThroughBuffer(cfg: Config, limit: nat, events: seq<Event>)
    requires KeepsUp(Fresh, limit, events)
    requires var r := Run(Fresh, limit, events);
             r.cursor <= |r.log| ==> Tame(Extend(Initial(cfg), r.log[..r.cursor]))
    ensures var r := Run(Fresh, limit, events);
            r.cursor <= |r.log| &&
            AlikeSteps(FeedAll(Initial(cfg), Chunks(r.taken)), Feed(Initial(cfg), r.log[..r.cursor]))
  {
    hide Tame, FeedAll, Feed, AlikeSteps, Run, KeepsUp, Flatten, Chunks, Chained;
    ReaderSeesLog(limit, events);
    ChunkIndependence(Initial(cfg), Chunks(Run(Fresh, limit, events).taken));
  }
}
