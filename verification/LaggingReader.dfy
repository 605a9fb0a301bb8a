/** What a reader that falls behind the terminal's buffer can make of a frame: the
    session does not look at the drop flag of its reads. */
module LaggingReader {
  import opened Bytes
  import opened FrameSpec
  import opened FrameCompleteness
  import opened FrameRoundTrip
  import RingBuffer
  import Ansi
  import Decimal
  import Utf8

  /** The frame up to its begin line, and everything after that. */
  function Head(cfg: Config, k: nat, noise: seq<Byte>): seq<Byte> {
    noise + LineEnd(k) + Marker(cfg.Begin(), k)
  }

  function Tail(cfg: Config, k: nat, out: seq<Byte>, code: int, cwd: seq<Byte>): seq<Byte> {
    out + Ending(cfg, k, code, cwd)
  }

  function Ending(cfg: Config, k: nat, code: int, cwd: seq<Byte>): seq<Byte> {
    (if cfg.nonce.Some? then LineEnd(k) + Marker(cfg.Probe(), k) + Marker(cfg.ProbeEnd(), k) else []) +
    LineEnd(k) + Marker(cfg.EndPrefix() + Decimal.Print(code), k) +
    Utf8.Encode(cfg.CwdPrefix()) + cwd + LineEnd(k) +
    (if cfg.nonce.Some? then Marker(cfg.Health(), k) else [])
  }

  lemma HeadAndTail(cfg: Config, k: nat, noise: seq<Byte>, out: seq<Byte>, code: int, cwd: seq<Byte>)
    ensures WrapperOutput(cfg, k, noise, out, code, cwd) == Head(cfg, k, noise) + Tail(cfg, k, out, code, cwd)
    ensures |out| < |Tail(cfg, k, out, code, cwd)|
  {
    hide WrapperOutput, LineEnd, Marker, Utf8.Encode, Decimal.Print, Config.Begin, Config.Probe, Config.ProbeEnd, Config.EndPrefix,
      Config.CwdPrefix, Config.Health;
    WrapperMarkers(cfg, k, noise, out, code, cwd);
    var probe := if cfg.nonce.Some? then LineEnd(k) + Marker(cfg.Probe(), k) + Marker(cfg.ProbeEnd(), k) else [];
    var health := if cfg.nonce.Some? then Marker(cfg.Health(), k) else [];
    Regrouped(Head(cfg, k, noise), out, probe, LineEnd(k), Marker(cfg.EndPrefix() + Decimal.Print(code), k),
              Utf8.Encode(cfg.CwdPrefix()), cwd, LineEnd(k), health);
  }

  lemma Regrouped<T>(a: seq<T>, b: seq<T>, c: seq<T>, d: seq<T>, e: seq<T>, f: seq<T>, g: seq<T>, h: seq<T>, i: seq<T>)
    ensures a + b + c + d + e + f + g + h + i == a + (b + (c + d + e + f + g + h + i))
  {
  }

  /** The begin line is printed and read; then so much is printed at once that the buffer
      keeps only what follows `lost`; then the rest is read. */
  function Events(head: seq<Byte>, lost: seq<Byte>, tail: seq<Byte>): seq<RingBuffer.Event> {
    [RingBuffer.Arrive(head), RingBuffer.Poll, RingBuffer.Arrive(lost + tail), RingBuffer.Poll]
  }

  lemma WhatIsRead(head: seq<Byte>, lost: seq<Byte>, tail: seq<Byte>)
    requires lost != [] && |head| <= |tail|
    ensures var r := RingBuffer.Run(RingBuffer.Fresh, |tail|, Events(head, lost, tail));
      r.log == head + (lost + tail) && RingBuffer.Chunks(r.taken) == [head, tail] && RingBuffer.AnyDropped(r.taken)
  {
    hide RingBuffer.TakeNext, RingBuffer.Chunks, RingBuffer.Run, RingBuffer.Step, RingBuffer.AnyDropped;
    var limit, events := |tail|, Events(head, lost, tail);
    FirstRead(head, limit);
    LateRead(head, lost, tail);
    var log := head + (lost + tail);
    var first, second := RingBuffer.TakeNext(head, limit, 0), RingBuffer.TakeNext(log, limit, |head|);
    assert [] + head == head;
    Steps(RingBuffer.Reader([], 0, []), limit, head);
    Steps(RingBuffer.Reader(head, 0, []), limit, []);
    Steps(RingBuffer.Reader(head, |head|, [] + [first]), limit, lost + tail);
    Steps(RingBuffer.Reader(log, |head|, [] + [first]), limit, []);
    FourSteps(limit, events);
    TwoReads(first, second);
  }

  lemma Steps(r: RingBuffer.Reader, limit: nat, more: seq<Byte>)
    ensures RingBuffer.Step(r, limit, RingBuffer.Arrive(more)) == r.(log := r.log + more)
    ensures RingBuffer.Step(r, limit, RingBuffer.Poll)
      == r.(cursor := |r.log|, taken := r.taken + [RingBuffer.TakeNext(r.log, limit, r.cursor)])
  {
    hide RingBuffer.TakeNext;
  }

  lemma TwoReads(first: RingBuffer.Taken, second: RingBuffer.Taken)
    requires second.dropped
    ensures RingBuffer.Chunks([] + [first] + [second]) == [first.data, second.data]
    ensures RingBuffer.AnyDropped([] + [first] + [second])
  {
    RingBuffer.ChunksSnoc([], first);
    RingBuffer.ChunksSnoc([] + [first], second);
    NoChunks();
    assert second in [] + [first] + [second];
  }

  lemma NoChunks()
    ensures RingBuffer.Chunks([]) == []
  {
  }

  lemma FourSteps(limit: nat, events: seq<RingBuffer.Event>)
    requires |events| == 4
    ensures var s := RingBuffer.Step(RingBuffer.Step(RingBuffer.Step(RingBuffer.Step(
        RingBuffer.Fresh, limit, events[0]), limit, events[1]), limit, events[2]), limit, events[3]);
      RingBuffer.Run(RingBuffer.Fresh, limit, events) == s
  {
    hide RingBuffer.Step;
    var r1 := RingBuffer.Step(RingBuffer.Fresh, limit, events[0]);
    var r2 := RingBuffer.Step(r1, limit, events[1]);
    var r3 := RingBuffer.Step(r2, limit, events[2]);
    var r4 := RingBuffer.Step(r3, limit, events[3]);
    assert events[3..][1..] == [] && RingBuffer.Run(r4, limit, []) == r4;
    assert events[2..][1..] == events[3..] && events[1..][1..] == events[2..];
    assert RingBuffer.Run(r3, limit, events[3..]) == r4;
    assert RingBuffer.Run(r2, limit, events[2..]) == r4;
    assert RingBuffer.Run(r1, limit, events[1..]) == r4;
  }

  lemma FirstRead(head: seq<Byte>, limit: nat)
    requires |head| <= limit
    ensures RingBuffer.TakeNext(head, limit, 0) == RingBuffer.Taken(0, |head|, head, false)
  {
    assert head[0..] == head;
  }

  lemma LateRead(head: seq<Byte>, lost: seq<Byte>, tail: seq<Byte>)
    requires lost != []
    ensures var log := head + (lost + tail);
      RingBuffer.TakeNext(log, |tail|, |head|) == RingBuffer.Taken(|head| + |lost|, |log|, tail, true)
  {
    var log := head + (lost + tail);
    assert log[|head| + |lost|..] == tail;
  }

  /** OUTPUT LOST UNNOTICED. A command prints `lost` and then `out` faster than it is read,
      by more than the buffer holds: the frame completes all the same, with the right
      status and directory, with `out` alone for output, and not marked as truncated
      when the parser's limit is the buffer's. It takes a read that came too late, and
      SeesLogIff of the buffer says that nothing else can do it. */
  lemma OutputLost(cfg: Config, k: nat, noise: seq<Byte>, lost: seq<Byte>, out: seq<Byte>, code: int, cwd: seq<Byte>)
    requires cfg.Valid() && Unmarked(cfg, k, noise, out) && NoTrailingReturn(out)
    requires NoTrailingReturn(cwd) && NEWLINE !in cwd
    requires GentleTranscript(cfg, Printed(cfg, k, noise, out, code, cwd))
    requires lost != [] && |Head(cfg, k, noise)| <= |Tail(cfg, k, out, code, cwd)|
    ensures var capacity := |Tail(cfg, k, out, code, cwd)|;
      var r := RingBuffer.Run(RingBuffer.Fresh, capacity, Events(Head(cfg, k, noise), lost, Tail(cfg, k, out, code, cwd)));
      && r.log == WrapperOutput(cfg, k, noise, lost + out, code, cwd)
      && RingBuffer.AnyDropped(r.taken)
      && FeedAll(Initial(cfg), RingBuffer.Chunks(r.taken)) ==
           Completed(CommandResult(Present(Last(out, cfg.limit)), code, Ansi.Strip(Utf8.DecodeReplacing(cwd)), |out| > cfg.limit))
      && (cfg.limit == capacity ==> !(|out| > cfg.limit))
  {
    hide Unmarked, GentleTranscript, Printed, FeedAll, Present, Ansi.Strip, Utf8.DecodeReplacing, WrapperOutput, Head, Ending,
      RingBuffer.Run, RingBuffer.Chunks, RingBuffer.AnyDropped, Events, Last, Flatten;
    var head, tail := Head(cfg, k, noise), Tail(cfg, k, out, code, cwd);
    HeadAndTail(cfg, k, noise, out, code, cwd);
    HeadAndTail(cfg, k, noise, lost + out, code, cwd);
    assert Tail(cfg, k, lost + out, code, cwd) == lost + tail;
    WhatIsRead(head, lost, tail);
    TwoPieces(head, tail);
    assert head + tail + [] == head + tail;
    PiecewiseRoundTrip(cfg, k, noise, out, code, cwd, [], [head, tail]);
  }

  lemma TwoPieces(a: seq<Byte>, b: seq<Byte>)
    ensures Flatten([a, b]) == a + b
  {
    assert [a, b][1..] == [b] && [b][1..] == [] && Flatten<Byte>([]) == [];
    assert Flatten([b]) == b + [] == b;
  }
}
