/** Every completed frame has a transcript: no stream completes a frame without
    the lines that prove it, however it is cut and however long its lines are. */
module FrameSoundness {
  import opened Common
  import opened Bytes
  import opened FrameSpec
  import opened FrameChunks
  import opened FrameTranscript

  lemma KeptSnoc(pieces: seq<seq<Byte>>, last: seq<Byte>)
    ensures Kept(pieces + [last]) == Flatten(pieces) + TrimLineEnd(last)
  {
    assert (pieces + [last])[..|pieces|] == pieces;
  }

  lemma LeakedSnoc(pieces: seq<seq<Byte>>, last: seq<Byte>)
    ensures Leaked(pieces + [last]) == Leaked(pieces) + if IsFragment(last) then last else []
  {
    assert (pieces + [last])[..|pieces|] == pieces;
  }

  lemma RoundsSnoc(rounds: seq<Round>, last: Round)
    ensures RoundsBytes(rounds + [last]) == RoundsBytes(rounds) + last.Bytes()
    ensures RoundsOutput(rounds + [last]) == RoundsOutput(rounds) + Kept(last.output) + Leaked(last.inside)
  {
    assert (rounds + [last])[..|rounds|] == rounds;
  }

  /** One more piece of output: it is in the transcript and in the store. */
  lemma OutputGrows(t: Transcript, piece: seq<Byte>, stored: seq<Byte>)
    requires t.end == t.cwd == t.health == []
    ensures var u := t.(output := t.output + [piece]);
            u.Bytes() == t.Bytes() + piece && u.Output() == RoundsOutput(t.rounds) + Flatten(t.output) + TrimLineEnd(piece)
    ensures RoundsOutput(t.rounds) + Flatten(t.output + [piece]) == RoundsOutput(t.rounds) + Flatten(t.output) + piece
  {
    FlattenSnoc(t.output, piece);
    KeptSnoc(t.output, piece);
    hide Kept, Flatten, RoundsOutput, RoundsBytes, TrimLineEnd;
    var front := Flatten(t.noise) + t.begin + RoundsBytes(t.rounds);
    assert front + (Flatten(t.output) + piece) == front + Flatten(t.output) + piece;
  }

  /** A step leads from a state explained by some transcript to one explained by
      `t`, or to a result that `t` accounts for. */
  ghost predicate Explained(cfg: Config, s: Step, t: Transcript, received: seq<Byte>, plain: bool) {
    match s
    case Waiting(g) => g.cfg == cfg && Explains(g, t) && t.Bytes() + g.scan == received && (plain ==> t.Plain())
    case Completed(r) => t.Valid(cfg) && t.Bytes() <= received && r == t.Result(cfg) && (plain ==> t.Plain())
    case Failed(_) => true
  }

  lemma SearchingStep(f: Frame, t: Transcript, raw: seq<Byte>) returns (u: Transcript)
    requires f.phase.Searching? && Explains(f, t) && IsLine(raw)
    ensures Explained(f.cfg, Consume(f, raw), u, t.Bytes() + raw + f.scan, t.Plain())
  {
    hide Normalize;
    if Normalize(raw) == f.cfg.Begin() {
      u := t.(begin := raw);
    } else {
      u := t.(noise := t.noise + [raw]);
      FlattenSnoc(t.noise, raw);
    }
  }

  lemma BegunGrows(cfg: Config, t: Transcript, piece: seq<Byte>)
    requires t.Begun(cfg) && IsOutput(cfg, piece)
    ensures t.(output := t.output + [piece]).Begun(cfg)
    ensures t.Plain() && IsLine(piece) ==> t.(output := t.output + [piece]).Plain()
  {
    hide IsOutput, IsNoise, Normalize, IsLine;
  }

  lemma OutputStep(f: Frame, t: Transcript, raw: seq<Byte>) returns (u: Transcript)
    requires f.phase.Body? && Explains(f, t) && IsLine(raw) && Ordinary(f.cfg, raw)
    ensures Explained(f.cfg, Consume(f, raw), u, t.Bytes() + raw + f.scan, t.Plain())
  {
    hide Ordinary, TrimLineEnd, Kept, Flatten, RoundsOutput, RoundsBytes, Consume, Transcript.Bytes, Transcript.Output,
      Transcript.Begun, Transcript.Plain;
    u := t.(output := t.output + [raw]);
    OrdinaryConsume(f, raw);
    OutputGrows(t, raw, []);
    BegunGrows(f.cfg, t, raw);
  }

  lemma OpenStep(f: Frame, t: Transcript, raw: seq<Byte>) returns (u: Transcript)
    requires f.phase.Body? && Explains(f, t) && IsLine(raw) && f.cfg.nonce.Some? && Normalize(raw) == f.cfg.Probe()
    ensures Explained(f.cfg, Consume(f, raw), u, t.Bytes() + raw + f.scan, t.Plain())
  {
    hide Normalize, TrimLineEnd, Kept, Flatten, RoundsOutput, RoundsBytes, Leaked, Round.Bytes, Transcript.Bytes, Transcript.Plain;
    var round := Round(t.output, raw, [], []);
    u := t.(rounds := t.rounds + [round], output := []);
    RoundsSnoc(t.rounds, round);
    assert u.rounds[..|t.rounds|] == t.rounds;
    NothingKept();
    OpenBytes(t, raw);
    OpenPlain(t, raw);
  }

  lemma OpenPlain(t: Transcript, raw: seq<Byte>)
    ensures t.Plain() ==> t.(rounds := t.rounds + [Round(t.output, raw, [], [])], output := []).Plain()
  {
    hide IsLine;
  }

  lemma OpenBytes(t: Transcript, raw: seq<Byte>)
    requires t.end == t.cwd == t.health == []
    ensures t.(rounds := t.rounds + [Round(t.output, raw, [], [])], output := []).Bytes() == t.Bytes() + raw
  {
    hide Kept, Flatten, RoundsOutput, RoundsBytes, Leaked;
    var round := Round(t.output, raw, [], []);
    RoundsSnoc(t.rounds, round);
    NothingKept();
    assert round.Bytes() == Flatten(t.output) + raw;
  }

  lemma NothingKept()
    ensures Kept([]) == [] && Flatten<Byte>([]) == [] && Leaked([]) == [] && TrimLineEnd([]) == []
  {
  }

  lemma EndStep(f: Frame, t: Transcript, raw: seq<Byte>) returns (u: Transcript)
    requires f.phase.Body? && Explains(f, t) && IsLine(raw) && Consume(f, raw).Waiting?
    requires f.cfg.EndPrefix() <= Normalize(raw) && !(f.cfg.nonce.Some? && f.cfg.Probe() <= Normalize(raw))
    ensures Explained(f.cfg, Consume(f, raw), u, t.Bytes() + raw + f.scan, t.Plain())
  {
    hide Normalize, TrimLineEnd, Kept, Flatten, RoundsOutput, RoundsBytes;
    u := t.(end := raw);
    assert u.Bytes() == t.Bytes() + raw;
  }

  lemma BodyStep(f: Frame, t: Transcript, raw: seq<Byte>) returns (u: Transcript)
    requires f.phase.Body? && Explains(f, t) && IsLine(raw)
    ensures Explained(f.cfg, Consume(f, raw), u, t.Bytes() + raw + f.scan, t.Plain())
  {
    u := t;
    if f.cfg.nonce.Some? && Normalize(raw) == f.cfg.Probe() {
      u := OpenStep(f, t, raw);
    } else if Ordinary(f.cfg, raw) {
      u := OutputStep(f, t, raw);
    } else if Consume(f, raw).Waiting? {
      hide Normalize, Explains, Explained;
      u := EndStep(f, t, raw);
    }
  }

  /** Replacing the last round by one that carries `piece` more at its end. */
  lemma LastRoundGrows(t: Transcript, grown: Round, piece: seq<Byte>) returns (u: Transcript)
    requires t.rounds != [] && t.output == [] && t.end == t.cwd == t.health == []
    requires var last := t.rounds[|t.rounds| - 1];
             grown.Bytes() == last.Bytes() + piece && (last.Plain() && IsLine(piece) ==> grown.Plain())
    ensures u == t.(rounds := t.rounds[..|t.rounds| - 1] + [grown])
    ensures u.Bytes() == t.Bytes() + piece
    ensures t.Plain() && IsLine(piece) ==> u.Plain()
    ensures RoundsOutput(u.rounds) ==
            RoundsOutput(t.rounds[..|t.rounds| - 1]) + Kept(grown.output) + Leaked(grown.inside)
  {
    hide Kept, Flatten, RoundsOutput, RoundsBytes, Leaked, Round.Bytes, Round.Plain;
    var init, last := t.rounds[..|t.rounds| - 1], t.rounds[|t.rounds| - 1];
    u := t.(rounds := init + [grown]);
    assert t.rounds == init + [last] && last in t.rounds;
    RoundsSnoc(init, last);
    RoundsSnoc(init, grown);
    NothingKept();
    assert u.Bytes() == Flatten(t.noise) + t.begin + (RoundsBytes(init) + (last.Bytes() + piece));
  }

  lemma CloseStep(f: Frame, t: Transcript, raw: seq<Byte>) returns (u: Transcript)
    requires f.phase.Probing? && ExplainsProbe(f, t) && IsLine(raw) && Normalize(raw) == f.cfg.ProbeEnd()
    ensures Explains(f.(phase := Body(true)), u) && u.Bytes() == t.Bytes() + raw && (t.Plain() ==> u.Plain())
  {
    hide Normalize, Kept, Flatten, RoundsOutput, RoundsBytes, Leaked, TrimLineEnd;
    var round := t.rounds[|t.rounds| - 1];
    var closed := round.(close := raw);
    assert closed.Bytes() == round.Bytes() + raw;
    u := LastRoundGrows(t, closed, raw);
    NothingKept();
    assert RoundsOutput(t.rounds) == RoundsOutput(u.rounds) by {
      assert t.rounds == t.rounds[..|t.rounds| - 1] + [round];
      RoundsSnoc(t.rounds[..|t.rounds| - 1], round);
    }
  }

  /** One more piece inside the open probe. */
  lemma InsideGrows(f: Frame, t: Transcript, piece: seq<Byte>) returns (u: Transcript)
    requires ExplainsProbe(f, t) && f.phase.Probing? && PassesForBlank(piece)
    ensures ExplainsProbe(f.(stored := f.stored + if IsFragment(piece) then piece else []), u)
    ensures u.Bytes() == t.Bytes() + piece && (t.Plain() && IsLine(piece) ==> u.Plain())
  {
    hide Normalize, Kept, Flatten, RoundsOutput, RoundsBytes, Leaked, Transcript.Begun, Transcript.Bytes,
      Transcript.Plain;
    var round := t.rounds[|t.rounds| - 1];
    var grown := round.(inside := round.inside + [piece]);
    FlattenSnoc(round.inside, piece);
    assert grown.Bytes() == round.Bytes() + piece;
    u := LastRoundGrows(t, grown, piece);
    LeakedSnoc(round.inside, piece);
    assert t.rounds == t.rounds[..|t.rounds| - 1] + [round];
    RoundsSnoc(t.rounds[..|t.rounds| - 1], round);
    assert u.rounds[..|t.rounds| - 1] == t.rounds[..|t.rounds| - 1];
  }

  lemma ProbeStep(f: Frame, t: Transcript, raw: seq<Byte>) returns (u: Transcript)
    requires f.phase.Probing? && Explains(f, t) && IsLine(raw)
    ensures Explained(f.cfg, Consume(f, raw), u, t.Bytes() + raw + f.scan, t.Plain())
  {
    hide Normalize, ExplainsProbe, Transcript.Bytes, Transcript.Plain;
    u := t;
    assert ExplainsProbe(f, t);
    if Normalize(raw) == f.cfg.ProbeEnd() {
      hide Explains;
      u := CloseStep(f, t, raw);
    } else if Normalize(raw) == "" {
      u := InsideGrows(f, t, raw);
      LineIsNoFragment(raw);
      assert f.(stored := f.stored + []) == f;
    }
  }

  lemma LineIsNoFragment(p: seq<Byte>)
    requires IsLine(p)
    ensures !IsFragment(p)
  {
  }

  lemma TailStep(f: Frame, t: Transcript, raw: seq<Byte>) returns (u: Transcript)
    requires (f.phase.Exited? || f.phase.Located?) && Explains(f, t) && IsLine(raw)
    ensures Explained(f.cfg, Consume(f, raw), u, t.Bytes() + raw + f.scan, t.Plain())
  {
    hide Explains, Explained, Consume;
    if f.phase.Exited? { u := CwdStep(f, t, raw); } else { u := HealthStep(f, t, raw); }
  }

  lemma CwdStep(f: Frame, t: Transcript, raw: seq<Byte>) returns (u: Transcript)
    requires f.phase.Exited? && Explains(f, t) && IsLine(raw)
    ensures Explained(f.cfg, Consume(f, raw), u, t.Bytes() + raw + f.scan, t.Plain())
  {
    hide Normalize, TrimLineEnd, Kept, Flatten, RoundsOutput, RoundsBytes, Present, Round.Bytes, Round.Plain, Transcript.Bytes;
    u := t.(cwd := raw);
    CwdBytes(t, raw);
  }

  lemma HealthStep(f: Frame, t: Transcript, raw: seq<Byte>) returns (u: Transcript)
    requires f.phase.Located? && Explains(f, t) && IsLine(raw)
    ensures Explained(f.cfg, Consume(f, raw), u, t.Bytes() + raw + f.scan, t.Plain())
  {
    hide Normalize, TrimLineEnd, Kept, Flatten, RoundsOutput, RoundsBytes, Present, Round.Bytes, Round.Plain, Transcript.Bytes;
    u := t.(health := raw);
    HealthBytes(t, raw);
  }

  lemma CwdBytes(t: Transcript, raw: seq<Byte>)
    requires t.cwd == t.health == []
    ensures t.(cwd := raw).Bytes() == t.Bytes() + raw
  {
    hide Flatten, RoundsBytes;
  }

  lemma HealthBytes(t: Transcript, raw: seq<Byte>)
    requires t.health == []
    ensures t.(health := raw).Bytes() == t.Bytes() + raw
  {
    hide Flatten, RoundsBytes;
  }

  lemma ConsumeExplained(f: Frame, t: Transcript, raw: seq<Byte>) returns (u: Transcript)
    requires Explains(f, t) && IsLine(raw)
    ensures Explained(f.cfg, Consume(f, raw), u, t.Bytes() + raw + f.scan, t.Plain())
  {
    hide Normalize, Explains, Explained, Consume;
    match f.phase
    case Searching => u := SearchingStep(f, t, raw);
    case Body(_) => u := BodyStep(f, t, raw);
    case Probing => u := ProbeStep(f, t, raw);
    case _ => u := TailStep(f, t, raw);
  }

  lemma BoundExplained(f: Frame, t: Transcript) returns (u: Transcript)
    requires Explains(f, t) && NEWLINE !in f.scan
    ensures Explained(f.cfg, Bound(f), u, t.Bytes() + f.scan, false)
  {
    hide Explains, Transcript.Bytes, IsFragment, Transcript.Plain, StoreHeld;
    u := t;
    if |f.scan| > PARTIAL_LINE_LIMIT && (f.phase.Body? || f.phase.Probing?) {
      var flush := |f.scan| - PARTIAL_LINE_LIMIT;
      var cut, rest := f.scan[..flush], f.scan[flush..];
      BoundCut(f);
      hide Bound;
      CutIsFragment(f.scan, flush);
      if f.phase.Body? { u := CutOutput(f, t, cut); } else { u := CutProbe(f, t, cut); }
      assert t.Bytes() + cut + rest == t.Bytes() + f.scan;
      ExplainsAnyScan(f.(stored := f.stored + HeldBytes(f.held) + cut, held := None), u, rest);
    }
  }

  lemma CutIsFragment(scan: seq<Byte>, flush: nat)
    requires NEWLINE !in scan && 0 < flush <= |scan|
    ensures IsFragment(scan[..flush])
  {
  }

  lemma CutProbe(f: Frame, t: Transcript, cut: seq<Byte>) returns (u: Transcript)
    requires f.phase.Probing? && Explains(f, t) && IsFragment(cut)
    ensures u.Bytes() == t.Bytes() + cut
    ensures Explains(f.(stored := f.stored + HeldBytes(f.held) + cut, held := None), u)
  {
    hide ExplainsProbe, Transcript.Bytes, Transcript.Plain;
    u := InsideGrows(f, t, cut);
    ProbeHoldsNothing(f, t);
    assert f.stored + HeldBytes(f.held) + cut == f.stored + cut;
  }

  lemma ProbeHoldsNothing(f: Frame, t: Transcript)
    requires ExplainsProbe(f, t)
    ensures f.held == None
  {
  }

  lemma CutOutput(f: Frame, t: Transcript, cut: seq<Byte>) returns (u: Transcript)
    requires f.phase.Body? && Explains(f, t) && IsFragment(cut)
    ensures u.Bytes() == t.Bytes() + cut
    ensures Explains(f.(stored := f.stored + HeldBytes(f.held) + cut, held := None), u)
  {
    hide Ordinary, Kept, Flatten, RoundsOutput, RoundsBytes, Transcript.Bytes, Transcript.Output, Transcript.Begun,
      Transcript.Plain;
    u := t.(output := t.output + [cut]);
    OutputGrows(t, cut, []);
    NothingKept();
    BegunGrows(f.cfg, t, cut);
    assert TrimLineEnd(cut) == cut;
  }

  /** Draining keeps the account; an account without fragments stays so unless
      an overlong unfinished line is left at the end. */
  lemma {:induction false} DrainExplained(f: Frame, t: Transcript) returns (u: Transcript)
    requires Explains(f, t)
    ensures match Drain(f)
            case Completed(r) => Explained(f.cfg, Drain(f), u, t.Bytes() + f.scan, t.Plain())
            case _ => Explained(f.cfg, Drain(f), u, t.Bytes() + f.scan, false)
    decreases |f.scan|
  {
    hide Consume, Bound, Explains, Transcript.Bytes, Transcript.Plain, Transcript.Valid, Transcript.Result;
    var n := FindNewline(f.scan);
    if n == |f.scan| {
      DrainRest(f);
      u := BoundExplained(f, t);
    } else {
      var raw, left := f.scan[..n + 1], f.scan[n + 1..];
      assert f.scan == raw + left;
      DrainStep(f, raw, left);
      ExplainsAnyScan(f, t, left);
      u := ConsumeExplained(f.(scan := left), t, raw);
      assert t.Bytes() + raw + left == t.Bytes() + f.scan;
      var next := Consume(f.(scan := left), raw);
      if next.Waiting? {
        u := DrainExplained(next.frame, u);
      }
    }
  }

  lemma ExplainsAnyScan(f: Frame, t: Transcript, scan: seq<Byte>)
    requires Explains(f, t)
    ensures Explains(f.(scan := scan), t)
  {
  }

  lemma {:induction false} FeedAllExplained(f: Frame, t: Transcript, chunks: seq<seq<Byte>>) returns (u: Transcript)
    requires Explains(f, t)
    ensures Explained(f.cfg, FeedAll(f, chunks), u, t.Bytes() + f.scan + Flatten(chunks), false)
    decreases |chunks|
  {
    hide Drain, Explains, Transcript.Bytes, Transcript.Plain, Transcript.Valid, Transcript.Result;
    if chunks == [] {
      u := t;
    } else {
      var g := f.(scan := f.scan + chunks[0]);
      ExplainsAnyScan(f, t, g.scan);
      u := DrainExplained(g, t);
      assert t.Bytes() + g.scan + Flatten(chunks[1..]) == t.Bytes() + f.scan + Flatten(chunks);
      if Drain(g).Waiting? {
        u := FeedAllExplained(Drain(g).frame, u, chunks[1..]);
      }
    }
  }

  lemma NothingExplains(cfg: Config)
    ensures Explains(Initial(cfg), Nothing) && Nothing.Bytes() == [] && Nothing.Plain()
  {
  }

  /** NO FALSE COMPLETION. Whatever the stream, its pieces and its line lengths: a
      result means that the stream begins with a valid transcript, and the result
      is what that transcript says. */
  lemma NoFalseCompletion(cfg: Config, chunks: seq<seq<Byte>>, r: CommandResult)
    requires FeedAll(Initial(cfg), chunks) == Completed(r)
    ensures exists t: Transcript :: t.Valid(cfg) && t.Bytes() <= Flatten(chunks) && r == t.Result(cfg)
  {
    hide FeedAll, Flatten, Transcript.Bytes, Transcript.Valid, Transcript.Result, Explains;
    NothingExplains(cfg);
    var t := FeedAllExplained(Initial(cfg), Nothing, chunks);
    assert [] + [] + Flatten(chunks) == Flatten(chunks);
  }

  /** Of a stream fed whole, the transcript has no fragments. */
  lemma WholeCompletion(cfg: Config, stream: seq<Byte>, r: CommandResult)
    requires Feed(Initial(cfg), stream) == Completed(r)
    ensures exists t: Transcript ::
              t.Valid(cfg) && t.Plain() && t.Bytes() <= stream && r == t.Result(cfg)
  {
    hide Drain, Transcript.Bytes, Transcript.Valid, Transcript.Result, Transcript.Plain, Explains;
    NothingExplains(cfg);
    ExplainsAnyScan(Initial(cfg), Nothing, [] + stream);
    var t := DrainExplained(Initial(cfg).(scan := [] + stream), Nothing);
    assert [] + ([] + stream) == stream;
  }

  lemma {:induction false} DrainSettles(f: Frame)
    ensures Drain(f).Waiting? ==> Settled(Drain(f).frame)
    decreases |f.scan|
  {
    hide Consume;
    var n := FindNewline(f.scan);
    if n < |f.scan| {
      var next := Consume(f.(scan := f.scan[n + 1..]), f.scan[..n + 1]);
      if next.Waiting? { DrainSettles(next.frame); }
    }
  }

  lemma {:induction false} FeedAllSettles(f: Frame, chunks: seq<seq<Byte>>)
    requires Settled(f)
    ensures FeedAll(f, chunks).Waiting? ==> Settled(FeedAll(f, chunks).frame)
    decreases |chunks|
  {
    hide Drain, Settled;
    if chunks != [] {
      DrainSettles(f.(scan := f.scan + chunks[0]));
      if Feed(f, chunks[0]).Waiting? { FeedAllSettles(Feed(f, chunks[0]).frame, chunks[1..]); }
    }
  }

  /** OUTPUT CONSERVATION, at any line length and however the stream is cut: while
      the output runs, the bytes ever stored, the line held back and the unfinished
      line are together exactly what came after the begin line, and the unfinished
      line stays within its limit. */
  lemma OutputConserved(cfg: Config, chunks: seq<seq<Byte>>, f: Frame)
    requires FeedAll(Initial(cfg), chunks) == Waiting(f) && f.phase == Body(cfg.nonce.None?)
    ensures exists noise, begin: seq<Byte> ::
              IsLine(begin) && Normalize(begin) == cfg.Begin() &&
              noise + begin + (f.stored + HeldBytes(f.held) + f.scan) == Flatten(chunks)
    ensures Settled(f)
  {
    hide FeedAll, IsLine, Normalize, Explains, Transcript.Bytes, Flatten, Settled;
    NothingExplains(cfg);
    InitialSettled(cfg);
    FeedAllSettles(Initial(cfg), chunks);
    var t := FeedAllExplained(Initial(cfg), Nothing, chunks);
    BodyBytes(f, t);
    var noise, rest := Flatten(t.noise), f.stored + HeldBytes(f.held) + f.scan;
    assert [] + [] + Flatten(chunks) == Flatten(chunks);
    assert noise + t.begin + rest == noise + t.begin + (f.stored + HeldBytes(f.held)) + f.scan;
  }

  lemma InitialSettled(cfg: Config)
    ensures Settled(Initial(cfg))
  {
  }

  lemma BodyBytes(f: Frame, t: Transcript)
    requires Explains(f, t) && f.phase == Body(f.cfg.nonce.None?)
    ensures t.Bytes() == Flatten(t.noise) + t.begin + (f.stored + HeldBytes(f.held))
    ensures IsLine(t.begin) && Normalize(t.begin) == f.cfg.Begin()
  {
    assert RoundsBytes(t.rounds) == [] && RoundsOutput(t.rounds) == [];
    hide Flatten, Normalize, RoundsBytes, RoundsOutput;
  }
}
