/** The converse of soundness: every valid transcript without fragments makes the
    parser complete with the transcript's result. */
module FrameCompleteness {
  import opened Common
  import opened Bytes
  import opened FrameSpec
  import opened FrameChunks
  import opened FrameTranscript
  import opened FrameSoundness
  import Decimal

  function Continue(s: Step): Step {
    match s case Waiting(g) => Drain(g) case other => other
  }

  /** Short, or output that may be cut. */
  ghost predicate Gentle(f: Frame, line: seq<Byte>) {
    |line| <= PARTIAL_LINE_LIMIT + 1 || (f.phase.Body? && SafeToCut(f.cfg, line))
  }

  ghost predicate TameNext(s: Step) {
    s.Waiting? ==> Tame(s.frame)
  }

  lemma DrainLine(f: Frame, line: seq<Byte>, left: seq<Byte>)
    requires IsLine(line)
    ensures Drain(f.(scan := line + left)) == Continue(Consume(f.(scan := left), line))
    ensures Gentle(f, line) && TameNext(Consume(f.(scan := left), line)) ==> Tame(f.(scan := line + left))
  {
    hide Consume, Drain, Tame, SafeToCut;
    LineFirst(line, left);
    DrainStep(f.(scan := line + left), line, left);
    TameStep(f.(scan := line + left), line, left);
  }

  lemma LineFirst(line: seq<Byte>, left: seq<Byte>)
    requires IsLine(line)
    ensures FindNewline(line + left) == |line| - 1
  {
    FindNewlineAt(line + left, |line| - 1);
  }

  lemma FlattenFirst<T>(pieces: seq<seq<T>>, rest: seq<T>)
    requires pieces != []
    ensures Flatten(pieces) + rest == pieces[0] + (Flatten(pieces[1..]) + rest)
  {
  }

  lemma {:induction false} DrainNoise(f: Frame, noise: seq<seq<Byte>>, rest: seq<Byte>)
    requires f.phase.Searching? && forall p <- noise :: IsNoise(f.cfg, p)
    ensures Drain(f.(scan := Flatten(noise) + rest)) == Drain(f.(scan := rest))
    ensures (forall p <- noise :: Gentle(f, p)) && Tame(f.(scan := rest)) ==> Tame(f.(scan := Flatten(noise) + rest))
    decreases |noise|
  {
    hide Normalize, Drain, Tame, SafeToCut;
    if noise == [] {
      assert Flatten(noise) + rest == rest;
    } else {
      FlattenFirst(noise, rest);
      hide Flatten;
      var left := Flatten(noise[1..]) + rest;
      assert noise[0] in noise;
      DrainLine(f, noise[0], left);
      assert Consume(f.(scan := left), noise[0]) == Waiting(f.(scan := left));
      DrainNoise(f, noise[1..], rest);
    }
  }

  /** The state after lines of output. */
  function AfterOutput(f: Frame, pieces: seq<seq<Byte>>): (g: Frame)
    ensures g.cfg == f.cfg && g.phase == f.phase && g.scan == f.scan
    decreases |pieces|
  {
    if pieces == [] then f
    else AfterOutput(f.(stored := f.stored + HeldBytes(f.held), held := Some(pieces[0])), pieces[1..])
  }

  lemma {:induction false} AfterOutputStored(f: Frame, pieces: seq<seq<Byte>>)
    ensures StoreHeld(AfterOutput(f, pieces)).stored == StoreHeld(f).stored + Flatten(pieces)
    ensures FlushFinal(AfterOutput(f, pieces)).stored ==
            if pieces == [] then FlushFinal(f).stored else StoreHeld(f).stored + Kept(pieces)
    decreases |pieces|
  {
    hide TrimLineEnd, Kept;
    if pieces != [] {
      var g := f.(stored := f.stored + HeldBytes(f.held), held := Some(pieces[0]));
      AfterOutputStored(g, pieces[1..]);
      KeptFirst(pieces);
    }
  }

  lemma KeptFirst(pieces: seq<seq<Byte>>)
    requires pieces != []
    ensures Kept(pieces) == if |pieces| == 1 then TrimLineEnd(pieces[0]) else pieces[0] + Kept(pieces[1..])
  {
    hide TrimLineEnd;
    if |pieces| > 1 {
      var init := pieces[..|pieces| - 1];
      assert init[1..] == pieces[1..][..|pieces| - 2];
    }
  }

  lemma {:induction false} DrainOutput(f: Frame, pieces: seq<seq<Byte>>, rest: seq<Byte>)
    requires f.phase.Body? && forall p <- pieces :: IsLine(p) && Ordinary(f.cfg, p)
    ensures Drain(f.(scan := Flatten(pieces) + rest)) == Drain(AfterOutput(f, pieces).(scan := rest))
    ensures (forall p <- pieces :: Gentle(f, p)) && Tame(AfterOutput(f, pieces).(scan := rest)) ==>
            Tame(f.(scan := Flatten(pieces) + rest))
    decreases |pieces|
  {
    hide Ordinary, Drain, Tame, SafeToCut, Consume;
    if pieces == [] {
      assert Flatten(pieces) + rest == rest;
    } else {
      FlattenFirst(pieces, rest);
      hide Flatten;
      var left := Flatten(pieces[1..]) + rest;
      assert pieces[0] in pieces;
      DrainLine(f, pieces[0], left);
      OrdinaryConsume(f.(scan := left), pieces[0]);
      var g := f.(stored := f.stored + HeldBytes(f.held), held := Some(pieces[0]));
      assert Gentle(f, pieces[0]) && (forall p <- pieces[1..] :: Gentle(f, p)) ==> forall p <- pieces[1..] :: Gentle(g, p);
      DrainOutput(g, pieces[1..], rest);
      assert AfterOutput(f, pieces) == AfterOutput(g, pieces[1..]);
    }
  }

  lemma {:induction false} DrainInside(f: Frame, inside: seq<seq<Byte>>, rest: seq<Byte>)
    requires f.phase.Probing? && forall p <- inside :: IsLine(p) && Normalize(p) == ""
    ensures Drain(f.(scan := Flatten(inside) + rest)) == Drain(f.(scan := rest))
    ensures (forall p <- inside :: Gentle(f, p)) && Tame(f.(scan := rest)) ==> Tame(f.(scan := Flatten(inside) + rest))
    decreases |inside|
  {
    hide Normalize, Drain, Tame, SafeToCut;
    if inside == [] {
      assert Flatten(inside) + rest == rest;
    } else {
      FlattenFirst(inside, rest);
      hide Flatten;
      var left := Flatten(inside[1..]) + rest;
      DrainLine(f, inside[0], left);
      assert Consume(f.(scan := left), inside[0]) == Waiting(f.(scan := left));
      DrainInside(f, inside[1..], rest);
    }
  }

  /** Draining `f` is draining `g`; and when `gentle` holds, `f` is as tame as `g`. */
  ghost predicate Leads(f: Frame, g: Frame, gentle: bool) {
    Drain(f) == Drain(g) && (gentle && Tame(g) ==> Tame(f))
  }

  ghost predicate Short(line: seq<Byte>) {
    |line| <= PARTIAL_LINE_LIMIT + 1
  }

  ghost predicate ShortOrSafe(cfg: Config, line: seq<Byte>) {
    Short(line) || SafeToCut(cfg, line)
  }

  ghost predicate GentleRound(cfg: Config, r: Round) {
    (forall p <- r.output :: ShortOrSafe(cfg, p)) && Short(r.open) && (forall p <- r.inside :: Short(p)) && Short(r.close)
  }

  /** Only output lines are long, and those are safe to cut. */
  ghost predicate GentleTranscript(cfg: Config, t: Transcript) {
    (forall p <- t.noise :: Short(p)) && Short(t.begin) && GentleRounds(cfg, t.rounds) &&
    (forall p <- t.output :: ShortOrSafe(cfg, p)) && Short(t.end) && Short(t.cwd) && Short(t.health)
  }

  lemma OneLine(f: Frame, line: seq<Byte>, left: seq<Byte>, g: Frame)
    requires IsLine(line) && Consume(f.(scan := left), line) == Waiting(g.(scan := left))
    ensures Leads(f.(scan := line + left), g.(scan := left), Gentle(f, line))
  {
    hide Consume, Drain, Tame, SafeToCut;
    DrainLine(f, line, left);
  }

  lemma {:induction false} RoundLeads(f: Frame, r: Round, rest: seq<Byte>)
    requires f.phase.Body? && f.held == None && f.cfg.nonce.Some? && r.Closed(f.cfg) && r.Plain()
    ensures Leads(f.(scan := r.Bytes() + rest),
                  f.(phase := Body(true), stored := f.stored + Kept(r.output), scan := rest), GentleRound(f.cfg, r))
  {
    hide Normalize, Drain, Tame, SafeToCut, Kept, Flatten, TrimLineEnd, AfterOutput, Consume;
    var tail := Flatten(r.inside) + (r.close + rest);
    assert r.Bytes() + rest == Flatten(r.output) + (r.open + tail);
    forall p | p in r.output ensures Ordinary(f.cfg, p) { assert IsOutput(f.cfg, p) && IsLine(p); }
    forall p | p in r.inside ensures Normalize(p) == "" { assert PassesForBlank(p) && IsLine(p); }
    DrainOutput(f, r.output, r.open + tail);
    var out := AfterOutput(f, r.output);
    AfterOutputStored(f, r.output);
    var probing := f.(phase := Probing, stored := f.stored + Kept(r.output));
    KeptNothing(f, r.output);
    OpenLine(out, r.open, tail, probing);
    OneLine(out, r.open, tail, probing);
    DrainInside(probing, r.inside, r.close + rest);
    CloseLine(probing, r.close, rest);
    OneLine(probing, r.close, rest, probing.(phase := Body(true)));
  }

  lemma KeptNothing(f: Frame, pieces: seq<seq<Byte>>)
    requires f.held == None
    ensures FlushFinal(AfterOutput(f, pieces)).stored == f.stored + Kept(pieces)
  {
    AfterOutputStored(f, pieces);
    NothingKept();
    hide AfterOutput, Kept, TrimLineEnd, Flatten;
    assert f.stored + [] == f.stored;
  }

  lemma OpenLine(f: Frame, line: seq<Byte>, left: seq<Byte>, g: Frame)
    requires f.phase.Body? && f.cfg.nonce.Some? && IsLine(line) && Normalize(line) == f.cfg.Probe()
    requires g == FlushFinal(f).(phase := Probing, scan := g.scan)
    ensures Consume(f.(scan := left), line) == Waiting(g.(scan := left))
  {
    hide Normalize, TrimLineEnd;
  }

  lemma CloseLine(f: Frame, line: seq<Byte>, left: seq<Byte>)
    requires f.phase.Probing? && IsLine(line) && Normalize(line) == f.cfg.ProbeEnd()
    ensures Consume(f.(scan := left), line) == Waiting(f.(phase := Body(true), scan := left))
  {
    hide Normalize;
  }

  /** No fragment of a plain probe was stored. */
  lemma {:induction false} NothingLeaked(inside: seq<seq<Byte>>)
    requires forall p <- inside :: IsLine(p)
    ensures Leaked(inside) == []
  {
    if inside != [] {
      LineIsNoFragment(inside[|inside| - 1]);
      NothingLeaked(inside[..|inside| - 1]);
    }
  }

  lemma LeadsOn(f: Frame, g: Frame, h: Frame, first: bool, second: bool, both: bool)
    requires Leads(f, g, first) && Leads(g, h, second) && (both ==> first && second)
    ensures Leads(f, h, both)
  {
    hide Drain, Tame;
  }

  ghost predicate GentleRounds(cfg: Config, rounds: seq<Round>) {
    forall r <- rounds :: GentleRound(cfg, r)
  }

  lemma PlainLeaksNothing(r: Round)
    requires r.Plain()
    ensures Leaked(r.inside) == []
  {
    NothingLeaked(r.inside);
  }

  /** The state after the given rounds. */
  function AfterRounds(f: Frame, rounds: seq<Round>): Frame {
    f.(phase := if rounds == [] then f.phase else Body(true), stored := f.stored + RoundsOutput(rounds))
  }

  lemma NoRoundsLead(f: Frame, rest: seq<Byte>)
    ensures Leads(f.(scan := RoundsBytes([]) + rest), AfterRounds(f, []).(scan := rest), GentleRounds(f.cfg, []))
  {
    hide Drain, Tame, GentleRound;
    assert RoundsBytes([]) + rest == rest && f.stored + RoundsOutput([]) == f.stored;
  }

  lemma MoreRoundsLead(f: Frame, init: seq<Round>, last: Round, rest: seq<Byte>)
    requires f.phase.Body? && f.held == None && f.cfg.nonce.Some? && last.Closed(f.cfg) && last.Plain()
    requires Leads(f.(scan := RoundsBytes(init) + (last.Bytes() + rest)),
                   AfterRounds(f, init).(scan := last.Bytes() + rest), GentleRounds(f.cfg, init))
    ensures Leads(f.(scan := RoundsBytes(init + [last]) + rest),
                  AfterRounds(f, init + [last]).(scan := rest), GentleRounds(f.cfg, init + [last]))
  {
    hide Round.Bytes, Round.Closed, Round.Plain, GentleRound, Leaked, Kept, RoundsBytes, RoundsOutput, Leads;
    PlainLeaksNothing(last);
    RoundsSnoc(init, last);
    assert RoundsBytes(init + [last]) + rest == RoundsBytes(init) + (last.Bytes() + rest);
    var g := AfterRounds(f, init);
    RoundLeads(g, last, rest);
    assert g.stored + Kept(last.output) == f.stored + RoundsOutput(init + [last]);
    assert GentleRounds(f.cfg, init + [last]) ==> GentleRounds(f.cfg, init) && GentleRound(f.cfg, last) by {
      assert last in init + [last] && forall r <- init :: r in init + [last];
    }
    LeadsOn(f.(scan := RoundsBytes(init) + (last.Bytes() + rest)), g.(scan := last.Bytes() + rest),
            AfterRounds(f, init + [last]).(scan := rest),
            GentleRounds(f.cfg, init), GentleRound(f.cfg, last), GentleRounds(f.cfg, init + [last]));
  }

  lemma {:induction false} RoundsLead(f: Frame, rounds: seq<Round>, rest: seq<Byte>)
    requires f.phase.Body? && f.held == None && f.cfg.nonce.Some?
    requires forall r <- rounds :: r.Closed(f.cfg) && r.Plain()
    ensures Leads(f.(scan := RoundsBytes(rounds) + rest), AfterRounds(f, rounds).(scan := rest), GentleRounds(f.cfg, rounds))
    decreases |rounds|
  {
    hide Round.Bytes, Round.Closed, Round.Plain, RoundsBytes, Leads, AfterRounds, GentleRounds;
    if rounds == [] {
      NoRoundsLead(f, rest);
    } else {
      var init, last := rounds[..|rounds| - 1], rounds[|rounds| - 1];
      assert last in rounds && rounds == init + [last];
      RoundsLead(f, init, last.Bytes() + rest);
      MoreRoundsLead(f, init, last, rest);
    }
  }

  lemma BeginLine(f: Frame, line: seq<Byte>, left: seq<Byte>)
    requires f.phase.Searching? && IsLine(line) && Normalize(line) == f.cfg.Begin()
    ensures Consume(f.(scan := left), line) == Waiting(f.(phase := Body(f.cfg.nonce.None?), scan := left))
  {
    hide Normalize;
  }

  lemma EndLine(f: Frame, t: Transcript, left: seq<Byte>)
    requires f.phase == Body(true) && t.ExitCode(f.cfg).Some? && f.cfg.Valid()
    ensures Consume(f.(scan := left), t.end) ==
            Waiting(FlushFinal(f).(phase := Exited(t.ExitCode(f.cfg).value), scan := left))
  {
    hide Normalize, TrimLineEnd;
    var line := Normalize(t.end);
    assert line[12] == f.cfg.EndPrefix()[12] == 'E' && f.cfg.Probe()[12] == 'D';
  }

  lemma CwdLine(f: Frame, t: Transcript, left: seq<Byte>)
    requires f.phase.Exited? && t.HasCwd(f.cfg)
    ensures var cwd := Normalize(t.cwd)[|f.cfg.CwdPrefix()|..];
            Consume(f.(scan := left), t.cwd) ==
            if f.cfg.nonce.None? then Completed(ResultFor(f.cfg, f.stored, f.phase.code, cwd))
            else Waiting(f.(phase := Located(f.phase.code, cwd), scan := left))
  {
    hide Normalize, Present;
  }

  lemma HealthLine(f: Frame, line: seq<Byte>, left: seq<Byte>)
    requires f.phase.Located? && f.cfg.nonce.Some? && IsLine(line) && Normalize(line) == f.cfg.Health()
    ensures Consume(f.(scan := left), line) ==
            Completed(ResultFor(f.cfg, f.stored, f.phase.code, f.phase.cwd))
  {
    hide Normalize, Present;
  }

  lemma TailCompletes(f: Frame, t: Transcript, rest: seq<Byte>)
    requires f.phase == Body(true) && f.cfg.Valid() && t.Valid(f.cfg)
    requires FlushFinal(f).stored == t.Output()
    ensures var g := f.(scan := t.end + t.cwd + t.health + rest);
            Drain(g) == Completed(t.Result(f.cfg)) &&
            (Short(t.end) && Short(t.cwd) && Short(t.health) ==> Tame(g))
  {
    hide Normalize, Drain, Tame, SafeToCut, Consume, Present, TrimLineEnd, RoundsOutput, Kept, Decimal.Parse;
    assert t.end + t.cwd + t.health + rest == t.end + (t.cwd + (t.health + rest));
    var code, cwd := t.ExitCode(f.cfg).value, Normalize(t.cwd)[|f.cfg.CwdPrefix()|..];
    var exited := FlushFinal(f).(phase := Exited(code));
    EndLine(f, t, t.cwd + (t.health + rest));
    DrainLine(f, t.end, t.cwd + (t.health + rest));
    CwdLine(exited, t, t.health + rest);
    DrainLine(exited, t.cwd, t.health + rest);
    if f.cfg.nonce.Some? {
      var located := exited.(phase := Located(code, cwd));
      HealthLine(located, t.health, rest);
      DrainLine(located, t.health, rest);
    }
  }

  lemma OutputCompletes(f: Frame, t: Transcript, rest: seq<Byte>)
    requires f.phase == Body(true) && f.cfg.Valid() && t.Valid(f.cfg) && t.Plain()
    requires f.held == None && f.stored == RoundsOutput(t.rounds)
    ensures var g := f.(scan := Flatten(t.output) + (t.end + t.cwd + t.health + rest));
            Drain(g) == Completed(t.Result(f.cfg)) && (GentleTranscript(f.cfg, t) ==> Tame(g))
  {
    forall p | p in t.output ensures IsLine(p) && Ordinary(f.cfg, p) { assert IsOutput(f.cfg, p); }
    hide Normalize, Drain, Tame, SafeToCut, TrimLineEnd, RoundsOutput, Kept, Transcript.Valid, Transcript.Result,
      AfterOutput, Ordinary, Flatten, IsLine;
    KeptNothing(f, t.output);
    DrainOutput(f, t.output, t.end + t.cwd + t.health + rest);
    TailCompletes(AfterOutput(f, t.output), t, rest);
  }

  lemma BodyCompletes(f: Frame, t: Transcript, rest: seq<Byte>)
    requires f.phase == Body(f.cfg.nonce.None?) && f.cfg.Valid() && t.Valid(f.cfg) && t.Plain()
    requires f.held == None && f.stored == []
    ensures var g := f.(scan := RoundsBytes(t.rounds) + (Flatten(t.output) + (t.end + t.cwd + t.health + rest)));
            Drain(g) == Completed(t.Result(f.cfg)) && (GentleTranscript(f.cfg, t) ==> Tame(g))
  {
    var tail := Flatten(t.output) + (t.end + t.cwd + t.health + rest);
    var after := f.(phase := Body(true), stored := RoundsOutput(t.rounds));
    OutputCompletes(after, t, rest);
    RoundsPart(f, t, tail);
    hide Drain, Tame, RoundsOutput, RoundsBytes, Transcript.Result, Flatten, GentleRounds, Transcript.Valid,
      Transcript.Plain;
  }

  lemma RoundsPart(f: Frame, t: Transcript, tail: seq<Byte>)
    requires f.phase == Body(f.cfg.nonce.None?) && t.Valid(f.cfg) && t.Plain() && f.held == None && f.stored == []
    ensures Leads(f.(scan := RoundsBytes(t.rounds) + tail),
                  f.(phase := Body(true), stored := RoundsOutput(t.rounds), scan := tail), GentleRounds(f.cfg, t.rounds))
  {
    hide Round.Closed, Round.Plain, Leads, GentleRounds, RoundsOutput, RoundsBytes;
    assert [] + RoundsOutput(t.rounds) == RoundsOutput(t.rounds);
    if f.cfg.nonce.None? {
      NoRoundsLead(f, tail);
    } else {
      RoundsLead(f, t.rounds, tail);
    }
  }

  /** COMPLETENESS. A stream that begins with a valid transcript without fragments
      completes with that transcript's result. */
  lemma TranscriptCompletes(cfg: Config, t: Transcript, rest: seq<Byte>)
    requires cfg.Valid() && t.Valid(cfg) && t.Plain()
    ensures Feed(Initial(cfg), t.Bytes() + rest) == Completed(t.Result(cfg))
    ensures GentleTranscript(cfg, t) ==> Tame(Extend(Initial(cfg), t.Bytes() + rest))
  {
    hide Normalize, Drain, Tame, RoundsOutput, RoundsBytes, Transcript.Result, Flatten, GentleRound, Consume, IsLine,
      IsNoise;
    var f := Initial(cfg);
    var tail := RoundsBytes(t.rounds) + (Flatten(t.output) + (t.end + t.cwd + t.health + rest));
    assert [] + (t.Bytes() + rest) == Flatten(t.noise) + (t.begin + tail);
    DrainNoise(f, t.noise, t.begin + tail);
    BeginLine(f, t.begin, tail);
    OneLine(f, t.begin, tail, f.(phase := Body(cfg.nonce.None?)));
    BodyCompletes(f.(phase := Body(cfg.nonce.None?)), t, rest);
  }

  /** A stream completes a frame exactly when it begins with a valid transcript
      without fragments, and then with that transcript's result. */
  lemma CompletionIff(cfg: Config, stream: seq<Byte>, r: CommandResult)
    requires cfg.Valid()
    ensures Feed(Initial(cfg), stream) == Completed(r) <==>
            exists t: Transcript :: t.Valid(cfg) && t.Plain() && t.Bytes() <= stream && r == t.Result(cfg)
  {
    hide Drain, Transcript.Bytes, Transcript.Valid, Transcript.Result, Transcript.Plain;
    if Feed(Initial(cfg), stream) == Completed(r) {
      WholeCompletion(cfg, stream, r);
    }
    forall t: Transcript | t.Valid(cfg) && t.Plain() && t.Bytes() <= stream && r == t.Result(cfg)
      ensures Feed(Initial(cfg), stream) == Completed(r)
    {
      assert t.Bytes() + stream[|t.Bytes()|..] == stream;
      TranscriptCompletes(cfg, t, stream[|t.Bytes()|..]);
    }
  }

  /** The same for a tame stream that arrives in pieces. */
  lemma PiecewiseCompletionIff(cfg: Config, chunks: seq<seq<Byte>>, r: CommandResult)
    requires cfg.Valid() && Tame(Extend(Initial(cfg), Flatten(chunks)))
    ensures FeedAll(Initial(cfg), chunks) == Completed(r) <==>
            exists t: Transcript :: t.Valid(cfg) && t.Plain() && t.Bytes() <= Flatten(chunks) && r == t.Result(cfg)
  {
    hide Drain, Tame, FeedAll, Flatten;
    ChunkIndependence(Initial(cfg), chunks);
    CompletionIff(cfg, Flatten(chunks), r);
  }
}
