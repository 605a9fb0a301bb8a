/** What a stream looks like that completes a frame. A transcript names its
    parts; the theorems say that the parser completes on exactly such streams and
    what the result owes to which part. */
module FrameTranscript {
  import opened Common
  import opened Bytes
  import opened FrameSpec
  import opened FrameChunks
  import Decimal

  predicate IsLine(b: seq<Byte>) {
    b != [] && b[|b| - 1] == NEWLINE && forall i :: 0 <= i < |b| - 1 ==> b[i] != NEWLINE
  }

  /** Part of a line, stored before the line's end was seen. */
  predicate IsFragment(b: seq<Byte>) {
    b != [] && NEWLINE !in b
  }

  /** Output, then one DEBUG probe. */
  datatype Round = Round(output: seq<seq<Byte>>, open: seq<Byte>, inside: seq<seq<Byte>>, close: seq<Byte>) {
    function Bytes(): seq<Byte> {
      Flatten(output) + open + Flatten(inside) + close
    }

    ghost predicate Opened(cfg: Config) {
      (forall p <- output :: IsOutput(cfg, p)) &&
      IsLine(open) && Normalize(open) == cfg.Probe() &&
      (forall p <- inside :: PassesForBlank(p))
    }

    ghost predicate Closed(cfg: Config) {
      Opened(cfg) && IsLine(close) && Normalize(close) == cfg.ProbeEnd()
    }

    ghost predicate Plain() {
      (forall p <- output :: IsLine(p)) && (forall p <- inside :: IsLine(p))
    }
  }

  predicate IsNoise(cfg: Config, p: seq<Byte>) {
    IsLine(p) && !(cfg.Begin() <= Normalize(p))
  }

  predicate IsOutput(cfg: Config, p: seq<Byte>) {
    IsFragment(p) || (IsLine(p) && Ordinary(cfg, p))
  }

  /** What a probe lets through: a blank line, or the front of an overlong line, whatever
      it holds; that front has been stored as output, unlike the blank lines. */
  predicate PassesForBlank(p: seq<Byte>) {
    IsFragment(p) || (IsLine(p) && Normalize(p) == "")
  }

  /** The output bytes of consecutive pieces: all of them but the last line end. */
  function Kept(pieces: seq<seq<Byte>>): seq<Byte> {
    if pieces == [] then []
    else Flatten(pieces[..|pieces| - 1]) + TrimLineEnd(pieces[|pieces| - 1])
  }

  /** The bytes of a probe that were stored as output: the fragments. */
  function Leaked(pieces: seq<seq<Byte>>): seq<Byte> {
    if pieces == [] then []
    else
      var last := pieces[|pieces| - 1];
      Leaked(pieces[..|pieces| - 1]) + if IsFragment(last) then last else []
  }

  function RoundsBytes(rounds: seq<Round>): seq<Byte> {
    if rounds == [] then [] else RoundsBytes(rounds[..|rounds| - 1]) + rounds[|rounds| - 1].Bytes()
  }

  function RoundsOutput(rounds: seq<Round>): seq<Byte> {
    if rounds == [] then []
    else
      var last := rounds[|rounds| - 1];
      RoundsOutput(rounds[..|rounds| - 1]) + Kept(last.output) + Leaked(last.inside)
  }

  datatype Transcript = Transcript(
    noise: seq<seq<Byte>>,
    begin: seq<Byte>,
    rounds: seq<Round>,
    output: seq<seq<Byte>>,
    end: seq<Byte>,
    cwd: seq<Byte>,
    health: seq<Byte>)
  {
    function Bytes(): seq<Byte> {
      Flatten(noise) + begin + RoundsBytes(rounds) + Flatten(output) + end + cwd + health
    }

    function Output(): seq<Byte> {
      RoundsOutput(rounds) + Kept(output)
    }

    ghost predicate Noisy(cfg: Config) {
      forall p <- noise :: IsNoise(cfg, p)
    }

    ghost predicate Begun(cfg: Config) {
      Noisy(cfg) && IsLine(begin) && Normalize(begin) == cfg.Begin() &&
      (forall r <- rounds :: r.Closed(cfg)) && (cfg.nonce.None? ==> rounds == []) &&
      (forall p <- output :: IsOutput(cfg, p))
    }

    /** The exit status a well-formed END line carries. */
    function ExitCode(cfg: Config): Option<int> {
      if IsLine(end) && cfg.EndPrefix() <= Normalize(end) then
        Decimal.Parse(Normalize(end)[|cfg.EndPrefix()|..])
      else None
    }

    predicate HasCwd(cfg: Config) {
      IsLine(cwd) && cfg.CwdPrefix() <= Normalize(cwd)
    }

    /** The begin line, a completed probe when there is a nonce, and then the END,
        CWD and HEALTH lines one right after the other. */
    ghost predicate Valid(cfg: Config) {
      Begun(cfg) && (cfg.nonce.Some? ==> rounds != []) && ExitCode(cfg).Some? && HasCwd(cfg) &&
      (if cfg.nonce.Some? then IsLine(health) && Normalize(health) == cfg.Health() else health == [])
    }

    ghost predicate Plain() {
      (forall r <- rounds :: r.Plain()) && (forall p <- output :: IsLine(p))
    }

    ghost function Result(cfg: Config): CommandResult
      requires Valid(cfg)
    {
      ResultFor(cfg, Output(), ExitCode(cfg).value, Normalize(cwd)[|cfg.CwdPrefix()|..])
    }
  }

  const Nothing := Transcript([], [], [], [], [], [], [])

  /** `t` is what the parser has consumed on its way to the state `f`. */
  ghost predicate Explains(f: Frame, t: Transcript) {
    match f.phase
    case Searching =>
      t == Nothing.(noise := t.noise) && t.Noisy(f.cfg) && f.stored == [] && f.held == None
    case Body(probed) =>
      t.Begun(f.cfg) && t.end == t.cwd == t.health == [] &&
      (f.cfg.nonce.None? ==> probed) && (f.cfg.nonce.Some? ==> (probed <==> t.rounds != [])) &&
      StoreHeld(f).stored == RoundsOutput(t.rounds) + Flatten(t.output) &&
      FlushFinal(f).stored == t.Output()
    case Probing => ExplainsProbe(f, t)
    case Exited(code) =>
      t.Begun(f.cfg) && t.cwd == t.health == [] && (f.cfg.nonce.Some? ==> t.rounds != []) &&
      f.stored == t.Output() && t.ExitCode(f.cfg) == Some(code)
    case Located(code, cwd) =>
      t.Begun(f.cfg) && t.health == [] && (f.cfg.nonce.Some? ==> t.rounds != []) &&
      f.stored == t.Output() && t.ExitCode(f.cfg) == Some(code) && t.HasCwd(f.cfg) &&
      cwd == Normalize(t.cwd)[|f.cfg.CwdPrefix()|..]
  }

  ghost predicate ExplainsProbe(f: Frame, t: Transcript) {
    t.rounds != [] && f.cfg.nonce.Some? && t.output == [] && t.end == t.cwd == t.health == [] &&
    (var n := |t.rounds| - 1;
     t.(rounds := t.rounds[..n]).Begun(f.cfg) && t.rounds[n].Opened(f.cfg) && t.rounds[n].close == []) &&
    f.held == None && f.stored == RoundsOutput(t.rounds)
  }
}
