/** The command frame: its marker lines, and what one parser step does. The
    parser of this module remembers everything it ever stored; the class in
    FrameParser keeps only the bounded tail. */
module FrameSpec {
  import opened Common
  import opened Bytes
  import Ansi
  import Decimal
  import Utf8

  const PARTIAL_LINE_LIMIT := 4096

  predicate IsAlnum(c: char) {
    'A' <= c <= 'Z' || 'a' <= c <= 'z' || '0' <= c <= '9'
  }

  predicate ValidToken(t: string) {
    t != "" && forall i :: 0 <= i < |t| ==> IsAlnum(t[i])
  }

  datatype Config = Config(token: string, limit: nat, nonce: Option<string>) {
    predicate Valid() {
      ValidToken(token) && limit >= 1 && (nonce.Some? ==> ValidToken(nonce.value))
    }

    function Begin(): string { "__SERVEROPS_BEGIN_" + token + "__" }
    function EndPrefix(): string { "__SERVEROPS_END_" + token + "__:" }
    function CwdPrefix(): string { "__SERVEROPS_CWD_" + token + "__:" }
    function Probe(): string { "__SERVEROPS_DEBUG_" + token + "__" }
    function ProbeEnd(): string { "__SERVEROPS_DEBUG_END_" + token + "__" }
    function Health(): string
      requires nonce.Some?
    {
      "__SERVEROPS_HEALTH_" + token + "__:" + nonce.value
    }
  }

  datatype CommandResult = CommandResult(output: string, exitCode: int, cwd: string, truncated: bool)

  datatype FrameError =
    | BeginMalformed | DebugTrapChanged | ProbeMalformed | ProbeMissing | ExitMalformed
    | CwdMissing | HealthInvalid | LineTooLong | EndedEarly | AlreadyCompleted

  /** Where in the frame the parser is. `probed` tells whether a DEBUG probe was
      completed, which a frame without a shell nonce does not need. */
  datatype Phase =
    | Searching
    | Body(probed: bool)
    | Probing
    | Exited(code: int)
    | Located(code: int, cwd: string)

  /** `stored` is every byte ever stored as output, `held` the complete line not
      stored yet because it may be the one before a marker. */
  datatype Frame = Frame(
    cfg: Config,
    phase: Phase,
    scan: seq<Byte>,
    stored: seq<Byte>,
    held: Option<seq<Byte>>)

  datatype Step = Waiting(frame: Frame) | Completed(result: CommandResult) | Failed(error: FrameError)

  function Initial(cfg: Config): Frame {
    Frame(cfg, Searching, [], [], None)
  }

  /** The text of one newline-terminated line. */
  function Normalize(raw: seq<Byte>): string
    requires raw != []
  {
    Ansi.Strip(Utf8.DecodeReplacing(StripReturns(raw[..|raw| - 1])))
  }

  /** A line without its end: the newline and the carriage returns before it. */
  function TrimLineEnd(line: seq<Byte>): seq<Byte> {
    if line != [] && line[|line| - 1] == NEWLINE then StripReturns(line[..|line| - 1]) else line
  }

  /** The text a caller sees for the output bytes that were kept. */
  function Present(output: seq<Byte>): string {
    Ansi.CleanLineEnds(Ansi.Strip(Utf8.DecodeReplacing(output)))
  }

  function ResultFor(cfg: Config, stored: seq<Byte>, code: int, cwd: string): CommandResult {
    CommandResult(Present(Last(stored, cfg.limit)), code, cwd, |stored| > cfg.limit)
  }

  function HeldBytes(held: Option<seq<Byte>>): seq<Byte> {
    if held.Some? then held.value else []
  }

  function StoreHeld(f: Frame): Frame {
    f.(stored := f.stored + HeldBytes(f.held), held := None)
  }

  function FlushFinal(f: Frame): Frame {
    f.(stored := f.stored + TrimLineEnd(HeldBytes(f.held)), held := None)
  }

  function Consume(f: Frame, raw: seq<Byte>): (s: Step)
    requires raw != []
    ensures s.Waiting? ==> s.frame.cfg == f.cfg && s.frame.scan == f.scan
  {
    var line := Normalize(raw);
    match f.phase
    case Searching =>
      if line == f.cfg.Begin() then Waiting(f.(phase := Body(f.cfg.nonce.None?)))
      else if f.cfg.Begin() <= line then Failed(BeginMalformed)
      else Waiting(f)
    case Body(probed) => ConsumeBody(f, raw, line, probed)
    case Probing =>
      if line == f.cfg.ProbeEnd() then Waiting(f.(phase := Body(true)))
      else if line != "" then Failed(DebugTrapChanged)
      else Waiting(f)
    case Exited(code) =>
      if !(f.cfg.CwdPrefix() <= line) then Failed(CwdMissing)
      else
        var cwd := line[|f.cfg.CwdPrefix()|..];
        if f.cfg.nonce.None? then Completed(ResultFor(f.cfg, f.stored, code, cwd))
        else Waiting(f.(phase := Located(code, cwd)))
    case Located(code, cwd) =>
      if f.cfg.nonce.None? || line != f.cfg.Health() then Failed(HealthInvalid)
      else Completed(ResultFor(f.cfg, f.stored, code, cwd))
  }

  function ConsumeBody(f: Frame, raw: seq<Byte>, line: string, probed: bool): (s: Step)
    ensures s.Waiting? ==> s.frame.cfg == f.cfg && s.frame.scan == f.scan
  {
    if f.cfg.nonce.Some? && line == f.cfg.Probe() then Waiting(FlushFinal(f).(phase := Probing))
    else if f.cfg.nonce.Some? && f.cfg.Probe() <= line then Failed(ProbeMalformed)
    else if f.cfg.EndPrefix() <= line then
      if !probed then Failed(ProbeMissing)
      else
        match Decimal.Parse(line[|f.cfg.EndPrefix()|..])
        case None => Failed(ExitMalformed)
        case Some(code) => Waiting(FlushFinal(f).(phase := Exited(code)))
    else Waiting(StoreHeld(f).(held := Some(raw)))
  }

  /** What happens to an unfinished line: outside the output it must stay short;
      inside the output all but its last bytes are stored. */
  function Bound(f: Frame): (s: Step)
    ensures !s.Completed?
  {
    if |f.scan| <= PARTIAL_LINE_LIMIT then Waiting(f)
    else if !f.phase.Body? && !f.phase.Probing? then Failed(LineTooLong)
    else
      var flush := |f.scan| - PARTIAL_LINE_LIMIT;
      var g := StoreHeld(f);
      Waiting(g.(stored := g.stored + f.scan[..flush], scan := f.scan[flush..]))
  }

  function Drain(f: Frame): (s: Step)
    ensures s.Waiting? ==> s.frame.cfg == f.cfg
    decreases |f.scan|
  {
    var n := FindNewline(f.scan);
    if n == |f.scan| then Bound(f)
    else
      match Consume(f.(scan := f.scan[n + 1..]), f.scan[..n + 1])
      case Waiting(g) => Drain(g)
      case other => other
  }

  function Feed(f: Frame, data: seq<Byte>): Step {
    Drain(f.(scan := f.scan + data))
  }

  /** Feeding one piece after the other until the frame ends one way or the other. */
  function FeedAll(f: Frame, chunks: seq<seq<Byte>>): Step
    decreases |chunks|
  {
    if chunks == [] then Waiting(f)
    else
      match Feed(f, chunks[0])
      case Waiting(g) => FeedAll(g, chunks[1..])
      case other => other
  }
}
