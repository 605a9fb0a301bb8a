/** The parser as it runs: fields updated in place and bounded output. */
module FrameParser {
  import opened Common
  import opened Bytes
  import opened FrameSpec
  import opened FrameChunks
  import Decimal

  datatype Reply = Nothing | Result(result: CommandResult) | Raised(error: FrameError)

  lemma BoundOutcome(f: Frame)
    ensures Bound(f) ==
            if |f.scan| <= PARTIAL_LINE_LIMIT then Waiting(f)
            else if !f.phase.Body? && !f.phase.Probing? then Failed(LineTooLong)
            else
              var flush := |f.scan| - PARTIAL_LINE_LIMIT;
              var stored := f.stored + HeldBytes(f.held);
              Waiting(Frame(f.cfg, f.phase, f.scan[flush..], stored + f.scan[..flush], None))
  {
  }

  class CommandFrameParser {
    const cfg: Config
    var scan: seq<Byte>
    var output: seq<Byte>
    var started: bool
    var truncated: bool
    var done: bool
    var pendingExit: Option<int>
    var pendingCwd: Option<string>
    var pendingOutputLine: Option<seq<Byte>>
    var inDebugProbe: bool
    var debugProbeSeen: bool
    ghost var stored: seq<Byte>

    /** The bounded output is the tail of everything stored, and `truncated` says
        whether that lost something. */
    ghost predicate Valid()
      reads this
    {
      cfg.Valid() && output == Last(stored, cfg.limit) && truncated == (|stored| > cfg.limit) &&
      (!started ==> pendingExit == None && pendingCwd == None && !inDebugProbe && debugProbeSeen == cfg.nonce.None?) &&
      (pendingExit == None ==> pendingCwd == None) &&
      (cfg.nonce.None? ==> debugProbeSeen && !inDebugProbe && pendingCwd == None)
    }

    ghost function Phase(): Phase
      reads this
    {
      if !started then Searching
      else if pendingExit == None then if inDebugProbe then Probing else Body(debugProbeSeen)
      else if pendingCwd == None then Exited(pendingExit.value)
      else Located(pendingExit.value, pendingCwd.value)
    }

    ghost function State(): Frame
      reads this
    {
      Frame(cfg, Phase(), scan, stored, pendingOutputLine)
    }

    constructor (cfg: Config)
      requires cfg.Valid()
      ensures Valid() && !done && this.cfg == cfg && State() == Initial(cfg)
    {
      this.cfg := cfg;
      scan, output, stored := [], [], [];
      started, truncated, done := false, false, false;
      pendingExit, pendingCwd, pendingOutputLine := None, None, None;
      inDebugProbe, debugProbeSeen := false, cfg.nonce.None?;
    }

    /** One feed does what the specification's feed does to the state, and answers
        with its result or its error. A finished frame refuses more data. */
    method Feed(data: seq<Byte>, final: bool) returns (reply: Reply)
      requires Valid()
      modifies this
      ensures Valid()
      ensures old(done) ==> reply == Raised(AlreadyCompleted) && State() == old(State()) && done
      ensures !old(done) ==>
                match FrameSpec.Feed(old(State()), data)
                case Waiting(g) => State() == g && !done && reply == if final then Raised(EndedEarly) else Nothing
                case Completed(r) => reply == Result(r) && done
                case Failed(e) => reply == Raised(e) && !done
    {
      hide Consume, Bound, Last, Config.Valid, FindNewline, Drain;
      if done {
        return Raised(AlreadyCompleted);
      }
      ghost var begun := Extend(State(), data);
      scan := scan + data;
      assert State() == begun;
      while true
        invariant Valid() && !done && Drain(State()) == Drain(begun)
        decreases |scan|
      {
        var newline := FindNewline(scan);
        if newline == |scan| {
          DrainRest(State());
          var error := BoundPartialLine();
          if error != None { return Raised(error.value); }
          return if final then Raised(EndedEarly) else Nothing;
        }
        var rawLine := scan[..newline + 1];
        assert scan == rawLine + scan[newline + 1..];
        DrainStep(State(), rawLine, scan[newline + 1..]);
        ghost var rest := State().(scan := scan[newline + 1..]);
        scan := scan[newline + 1..];
        assert State() == rest;
        reply := ConsumeLine(rawLine);
        if reply != Nothing { return; }
      }
    }

    method ConsumeLine(rawLine: seq<Byte>) returns (reply: Reply)
      requires Valid() && !done && rawLine != []
      modifies this
      ensures Valid() && scan == old(scan)
      ensures match Consume(old(State()), rawLine)
              case Waiting(g) => State() == g && !done && reply == Nothing
              case Completed(r) => reply == Result(r) && done
              case Failed(e) => reply == Raised(e) && !done
    {
      hide Normalize, TrimLineEnd, Present, Last, Config.Valid, ConsumeBody;
      var normalized := Normalize(rawLine);
      reply := Nothing;
      if !started {
        if normalized == cfg.Begin() {
          started := true;
        } else if cfg.Begin() <= normalized {
          reply := Raised(BeginMalformed);
        }
      } else if pendingExit == None {
        reply := ConsumeOutputLine(rawLine, normalized);
      } else if pendingCwd == None {
        if !(cfg.CwdPrefix() <= normalized) {
          return Raised(CwdMissing);
        }
        var cwd := normalized[|cfg.CwdPrefix()|..];
        if cfg.nonce.None? {
          reply := Complete(cwd);
        } else {
          pendingCwd := Some(cwd);
        }
      } else if normalized != cfg.Health() {
        reply := Raised(HealthInvalid);
      } else {
        reply := Complete(pendingCwd.value);
      }
    }

    method ConsumeOutputLine(rawLine: seq<Byte>, normalized: string) returns (reply: Reply)
      requires Valid() && !done && started && pendingExit == None && rawLine != [] && normalized == Normalize(rawLine)
      modifies this
      ensures Valid() && scan == old(scan) && !done
      ensures match Consume(old(State()), rawLine)
              case Waiting(g) => State() == g && reply == Nothing
              case Completed(r) => false
              case Failed(e) => reply == Raised(e)
    {
      hide Normalize, TrimLineEnd, Last, Config.Valid, ConsumeBody;
      reply := Nothing;
      if inDebugProbe {
        if normalized == cfg.ProbeEnd() {
          inDebugProbe, debugProbeSeen := false, true;
        } else if normalized != "" {
          reply := Raised(DebugTrapChanged);
        }
      } else {
        reply := ConsumeBodyLine(rawLine, normalized);
      }
    }

    method ConsumeBodyLine(rawLine: seq<Byte>, normalized: string) returns (reply: Reply)
      requires Valid() && !done && started && pendingExit == None && !inDebugProbe && rawLine != []
      modifies this
      ensures Valid() && scan == old(scan) && !done
      ensures match ConsumeBody(old(State()), rawLine, normalized, old(debugProbeSeen))
              case Waiting(g) => State() == g && reply == Nothing
              case Completed(r) => false
              case Failed(e) => reply == Raised(e)
    {
      hide TrimLineEnd, Last, Config.Valid, Decimal.Parse, Config.Probe, Config.EndPrefix, Config.ProbeEnd,
        Config.Begin;
      reply := Nothing;
      if cfg.nonce.Some? && normalized == cfg.Probe() {
        FlushFinalOutputLine();
        inDebugProbe := true;
      } else if cfg.nonce.Some? && cfg.Probe() <= normalized {
        reply := Raised(ProbeMalformed);
      } else if cfg.EndPrefix() <= normalized {
        if !debugProbeSeen {
          return Raised(ProbeMissing);
        }
        var exit := Decimal.Parse(normalized[|cfg.EndPrefix()|..]);
        if exit == None {
          return Raised(ExitMalformed);
        }
        FlushFinalOutputLine();
        pendingExit := exit;
      } else {
        assert stored + HeldBytes(None) == stored;
        if pendingOutputLine != None {
          StoreOutput(pendingOutputLine.value);
        }
        pendingOutputLine := Some(rawLine);
      }
    }

    method Complete(cwd: string) returns (reply: Reply)
      requires Valid() && pendingExit != None
      modifies this`done
      ensures Valid() && done && reply == Result(ResultFor(cfg, stored, pendingExit.value, cwd))
    {
      hide Present;
      done := true;
      reply := Result(CommandResult(Present(output), pendingExit.value, cwd, truncated));
    }

    method BoundPartialLine() returns (error: Option<FrameError>)
      requires Valid() && !done
      modifies this
      ensures Valid() && !done
      ensures match Bound(old(State()))
              case Waiting(g) => State() == g && error == None
              case Failed(e) => error == Some(e)
    {
      hide Last, Config.Valid, Bound;
      ghost var before := State();
      BoundOutcome(before);
      error := None;
      if !started || pendingExit != None {
        if |scan| > PARTIAL_LINE_LIMIT {
          error := Some(LineTooLong);
        }
      } else if |scan| > PARTIAL_LINE_LIMIT {
        if pendingOutputLine != None {
          StoreOutput(pendingOutputLine.value);
          pendingOutputLine := None;
        }
        var flush := |scan| - PARTIAL_LINE_LIMIT;
        StoreOutput(scan[..flush]);
        scan := scan[flush..];
        assert before.stored + HeldBytes(None) == before.stored;
      }
    }

    method StoreOutput(data: seq<Byte>)
      requires Valid()
      modifies this`output, this`truncated, this`stored
      ensures Valid() && stored == old(stored) + data
    {
      hide Config.Valid, Last;
      if data == [] {
        return;
      }
      LastOfTail(stored, data, cfg.limit);
      var grown := output + data;
      LastIs(grown, cfg.limit);
      var overflow := |grown| - cfg.limit;
      stored := stored + data;
      if overflow > 0 {
        output := grown[overflow..];
        truncated := true;
      } else {
        output := grown;
      }
    }

    method FlushFinalOutputLine()
      requires Valid()
      modifies this`output, this`truncated, this`stored, this`pendingOutputLine
      ensures Valid() && pendingOutputLine == None && stored == old(stored) + TrimLineEnd(HeldBytes(old(pendingOutputLine)))
    {
      hide Config.Valid, Last, StripReturns;
      var line := pendingOutputLine;
      pendingOutputLine := None;
      if line == None {
        return;
      }
      var kept := if line.value != [] && line.value[|line.value| - 1] == NEWLINE
                  then StripReturns(line.value[..|line.value| - 1]) else line.value;
      StoreOutput(kept);
    }
  }
}
