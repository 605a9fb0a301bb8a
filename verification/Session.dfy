/** The session at work: one terminal, one command at a time. */
module Session {
  import opened Common
  import opened Bytes
  import opened FrameSpec
  import opened FrameChunks
  import opened FrameParser
  import opened SessionState
  import opened Terminal
  import opened SessionSpec
  import opened TextLines
  import RingBuffer
  import Utf8

  /** Lets one authentication pass; interrupts the remote program once at the next. */
  class AuthenticationGate {
    var started: bool
    var interrupted: bool

    constructor ()
      ensures Valid() && Stage() == 0
    {
      started, interrupted := false, false;
    }

    ghost predicate Valid()
      reads this
    {
      interrupted ==> started
    }

    /** How far the operation's prompts have come. */
    ghost function Stage(): nat
      reads this
    {
      if !started then 0 else if !interrupted then 1 else 2
    }

    method Permit(terminal: Terminal) returns (permitted: bool, error: Option<Error>)
      requires Valid()
      modifies this, terminal`moment, terminal`log
      ensures Valid() && permitted == (old(Stage()) == 0)
      ensures old(Stage()) != 1 ==> terminal.log == old(terminal.log) && terminal.moment == old(terminal.moment) && error == None
      ensures old(Stage()) == 0 ==> Stage() == 1
      ensures old(Stage()) == 2 ==> Stage() == 2
      ensures old(Stage()) == 1 ==>
        && terminal.log == old(terminal.log).(interrupts := old(terminal.log).interrupts + 1) && terminal.moment == old(terminal.moment) + 1
        && error == (if terminal.world(old(terminal.moment)).fails then Some(Foreign) else None)
        && Stage() == if error == None then 2 else 1
    {
      permitted, error := false, None;
      if !started {
        started := true;
        return true, None;
      }
      if !interrupted {
        var ok := terminal.Write(Input.Interrupt);
        if !ok {
          return false, Some(Foreign);
        }
        interrupted := true;
      }
    }
  }

  /** What a caller may ask of a session. */
  datatype Request =
    | OpenWith(timeout: int, allowSudo: bool, sudo: Option<string>, checked: bool)
    | ExecuteWith(command: string, timeout: int, allowSudo: bool, sudo: Option<string>)
    | Begin(command: string)
    | Look(cursor: nat, timeout: int)
    | Say(text: string)
    | Leave(timeout: int)
    | End

  class StatefulSshSession {
    const setup: Setup
    const terminal: Terminal
    const machine: SessionStateMachine
    var activeToken: Option<string>

    ghost predicate Valid()
      reads this, machine
    {
      setup.limit >= 1 && terminal.capacity == setup.limit && AtRest(machine.state) && activeToken == None
    }

    ghost function View(): SessionSpec.Session
      reads this, terminal, machine
    {
      SessionSpec.Session(machine.state, terminal.clock, terminal.log)
    }

    constructor (setup: Setup, world: nat -> Observation)
      requires setup.limit >= 1
      ensures Valid() && this.setup == setup && fresh(terminal) && fresh(machine)
      ensures View() == SessionSpec.Session(Created, 0, NewLog)
    {
      this.setup := setup;
      terminal := new Terminal(world, setup.limit);
      machine := new SessionStateMachine();
      activeToken := None;
    }

    // Writing commands

    /** Since `start`, exactly these pieces were written, none too long, none in a hurry. */
    ghost predicate Underway(start: Log, begun: nat, first: nat, pieces: seq<string>)
      reads terminal
    {
      && terminal.log == start.(commands := start.commands + pieces)
      && (forall i :: 0 <= i < |pieces| ==> |pieces[i]| <= CHUNK_CHARACTERS)
      && begun <= terminal.clock <= begun + FLOW_DELAY * |pieces|
      && terminal.moment == first + |pieces|
    }

    /** The last look since `first` was at a write that raised. */
    ghost predicate FailedAt(first: nat)
      reads terminal
    {
      terminal.moment > first && terminal.world(terminal.moment - 1).fails
    }

    method WriteChunk(chunk: string, ghost start: Log, ghost begun: nat, ghost first: nat, ghost pieces: seq<string>) returns (ok: bool)
      requires Underway(start, begun, first, pieces) && |chunk| <= CHUNK_CHARACTERS
      modifies terminal
      ensures Underway(start, begun, first, pieces + [chunk])
      ensures !ok ==> FailedAt(first)
    {
      ok := terminal.Write(Command(chunk));
      if ok {
        terminal.Sleep(FLOW_DELAY);
      }
      assert start.commands + (pieces + [chunk]) == start.commands + pieces + [chunk];
    }

    lemma NothingUnderway()
      ensures Underway(terminal.log, terminal.clock, terminal.moment, [])
    {
      assert terminal.log.commands + [] == terminal.log.commands;
    }

    lemma UnderwayPieces(start: Log, begun: nat, first: nat, pieces: seq<string>)
      requires Underway(start, begun, first, pieces)
      ensures terminal.log == start.(commands := terminal.log.commands)
      ensures terminal.log.commands == start.commands + pieces
      ensures forall i :: |start.commands| <= i < |terminal.log.commands| ==> |terminal.log.commands[i]| <= CHUNK_CHARACTERS
      ensures begun <= terminal.clock <= begun + FLOW_DELAY * (|terminal.log.commands| - |start.commands|)
      ensures terminal.moment == first + |terminal.log.commands| - |start.commands|
    {
    }

    /** Writes a script in pieces of at most 512 characters that together are the
        script; when a write raises, what was written is the front of it. */
    method WriteCommand(wrapped: string) returns (ok: bool)
      modifies terminal
      ensures terminal.log == old(terminal.log).(commands := terminal.log.commands)
      ensures Delivered(old(terminal.log.commands), terminal.log.commands, wrapped, ok)
      ensures old(terminal.log.commands) <= terminal.log.commands
      ensures forall i :: |old(terminal.log.commands)| <= i < |terminal.log.commands| ==> |terminal.log.commands[i]| <= 512
      ensures old(terminal.clock) <= terminal.clock
      ensures terminal.clock <= old(terminal.clock) + 10 * (|terminal.log.commands| - |old(terminal.log.commands)|)
      ensures terminal.moment == old(terminal.moment) + |terminal.log.commands| - |old(terminal.log.commands)|
      ensures !ok ==> FailedAt(old(terminal.moment))
    {
      hide Flatten, SplitLines, Delivered, Underway;
      ghost var before, begun, first := terminal.log, terminal.clock, terminal.moment;
      ghost var pieces: seq<string> := [];
      NothingDelivered(before.commands, wrapped);
      if |wrapped| <= CHUNK_CHARACTERS {
        Empty(wrapped);
        PieceDelivered(before.commands, [], wrapped, "", wrapped);
        assert before.commands + [] == before.commands;
        ok := terminal.Write(Command(wrapped));
        return;
      }
      SplitLinesJoin(wrapped);
      Empty(wrapped);
      ok, pieces := WriteLines(SplitLines(wrapped), wrapped);
      UnderwayPieces(before, begun, first, pieces);
    }

    method WriteLines(lines: seq<string>, ghost wrapped: string) returns (ok: bool, ghost pieces: seq<string>)
      requires wrapped == Flatten(lines)
      modifies terminal
      ensures Underway(old(terminal.log), old(terminal.clock), old(terminal.moment), pieces)
      ensures !ok ==> FailedAt(old(terminal.moment))
      ensures Delivered(old(terminal.log.commands), old(terminal.log.commands) + pieces, wrapped, ok)
    {
      hide Flatten, Delivered, Underway;
      ghost var before, begun, first := terminal.log, terminal.clock, terminal.moment;
      pieces := [];
      assert lines[0..] == lines;
      var pending := "";
      NothingUnderway();
      Empty(wrapped);
      for n := 0 to |lines|
        invariant Underway(before, begun, first, pieces)
        invariant |pending| <= CHUNK_CHARACTERS
        invariant wrapped == Flatten(pieces) + (pending + Flatten(lines[n..]))
      {
        FlattenFirst(lines, n);
        ok, pending, pieces := WriteLine(lines[n], pending, before, begun, first, pieces, Flatten(lines[n + 1..]), wrapped);
        if !ok { return; }
      }
      ok := true;
      EmptyRest(lines);
      if pending != "" {
        PieceDelivered(before.commands, pieces, pending, "", wrapped);
        ok := WriteLast(pending, before, begun, first, pieces);
        pieces := pieces + [pending];
      } else {
        Empty(Flatten(pieces));
        AllDelivered(before.commands, pieces, wrapped);
      }
    }

    /** The last piece is followed by no delay. */
    method WriteLast(chunk: string, ghost start: Log, ghost begun: nat, ghost first: nat, ghost pieces: seq<string>) returns (ok: bool)
      requires Underway(start, begun, first, pieces) && |chunk| <= CHUNK_CHARACTERS
      modifies terminal
      ensures Underway(start, begun, first, pieces + [chunk]) && terminal.clock == old(terminal.clock)
      ensures !ok ==> FailedAt(first)
    {
      ok := terminal.Write(Command(chunk));
      assert start.commands + (pieces + [chunk]) == start.commands + pieces + [chunk];
    }

    /** One line of a script joins the pending text, which is written before it when
        both are too long together; too long a line is written in full pieces. */
    method WriteLine(line: string, pending: string, ghost start: Log, ghost begun: nat, ghost first: nat, ghost pieces: seq<string>,
                     ghost rest: string, ghost wrapped: string)
      returns (ok: bool, left: string, ghost grown: seq<string>)
      requires Underway(start, begun, first, pieces) && |pending| <= CHUNK_CHARACTERS
      requires wrapped == Flatten(pieces) + (pending + (line + rest))
      modifies terminal
      ensures Underway(start, begun, first, grown) && |left| <= CHUNK_CHARACTERS
      ensures ok ==> wrapped == Flatten(grown) + (left + rest)
      ensures !ok ==> Delivered(start.commands, start.commands + grown, wrapped, false) && FailedAt(first)
    {
      hide Flatten, Delivered, Underway;
      var line := line;
      left, grown := pending, pieces;
      while |line| > CHUNK_CHARACTERS
        invariant Underway(start, begun, first, grown) && |left| <= CHUNK_CHARACTERS
        invariant wrapped == Flatten(grown) + (left + (line + rest))
      {
        Empty(line + rest);
        if left != "" {
          PieceDelivered(start.commands, grown, left, line + rest, wrapped);
          ok := WriteChunk(left, start, begun, first, grown);
          grown := grown + [left];
          if !ok { return; }
          left := "";
        }
        SplitOff(line, rest);
        PieceDelivered(start.commands, grown, line[..CHUNK_CHARACTERS], line[CHUNK_CHARACTERS..] + rest, wrapped);
        ok := WriteChunk(line[..CHUNK_CHARACTERS], start, begun, first, grown);
        grown := grown + [line[..CHUNK_CHARACTERS]];
        if !ok { return; }
        line := line[CHUNK_CHARACTERS..];
        Empty(line + rest);
      }
      if left != "" && |left| + |line| > CHUNK_CHARACTERS {
        PieceDelivered(start.commands, grown, left, line + rest, wrapped);
        ok := WriteChunk(left, start, begun, first, grown);
        grown := grown + [left];
        if !ok { return; }
        left := "";
        Empty(line + rest);
      }
      Regroup(left, line, rest);
      left := left + line;
      ok := true;
    }

    // Reading

    /** One bounded read; sudo prompts for this call's token are answered if the call
        brought a gate, every other prompt is passed over. */
    method ReadAndHandlePrompts(timeout: int, gate: AuthenticationGate?, sudo: Option<string>)
      returns (data: seq<Byte>, error: Option<Error>, spent: nat)
      requires gate != null ==> machine.state in {Starting, Executing} && gate.Valid()
      requires gate != null <==> sudo.Some?
      modifies terminal, machine, gate
      ensures gate != null ==> gate.Valid()
      ensures PromptsHandled(old(View()), View(), data, sudo, old(StageOf(gate)), StageOf(gate), timeout, spent, error)
      ensures Calling(old(terminal.moment), error != None)
      ensures terminal.log.reading == Received(old(terminal.log.reading), terminal.capacity, terminal.world(old(terminal.moment)).data)
      ensures gate == null ==> terminal.moment == old(terminal.moment) + 1
    {
      hide PromptHandled, ReadThrough, PromptsDone, Received, StageOf, MatchCount, Grows;
      ghost var before, stage, from := View(), StageOf(gate), terminal.moment;
      var prompts: seq<PromptEvent>;
      data, prompts := terminal.WaitForData(timeout);
      error, spent := None, 0;
      ReadGrows(before, View(), timeout);
      NothingDone(before, View(), data, sudo, stage, timeout);
      if data == [] {
        assert Seen(before, View()) == [];
        return;
      }
      ghost var read := View();
      assert Seen(before, read) == prompts && prompts[..0] == [];
      if gate == null {
        AllPassed(before, read, data, prompts, stage, timeout);
        return;
      }
      for i := 0 to |prompts|
        invariant machine.state == before.state && error == None && terminal.moment > from && gate.Valid()
        invariant terminal.log.seen == read.log.seen && terminal.log.reading == read.log.reading
        invariant PromptsDone(before, View(), data, prompts[..i], sudo, stage, StageOf(gate), timeout, spent, None)
      {
        ghost var now, current, at := View(), StageOf(gate), terminal.moment;
        var elapsed;
        error, elapsed := HandlePrompt(prompts[i], gate, sudo.value);
        MorePromptsDone(before, now, View(), data, prompts[..i], sudo, stage, current, StageOf(gate), timeout, spent,
                        prompts[i], elapsed, error);
        assert prompts[..i] + [prompts[i]] == prompts[..i + 1];
        if error != None {
          RestPassed(before, View(), data, prompts[..i + 1], prompts[i + 1..], sudo, stage, StageOf(gate), timeout, spent, error.value);
          assert prompts[..i + 1] + prompts[i + 1..] == prompts;
          DoneGrows(before, View(), data, prompts, sudo, stage, StageOf(gate), timeout, spent, error);
          CalmPart(terminal.world, from, at, terminal.moment, terminal.moment);
          return;
        }
        spent := spent + elapsed;
      }
      assert prompts[..|prompts|] == prompts;
      DoneGrows(before, View(), data, prompts, sudo, stage, StageOf(gate), timeout, spent, error);
    }

    ghost function StageOf(gate: AuthenticationGate?): (stage: nat)
      reads gate
      ensures stage <= 2
    {
      if gate == null then 0 else gate.Stage()
    }

    lemma StageIs(gate: AuthenticationGate?)
      ensures StageOf(gate) == if gate == null then 0 else gate.Stage()
    {
    }

    /** Some looks were made since `from`, and not all willing if the call had to give up. */
    ghost predicate Calling(from: nat, gaveUp: bool)
      reads terminal
    {
      terminal.moment >= from && (gaveUp ==> !CalmOf(terminal.world, from, terminal.moment).willing)
    }

    /** One prompt while an authentication is allowed. */
    method HandlePrompt(event: PromptEvent, gate: AuthenticationGate, sudo: string) returns (error: Option<Error>, spent: nat)
      requires machine.state in {Starting, Executing} && gate.Valid()
      modifies terminal, machine, gate
      ensures gate.Valid() && terminal.log.seen == old(terminal.log.seen) && terminal.log.reading == old(terminal.log.reading)
      ensures error == None ==> machine.state == old(machine.state)
      ensures PromptHandled(old(View()), View(), event, Some(sudo), old(StageOf(gate)), StageOf(gate), spent, error)
      ensures Calling(old(terminal.moment), error != None)
    {
      hide Contains;
      ghost var from := terminal.moment;
      error, spent := None, 0;
      if event.kind != SudoPassword || !Contains(event.prompt, sudo) {
        return;
      }
      var permitted;
      permitted, error := gate.Permit(terminal);
      if !permitted {
        if error != None { NotRunning(terminal.world, from, from, terminal.moment); }
        return;
      }
      ghost var at := terminal.moment;
      error, spent := AnswerPrompt(event);
      CalmPart(terminal.world, from, at, terminal.moment, terminal.moment);
    }

    /** The user is asked; without an answer the session fails. */
    method AnswerPrompt(event: PromptEvent) returns (error: Option<Error>, spent: nat)
      requires machine.state in {Starting, Executing}
      modifies terminal, machine
      ensures terminal.log == old(terminal.log).(answered := old(terminal.log).answered + [event],
                                                 authentication := terminal.log.authentication, ended := terminal.log.ended)
      ensures old(terminal.log).authentication <= terminal.log.authentication && (old(terminal.log).ended ==> terminal.log.ended)
      ensures terminal.clock == old(terminal.clock) + terminal.log.authentication - old(terminal.log).authentication
      ensures error == None ==>
        machine.state == old(machine.state) && spent == terminal.log.authentication - old(terminal.log).authentication
      ensures error != None ==>
        spent == 0 && error.value in {Foreign, SessionFailed} && machine.state == State.Failed && terminal.log.ended
      ensures Calling(old(terminal.moment), error != None)
    {
      ghost var from := terminal.moment;
      var ok := machine.BeginAuthentication();
      var raised, answered, elapsed := terminal.Respond(event);
      if raised || !answered {
        var running := terminal.Running();
        if running {
          terminal.Terminate();
        }
        ok := machine.Transition(State.Failed);
        NotRunning(terminal.world, from, from, terminal.moment);
        return Some(if raised then Foreign else SessionFailed), 0;
      }
      ok := machine.FinishAuthentication();
      return None, elapsed;
    }

    // Commands

    method LoseExecutingSession()
      modifies terminal, machine
      ensures machine.state == if old(machine.state) == Executing then Lost else old(machine.state)
      ensures View() == old(View()).(state := machine.state, log := old(View()).log.(ended := true))
      ensures terminal.moment == old(terminal.moment) + 1
    {
      if machine.state == Executing {
        var ok := machine.Transition(Lost);
      }
      var running := terminal.Running();
      if running {
        terminal.Terminate();
      }
    }

    /** The parser has been fed exactly these pieces and still waits. */
    ghost predicate Tracks(parser: CommandFrameParser, cfg: Config, pieces: seq<seq<Byte>>)
      reads parser
    {
      parser.Valid() && !parser.done && FeedAll(Initial(cfg), pieces) == Waiting(parser.State())
    }

    method FeedFrame(parser: CommandFrameParser, data: seq<Byte>, ghost cfg: Config, ghost pieces: seq<seq<Byte>>)
      returns (reply: Reply)
      requires Tracks(parser, cfg, pieces)
      modifies parser
      ensures match reply
              case Nothing => Tracks(parser, cfg, pieces + [data])
              case Result(r) => FeedAll(Initial(cfg), pieces + [data]) == Completed(r)
              case Raised(_) => FeedAll(Initial(cfg), pieces + [data]).Failed?
    {
      hide FeedAll, FrameSpec.Feed, CommandFrameParser.State, CommandFrameParser.Valid;
      FeedAllAppend(Initial(cfg), pieces, data);
      reply := parser.Feed(data, false);
    }

    /** Reads what came: the parser's reply to it. */
    method FeedRead(parser: CommandFrameParser, data: seq<Byte>, ghost cfg: Config, ghost before: SessionSpec.Session,
                    ghost now: SessionSpec.Session) returns (reply: Reply)
      requires before.log.reading.given <= now.log.reading.given && View().log.reading.given == Given(now.log.reading.given, data)
      requires Tracks(parser, cfg, Reads(before, now))
      modifies parser
      ensures before.log.reading.given <= View().log.reading.given
      ensures match reply
              case Nothing => Tracks(parser, cfg, Reads(before, View()))
              case Result(r) => FeedAll(Initial(cfg), Reads(before, View())) == Completed(r)
              case Raised(_) => FeedAll(Initial(cfg), Reads(before, View())).Failed?
    {
      hide FeedAll, Tracks, Reads, Given;
      ReadsGrow(before, now, View(), data);
      reply := Nothing;
      if data != [] {
        reply := FeedFrame(parser, data, cfg, Reads(before, now));
      }
    }

    lemma FrameBegun(parser: CommandFrameParser, cfg: Config, before: SessionSpec.Session)
      requires parser.Valid() && !parser.done && parser.State() == Initial(cfg)
      requires terminal.log.reading.given == before.log.reading.given
      ensures Tracks(parser, cfg, Reads(before, View()))
    {
      NothingRead(cfg, before, View());
    }

    lemma StillWaiting(parser: CommandFrameParser, cfg: Config, before: SessionSpec.Session)
      requires before.log.reading.given <= terminal.log.reading.given && Tracks(parser, cfg, Reads(before, View()))
      ensures FeedAll(Initial(cfg), Reads(before, View())).Waiting?
    {
      hide FeedAll;
    }

    /** What one read means for a running command: the end of its frame, the end of
        the session, or nothing yet. */
    method JudgeRead(command: string, timeout: int, sudo: Option<string>, token: Token, data: seq<Byte>, parser: CommandFrameParser,
                     started: nat, ghost broken: set<State>, ghost stage: nat, ghost deadline: int, ghost from: nat,
                     ghost before: SessionSpec.Session, ghost now: SessionSpec.Session)
      returns (end: Option<Outcome>)
      requires machine.state == Executing && started == before.clock <= terminal.clock && from <= terminal.moment
      requires InFrame(setup.scripts.command(command, token, setup.nonce), sudo, stage, timeout, deadline, before, View())
      requires before.log.reading.given <= now.log.reading.given && View().log.reading.given == Given(now.log.reading.given, data)
      requires Tracks(parser, FrameOf(setup, token, setup.limit), Reads(before, now))
      modifies terminal, machine, parser
      ensures terminal.moment > old(terminal.moment) && (end == None ==> terminal.moment == old(terminal.moment) + 1)
      ensures end.Some? ==> CommandRun(setup, command, timeout, sudo, token, broken, CalmOf(terminal.world, from, terminal.moment),
                                       before, old(View()), View(), end.value)
      ensures end == None ==> Moved(old(View()), View()) && machine.state == Executing
      ensures end == None ==>
        before.log.reading.given <= View().log.reading.given && Tracks(parser, FrameOf(setup, token, setup.limit), Reads(before, View()))
    {
      hide FeedAll, CommandRun, InFrame, Tracks, Reads, Given;
      ghost var read, cfg, at := View(), FrameOf(setup, token, setup.limit), terminal.moment;
      var reply := FeedRead(parser, data, cfg, before, now);
      end := None;
      if reply.Raised? {
        LoseExecutingSession();
        EndsLost(setup, command, timeout, sudo, token, broken, CalmOf(terminal.world, from, terminal.moment), stage, deadline,
                 before, read, View());
        end := Some(Outcome.Raised(OutcomeUnknown));
      } else {
        var running := terminal.Running();
        ReadsSame(before, read, View());
        if !running {
          if reply.Nothing? {
            CloseFrame(parser, cfg, Reads(before, View()));
          }
          LoseExecutingSession();
          NotRunning(terminal.world, from, at, terminal.moment);
          EndsLost(setup, command, timeout, sudo, token, broken, CalmOf(terminal.world, from, terminal.moment), stage, deadline,
                   before, read, View());
          end := Some(Outcome.Raised(OutcomeUnknown));
        } else if reply.Result? {
          var ok := machine.Transition(Ready);
          EndsFinished(setup, command, timeout, sudo, token, broken, CalmOf(terminal.world, from, terminal.moment), stage, deadline,
                       before, read, View(), reply.result);
          end := Some(Finished(reply.result, terminal.clock - started));
        }
      }
    }

    /** The last feed of a frame that will not be completed; its error is expected. */
    method CloseFrame(parser: CommandFrameParser, ghost cfg: Config, ghost pieces: seq<seq<Byte>>)
      requires Tracks(parser, cfg, pieces)
      modifies parser
    {
      var reply := parser.Feed([], true);
    }

    /** What one read means while recovery is awaited. */
    method JudgeRecovery(command: string, timeout: int, sudo: Option<string>, token: Token, data: seq<Byte>, parser: CommandFrameParser,
                         ghost broken: set<State>, ghost limit: int, ghost from: nat,
                         ghost before: SessionSpec.Session, ghost polled: SessionSpec.Session, ghost now: SessionSpec.Session)
      returns (end: Option<Outcome>, running: bool)
      requires machine.state == Executing && from <= terminal.moment
      requires InRecovery(setup.scripts.command(command, token, setup.nonce), setup.scripts.recovery(token, setup.nonce),
                          sudo, timeout, limit, before, polled, View())
      requires before.log.reading.given <= polled.log.reading.given
      requires FeedAll(Initial(FrameOf(setup, token, setup.limit)), Reads(before, polled)).Waiting?
      requires before.log.reading.given <= now.log.reading.given && View().log.reading.given == Given(now.log.reading.given, data)
      requires Tracks(parser, FrameOf(setup, token, setup.limit), Reads(before, now))
      modifies terminal, machine, parser
      ensures terminal.moment > old(terminal.moment)
      ensures end.Some? ==> CommandRun(setup, command, timeout, sudo, token, broken, CalmOf(terminal.world, from, terminal.moment),
                                       before, polled, View(), end.value)
      ensures end == None ==> Moved(old(View()), View()) && machine.state == Executing
      ensures end == None && !running ==> !CalmOf(terminal.world, from, terminal.moment).alive
      ensures end == None ==>
        before.log.reading.given <= View().log.reading.given && Tracks(parser, FrameOf(setup, token, setup.limit), Reads(before, View()))
    {
      hide FeedAll, CommandRun, InRecovery, Tracks, Reads, Given;
      ghost var read, cfg, at := View(), FrameOf(setup, token, setup.limit), terminal.moment;
      var reply := FeedRead(parser, data, cfg, before, now);
      end, running := None, true;
      if reply.Raised? {
        LoseExecutingSession();
        EndsUnrecovered(setup, command, timeout, sudo, token, broken, CalmOf(terminal.world, from, terminal.moment), limit,
                        before, polled, read, View());
        end := Some(Outcome.Raised(OutcomeUnknown));
      } else {
        running := terminal.Running();
        NotRunning(terminal.world, from, at, terminal.moment);
        ReadsSame(before, read, View());
        if reply.Result? {
          if running {
            var ok := machine.Transition(Ready);
            EndsTimedOut(setup, command, timeout, sudo, token, broken, CalmOf(terminal.world, from, terminal.moment), limit,
                         before, polled, read, View(), reply.result);
            end := Some(Outcome.Raised(TimedOut));
          } else {
            LoseExecutingSession();
            NotRunning(terminal.world, from, at, terminal.moment);
            EndsUnrecovered(setup, command, timeout, sudo, token, broken, CalmOf(terminal.world, from, terminal.moment), limit,
                            before, polled, read, View());
            end := Some(Outcome.Raised(OutcomeUnknown));
          }
        }
      }
    }

    /** The body of a command: written, then read to the end of its frame. */
    method RunCommand(command: string, timeout: int, sudo: Option<string>, token: Token)
      returns (o: Outcome, ghost polled: SessionSpec.Session)
      requires setup.limit >= 1 && machine.state == Executing
      modifies terminal, machine
      ensures terminal.moment >= old(terminal.moment)
      ensures CommandRun(setup, command, timeout, sudo, token, {Executing, State.Failed},
                         CalmOf(terminal.world, old(terminal.moment), terminal.moment), old(View()), polled, View(), o)
      ensures sudo == None && o != Outcome.Raised(Foreign) ==>
        && old(terminal.log.commands) <= polled.log.commands
        && FromWorld(terminal.world, terminal.capacity, old(terminal.moment) + Pieces(old(View()), polled), old(View()), polled)
    {
      hide FeedAll, Delivered, InFrame, CommandRun, Tracks, Reads, Initial, CommandFrameParser.State, CommandFrameParser.Valid,
        CalmOf, FromWorld, StageOf;
      ghost var before, from := View(), terminal.moment;
      var started := terminal.clock;
      var cfg := Config(token, setup.limit, Some(setup.nonce));
      var parser := new CommandFrameParser(cfg);
      var text := setup.scripts.command(command, token, setup.nonce);
      var ok := WriteCommand(text);
      polled := View();
      if !ok {
        NotRunning(terminal.world, from, terminal.moment - 1, terminal.moment);
        WriteFailed(setup, command, timeout, sudo, token, {Executing, State.Failed}, CalmOf(terminal.world, from, terminal.moment),
                    before, View());
        return Outcome.Raised(Foreign), polled;
      }
      var gate: AuthenticationGate? := null;
      if sudo.Some? {
        gate := new AuthenticationGate();
      }
      CommandWritten(text, sudo, timeout, before, View());
      FrameBegun(parser, cfg, before);
      StageIs(gate);
      o, polled := AwaitFrame(command, timeout, sudo, token, gate, parser, started, from, before);
    }

    /** Reads until the frame ends, the session ends or the deadline passes; the time
        an authentication takes does not count. */
    method AwaitFrame(command: string, timeout: int, sudo: Option<string>, token: Token, gate: AuthenticationGate?,
                      parser: CommandFrameParser, started: nat, ghost from: nat, ghost before: SessionSpec.Session)
      returns (o: Outcome, ghost polled: SessionSpec.Session)
      requires setup.limit >= 1 && machine.state == Executing && (gate != null <==> sudo.Some?) && started == before.clock
      requires from <= terminal.moment && StageOf(gate) == 0 && (gate != null ==> gate.Valid())
      requires InFrame(setup.scripts.command(command, token, setup.nonce), sudo, 0, timeout, started + timeout, before, View())
      requires before.log.reading == View().log.reading && before.log.begun == View().log.begun
      requires Tracks(parser, FrameOf(setup, token, setup.limit), Reads(before, View()))
      modifies terminal, machine, parser, gate
      ensures terminal.moment >= old(terminal.moment)
      ensures CommandRun(setup, command, timeout, sudo, token, {Executing, State.Failed},
                         CalmOf(terminal.world, from, terminal.moment), before, polled, View(), o)
      ensures polled.log.commands == old(terminal.log.commands)
      ensures sudo == None ==> FromWorld(terminal.world, terminal.capacity, old(terminal.moment), before, polled)
    {
      hide FeedAll, InFrame, PromptsHandled, CommandRun, Tracks, Received, Reads, CalmOf, FromWorld, StageOf, Moved;
      ghost var text, frame := setup.scripts.command(command, token, setup.nonce), FrameOf(setup, token, setup.limit);
      ghost var first, written := terminal.moment, terminal.log.commands;
      var deadline := started + timeout;
      NothingPolled(terminal.world, terminal.capacity, first, before, View());
      while terminal.clock < deadline
        invariant machine.state == Executing && terminal.moment >= first && terminal.log.commands == written
        invariant gate != null ==> gate.Valid()
        invariant InFrame(text, sudo, StageOf(gate), timeout, deadline, before, View())
        invariant before.log.reading.given <= View().log.reading.given && Tracks(parser, frame, Reads(before, View()))
        invariant before.log.begun <= View().log.begun
        invariant sudo == None ==> FromWorld(terminal.world, terminal.capacity, first, before, View())
        invariant sudo == None ==> terminal.moment == first + 2 * Polls(before, View())
        decreases deadline - terminal.clock
      {
        ghost var now, stage, at := View(), StageOf(gate), terminal.moment;
        var poll := if POLL < deadline - terminal.clock then POLL else deadline - terminal.clock;
        var data, error, spent := ReadAndHandlePrompts(poll, gate, sudo);
        polled := View();
        ReadInFrame(text, sudo, stage, StageOf(gate), timeout, deadline, before, now, polled, data, poll, spent, error);
        ReadFacts(now, polled, data, sudo, stage, StageOf(gate), poll, spent, error);
        if error != None {
          CalmPart(terminal.world, from, at, terminal.moment, terminal.moment);
          PromptRaised(setup, command, timeout, sudo, token, CalmOf(terminal.world, from, terminal.moment), before, polled, error.value);
          return Outcome.Raised(error.value), polled;
        }
        if sudo == None { OncePolled(terminal.world, terminal.capacity, first, before, now, polled, at); }
        deadline := deadline + spent;
        InFrameFacts(text, sudo, StageOf(gate), timeout, deadline, before, polled);
        var end := JudgeRead(command, timeout, sudo, token, data, parser, started, {Executing, State.Failed}, StageOf(gate), deadline,
                             from, before, now);
        if end != None {
          return end.value, polled;
        }
        StillInFrame(text, sudo, StageOf(gate), timeout, deadline, before, polled, View());
        StillPolled(terminal.world, terminal.capacity, first, before, polled, View());
      }
      polled := View();
      o := Interrupt(command, timeout, sudo, token, StageOf(gate), deadline, parser, from, before);
    }

    /** After the deadline: interrupt the program, send the recovery script, and wait
        for the frame to be completed by the same shell. */
    method Interrupt(command: string, timeout: int, sudo: Option<string>, token: Token, ghost stage: nat,
                     ghost deadline: int, parser: CommandFrameParser, ghost from: nat, ghost before: SessionSpec.Session)
      returns (o: Outcome)
      requires setup.limit >= 1 && machine.state == Executing && terminal.clock >= deadline && from <= terminal.moment
      requires InFrame(setup.scripts.command(command, token, setup.nonce), sudo, stage, timeout, deadline, before, View())
      requires before.log.reading.given <= View().log.reading.given
      requires Tracks(parser, FrameOf(setup, token, setup.limit), Reads(before, View()))
      modifies terminal, machine, parser
      ensures terminal.moment >= old(terminal.moment)
      ensures CommandRun(setup, command, timeout, sudo, token, {Executing, State.Failed},
                         CalmOf(terminal.world, from, terminal.moment), before, old(View()), View(), o)
    {
      hide FeedAll, InFrame, InRecovery, PromptsHandled, CommandRun, Tracks, Reads, Received, CalmOf;
      ghost var broken := {Executing, State.Failed};
      ghost var text, frame := setup.scripts.command(command, token, setup.nonce), FrameOf(setup, token, setup.limit);
      ghost var polled, at := View(), terminal.moment;
      StillWaiting(parser, frame, before);
      var recovery := setup.scripts.recovery(token, setup.nonce);
      var ok := terminal.Write(Input.Interrupt);
      if !ok {
        ghost var now := View();
        LoseExecutingSession();
        NotRunning(terminal.world, from, at, terminal.moment);
        EndsUninterrupted(setup, command, timeout, sudo, token, broken, CalmOf(terminal.world, from, terminal.moment), stage, deadline,
                          before, polled, now, View());
        return Outcome.Raised(OutcomeUnknown);
      }
      terminal.Sleep(INTERRUPT_DELAY);
      ok := terminal.Write(Recovery(recovery));
      InterruptSent(text, recovery, sudo, stage, timeout, deadline, before, polled, View());
      var limit := terminal.clock + RECOVERY_TIMEOUT;
      ReadsSame(before, polled, View());
      if !ok {
        ghost var now := View();
        LoseExecutingSession();
        NotRunning(terminal.world, from, at + 1, terminal.moment);
        EndsUnrecovered(setup, command, timeout, sudo, token, broken, CalmOf(terminal.world, from, terminal.moment), limit,
                        before, polled, now, View());
        return Outcome.Raised(OutcomeUnknown);
      }
      var running := true;
      while terminal.clock < limit && running
        invariant machine.state == Executing && terminal.moment >= at
        invariant InRecovery(text, recovery, sudo, timeout, limit, before, polled, View())
        invariant before.log.reading.given <= View().log.reading.given && Tracks(parser, frame, Reads(before, View()))
        invariant running || !CalmOf(terminal.world, from, terminal.moment).alive
        decreases limit - terminal.clock
      {
        ghost var now := View();
        var poll := if POLL < limit - terminal.clock then POLL else limit - terminal.clock;
        var data, error, spent := ReadAndHandlePrompts(poll, null, None);
        ghost var read := View();
        ReadInRecovery(text, recovery, sudo, timeout, limit, before, polled, now, read, data, poll, spent, error);
        var end;
        end, running := JudgeRecovery(command, timeout, sudo, token, data, parser, broken, limit, from, before, polled, now);
        if end != None {
          return end.value;
        }
        StillInRecovery(text, recovery, sudo, timeout, limit, before, polled, read, View());
      }
      StillWaiting(parser, frame, before);
      ghost var now, late := View(), terminal.moment;
      LoseExecutingSession();
      CalmPart(terminal.world, from, from, late, terminal.moment);
      EndsUnrecovered(setup, command, timeout, sudo, token, broken, CalmOf(terminal.world, from, terminal.moment), limit,
                      before, polled, now, View());
      o := Outcome.Raised(OutcomeUnknown);
    }

    /** Runs one command; the token it was framed with is new. */
    method Execute(command: string, timeout: int, allowSudo: bool, sudo: Option<string>)
      returns (o: Outcome, ghost token: Token, ghost polled: SessionSpec.Session)
      requires Valid()
      modifies this, terminal, machine
      ensures Valid() && token == terminal.world(old(terminal.moment)).token && terminal.moment > old(terminal.moment)
      ensures Executed(setup, command, timeout, allowSudo, sudo, token, CalmOf(terminal.world, old(terminal.moment), terminal.moment),
                       old(View()), polled, View(), o)
      ensures ValidCommand(command) && !allowSudo && sudo == None && old(machine.state) == Ready && o != Outcome.Raised(Foreign) ==>
        && old(terminal.log.commands) <= polled.log.commands
        && FromWorld(terminal.world, terminal.capacity, old(terminal.moment) + 1 + Pieces(old(View()), polled), old(View()), polled)
    {
      hide CommandRun, CalmOf, PollsFrom;
      ghost var from := terminal.moment;
      var chosen := terminal.NewToken();
      token, polled := chosen, View();
      if !ValidCommand(command) || allowSudo != sudo.Some? {
        return Outcome.Raised(InvalidArgument), token, polled;
      }
      if machine.state != Ready {
        return Outcome.Raised(InvalidState), token, polled;
      }
      activeToken := Some(chosen);
      ghost var before := View();
      var ok := machine.Transition(Executing);
      o, polled := RunCommand(command, timeout, sudo, chosen);
      ghost var ran, calm, at := View(), CalmOf(terminal.world, from + 1, terminal.moment), terminal.moment;
      CalmPart(terminal.world, from, from + 1, at, terminal.moment);
      RunEnds(setup, command, timeout, sudo, token, calm, CalmOf(terminal.world, from, terminal.moment), before, polled, ran, o);
      if machine.state == Executing {
        var running := terminal.Running();
        ok := machine.Transition(if running then State.Failed else Lost);
        NotRunning(terminal.world, from, at, terminal.moment);
        CalmPart(terminal.world, from, from + 1, at, terminal.moment);
        BrokenEnds(setup, command, timeout, sudo, token, calm, CalmOf(terminal.world, from, terminal.moment), before, polled, ran, View(), o);
      }
      activeToken := None;
    }

    // Opening

    /** Starts the process, answers its sudo prompt if allowed, and takes control of
        the shell behind its first prompt. */
    method Open(timeout: int, allowSudo: bool, sudo: Option<string>, checked: bool)
      returns (o: Outcome, ghost token: Token, ghost mid: SessionSpec.Session)
      requires Valid()
      modifies this, terminal, machine
      ensures Valid() && terminal.moment > old(terminal.moment)
      ensures Opened(setup, timeout, allowSudo, sudo, token, CalmOf(terminal.world, old(terminal.moment), terminal.moment),
                     old(View()), mid, View(), o)
    {
      hide Starts, Shell, ShellBegun, ShellRefused, NeverReady, CalmOf;
      ghost var from := terminal.moment;
      var chosen := terminal.NewToken();
      token, mid := chosen, View();
      if machine.state != Created {
        return Outcome.Raised(InvalidState), token, mid;
      }
      if allowSudo != sudo.Some? {
        return Outcome.Raised(InvalidArgument), token, mid;
      }
      ghost var before := View();
      var ok := machine.Transition(Starting);
      o, mid := Start(timeout, sudo, checked, chosen);
      ghost var started, at := View(), terminal.moment;
      if o != Done {
        var running := terminal.Running();
        if running {
          terminal.Terminate();
        }
        if machine.state == Starting {
          ok := machine.Transition(State.Failed);
        }
      }
      CalmPart(terminal.world, from, from + 1, at, terminal.moment);
      OpenEnds(setup, timeout, sudo, token, before, mid, started, View(), o);
    }

    method FailureCheck(checked: bool) returns (ok: bool)
      modifies terminal`moment
      ensures Calling(old(terminal.moment), !ok)
    {
      ok := true;
      if checked {
        ghost var at := terminal.moment;
        var o := terminal.Observe();
        ok := !o.fails;
        NotRunning(terminal.world, at, at, terminal.moment);
      }
    }

    method Start(timeout: int, sudo: Option<string>, checked: bool, token: Token)
      returns (o: Outcome, ghost mid: SessionSpec.Session)
      requires setup.limit >= 1 && machine.state == Starting
      modifies terminal, machine
      ensures terminal.moment >= old(terminal.moment) && machine.state in {Starting, State.Failed, Ready}
      ensures StartEnded(setup, timeout, sudo, token, CalmOf(terminal.world, old(terminal.moment), terminal.moment),
                         old(View()), mid, View(), o)
    {
      hide PromptsHandled, Starts, InStart, Shell, ShellBegun, ShellRefused, Received, CalmOf, StageOf, StartEnded;
      ghost var before, from := View(), terminal.moment;
      StartsHere(sudo, before);
      mid := before;
      var started := terminal.Observe();
      if started.fails {
        NotRunning(terminal.world, from, from, terminal.moment);
        GivenUp(setup, timeout, sudo, token, CalmOf(terminal.world, from, terminal.moment), 0, before, mid, View(), Foreign);
        return Outcome.Raised(Foreign), mid;
      }
      var gate: AuthenticationGate? := null;
      if sudo.Some? {
        gate := new AuthenticationGate();
      }
      var deadline := terminal.clock + timeout;
      StageIs(gate);
      while terminal.clock < deadline
        invariant machine.state == Starting && (gate != null ==> fresh(gate) && gate.Valid()) && (gate != null <==> sudo.Some?)
        invariant InStart(sudo, StageOf(gate), before, View()) && terminal.moment >= from
        invariant terminal.log.ready == before.log.ready && terminal.log.commands == before.log.commands
        decreases deadline - terminal.clock
      {
        mid := View();
        ghost var at := terminal.moment;
        var ok := FailureCheck(checked);
        if !ok {
          CalmPart(terminal.world, from, at, terminal.moment, terminal.moment);
          GivenUp(setup, timeout, sudo, token, CalmOf(terminal.world, from, terminal.moment), StageOf(gate), before, mid, View(), Foreign);
          return Outcome.Raised(Foreign), mid;
        }
        var poll := if POLL < deadline - terminal.clock then POLL else deadline - terminal.clock;
        var ready;
        o, ready, mid := PollStart(poll, gate, sudo, from, before);
        if o != Done {
          PromptGivenUp(setup, timeout, sudo, token, CalmOf(terminal.world, from, terminal.moment), before, mid, View(), o);
          return;
        }
        at := terminal.moment;
        if ready {
          StartGoesOn(sudo, StageOf(gate), before, mid);
          o := TakeShell(timeout, deadline, checked, token, before);
          CalmPart(terminal.world, from, at, terminal.moment, terminal.moment);
          ShellTaken(setup, timeout, sudo, token, CalmOf(terminal.world, at, terminal.moment), CalmOf(terminal.world, from, terminal.moment),
                     before, mid, View(), o);
          return;
        }
        var running := terminal.Running();
        StartsLooked(sudo, StageOf(gate), before, mid, View());
        if !running {
          mid := View();
          ok := machine.Transition(State.Failed);
          NotRunning(terminal.world, from, at, terminal.moment);
          GivenUp(setup, timeout, sudo, token, CalmOf(terminal.world, from, terminal.moment), StageOf(gate), before, mid, View(),
                  SessionEnded);
          return Outcome.Raised(SessionEnded), mid;
        }
      }
      mid := View();
      var ok := machine.Transition(State.Failed);
      GivenUp(setup, timeout, sudo, token, CalmOf(terminal.world, from, terminal.moment), StageOf(gate), before, mid, View(),
              SessionFailed);
      o := Outcome.Raised(SessionFailed);
    }

    /** One read while the connection starts, and a look for the shell's prompt. */
    method PollStart(poll: int, gate: AuthenticationGate?, sudo: Option<string>, ghost from: nat, ghost before: SessionSpec.Session)
      returns (o: Outcome, ready: bool, ghost mid: SessionSpec.Session)
      requires machine.state == Starting && (gate != null ==> gate.Valid()) && (gate != null <==> sudo.Some?)
      requires InStart(sudo, StageOf(gate), before, View()) && from <= terminal.moment && 0 < poll <= POLL
      modifies terminal, machine, gate
      ensures terminal.moment >= from && (gate != null ==> gate.Valid()) && mid == View()
      ensures terminal.log.commands == old(terminal.log.commands)
      ensures o == Done ==>
        && machine.state == Starting && InStart(sudo, StageOf(gate), before, mid) && terminal.clock > old(terminal.clock)
        && terminal.log.ready == (old(terminal.log.ready) || ready)
      ensures o != Done ==>
        && Starts(sudo, before, mid) && machine.state in {Starting, State.Failed} && !CalmOf(terminal.world, from, terminal.moment).willing
        && o in {Outcome.Raised(Foreign), Outcome.Raised(SessionFailed)}
    {
      hide PromptsHandled, Starts, InStart, Received, CalmOf, StageOf;
      ghost var now, stage, at := View(), StageOf(gate), terminal.moment;
      var data, error, spent := ReadAndHandlePrompts(poll, gate, sudo);
      mid := View();
      ReadStarting(sudo, stage, StageOf(gate), before, now, mid, data, poll, spent, error);
      ReadFacts(now, mid, data, sudo, stage, StageOf(gate), poll, spent, error);
      if error != None {
        CalmPart(terminal.world, from, at, terminal.moment, terminal.moment);
        return Outcome.Raised(error.value), false, mid;
      }
      ready := terminal.Ready();
      StartsLooked(sudo, StageOf(gate), before, mid, View());
      mid := View();
      o := Done;
    }

    /** The shell's prompt was seen: takes the shell over in what time is left. */
    method TakeShell(timeout: int, deadline: int, checked: bool, token: Token, ghost before: SessionSpec.Session) returns (o: Outcome)
      requires setup.limit >= 1 && machine.state == Starting && deadline == before.clock + timeout && terminal.log.ready
      modifies terminal, machine
      ensures terminal.moment >= old(terminal.moment) && machine.state == if o == Done then Ready else Starting
      ensures Shell(setup, token, old(View()), View(), o == Done)
      ensures o in {Done, Outcome.Raised(Foreign), Outcome.Raised(SessionFailed), Outcome.Raised(SessionEnded)}
      ensures o == Done ==> ShellBegun(setup, token, old(View()), View())
      ensures o == Outcome.Raised(Foreign) ==> !CalmOf(terminal.world, old(terminal.moment), terminal.moment).willing
      ensures o == Outcome.Raised(SessionEnded) ==> !CalmOf(terminal.world, old(terminal.moment), terminal.moment).alive
      ensures o == Outcome.Raised(SessionFailed) ==> ShellRefused(setup, timeout, token, before, old(View()), View())
    {
      hide Shell, FeedAll, CalmOf, ShellTime;
      ghost var mid, from := View(), terminal.moment;
      ShellUntouched(setup, token, mid, View());
      var ok := FailureCheck(checked);
      if !ok {
        return Outcome.Raised(Foreign);
      }
      ghost var at := terminal.moment;
      var left := if deadline - terminal.clock > 100 then deadline - terminal.clock else 100;
      var time := if left < BOOTSTRAP_TIMEOUT then left else BOOTSTRAP_TIMEOUT;
      ShellTimeIs(timeout, before, mid, left, time);
      o := InitializeShell(time, checked, token);
      CalmPart(terminal.world, from, at, terminal.moment, terminal.moment);
      if o == Done {
        ghost var begun := View();
        ok := machine.Transition(Ready);
        ShellMoved(setup, token, mid, begun, View(), true);
      }
    }

    /** Writes the bootstrap command and waits for its frame to end with code 0. */
    method InitializeShell(timeout: int, checked: bool, token: Token) returns (o: Outcome)
      requires setup.limit >= 1 && machine.state == Starting
      modifies terminal, machine
      ensures terminal.moment >= old(terminal.moment) && machine.state == Starting
      ensures Shell(setup, token, old(View()), View(), o == Done)
      ensures o in {Done, Outcome.Raised(Foreign), Outcome.Raised(SessionFailed), Outcome.Raised(SessionEnded)}
      ensures old(View()).log.reading.given <= View().log.reading.given
      ensures var verdict := Verdict(setup, token, 4096, old(View()), View());
        match o
        case Done => verdict.Completed? && verdict.result.exitCode == 0
        case Raised(SessionEnded) => !CalmOf(terminal.world, old(terminal.moment), terminal.moment).alive
        case Raised(SessionFailed) =>
          verdict.Failed? || (verdict.Completed? && verdict.result.exitCode != 0)
          || (verdict.Waiting? && terminal.clock >= old(terminal.clock) + timeout)
        case Raised(Foreign) => !CalmOf(terminal.world, old(terminal.moment), terminal.moment).willing
        case _ => false
    {
      hide FeedAll, PromptsHandled, Tracks, Delivered, Shell, Reads, Received, CalmOf;
      ghost var before, from := View(), terminal.moment;
      var cfg := Config(token, 4096, Some(setup.nonce));
      var parser := new CommandFrameParser(cfg);
      var ok := WriteCommand(setup.scripts.command(setup.scripts.bootstrap(setup.nonce), token, setup.nonce));
      ShellWritten(setup, token, before, View(), ok);
      if !ok {
        NotRunning(terminal.world, from, terminal.moment - 1, terminal.moment);
        return Outcome.Raised(Foreign);
      }
      FrameBegun(parser, cfg, before);
      var deadline := terminal.clock + timeout;
      while terminal.clock < deadline
        invariant machine.state == Starting && fresh(parser) && Shell(setup, token, before, View(), true) && terminal.moment >= from
        invariant before.log.reading.given <= View().log.reading.given && Tracks(parser, cfg, Reads(before, View()))
        decreases deadline - terminal.clock
      {
        ghost var now, at := View(), terminal.moment;
        ShellMoved(setup, token, before, now, now, true);
        ok := FailureCheck(checked);
        if !ok {
          CalmPart(terminal.world, from, at, terminal.moment, terminal.moment);
          return Outcome.Raised(Foreign);
        }
        var poll := if POLL < deadline - terminal.clock then POLL else deadline - terminal.clock;
        var data, error, spent := ReadAndHandlePrompts(poll, null, None);
        ghost var read := View();
        ReadInShell(setup, token, before, now, read, data, poll, spent, error);
        var reply := FeedRead(parser, data, cfg, before, now);
        if reply.Raised? {
          return Outcome.Raised(SessionFailed);
        }
        at := terminal.moment;
        var running := terminal.Running();
        ShellMoved(setup, token, before, read, View(), true);
        ReadsSame(before, read, View());
        if !running {
          NotRunning(terminal.world, from, at, terminal.moment);
          return Outcome.Raised(SessionEnded);
        }
        if reply.Result? {
          if reply.result.exitCode != 0 {
            return Outcome.Raised(SessionFailed);
          }
          return Done;
        }
      }
      ShellMoved(setup, token, before, View(), View(), true);
      StillWaiting(parser, cfg, before);
      o := Outcome.Raised(SessionFailed);
    }

    // Interactive use

    method StartInteractive(command: string) returns (o: Outcome)
      requires Valid()
      modifies terminal, machine
      ensures Valid() && InteractiveStarted(command, old(View()), View(), o)
      ensures command != "" && '\0' !in command && old(machine.state) == Ready ==>
        && o in {Done, Outcome.Raised(Foreign)}
        && (o == Outcome.Raised(Foreign) <==> terminal.world(old(terminal.moment)).fails)
      ensures o == Outcome.Raised(Foreign) ==>
        && machine.state == (if terminal.world(old(terminal.moment) + 1).running then State.Failed else Lost)
        && terminal.moment == old(terminal.moment) + 2
    {
      if !ValidCommand(command) {
        return Outcome.Raised(InvalidArgument);
      }
      if machine.state != Ready {
        return Outcome.Raised(InvalidState);
      }
      var moved := machine.Transition(Interactive);
      var ok := terminal.Write(Typed(command + "\r\n"));
      if !ok {
        var running := terminal.Running();
        moved := machine.Transition(if running then State.Failed else Lost);
        return Outcome.Raised(Foreign);
      }
      o := Done;
    }

    /** Prompts are looked for in what the session reads; what is shown is what the buffer
        has from the caller's own cursor on. */
    method ReadInteractive(cursor: nat, timeout: int) returns (o: Outcome)
      requires Valid()
      modifies terminal, machine
      ensures Valid() && InteractiveRead(setup, cursor, old(View()), View(), o)
      ensures old(machine.state) == Interactive ==>
        && terminal.moment == old(terminal.moment) + 3
        && (o == Outcome.Raised(SessionEnded) <==> !terminal.world(old(terminal.moment) + 2).running)
    {
      hide PromptsHandled, InteractiveRead, ReadingGrows, RingBuffer.ReadLog, Utf8.DecodeReplacing, Received, CalmOf;
      ghost var before := View();
      if machine.state != Interactive {
        NotInteractive(setup, cursor, before);
        return Outcome.Raised(InvalidState);
      }
      var wait := if timeout > 0 then timeout else 0;
      var data, error, spent := ReadAndHandlePrompts(wait, null, None);
      ghost var handled := View();
      PromptsPassed(before, handled, data, wait, spent, error);
      var read := terminal.Read(cursor);
      ghost var shown := View();
      var running := terminal.Running();
      if !running {
        var moved := machine.Transition(Lost);
        o := Outcome.Raised(SessionEnded);
      } else {
        o := Shown(Utf8.DecodeReplacing(read.data), read.nextCursor, read.dropped);
      }
      InteractiveShown(setup, cursor, before, handled, shown, View(), o, read);
    }

    method WriteInteractive(text: string) returns (o: Outcome)
      requires Valid()
      modifies terminal, machine
      ensures Valid() && InteractiveWritten(text, |Utf8.Encode(text)|, old(View()), View(), o)
      ensures old(machine.state) == Interactive && 0 < |Utf8.Encode(text)| <= 65536 ==>
        (o == Outcome.Raised(Foreign) <==> terminal.world(old(terminal.moment)).fails)
    {
      hide Utf8.Encode;
      if machine.state != Interactive {
        return Outcome.Raised(InvalidState);
      }
      var data := Utf8.Encode(text);
      if data == [] || |data| > MAX_INTERACTIVE_BYTES {
        return Outcome.Raised(InvalidArgument);
      }
      var ok := terminal.Write(Typed(text));
      if !ok {
        return Outcome.Raised(Foreign);
      }
      var running := terminal.Running();
      o := Done;
    }

    /** Back to commands: interrupt the program and let the shell complete an empty
        command's frame, or lose the session. */
    method CloseInteractive(timeout: int) returns (o: Outcome, ghost token: Token)
      requires Valid()
      modifies terminal, machine
      ensures Valid() && token == terminal.world(old(terminal.moment)).token && terminal.moment > old(terminal.moment)
      ensures InteractiveClosed(setup, timeout, token, CalmOf(terminal.world, old(terminal.moment), terminal.moment),
                                old(View()), View(), o)
      ensures old(machine.state) == Interactive && o != Outcome.Raised(Foreign) ==>
        FromWorld(terminal.world, terminal.capacity, old(terminal.moment) + 3, old(View()), View())
    {
      hide InteractiveClosed, Tracks, InClosing, Reads, Initial, CommandFrameParser.State, CommandFrameParser.Valid, CalmOf, FromWorld;
      ghost var from := terminal.moment;
      var chosen := terminal.NewToken();
      token := chosen;
      if machine.state != Interactive {
        ClosingRefused(setup, timeout, token, CalmOf(terminal.world, from, terminal.moment), View());
        return Outcome.Raised(InvalidState), token;
      }
      ghost var before := View();
      var ok := terminal.Write(Input.Interrupt);
      if !ok {
        NotRunning(terminal.world, from, from + 1, terminal.moment);
        ClosingBroken(setup, timeout, token, CalmOf(terminal.world, from, terminal.moment), before, View());
        return Outcome.Raised(Foreign), token;
      }
      terminal.Sleep(INTERRUPT_DELAY);
      var cfg := Config(chosen, 4096, Some(setup.nonce));
      var parser := new CommandFrameParser(cfg);
      var text := setup.scripts.command(":", chosen, setup.nonce);
      ok := terminal.Write(Command(text));
      if !ok {
        NotRunning(terminal.world, from, from + 2, terminal.moment);
        ClosingBroken(setup, timeout, token, CalmOf(terminal.world, from, terminal.moment), before, View());
        return Outcome.Raised(Foreign), token;
      }
      ClosingBegun(text, before.clock + INTERRUPT_DELAY + timeout, before, View());
      FrameBegun(parser, cfg, before);
      NothingPolled(terminal.world, terminal.capacity, terminal.moment, before, View());
      o := AwaitShell(timeout, chosen, parser, from, before);
    }

    method AwaitShell(timeout: int, token: Token, parser: CommandFrameParser, ghost from: nat, ghost before: SessionSpec.Session)
      returns (o: Outcome)
      requires machine.state == before.state == Interactive && from <= terminal.moment
      requires terminal.clock == before.clock + INTERRUPT_DELAY
      requires InClosing(setup.scripts.command(":", token, setup.nonce), before.clock + INTERRUPT_DELAY + timeout, before, View())
      requires before.log.reading == View().log.reading && before.log.begun == View().log.begun
      requires FromWorld(terminal.world, terminal.capacity, terminal.moment, before, View())
      requires Tracks(parser, FrameOf(setup, token, 4096), Reads(before, View()))
      modifies terminal, machine, parser
      ensures AtRest(machine.state) && terminal.moment >= old(terminal.moment)
      ensures InteractiveClosed(setup, timeout, token, CalmOf(terminal.world, from, terminal.moment), before, View(), o)
      ensures FromWorld(terminal.world, terminal.capacity, old(terminal.moment), before, View())
    {
      hide FeedAll, PromptsHandled, Tracks, InClosing, InteractiveClosed, Reads, Given, Received, CalmOf, FromWorld;
      ghost var text, cfg, first := setup.scripts.command(":", token, setup.nonce), FrameOf(setup, token, 4096), terminal.moment;
      var deadline := terminal.clock + timeout;
      ghost var broken := false;
      while terminal.clock < deadline
        invariant machine.state == Interactive && InClosing(text, deadline, before, View()) && terminal.moment >= first
        invariant before.log.reading.given <= View().log.reading.given && Tracks(parser, cfg, Reads(before, View()))
        invariant before.log.begun <= View().log.begun
        invariant FromWorld(terminal.world, terminal.capacity, first, before, View())
        invariant terminal.moment == first + 2 * Polls(before, View())
        invariant !broken
        decreases deadline - terminal.clock
      {
        ghost var now, at := View(), terminal.moment;
        var poll := if POLL < deadline - terminal.clock then POLL else deadline - terminal.clock;
        var data, error, spent := ReadAndHandlePrompts(poll, null, None);
        ghost var read := View();
        ReadInClosing(text, deadline, before, now, read, data, poll, spent, error);
        ReadFacts(now, read, data, None, 0, 0, poll, spent, error);
        OncePolled(terminal.world, terminal.capacity, first, before, now, read, at);
        var reply := FeedRead(parser, data, cfg, before, now);
        if reply.Raised? {
          broken := true;
          break;
        }
        at := terminal.moment;
        var running := terminal.Running();
        NotRunning(terminal.world, from, at, terminal.moment);
        ClosingMoved(text, deadline, before, read, View());
        StillPolled(terminal.world, terminal.capacity, first, before, read, View());
        ReadsSame(before, read, View());
        if !running {
          broken := true;
          break;
        }
        if reply.Result? {
          var ok := machine.Transition(Ready);
          ClosingDone(setup, timeout, token, CalmOf(terminal.world, from, terminal.moment), before, read, View(), reply.result);
          StillPolled(terminal.world, terminal.capacity, first, before, read, View());
          return Done;
        }
      }
      if !broken { StillWaiting(parser, cfg, before); }
      ghost var late, at := View(), terminal.moment;
      LoseInteractiveSession();
      CalmPart(terminal.world, from, from, at, terminal.moment);
      ClosingLost(setup, timeout, token, CalmOf(terminal.world, from, terminal.moment), before, late, View());
      StillPolled(terminal.world, terminal.capacity, first, before, late, View());
      o := Outcome.Raised(OutcomeUnknown);
    }

    method LoseInteractiveSession()
      modifies terminal, machine
      ensures machine.state == if old(machine.state) == Interactive then Lost else old(machine.state)
      ensures View() == old(View()).(state := machine.state, log := old(View()).log.(ended := true))
      ensures terminal.moment == old(terminal.moment) + 1
    {
      if machine.state == Interactive {
        var ok := machine.Transition(Lost);
      }
      var running := terminal.Running();
      if running {
        terminal.Terminate();
      }
    }

    // Closing

    /** Ends the session from any state: with a farewell if the process still runs, and by
        force if that does not end it; a second close does nothing. */
    method Close() returns (ghost running: bool)
      modifies terminal, machine
      ensures old(Valid()) ==> Valid()
      ensures SessionClosed(running, old(View()), View())
      ensures old(machine.state) != Closed ==> running == terminal.world(old(terminal.moment)).running
    {
      running := false;
      var toDo := machine.BeginClose();
      if !toDo {
        return;
      }
      var alive := terminal.Running();
      running := alive;
      if alive {
        var ok := terminal.Write(Exit);
        var exited := false;
        if ok {
          exited := terminal.WaitForExit(2000);
        }
        if !exited {
          terminal.Terminate();
        }
      }
      var moved := machine.Transition(Closed);
    }

    /** It happens: the terminal takes part of an interactive command and raises, goes on
        running, and is closed; the farewell follows what was left half written. */
    method FailThenClose(command: string)
      requires Valid() && machine.state == Ready && ValidCommand(command)
      requires var m := terminal.moment;
        terminal.world(m).fails && terminal.world(m + 1).running && terminal.world(m + 2).running
      modifies terminal, machine
      ensures Valid() && machine.state == Closed
      ensures terminal.log.typed == old(terminal.log.typed) + [command + "\r\n"]
      ensures terminal.log.exits == old(terminal.log.exits) + 1
    {
      var o := StartInteractive(command);
      assert o == Outcome.Raised(Foreign) && machine.state == State.Failed;
      ghost var running := Close();
    }

    // Runs

    /** Any one call, with what it promises. */
    method Perform(request: Request) returns (ghost made: Made)
      requires Valid()
      modifies this, terminal, machine
      ensures Valid() && made.after == View() && Performed(setup, made.call, old(View()), View(), made.outcome)
    {
      hide Opened, Executed, InteractiveStarted, InteractiveRead, InteractiveWritten, InteractiveClosed, SessionClosed, CalmOf;
      ghost var from := terminal.moment;
      var o: Outcome;
      ghost var token, at;
      match request
      case OpenWith(timeout, allowSudo, sudo, checked) =>
        o, token, at := Open(timeout, allowSudo, sudo, checked);
        made := Made(Call.Open(timeout, allowSudo, sudo, token, CalmOf(terminal.world, from, terminal.moment), at), View(), o);
      case ExecuteWith(command, timeout, allowSudo, sudo) =>
        o, token, at := Execute(command, timeout, allowSudo, sudo);
        made := Made(Call.Execute(command, timeout, allowSudo, sudo, token, CalmOf(terminal.world, from, terminal.moment), at),
                     View(), o);
      case Begin(command) =>
        o := StartInteractive(command);
        made := Made(Call.StartInteractive(command), View(), o);
      case Look(cursor, timeout) =>
        o := ReadInteractive(cursor, timeout);
        made := Made(Call.ReadInteractive(cursor), View(), o);
      case Say(text) =>
        o := WriteInteractive(text);
        made := Made(Call.WriteInteractive(text, |Utf8.Encode(text)|), View(), o);
      case Leave(timeout) =>
        o, token := CloseInteractive(timeout);
        made := Made(Call.CloseInteractive(timeout, token, CalmOf(terminal.world, from, terminal.moment)), View(), o);
      case End =>
        ghost var running := Close();
        made := Made(Call.Close(running), View(), Done);
    }

    /** Any sequence of calls is a run, to which session safety applies. */
    method PerformAll(requests: seq<Request>) returns (ghost made: seq<Made>)
      requires Valid()
      modifies this, terminal, machine
      ensures Valid() && |made| == |requests| && Run(setup, old(View()), made)
      ensures View() == At(old(View()), made, |made|)
    {
      hide Performed;
      made := [];
      for i := 0 to |requests|
        invariant Valid() && |made| == i && Run(setup, old(View()), made)
        invariant View() == At(old(View()), made, |made|)
      {
        ghost var next := Perform(requests[i]);
        RunSnoc(setup, old(View()), made, next);
        made := made + [next];
      }
    }
  }

  lemma Empty(s: string)
    ensures "" + s == s == s + ""
    ensures Flatten<char>([]) == ""
  {
  }

  lemma SplitOff(line: string, rest: string)
    requires |line| > CHUNK_CHARACTERS
    ensures line + rest == line[..CHUNK_CHARACTERS] + (line[CHUNK_CHARACTERS..] + rest)
  {
  }

  lemma Regroup(a: string, b: string, c: string)
    ensures a + (b + c) == (a + b) + c
  {
  }

  lemma NothingDelivered(before: seq<string>, text: string)
    ensures Delivered(before, before, text, false)
    ensures Flatten<char>([]) == ""
  {
  }

  lemma AllDelivered(before: seq<string>, pieces: seq<string>, text: string)
    requires text == Flatten(pieces)
    ensures Delivered(before, before + pieces, text, true)
  {
    assert (before + pieces)[|before|..] == pieces;
  }

  lemma EmptyRest(lines: seq<string>)
    ensures Flatten(lines[|lines|..]) == ""
  {
  }

  lemma FlattenFirst(lines: seq<string>, n: nat)
    requires n < |lines|
    ensures Flatten(lines[n..]) == lines[n] + Flatten(lines[n + 1..])
  {
    assert lines[n..][1..] == lines[n + 1..];
  }

  /** One more piece is written, and what is left after it. */
  lemma PieceDelivered(before: seq<string>, pieces: seq<string>, piece: string, rest: string, text: string)
    requires text == Flatten(pieces) + (piece + rest)
    ensures text == Flatten(pieces + [piece]) + rest
    ensures Delivered(before, before + (pieces + [piece]), text, false)
    ensures rest == "" ==> Delivered(before, before + (pieces + [piece]), text, true)
    ensures before + (pieces + [piece]) == before + pieces + [piece]
  {
    FlattenSnoc(pieces, piece);
    Regroup(Flatten(pieces), piece, rest);
    assert (before + (pieces + [piece]))[|before|..] == pieces + [piece];
    if rest == "" { assert text == Flatten(pieces + [piece]); }
  }
}
