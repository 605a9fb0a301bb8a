/** What each call on a session promises, as relations between the session before
    and after it; and what follows for every run of calls. */
module SessionSpec {
  import opened Common
  import opened Bytes
  import opened FrameSpec
  import opened FrameTranscript
  import opened FrameSoundness
  import opened SessionState
  import opened Terminal
  import RingBuffer
  import Utf8

  const CHUNK_CHARACTERS := 512
  const FLOW_DELAY := 10
  const POLL := 250
  const BOOTSTRAP_TIMEOUT := 5000
  const RECOVERY_TIMEOUT := 5000
  const INTERRUPT_DELAY := 200
  const MAX_INTERACTIVE_BYTES := 65536

  /** The shell text that a session writes: around a command with its token and the
      shell nonce, and after a timeout. */
  datatype Scripts = Scripts(
    command: (string, string, string) -> string,
    recovery: (string, string) -> string,
    bootstrap: string -> string)

  datatype Setup = Setup(scripts: Scripts, nonce: Token, limit: nat)

  datatype Error = InvalidArgument | InvalidState | SessionFailed | SessionEnded | TimedOut | OutcomeUnknown | Foreign

  datatype Outcome =
    | Done
    | Finished(result: CommandResult, ms: nat)
    | Shown(output: string, nextCursor: nat, dropped: bool)
    | Raised(error: Error)

  datatype Session = Session(state: State, clock: nat, log: Log)

  function FrameOf(setup: Setup, token: string, limit: nat): Config {
    Config(token, limit, Some(setup.nonce))
  }

  predicate ValidCommand(command: string) {
    command != "" && 0 as char !in command
  }

  /** The data that arrived between two moments. */
  function Reads(before: Session, after: Session): seq<seq<Byte>>
    requires before.log.reading.given <= after.log.reading.given
  {
    after.log.reading.given[|before.log.reading.given|..]
  }

  /** What the parser for `token` makes of the data read between two moments. */
  function Verdict(setup: Setup, token: string, limit: nat, before: Session, after: Session): Step
    requires before.log.reading.given <= after.log.reading.given
  {
    FeedAll(Initial(FrameOf(setup, token, limit)), Reads(before, after))
  }

  /** Pieces of `text` were written, in order and none twice; all of them if `whole`. */
  ghost predicate Delivered(before: seq<string>, after: seq<string>, text: string, whole: bool) {
    before <= after && Flatten(after[|before|..]) <= text && (whole ==> Flatten(after[|before|..]) == text)
  }

  predicate Grows(before: Session, after: Session) {
    && before.clock <= after.clock
    && ReadingGrows(before.log.reading, after.log.reading)
    && before.log.begun <= after.log.begun && before.log.seen <= after.log.seen
    && before.log.interrupts <= after.log.interrupts
    && before.log.exits <= after.log.exits
    && before.log.commands <= after.log.commands
    && before.log.recoveries <= after.log.recoveries
    && before.log.typed <= after.log.typed
    && before.log.answered <= after.log.answered
    && before.log.authentication <= after.log.authentication
    && (before.log.ended ==> after.log.ended)
  }

  /** A sudo prompt that carries the operation's token. */
  predicate Matches(event: PromptEvent, sudo: Option<string>) {
    sudo.Some? && event.kind == SudoPassword && Contains(event.prompt, sudo.value)
  }

  /** How many of the prompts are such. */
  function MatchCount(seen: seq<PromptEvent>, sudo: Option<string>): nat {
    if seen == [] then 0 else MatchCount(seen[..|seen| - 1], sudo) + if Matches(seen[|seen| - 1], sudo) then 1 else 0
  }

  /** The prompts that are answered: the first such one. */
  function Answers(seen: seq<PromptEvent>, sudo: Option<string>): seq<PromptEvent> {
    if seen == [] then []
    else
      var earlier := Answers(seen[..|seen| - 1], sudo);
      if earlier != [] then earlier else if Matches(seen[|seen| - 1], sudo) then [seen[|seen| - 1]] else []
  }

  /** The prompts seen between two moments. */
  function Seen(before: Session, after: Session): seq<PromptEvent>
    requires before.log.seen <= after.log.seen
  {
    after.log.seen[|before.log.seen|..]
  }

  /** Of the prompts seen, the first with this call's token was answered, and no other. */
  predicate AnsweredOnce(before: Session, after: Session, sudo: Option<string>)
    requires before.log.seen <= after.log.seen
  {
    after.log.answered == before.log.answered + Answers(Seen(before, after), sudo)
  }

  lemma {:induction false} AnswersMatch(seen: seq<PromptEvent>, sudo: Option<string>)
    ensures |Answers(seen, sudo)| <= 1 && (Answers(seen, sudo) == [] <==> MatchCount(seen, sudo) == 0)
    ensures Answers(seen, sudo) != [] ==> Answers(seen, sudo)[0] in seen && Matches(Answers(seen, sudo)[0], sudo)
    ensures sudo == None ==> MatchCount(seen, sudo) == 0
    decreases |seen|
  {
    hide Matches, Contains;
    if seen != [] {
      AnswersMatch(seen[..|seen| - 1], sudo);
      if sudo == None { NoneMatches(seen[|seen| - 1]); }
    }
  }

  lemma NoneMatches(event: PromptEvent)
    ensures !Matches(event, None)
  {
  }

  lemma {:induction false} AnswersJoin(a: seq<PromptEvent>, b: seq<PromptEvent>, sudo: Option<string>)
    ensures MatchCount(a + b, sudo) == MatchCount(a, sudo) + MatchCount(b, sudo)
    ensures Answers(a + b, sudo) == if MatchCount(a, sudo) > 0 then Answers(a, sudo) else Answers(b, sudo)
    decreases |b|
  {
    hide Matches;
    AnswersMatch(a, sudo);
    if b == [] {
      assert a + b == a;
    } else {
      assert (a + b)[..|a + b| - 1] == a + b[..|b| - 1];
      AnswersJoin(a, b[..|b| - 1], sudo);
      AnswersMatch(b[..|b| - 1], sudo);
    }
  }

  predicate Contains(text: string, part: string) {
    exists i :: 0 <= i <= |text| && OccursAt(text, part, i)
  }

  predicate OccursAt(text: string, part: string, i: nat) {
    i + |part| <= |text| && text[i..i + |part|] == part
  }

  /** A text contains exactly the parts that it is made of. */
  lemma ContainsParts(a: string, part: string, b: string)
    ensures Contains(a + part + b, part)
  {
    assert (a + part + b)[|a|..|a| + |part|] == part;
    assert OccursAt(a + part + b, part, |a|);
  }

  lemma PartsOf(text: string, part: string) returns (a: string, b: string)
    requires Contains(text, part)
    ensures text == a + part + b
  {
    var i :| 0 <= i <= |text| && OccursAt(text, part, i);
    a, b := text[..i], text[i + |part|..];
  }

  function Max(a: int, b: int): int {
    if a > b then a else b
  }

  /** How often was read between two moments. */
  function Polls(before: Session, after: Session): nat
    requires before.log.begun <= after.log.begun
  {
    |after.log.begun| - |before.log.begun|
  }

  /** How many pieces of commands were written between two moments. */
  function Pieces(before: Session, after: Session): nat
    requires before.log.commands <= after.log.commands
  {
    |after.log.commands| - |before.log.commands|
  }

  /** The time spent on answering prompts between two moments. */
  function Answering(before: Session, after: Session): int {
    after.log.authentication - before.log.authentication
  }

  /** A call on a session in `before` that runs `command` in a frame for `token`. `calm`
      tells whether the process ran all the while, and whether no write failed and every
      prompt was answered; `polled` is the session after the last read before the
      deadline. */
  ghost predicate Executed(setup: Setup, command: string, timeout: int, allowSudo: bool, sudo: Option<string>, token: string,
                           calm: Calm, before: Session, polled: Session, after: Session, o: Outcome) {
    if !ValidCommand(command) || allowSudo != sudo.Some? then o == Raised(InvalidArgument) && after == before
    else if before.state != Ready then o == Raised(InvalidState) && after == before
    else
      && CommandRun(setup, command, timeout, sudo, token, {Lost, State.Failed}, calm, before, polled, after, o)
      && (o in {Raised(Foreign), Raised(SessionFailed)} && calm.alive ==> after.state == State.Failed)
  }

  /** What holds while and after a command is read up to its deadline: its pieces are
      written once and in order, the first prompt for it is answered, and time passes
      with writing, reading and answering only. */
  ghost predicate CommandPolled(text: string, whole: bool, sudo: Option<string>, timeout: int, before: Session, polled: Session) {
    && Grows(before, polled)
    && Delivered(before.log.commands, polled.log.commands, text, whole)
    && AnsweredOnce(before, polled, sudo)
    && polled.log.recoveries == before.log.recoveries
    && polled.log.typed == before.log.typed && polled.log.exits == before.log.exits
    && |polled.log.reading.taken| - |before.log.reading.taken| == Polls(before, polled)
    && polled.clock - before.clock <= FLOW_DELAY * Pieces(before, polled) + POLL * Polls(before, polled) + Answering(before, polled)
    && polled.clock - before.clock <= Max(timeout, FLOW_DELAY * Pieces(before, polled)) + Answering(before, polled)
  }

  /** What came after that: no command and no answer, and the time for recovery. */
  ghost predicate CommandRecovers(polled: Session, after: Session) {
    && Grows(polled, after)
    && after.log == polled.log.(reading := after.log.reading, begun := after.log.begun, seen := after.log.seen,
                                recoveries := after.log.recoveries, interrupts := after.log.interrupts, ended := after.log.ended)
    && |after.log.reading.taken| - |polled.log.reading.taken| == Polls(polled, after)
    && after.clock <= polled.clock + INTERRUPT_DELAY + RECOVERY_TIMEOUT
    && after.clock <= polled.clock + INTERRUPT_DELAY + POLL * Polls(polled, after)
  }

  /** A command and how it ends; `broken` are the states that an exception leaves. */
  ghost predicate CommandRun(setup: Setup, command: string, timeout: int, sudo: Option<string>, token: string, broken: set<State>,
                             calm: Calm, before: Session, polled: Session, after: Session, o: Outcome) {
    && CommandPolled(setup.scripts.command(command, token, setup.nonce), o != Raised(Foreign), sudo, timeout, before, polled)
    && CommandRecovers(polled, after)
    && CommandEnded(setup, timeout, token, sudo, broken, calm, before, polled, after, o)
  }

  /** The deadline, moved by the time an answer took, passed while the frame was open:
      nothing read before it completed the frame, and what was read since was begun
      after it. One interrupt was sent. */
  ghost predicate Late(setup: Setup, timeout: int, token: string, before: Session, polled: Session, after: Session)
    requires Grows(before, polled) && Grows(polled, after)
  {
    && Verdict(setup, token, setup.limit, before, polled).Waiting?
    && polled.clock >= before.clock + timeout + Answering(before, polled)
    && (forall i :: |polled.log.begun| <= i < |after.log.begun| ==>
          after.log.begun[i] >= before.clock + timeout + Answering(before, polled))
    && after.log.interrupts == polled.log.interrupts + 1
  }

  /** A second prompt for the operation, and no other, interrupts the program once. */
  predicate RepeatInterrupted(before: Session, polled: Session, sudo: Option<string>)
    requires before.log.seen <= polled.log.seen
  {
    polled.log.interrupts == before.log.interrupts + if MatchCount(Seen(before, polled), sudo) >= 2 then 1 else 0
  }

  /** How the outcome, the state, the frame and the recovery script go together. */
  ghost predicate CommandEnded(setup: Setup, timeout: int, token: string, sudo: Option<string>, broken: set<State>, calm: Calm,
                               before: Session, polled: Session, after: Session, o: Outcome)
    requires Grows(before, polled) && Grows(polled, after)
  {
    var recovery := setup.scripts.recovery(token, setup.nonce);
    var inTime, atLast := Verdict(setup, token, setup.limit, before, polled), VerdictAfter(setup, token, before, polled, after);
    match o
    case Finished(result, ms) =>
      && after.state == Ready && inTime == Completed(result) && RepeatInterrupted(before, polled, sudo)
      && after.clock == polled.clock && after.log == polled.log.(ended := after.log.ended)
      && ms == after.clock - before.clock
    case Raised(TimedOut) =>
      && after.state == Ready && Late(setup, timeout, token, before, polled, after) && RepeatInterrupted(before, polled, sudo)
      && atLast.Completed? && after.log.recoveries == before.log.recoveries + [recovery]
    case Raised(OutcomeUnknown) =>
      && after.state == Lost && after.log.ended && after.log.recoveries <= before.log.recoveries + [recovery]
      && RepeatInterrupted(before, polled, sudo)
      && (calm.alive && calm.willing ==>
            || (inTime.Failed? && after.clock == polled.clock && after.log == polled.log.(ended := after.log.ended))
            || (Late(setup, timeout, token, before, polled, after) && after.log.recoveries == before.log.recoveries + [recovery]
                && (atLast.Failed? || (atLast.Waiting? && after.clock >= polled.clock + INTERRUPT_DELAY + RECOVERY_TIMEOUT))))
    case Raised(error) =>
      && error in {Foreign, SessionFailed} && after.state in broken && !calm.willing
      && after.log.recoveries == before.log.recoveries
    case _ => false
  }

  function VerdictAfter(setup: Setup, token: string, before: Session, polled: Session, after: Session): Step
    requires Grows(before, polled) && Grows(polled, after)
  {
    Verdict(setup, token, setup.limit, before, after)
  }

  /** A call that starts the connection and takes control of its shell; `mid` is the
      session when the shell is taken over, or when that is given up. */
  ghost predicate Opened(setup: Setup, timeout: int, allowSudo: bool, sudo: Option<string>, token: string, calm: Calm,
                         before: Session, mid: Session, after: Session, o: Outcome) {
    if before.state != Created then o == Raised(InvalidState) && after == before
    else if allowSudo != sudo.Some? then o == Raised(InvalidArgument) && after == before
    else
      && Starts(sudo, before, mid)
      && Shell(setup, token, mid, after, o == Done)
      && (o == Done <==> after.state == Ready)
      && (o != Done ==> after.state == State.Failed && after.log.ended
                         && o in {Raised(Foreign), Raised(SessionFailed), Raised(SessionEnded)})
      && (o == Done ==> ShellBegun(setup, token, mid, after) && mid.log.ready)
      && (o == Raised(Foreign) ==> !calm.willing)
      && (o == Raised(SessionEnded) ==> !calm.alive)
      && (o == Raised(SessionFailed) && calm.willing ==>
            NeverReady(timeout, before, mid, after) || ShellRefused(setup, timeout, token, before, mid, after))
  }

  /** No shell's prompt was seen until the deadline, and no command was written. */
  predicate NeverReady(timeout: int, before: Session, mid: Session, after: Session) {
    && mid.log.ready == before.log.ready && after.log.commands == before.log.commands
    && mid.clock >= before.clock + timeout
  }

  /** The bootstrap's frame was completed with exit code 0. */
  ghost predicate ShellBegun(setup: Setup, token: string, mid: Session, after: Session) {
    && mid.log.reading.given <= after.log.reading.given
    && Verdict(setup, token, 4096, mid, after).Completed? && Verdict(setup, token, 4096, mid, after).result.exitCode == 0
  }

  /** How long the bootstrap may take: five seconds, less when less is left, but a tenth
      of a second. */
  function ShellTime(timeout: int, before: Session, mid: Session): int {
    var left := Max(before.clock + timeout - mid.clock, 100);
    if left < BOOTSTRAP_TIMEOUT then left else BOOTSTRAP_TIMEOUT
  }

  /** The bootstrap's frame was broken, its command failed, or it did not end in time. */
  ghost predicate ShellRefused(setup: Setup, timeout: int, token: string, before: Session, mid: Session, after: Session) {
    && mid.log.ready && mid.log.reading.given <= after.log.reading.given
    && match Verdict(setup, token, 4096, mid, after)
       case Failed(_) => true
       case Completed(result) => result.exitCode != 0
       case Waiting(_) => after.clock >= mid.clock + ShellTime(timeout, before, mid)
  }

  ghost predicate InteractiveStarted(command: string, before: Session, after: Session, o: Outcome) {
    if !ValidCommand(command) then o == Raised(InvalidArgument) && after == before
    else if before.state != Ready then o == Raised(InvalidState) && after == before
    else
      && after == before.(state := after.state,
                       log := before.log.(typed := before.log.typed + [command + "\r\n"], ended := after.log.ended))
      && (before.log.ended ==> after.log.ended)
      && ((o == Done && after.state == Interactive) || (o == Raised(Foreign) && after.state in {State.Failed, Lost}))
  }

  /** A read from the caller's cursor shows what the buffer has from there on, and says
      whether something before it is gone. */
  ghost predicate InteractiveRead(setup: Setup, cursor: nat, before: Session, after: Session, o: Outcome) {
    if before.state != Interactive then o == Raised(InvalidState) && after == before
    else
      && Grows(before, after)
      && after.log == before.log.(reading := after.log.reading, begun := after.log.begun, seen := after.log.seen, ended := after.log.ended)
      && match o
         case Shown(output, nextCursor, dropped) =>
           var read := RingBuffer.ReadLog(after.log.reading.printed, setup.limit, cursor);
           after.state == Interactive && output == Utf8.DecodeReplacing(read.data)
           && nextCursor == read.nextCursor && dropped == read.dropped
         case Raised(SessionEnded) => after.state == Lost
         case _ => false
  }

  ghost predicate InteractiveWritten(text: string, size: nat, before: Session, after: Session, o: Outcome) {
    if before.state != Interactive then o == Raised(InvalidState) && after == before
    else if size == 0 || size > MAX_INTERACTIVE_BYTES then o == Raised(InvalidArgument) && after == before
    else
      && o in {Done, Raised(Foreign)}
      && after == before.(log := before.log.(typed := before.log.typed + [text], ended := after.log.ended))
      && (before.log.ended ==> after.log.ended)
  }

  /** Back to commands. */
  ghost predicate InteractiveClosed(setup: Setup, timeout: int, token: string, calm: Calm,
                                    before: Session, after: Session, o: Outcome) {
    if before.state != Interactive then o == Raised(InvalidState) && after == before
    else
      && Grows(before, after)
      && after.log.recoveries == before.log.recoveries && after.log.typed == before.log.typed
      && after.log.answered == before.log.answered && after.log.exits == before.log.exits
      && after.log.interrupts == before.log.interrupts + 1
      && after.log.commands <= before.log.commands + [setup.scripts.command(":", token, setup.nonce)]
      && (o != Raised(Foreign) ==> after.log.commands == before.log.commands + [setup.scripts.command(":", token, setup.nonce)])
      && after.clock <= before.clock + INTERRUPT_DELAY + Max(timeout, 0)
      && after.clock <= before.clock + INTERRUPT_DELAY + POLL * Polls(before, after)
      && |after.log.reading.taken| - |before.log.reading.taken| == Polls(before, after)
      && var verdict := Verdict(setup, token, 4096, before, after);
      match o
         case Done => after.state == Ready && verdict.Completed?
         case Raised(OutcomeUnknown) =>
           && after.state == Lost && after.log.ended
           && (calm.alive && calm.willing ==>
                 verdict.Failed? || (verdict.Waiting? && after.clock >= before.clock + INTERRUPT_DELAY + timeout))
         case Raised(Foreign) => after.state == Interactive && !calm.willing
         case _ => false
  }

  /** A close of a session that is not closed yet writes a farewell if its process still
      runs, and nothing else; a second close does nothing at all. */
  ghost predicate SessionClosed(running: bool, before: Session, after: Session) {
    if before.state == Closed then after == before
    else
      && before.clock <= after.clock <= before.clock + 2000
      && after.state == Closed
      && after.log == before.log.(exits := before.log.exits + (if running then 1 else 0), ended := true)
  }

  datatype Call =
    | Open(timeout: int, allowSudo: bool, sudo: Option<string>, token: string, calm: Calm, mid: Session)
    | Execute(command: string, timeout: int, allowSudo: bool, sudo: Option<string>, token: string, calm: Calm, polled: Session)
    | StartInteractive(command: string)
    | ReadInteractive(cursor: nat)
    | WriteInteractive(text: string, size: nat)
    | CloseInteractive(timeout: int, token: string, calm: Calm)
    | Close(running: bool)

  ghost predicate Performed(setup: Setup, call: Call, before: Session, after: Session, o: Outcome) {
    match call
    case Open(timeout, allowSudo, sudo, token, calm, mid) =>
      Opened(setup, timeout, allowSudo, sudo, token, calm, before, mid, after, o)
    case Execute(command, timeout, allowSudo, sudo, token, calm, polled) =>
      Executed(setup, command, timeout, allowSudo, sudo, token, calm, before, polled, after, o)
    case StartInteractive(command) => InteractiveStarted(command, before, after, o)
    case ReadInteractive(cursor) => InteractiveRead(setup, cursor, before, after, o)
    case WriteInteractive(text, size) => InteractiveWritten(text, size, before, after, o)
    case CloseInteractive(timeout, token, calm) => InteractiveClosed(setup, timeout, token, calm, before, after, o)
    case Close(running) => SessionClosed(running, before, after) && o == Done
  }

  /** A call made, the session after it, and how it ended. */
  datatype Made = Made(call: Call, after: Session, outcome: Outcome)

  function At(first: Session, made: seq<Made>, i: nat): Session
    requires i <= |made|
  {
    if i == 0 then first else made[i - 1].after
  }

  /** A run: every call does what it promises, from where the one before it ended. */
  ghost predicate Run(setup: Setup, first: Session, made: seq<Made>) {
    forall i :: 0 <= i < |made| ==>
      Performed(setup, made[i].call, At(first, made, i), made[i].after, made[i].outcome)
  }

  lemma RunSnoc(setup: Setup, first: Session, made: seq<Made>, next: Made)
    requires Run(setup, first, made)
    requires Performed(setup, next.call, At(first, made, |made|), next.after, next.outcome)
    ensures Run(setup, first, made + [next]) && At(first, made + [next], |made| + 1) == next.after
  {
    hide Performed;
    var longer := made + [next];
    forall i | 0 <= i < |longer|
      ensures Performed(setup, longer[i].call, At(first, longer, i), longer[i].after, longer[i].outcome)
    {
      assert At(first, longer, i) == At(first, made, i);
      if i < |made| { assert longer[i] == made[i]; }
    }
  }

  /** Nothing was written to the shell but perhaps a farewell: no command, recovery
      script, raw input or interrupt, and no prompt was answered. */
  predicate Silent(before: Session, after: Session) {
    && after.log.commands == before.log.commands && after.log.recoveries == before.log.recoveries
    && after.log.typed == before.log.typed && after.log.interrupts == before.log.interrupts
    && after.log.answered == before.log.answered
  }

  /** The close that ends a session whose process still runs. */
  predicate SaysFarewell(call: Call, before: Session) {
    call.Close? && call.running && before.state != Closed
  }

  function One(b: bool): nat {
    if b then 1 else 0
  }

  lemma CallAtRest(setup: Setup, call: Call, before: Session, after: Session, o: Outcome)
    requires Performed(setup, call, before, after, o) && AtRest(before.state)
    ensures AtRest(after.state)
    ensures o == Raised(OutcomeUnknown) ==> after.state == Lost
    ensures o == Raised(TimedOut) ==> after.state == Ready
    ensures Over(before.state) ==> Over(after.state) && Silent(before, after)
    ensures Over(before.state) ==> after.log.exits == before.log.exits + One(SaysFarewell(call, before))
    ensures before.state == Closed ==> after.state == Closed
    ensures SaysFarewell(call, before) ==> after.state == Closed
  {
    hide Verdict, AnsweredOnce, Delivered, ValidCommand, ReadingGrows;
  }

  /** How many of the calls from `i` to `j` say farewell. */
  function Farewells(first: Session, made: seq<Made>, i: nat, j: nat): nat
    requires i <= j <= |made|
    decreases j
  {
    if i == j then 0 else Farewells(first, made, i, j - 1) + One(SaysFarewell(made[j - 1].call, At(first, made, j - 1)))
  }

  /** SESSION SAFETY. In every run of calls: no call leaves the session in the middle
      of something; an unknown outcome means a lost session and a timeout a ready one;
      and from the first moment the session is lost, failed or closed, all that is ever
      written to the shell is one farewell, and that exactly if its first close finds
      the process still running. */
  lemma {:induction false} RunIsSafe(setup: Setup, first: Session, made: seq<Made>, i: nat, j: nat)
    requires AtRest(first.state) && Run(setup, first, made) && i <= j <= |made|
    ensures AtRest(At(first, made, j).state)
    ensures j > 0 && made[j - 1].outcome == Raised(OutcomeUnknown) ==> At(first, made, j).state == Lost
    ensures j > 0 && made[j - 1].outcome == Raised(TimedOut) ==> At(first, made, j).state == Ready
    ensures At(first, made, i).state == Closed ==> At(first, made, j).state == Closed
    ensures Over(At(first, made, i).state) ==>
      && Over(At(first, made, j).state) && Silent(At(first, made, i), At(first, made, j))
      && At(first, made, j).log.exits == At(first, made, i).log.exits + Farewells(first, made, i, j)
      && Farewells(first, made, i, j) <= One(At(first, made, i).state != Closed && At(first, made, j).state == Closed)
    decreases j
  {
    hide Performed, Over, AtRest, SaysFarewell;
    if j > 0 {
      var next := if i < j then i else j - 1;
      RunIsSafe(setup, first, made, next, j - 1);
      CallAtRest(setup, made[j - 1].call, At(first, made, j - 1), made[j - 1].after, made[j - 1].outcome);
      NoFarewellAfterClose(made[j - 1].call, At(first, made, j - 1));
    }
  }

  lemma NoFarewellAfterClose(call: Call, before: Session)
    ensures before.state == Closed ==> !SaysFarewell(call, before)
  {
  }

  /** What a stretch of calls has read is what was printed meanwhile, if and only if no
      read in it came too late for the buffer. The session does not look at that flag. */
  lemma ReadsAreLogIff(before: Session, after: Session)
    requires Grows(before, after) && Sound(before.log.reading)
    ensures before.log.reading.cursor <= after.log.reading.cursor <= |after.log.reading.printed|
    ensures Flatten(Reads(before, after)) == after.log.reading.printed[before.log.reading.cursor..after.log.reading.cursor]
      <==> !RingBuffer.AnyDropped(after.log.reading.taken[|before.log.reading.taken|..])
  {
    hide Flatten, RingBuffer.Chained, RingBuffer.AnyDropped, RingBuffer.Chunks, NonEmpty;
    var a, b := before.log.reading, after.log.reading;
    var m := |a.taken|;
    assert b.taken[..m] == a.taken && b.taken == a.taken + b.taken[m..];
    RingBuffer.ChainEnds(a.printed, a.taken, a.cursor);
    RingBuffer.TailJoined(b.printed, b.taken, b.cursor, m);
    ChunksSplit(a.taken, b.taken[m..]);
    var early, late := RingBuffer.Chunks(a.taken), RingBuffer.Chunks(b.taken[m..]);
    assert (early + late)[m..] == late;
    NonEmptySplit(early, late);
    assert (NonEmpty(early) + NonEmpty(late))[|NonEmpty(early)|..] == NonEmpty(late);
    NonEmptyJoins(late);
  }

  lemma {:induction false} ChunksSplit(a: seq<RingBuffer.Taken>, b: seq<RingBuffer.Taken>)
    ensures RingBuffer.Chunks(a + b) == RingBuffer.Chunks(a) + RingBuffer.Chunks(b)
    decreases |b|
  {
    if b == [] {
      assert a + b == a;
    } else {
      assert (a + b)[..|a + b| - 1] == a + b[..|b| - 1];
      ChunksSplit(a, b[..|b| - 1]);
    }
  }

  lemma {:induction false} NonEmptySplit(a: seq<seq<Byte>>, b: seq<seq<Byte>>)
    ensures NonEmpty(a + b) == NonEmpty(a) + NonEmpty(b)
    decreases |b|
  {
    if b == [] {
      assert a + b == a;
    } else {
      assert (a + b)[..|a + b| - 1] == a + b[..|b| - 1];
      NonEmptySplit(a, b[..|b| - 1]);
    }
  }

  lemma {:induction false} NonEmptyJoins(chunks: seq<seq<Byte>>)
    ensures Flatten(NonEmpty(chunks)) == Flatten(chunks)
  {
    if chunks != [] {
      var front, last := chunks[..|chunks| - 1], chunks[|chunks| - 1];
      NonEmptyJoins(front);
      assert chunks == front + [last];
      FlattenSnoc(front, last);
      FlattenSnoc(NonEmpty(front), last);
      assert Flatten(front) + [] == Flatten(front);
    }
  }

  /** A farewell can follow a failure: raw input that raised while the process still ran
      leaves a failed session with that input perhaps half delivered, and the close then
      writes after it. */
  lemma FarewellAfterFailure(setup: Setup, first: Session, command: string) returns (made: seq<Made>)
    requires first.state == Ready && ValidCommand(command)
    ensures Run(setup, first, made) && |made| == 2
    ensures made[0].outcome == Raised(Foreign) && Over(At(first, made, 1).state)
    ensures At(first, made, 2).log.typed == first.log.typed + [command + "\r\n"]
    ensures At(first, made, 2).log.exits == first.log.exits + 1
  {
    hide ReadingGrows, ValidCommand;
    var failed := first.(state := State.Failed, log := first.log.(typed := first.log.typed + [command + "\r\n"]));
    var closed := failed.(state := Closed, log := failed.log.(exits := failed.log.exits + 1, ended := true));
    made := [Made(StartInteractive(command), failed, Raised(Foreign)), Made(Call.Close(true), closed, Done)];
    assert Performed(setup, made[0].call, first, failed, Raised(Foreign));
    assert Performed(setup, made[1].call, failed, closed, Done);
  }

  /** A result or a timeout is genuine: what was read during the call begins with a
      whole transcript of this call's frame, written by the shell that knows the
      nonce, and a result says what the transcript says. */
  lemma GenuineFrame(setup: Setup, command: string, timeout: int, allowSudo: bool, sudo: Option<string>, token: string,
                     calm: Calm, before: Session, polled: Session, after: Session, o: Outcome)
    requires Executed(setup, command, timeout, allowSudo, sudo, token, calm, before, polled, after, o)
    requires o.Finished? || o == Raised(TimedOut)
    ensures Grows(before, after)
    ensures var cfg := FrameOf(setup, token, setup.limit);
      exists t: Transcript ::
        t.Valid(cfg) && t.Bytes() <= Flatten(Reads(before, after)) && (o.Finished? ==> o.result == t.Result(cfg))
  {
    hide Transcript.Bytes, Transcript.Valid, Transcript.Result, FeedAll, Flatten, Sound, Delivered, Answers, MatchCount;
    var cfg := FrameOf(setup, token, setup.limit);
    var verdict := Verdict(setup, token, setup.limit, before, after);
    NoFalseCompletion(cfg, Reads(before, after), verdict.result);
  }

  /** Over a run the log only grows: what was read, written or answered stays so, and
      time does not go back. */
  lemma {:induction false} RunGrows(setup: Setup, first: Session, made: seq<Made>, i: nat, j: nat)
    requires Run(setup, first, made) && i <= j <= |made|
    ensures Grows(At(first, made, i), At(first, made, j))
    decreases j - i
  {
    hide Performed;
    if i < j {
      RunGrows(setup, first, made, i, j - 1);
      CallGrows(setup, made[j - 1].call, At(first, made, j - 1), made[j - 1].after, made[j - 1].outcome);
    }
  }

  lemma GrowsOn(a: Session, b: Session, c: Session)
    requires Grows(a, b) && Grows(b, c)
    ensures Grows(a, c)
  {
    hide Sound;
  }

  lemma CallGrows(setup: Setup, call: Call, before: Session, after: Session, o: Outcome)
    requires Performed(setup, call, before, after, o)
    ensures Grows(before, after)
  {
    hide Verdict, AnsweredOnce, Delivered, ValidCommand, Sound, CommandEnded, ShellRefused, ShellBegun;
    if call.Execute? && before.state == Ready && ValidCommand(call.command) && call.allowSudo == call.sudo.Some? {
      GrowsOn(before, call.polled, after);
    }
    if call.Open? && before.state == Created && call.allowSudo == call.sudo.Some? {
      GrowsOn(before, call.mid, after);
    }
  }

  // Steps inside a call

  /** How far an operation's prompts have come: none yet, one answered, or one answered
      and the program interrupted for another. */
  function Stage(matches: nat): nat {
    if matches > 2 then 2 else matches
  }

  /** One read, and so many of the prompts in it handled. */
  ghost predicate PromptsDone(before: Session, after: Session, data: seq<Byte>, done: seq<PromptEvent>, sudo: Option<string>,
                              stage: nat, now: nat, timeout: int, spent: nat, error: Option<Error>) {
    && Grows(before, after)
    && after.log == before.log.(reading := after.log.reading, begun := before.log.begun + [before.clock], seen := after.log.seen,
                                interrupts := after.log.interrupts, answered := after.log.answered,
                                authentication := after.log.authentication, ended := after.log.ended)
    && after.log.reading.given == Given(before.log.reading.given, data)
    && |after.log.reading.taken| == |before.log.reading.taken| + 1
    && stage <= now <= 2
    && after.log.answered == before.log.answered + (if stage == 0 then Answers(done, sudo) else [])
    && (error == None ==>
          && now == Stage(stage + MatchCount(done, sudo))
          && after.log.interrupts == before.log.interrupts + if stage < 2 && now == 2 then 1 else 0)
    && before.log.interrupts <= after.log.interrupts
    && after.clock <= before.clock + Max(timeout, 0) + Answering(before, after)
    && (timeout > 0 ==> after.clock > before.clock + spent)
    && (sudo == None ==> Answering(before, after) == 0)
    && (error == None ==> after.state == before.state && spent == Answering(before, after))
    && (error.Some? ==> sudo.Some? && error.value in {Foreign, SessionFailed}
                        && (after.state == before.state || (after.state == State.Failed && after.log.ended)))
  }

  /** One read and all the prompts in it. */
  ghost predicate PromptsHandled(before: Session, after: Session, data: seq<Byte>, sudo: Option<string>,
                                 stage: nat, now: nat, timeout: int, spent: nat, error: Option<Error>) {
    Grows(before, after) && PromptsDone(before, after, data, Seen(before, after), sudo, stage, now, timeout, spent, error)
  }

  /** One prompt while a sudo prompt for `sudo` may be answered. */
  ghost predicate PromptHandled(before: Session, after: Session, event: PromptEvent, sudo: Option<string>,
                                stage: nat, now: nat, spent: nat, error: Option<Error>) {
    && stage <= now <= 2
    && after.log == before.log.(interrupts := after.log.interrupts, answered := after.log.answered,
                                authentication := after.log.authentication, ended := after.log.ended)
    && (before.log.ended ==> after.log.ended)
    && after.log.answered == before.log.answered + (if stage == 0 && Matches(event, sudo) then [event] else [])
    && after.log.interrupts == before.log.interrupts + (if stage == 1 && Matches(event, sudo) then 1 else 0)
    && before.log.authentication <= after.log.authentication
    && after.clock == before.clock + Answering(before, after)
    && (error == None ==>
          now == Stage(stage + if Matches(event, sudo) then 1 else 0) && after.state == before.state && spent == Answering(before, after))
    && (error.Some? ==> spent == 0 && Matches(event, sudo) && error.value in {Foreign, SessionFailed}
                        && (after.state == before.state || (after.state == State.Failed && after.log.ended)))
  }

  lemma ReadGrows(before: Session, after: Session, timeout: int)
    requires after.log == before.log.(reading := after.log.reading, begun := before.log.begun + [before.clock], seen := after.log.seen)
    requires before.clock <= after.clock && ReadingGrows(before.log.reading, after.log.reading)
    requires before.log.seen <= after.log.seen
    ensures Grows(before, after)
  {
  }

  lemma DoneGrows(before: Session, after: Session, data: seq<Byte>, done: seq<PromptEvent>, sudo: Option<string>,
                  stage: nat, now: nat, timeout: int, spent: nat, error: Option<Error>)
    requires PromptsDone(before, after, data, done, sudo, stage, now, timeout, spent, error)
    ensures Grows(before, after)
  {
  }

  lemma NothingDone(before: Session, after: Session, data: seq<Byte>, sudo: Option<string>, stage: nat, timeout: int)
    requires Grows(before, after) && after.state == before.state && stage <= 2
    requires after.log == before.log.(reading := after.log.reading, begun := before.log.begun + [before.clock], seen := after.log.seen)
    requires after.log.reading.given == Given(before.log.reading.given, data)
    requires |after.log.reading.taken| == |before.log.reading.taken| + 1
    requires after.clock <= before.clock + Max(timeout, 0) && (timeout > 0 ==> after.clock > before.clock)
    ensures PromptsDone(before, after, data, [], sudo, stage, stage, timeout, 0, None)
  {
    hide Sound;
  }

  lemma MorePromptsDone(before: Session, now: Session, after: Session, data: seq<Byte>, done: seq<PromptEvent>, sudo: Option<string>,
                        first: nat, stage: nat, last: nat, timeout: int, spent: nat,
                        event: PromptEvent, elapsed: nat, error: Option<Error>)
    requires PromptsDone(before, now, data, done, sudo, first, stage, timeout, spent, None)
    requires sudo.Some? && PromptHandled(now, after, event, sudo, stage, last, elapsed, error)
    ensures error == None ==> PromptsDone(before, after, data, done + [event], sudo, first, last, timeout, spent + elapsed, None)
    ensures error.Some? ==> PromptsDone(before, after, data, done + [event], sudo, first, last, timeout, spent, error)
    ensures error.Some? ==> MatchCount(done + [event], sudo) > 0
  {
    hide Matches, Answers, MatchCount, Sound, ReadingGrows;
    AnswersMatch(done, sudo);
    OneMore(done, event, sudo);
  }

  lemma OneMore(done: seq<PromptEvent>, event: PromptEvent, sudo: Option<string>)
    ensures MatchCount(done + [event], sudo) == MatchCount(done, sudo) + if Matches(event, sudo) then 1 else 0
    ensures Answers(done + [event], sudo)
      == if Answers(done, sudo) != [] then Answers(done, sudo) else if Matches(event, sudo) then [event] else []
  {
    hide Matches;
    assert (done + [event])[..|done|] == done;
  }

  /** Once a prompt for the operation was among them, the others change nothing. */
  lemma RestPassed(before: Session, after: Session, data: seq<Byte>, done: seq<PromptEvent>, rest: seq<PromptEvent>,
                   sudo: Option<string>, stage: nat, now: nat, timeout: int, spent: nat, error: Error)
    requires PromptsDone(before, after, data, done, sudo, stage, now, timeout, spent, Some(error))
    requires MatchCount(done, sudo) > 0
    ensures PromptsDone(before, after, data, done + rest, sudo, stage, now, timeout, spent, Some(error))
  {
    hide Answers, MatchCount, Sound;
    AnswersJoin(done, rest, sudo);
  }

  /** Without an operation's token all prompts are passed over. */
  lemma AllPassed(before: Session, after: Session, data: seq<Byte>, news: seq<PromptEvent>, stage: nat, timeout: int)
    requires PromptsDone(before, after, data, [], None, stage, stage, timeout, 0, None)
    ensures PromptsDone(before, after, data, news, None, stage, stage, timeout, 0, None)
  {
    hide Sound;
    AnswersMatch(news, None);
  }

  /** The first phase of a command, as long as it goes on: written in full, read so far,
      deadline moved only by the time an answer took. */
  ghost predicate InFrame(text: string, sudo: Option<string>, stage: nat, timeout: int, deadline: int, before: Session, now: Session) {
    && CommandPolled(text, true, sudo, timeout, before, now)
    && RepeatInterrupted(before, now, sudo)
    && stage == Stage(MatchCount(Seen(before, now), sudo))
    && deadline == before.clock + timeout + Answering(before, now)
    && now.clock <= Max(deadline, before.clock + FLOW_DELAY * Pieces(before, now) + Answering(before, now))
  }

  lemma ReadInFrame(text: string, sudo: Option<string>, stage: nat, later: nat, timeout: int, deadline: int,
                    before: Session, now: Session, after: Session, data: seq<Byte>, poll: int, spent: nat, error: Option<Error>)
    requires InFrame(text, sudo, stage, timeout, deadline, before, now)
    requires PromptsHandled(now, after, data, sudo, stage, later, poll, spent, error)
    requires 0 < poll <= deadline - now.clock && poll <= POLL
    ensures CommandPolled(text, true, sudo, timeout, before, after)
    ensures after.log.reading.given == Given(now.log.reading.given, data)
    ensures error == None ==> after.state == now.state && InFrame(text, sudo, later, timeout, deadline + spent, before, after)
    ensures error == None ==> deadline + spent - after.clock < deadline - now.clock
    ensures error.Some? ==> error.value in {Foreign, SessionFailed} && after.state in {now.state, State.Failed}
  {
    hide Delivered, Contains, Sound, Answers, MatchCount;
    var a, b := Seen(before, now), Seen(now, after);
    assert Seen(before, after) == a + b;
    AnswersJoin(a, b, sudo);
    AnswersMatch(a, sudo);
    AnswersMatch(b, sudo);
    GrowsOn(before, now, after);
  }

  lemma InFrameFacts(text: string, sudo: Option<string>, stage: nat, timeout: int, deadline: int, before: Session, now: Session)
    requires InFrame(text, sudo, stage, timeout, deadline, before, now)
    ensures before.log.reading.given <= now.log.reading.given && before.clock <= now.clock && before.log.begun <= now.log.begun
  {
    hide Delivered, Sound, Answers, MatchCount;
  }

  /** What a read leaves as it was. */
  lemma ReadFacts(before: Session, after: Session, data: seq<Byte>, sudo: Option<string>, stage: nat, now: nat, timeout: int,
                  spent: nat, error: Option<Error>)
    requires PromptsHandled(before, after, data, sudo, stage, now, timeout, spent, error)
    ensures after.log.commands == before.log.commands && after.log.begun == before.log.begun + [before.clock]
    ensures after.log.ready == before.log.ready && (error.Some? ==> sudo.Some?)
  {
    hide Sound, Answers, MatchCount;
  }

  /** Only the state moved, or the process ended. */
  ghost predicate Moved(now: Session, after: Session) {
    after == now.(state := after.state, log := now.log.(ended := after.log.ended)) && (now.log.ended ==> after.log.ended)
  }

  lemma StillInFrame(text: string, sudo: Option<string>, stage: nat, timeout: int, deadline: int,
                     before: Session, now: Session, after: Session)
    requires InFrame(text, sudo, stage, timeout, deadline, before, now) && Moved(now, after)
    ensures InFrame(text, sudo, stage, timeout, deadline, before, after)
  {
    hide Delivered, Sound, Answers, MatchCount;
  }

  /** After the deadline: the recovery script was sent and its answer is awaited. */
  ghost predicate InRecovery(text: string, recovery: string, sudo: Option<string>, timeout: int, limit: int,
                             before: Session, polled: Session, now: Session) {
    && Grows(before, polled)
    && InFrame(text, sudo, Stage(MatchCount(Seen(before, polled), sudo)), timeout, before.clock + timeout + Answering(before, polled),
               before, polled)
    && polled.clock >= before.clock + timeout + Answering(before, polled)
    && CommandRecovers(polled, now)
    && now.log.recoveries == before.log.recoveries + [recovery]
    && now.log.interrupts == polled.log.interrupts + 1
    && now.clock <= limit == polled.clock + INTERRUPT_DELAY + RECOVERY_TIMEOUT
    && (forall i :: |polled.log.begun| <= i < |now.log.begun| ==> now.log.begun[i] >= polled.clock)
  }

  lemma ReadInRecovery(text: string, recovery: string, sudo: Option<string>, timeout: int, limit: int,
                       before: Session, polled: Session, now: Session, after: Session, data: seq<Byte>, poll: int, spent: nat,
                       error: Option<Error>)
    requires InRecovery(text, recovery, sudo, timeout, limit, before, polled, now)
    requires PromptsHandled(now, after, data, None, 0, 0, poll, spent, error)
    requires 0 < poll <= limit - now.clock && poll <= POLL
    ensures error == None && after.state == now.state && now.clock < after.clock
    ensures after.log.reading.given == Given(now.log.reading.given, data)
    ensures InRecovery(text, recovery, sudo, timeout, limit, before, polled, after)
  {
    hide InFrame, Sound, Answers, MatchCount;
    AnswersMatch(Seen(now, after), None);
    GrowsOn(polled, now, after);
  }

  lemma StillInRecovery(text: string, recovery: string, sudo: Option<string>, timeout: int, limit: int,
                        before: Session, polled: Session, now: Session, after: Session)
    requires InRecovery(text, recovery, sudo, timeout, limit, before, polled, now) && Moved(now, after)
    ensures InRecovery(text, recovery, sudo, timeout, limit, before, polled, after)
  {
    hide InFrame, Sound;
  }

  lemma InterruptSent(text: string, recovery: string, sudo: Option<string>, stage: nat, timeout: int, deadline: int,
                      before: Session, polled: Session, after: Session)
    requires InFrame(text, sudo, stage, timeout, deadline, before, polled) && polled.clock >= deadline
    requires after == polled.(clock := polled.clock + INTERRUPT_DELAY,
                              log := polled.log.(recoveries := polled.log.recoveries + [recovery], interrupts := polled.log.interrupts + 1))
    ensures InRecovery(text, recovery, sudo, timeout, after.clock + RECOVERY_TIMEOUT, before, polled, after)
  {
    hide Delivered, Sound, Answers, MatchCount;
  }

  // Polls of a given world

  /** Where no prompt is answered, the polls and the looks after them take turns, from the
      moment `first` on: what has been read is what the world printed at the polls. */
  predicate FromWorld(world: nat -> Observation, capacity: nat, first: nat, before: Session, now: Session) {
    && before.log.begun <= now.log.begun
    && now.log.reading == PollsFrom(world, capacity, before.log.reading, first, Polls(before, now))
  }

  lemma NothingPolled(world: nat -> Observation, capacity: nat, first: nat, before: Session, now: Session)
    requires now.log.reading == before.log.reading && now.log.begun == before.log.begun
    ensures FromWorld(world, capacity, first, before, now) && Polls(before, now) == 0
  {
  }

  lemma OncePolled(world: nat -> Observation, capacity: nat, first: nat, before: Session, now: Session, after: Session, at: nat)
    requires FromWorld(world, capacity, first, before, now) && at == first + 2 * Polls(before, now)
    requires after.log.begun == now.log.begun + [now.clock]
    requires after.log.reading == Received(now.log.reading, capacity, world(at).data)
    ensures FromWorld(world, capacity, first, before, after) && Polls(before, after) == Polls(before, now) + 1
  {
    hide Received;
  }

  lemma StillPolled(world: nat -> Observation, capacity: nat, first: nat, before: Session, now: Session, after: Session)
    requires Moved(now, after)
    ensures after.log.begun == now.log.begun && after.log.commands == now.log.commands && after.clock == now.clock
    ensures FromWorld(world, capacity, first, before, now) ==>
      FromWorld(world, capacity, first, before, after) && Polls(before, after) == Polls(before, now)
  {
    hide PollsFrom;
  }

  // How a command ends

  /** A frame that broke off before the deadline, or a process that had ended. */
  lemma EndsLost(setup: Setup, command: string, timeout: int, sudo: Option<string>, token: string, broken: set<State>, calm: Calm,
                 stage: nat, deadline: int, before: Session, polled: Session, after: Session)
    requires InFrame(setup.scripts.command(command, token, setup.nonce), sudo, stage, timeout, deadline, before, polled)
    requires Moved(polled, after) && after.state == Lost && after.log.ended
    requires calm.alive && calm.willing ==>
      FeedAll(Initial(FrameOf(setup, token, setup.limit)), Reads(before, polled)).Failed?
    ensures CommandRun(setup, command, timeout, sudo, token, broken, calm, before, polled, after, Raised(OutcomeUnknown))
  {
    hide Delivered, FeedAll, Sound, Answers, MatchCount;
  }

  lemma EndsFinished(setup: Setup, command: string, timeout: int, sudo: Option<string>, token: string, broken: set<State>, calm: Calm,
                     stage: nat, deadline: int, before: Session, polled: Session, after: Session, result: CommandResult)
    requires InFrame(setup.scripts.command(command, token, setup.nonce), sudo, stage, timeout, deadline, before, polled)
    requires Moved(polled, after) && after.state == Ready
    requires FeedAll(Initial(FrameOf(setup, token, setup.limit)), Reads(before, polled)) == Completed(result)
    ensures before.clock <= after.clock
    ensures CommandRun(setup, command, timeout, sudo, token, broken, calm, before, polled, after,
                       Finished(result, after.clock - before.clock))
  {
    hide Delivered, FeedAll, Sound, Answers, MatchCount;
  }

  /** The interrupt itself could not be sent. */
  lemma EndsUninterrupted(setup: Setup, command: string, timeout: int, sudo: Option<string>, token: string, broken: set<State>, calm: Calm,
                          stage: nat, deadline: int, before: Session, polled: Session, now: Session, after: Session)
    requires InFrame(setup.scripts.command(command, token, setup.nonce), sudo, stage, timeout, deadline, before, polled)
    requires now == polled.(log := polled.log.(interrupts := polled.log.interrupts + 1))
    requires Moved(now, after) && after.state == Lost && after.log.ended && !calm.willing
    ensures CommandRun(setup, command, timeout, sudo, token, broken, calm, before, polled, after, Raised(OutcomeUnknown))
  {
    hide Delivered, FeedAll, Sound, Answers, MatchCount;
  }

  lemma LateInRecovery(setup: Setup, command: string, recovery: string, timeout: int, sudo: Option<string>, token: string, limit: int,
                       before: Session, polled: Session, now: Session, after: Session)
    requires InRecovery(setup.scripts.command(command, token, setup.nonce), recovery, sudo, timeout, limit, before, polled, now)
    requires FeedAll(Initial(FrameOf(setup, token, setup.limit)), Reads(before, polled)).Waiting?
    requires Moved(now, after)
    ensures Late(setup, timeout, token, before, polled, after) && CommandRecovers(polled, after)
    ensures RepeatInterrupted(before, polled, sudo) && Grows(before, polled)
    ensures CommandPolled(setup.scripts.command(command, token, setup.nonce), true, sudo, timeout, before, polled)
    ensures polled.log.reading.given <= now.log.reading.given && Reads(before, after) == Reads(before, now)
    ensures after.log.recoveries == before.log.recoveries + [recovery]
  {
    hide Delivered, FeedAll, Sound, Answers, MatchCount;
  }

  lemma EndsTimedOut(setup: Setup, command: string, timeout: int, sudo: Option<string>, token: string, broken: set<State>, calm: Calm,
                     limit: int, before: Session, polled: Session, now: Session, after: Session, result: CommandResult)
    requires InRecovery(setup.scripts.command(command, token, setup.nonce), setup.scripts.recovery(token, setup.nonce),
                        sudo, timeout, limit, before, polled, now)
    requires FeedAll(Initial(FrameOf(setup, token, setup.limit)), Reads(before, polled)).Waiting?
    requires Moved(now, after) && after.state == Ready && before.log.reading.given <= now.log.reading.given
    requires FeedAll(Initial(FrameOf(setup, token, setup.limit)), Reads(before, now)) == Completed(result)
    ensures CommandRun(setup, command, timeout, sudo, token, broken, calm, before, polled, after, Raised(TimedOut))
  {
    hide FeedAll, Late, InRecovery, CommandPolled, CommandRecovers, RepeatInterrupted, Grows;
    LateInRecovery(setup, command, setup.scripts.recovery(token, setup.nonce), timeout, sudo, token, limit, before, polled, now, after);
  }

  /** Recovery failed: the frame broke off, the process ended or a write failed, or the time
      for it passed. */
  lemma EndsUnrecovered(setup: Setup, command: string, timeout: int, sudo: Option<string>, token: string, broken: set<State>, calm: Calm,
                        limit: int, before: Session, polled: Session, now: Session, after: Session)
    requires InRecovery(setup.scripts.command(command, token, setup.nonce), setup.scripts.recovery(token, setup.nonce),
                        sudo, timeout, limit, before, polled, now)
    requires FeedAll(Initial(FrameOf(setup, token, setup.limit)), Reads(before, polled)).Waiting?
    requires Moved(now, after) && after.state == Lost && after.log.ended && before.log.reading.given <= now.log.reading.given
    requires calm.alive && calm.willing ==>
      var verdict := FeedAll(Initial(FrameOf(setup, token, setup.limit)), Reads(before, now));
      verdict.Failed? || (verdict.Waiting? && now.clock >= limit)
    ensures CommandRun(setup, command, timeout, sudo, token, broken, calm, before, polled, after, Raised(OutcomeUnknown))
  {
    hide FeedAll, Late, CommandPolled, CommandRecovers, RepeatInterrupted, Grows, InFrame;
    LateInRecovery(setup, command, setup.scripts.recovery(token, setup.nonce), timeout, sudo, token, limit, before, polled, now, after);
  }

  lemma PromptRaised(setup: Setup, command: string, timeout: int, sudo: Option<string>, token: string, calm: Calm,
                     before: Session, polled: Session, error: Error)
    requires CommandPolled(setup.scripts.command(command, token, setup.nonce), true, sudo, timeout, before, polled)
    requires polled.state in {Executing, State.Failed} && error in {Foreign, SessionFailed} && !calm.willing
    ensures CommandRun(setup, command, timeout, sudo, token, {Executing, State.Failed}, calm, before, polled, polled, Raised(error))
  {
    hide Delivered, FeedAll, Sound, Answers, MatchCount;
    DeliveredPart(before.log.commands, polled.log.commands, setup.scripts.command(command, token, setup.nonce));
  }

  lemma WriteFailed(setup: Setup, command: string, timeout: int, sudo: Option<string>, token: string, broken: set<State>, calm: Calm,
                    before: Session, after: Session)
    requires after.state == before.state && before.state in broken && !calm.willing
    requires after.log == before.log.(commands := after.log.commands)
    requires Delivered(before.log.commands, after.log.commands, setup.scripts.command(command, token, setup.nonce), false)
    requires before.clock <= after.clock <= before.clock + FLOW_DELAY * (|after.log.commands| - |before.log.commands|)
    ensures CommandRun(setup, command, timeout, sudo, token, broken, calm, before, after, after, Raised(Foreign))
  {
    hide FeedAll, Sound;
    assert Seen(before, after) == [];
  }

  lemma CommandWritten(text: string, sudo: Option<string>, timeout: int, before: Session, after: Session)
    requires after.log == before.log.(commands := after.log.commands)
    requires Delivered(before.log.commands, after.log.commands, text, true)
    requires before.clock <= after.clock <= before.clock + FLOW_DELAY * (|after.log.commands| - |before.log.commands|)
    ensures InFrame(text, sudo, 0, timeout, before.clock + timeout, before, after)
  {
    hide Sound;
    assert Seen(before, after) == [];
  }

  lemma NothingRead(cfg: Config, before: Session, now: Session)
    requires now.log.reading.given == before.log.reading.given
    ensures Reads(before, now) == [] && FeedAll(Initial(cfg), []) == Waiting(Initial(cfg))
  {
  }

  lemma ReadsSame(before: Session, now: Session, after: Session)
    requires before.log.reading.given <= now.log.reading.given == after.log.reading.given
    ensures Reads(before, after) == Reads(before, now)
  {
  }

  lemma ReadsGrow(before: Session, now: Session, after: Session, data: seq<Byte>)
    requires before.log.reading.given <= now.log.reading.given && after.log.reading.given == Given(now.log.reading.given, data)
    ensures before.log.reading.given <= after.log.reading.given
    ensures Reads(before, after) == if data == [] then Reads(before, now) else Reads(before, now) + [data]
  {
  }

  /** The call as a whole: what was true of its body is true of it, with no less trouble. */
  lemma RunEnds(setup: Setup, command: string, timeout: int, sudo: Option<string>, token: string, calm: Calm, all: Calm,
                before: Session, polled: Session, ran: Session, o: Outcome)
    requires CommandRun(setup, command, timeout, sudo, token, {Executing, State.Failed}, calm, before.(state := Executing), polled, ran, o)
    requires Calmer(calm, all) && before.state == Ready
    ensures AtRest(ran.state) || ran.state == Executing
    ensures ran.state != Executing ==> CommandRun(setup, command, timeout, sudo, token, {Lost, State.Failed}, all, before, polled, ran, o)
    ensures ran.state != Executing && o in {Raised(Foreign), Raised(SessionFailed)} ==> ran.state == State.Failed
  {
    hide FeedAll, Delivered, Sound, Answers, MatchCount;
  }

  lemma BrokenEnds(setup: Setup, command: string, timeout: int, sudo: Option<string>, token: string, calm: Calm, all: Calm,
                   before: Session, polled: Session, ran: Session, after: Session, o: Outcome)
    requires CommandRun(setup, command, timeout, sudo, token, {Executing, State.Failed}, calm, before.(state := Executing), polled, ran, o)
    requires Calmer(calm, all) && ran.state == Executing && after.state in {Lost, State.Failed} && Moved(ran, after)
    ensures CommandRun(setup, command, timeout, sudo, token, {Lost, State.Failed}, all, before, polled, after, o)
    ensures o in {Raised(Foreign), Raised(SessionFailed)}
  {
    hide FeedAll, Delivered, Sound, Answers, MatchCount;
  }

  // Opening

  /** Before the shell is taken over: nothing was written but an answer, and time passed
      with reading and answering only. */
  ghost predicate Starts(sudo: Option<string>, before: Session, now: Session) {
    && Grows(before, now)
    && now.log.commands == before.log.commands
    && now.log.recoveries == before.log.recoveries
    && now.log.typed == before.log.typed && now.log.exits == before.log.exits
    && AnsweredOnce(before, now, sudo)
    && (before.log.ready ==> now.log.ready)
    && |now.log.reading.taken| - |before.log.reading.taken| == Polls(before, now)
    && now.clock - before.clock <= POLL * Polls(before, now) + Answering(before, now)
  }

  /** While it goes on, with the stage that the prompts have come to. */
  ghost predicate InStart(sudo: Option<string>, stage: nat, before: Session, now: Session) {
    && Starts(sudo, before, now)
    && RepeatInterrupted(before, now, sudo) && stage == Stage(MatchCount(Seen(before, now), sudo))
  }
  /** While the shell is taken over: the bootstrap command is written, perhaps only in part. */
  ghost predicate Shell(setup: Setup, token: string, mid: Session, now: Session, whole: bool) {
    && Grows(mid, now)
    && now.log == mid.log.(reading := now.log.reading, begun := now.log.begun, seen := now.log.seen,
                           commands := now.log.commands, ended := now.log.ended)
    && Delivered(mid.log.commands, now.log.commands,
                 setup.scripts.command(setup.scripts.bootstrap(setup.nonce), token, setup.nonce), whole)
    && now.clock - mid.clock <= FLOW_DELAY * Pieces(mid, now) + POLL * Polls(mid, now)
    && |now.log.reading.taken| - |mid.log.reading.taken| == Polls(mid, now)
  }

  lemma StartsHere(sudo: Option<string>, now: Session)
    ensures InStart(sudo, 0, now, now)
  {
    assert Seen(now, now) == [];
  }

  /** A look that found the process ended or the shell's prompt. */
  ghost predicate Looked(now: Session, after: Session) {
    && after == now.(state := after.state, log := now.log.(ended := after.log.ended, ready := after.log.ready))
    && (now.log.ended ==> after.log.ended) && (now.log.ready ==> after.log.ready)
  }

  lemma StartsLooked(sudo: Option<string>, stage: nat, before: Session, now: Session, after: Session)
    requires Looked(now, after)
    ensures Starts(sudo, before, now) ==> Starts(sudo, before, after)
    ensures InStart(sudo, stage, before, now) ==> InStart(sudo, stage, before, after)
  {
    hide Sound, Answers, MatchCount;
  }

  lemma StartGoesOn(sudo: Option<string>, stage: nat, before: Session, now: Session)
    requires InStart(sudo, stage, before, now)
    ensures Starts(sudo, before, now)
  {
  }

  lemma ReadStarting(sudo: Option<string>, stage: nat, later: nat, before: Session, now: Session, after: Session,
                     data: seq<Byte>, poll: int, spent: nat, error: Option<Error>)
    requires InStart(sudo, stage, before, now) && PromptsHandled(now, after, data, sudo, stage, later, poll, spent, error)
    requires poll <= POLL
    ensures Starts(sudo, before, after) && after.log.ready == now.log.ready
    ensures error == None ==> InStart(sudo, later, before, after)
    ensures poll > 0 ==> after.clock > now.clock
    ensures error == None ==> after.state == now.state
    ensures error.Some? ==> error.value in {Foreign, SessionFailed} && after.state in {now.state, State.Failed}
  {
    hide Sound, Answers, MatchCount;
    var a, b := Seen(before, now), Seen(now, after);
    assert Seen(before, after) == a + b;
    AnswersJoin(a, b, sudo);
    AnswersMatch(a, sudo);
    AnswersMatch(b, sudo);
    GrowsOn(before, now, after);
  }

  lemma ShellUntouched(setup: Setup, token: string, mid: Session, now: Session)
    requires now.log == mid.log && now.clock == mid.clock
    ensures Shell(setup, token, mid, now, false)
  {
    hide Sound;
    assert Flatten<char>([]) == "";
  }

  lemma ShellMoved(setup: Setup, token: string, mid: Session, now: Session, after: Session, whole: bool)
    requires Shell(setup, token, mid, now, whole) && Moved(now, after)
    ensures Shell(setup, token, mid, after, whole) && Shell(setup, token, mid, after, false)
    ensures mid.log.reading.given <= after.log.reading.given
    ensures Verdict(setup, token, 4096, mid, after) == Verdict(setup, token, 4096, mid, now)
  {
    hide FeedAll, Sound;
  }

  lemma ShellWritten(setup: Setup, token: string, mid: Session, now: Session, whole: bool)
    requires now.log == mid.log.(commands := now.log.commands)
    requires mid.clock <= now.clock <= mid.clock + FLOW_DELAY * (|now.log.commands| - |mid.log.commands|)
    requires Delivered(mid.log.commands, now.log.commands,
                       setup.scripts.command(setup.scripts.bootstrap(setup.nonce), token, setup.nonce), whole)
    ensures Shell(setup, token, mid, now, whole)
  {
    hide Sound;
  }

  lemma ReadInShell(setup: Setup, token: string, mid: Session, now: Session, after: Session,
                    data: seq<Byte>, poll: int, spent: nat, error: Option<Error>)
    requires Shell(setup, token, mid, now, true) && PromptsHandled(now, after, data, None, 0, 0, poll, spent, error)
    requires poll <= POLL
    ensures error == None && after.state == now.state && (poll > 0 ==> after.clock > now.clock)
    ensures after.log.reading.given == Given(now.log.reading.given, data) && mid.log.reading.given <= now.log.reading.given
    ensures Shell(setup, token, mid, after, true) && Shell(setup, token, mid, after, false)
  {
    hide Delivered, Sound, Answers, MatchCount;
    AnswersMatch(Seen(now, after), None);
    GrowsOn(mid, now, after);
    DeliveredPart(mid.log.commands, after.log.commands, setup.scripts.command(setup.scripts.bootstrap(setup.nonce), token, setup.nonce));
  }

  lemma DeliveredPart(before: seq<string>, after: seq<string>, text: string)
    ensures Delivered(before, after, text, true) ==> Delivered(before, after, text, false)
  {
  }

  /** How the start of a connection ended. */
  ghost predicate StartEnded(setup: Setup, timeout: int, sudo: Option<string>, token: string, calm: Calm, before: Session,
                             mid: Session, after: Session, o: Outcome) {
    && (after.state == Ready <==> o == Done)
    && Starts(sudo, before, mid) && Shell(setup, token, mid, after, o == Done)
    && o in {Done, Raised(Foreign), Raised(SessionFailed), Raised(SessionEnded)}
    && (o == Done ==> ShellBegun(setup, token, mid, after) && mid.log.ready)
    && (o == Raised(Foreign) ==> !calm.willing)
    && (o == Raised(SessionEnded) ==> !calm.alive)
    && (o == Raised(SessionFailed) && calm.willing ==>
          NeverReady(timeout, before, mid, after) || ShellRefused(setup, timeout, token, before, mid, after))
  }

  lemma GivenUp(setup: Setup, timeout: int, sudo: Option<string>, token: string, calm: Calm, stage: nat, before: Session,
                mid: Session, after: Session, error: Error)
    requires InStart(sudo, stage, before, mid) && after.log == mid.log && after.clock == mid.clock && after.state != Ready
    requires (error == Foreign && !calm.willing) || (error == SessionEnded && !calm.alive)
          || (error == SessionFailed && NeverReady(timeout, before, mid, after))
    ensures StartEnded(setup, timeout, sudo, token, calm, before, mid, after, Raised(error))
  {
    hide Starts, Shell;
    StartGoesOn(sudo, stage, before, mid);
    ShellUntouched(setup, token, mid, after);
  }

  lemma PromptGivenUp(setup: Setup, timeout: int, sudo: Option<string>, token: string, calm: Calm, before: Session,
                      mid: Session, after: Session, o: Outcome)
    requires Starts(sudo, before, mid) && after.log == mid.log && after.clock == mid.clock && after.state != Ready
    requires !calm.willing && o in {Raised(Foreign), Raised(SessionFailed)}
    ensures StartEnded(setup, timeout, sudo, token, calm, before, mid, after, o)
  {
    hide Starts, Shell;
    ShellUntouched(setup, token, mid, after);
  }

  lemma ShellTaken(setup: Setup, timeout: int, sudo: Option<string>, token: string, calm: Calm, all: Calm, before: Session,
                   mid: Session, after: Session, o: Outcome)
    requires Starts(sudo, before, mid) && Shell(setup, token, mid, after, o == Done) && mid.log.ready && Calmer(calm, all)
    requires (after.state == Ready <==> o == Done) && o in {Done, Raised(Foreign), Raised(SessionFailed), Raised(SessionEnded)}
    requires o == Done ==> ShellBegun(setup, token, mid, after)
    requires o == Raised(Foreign) ==> !calm.willing
    requires o == Raised(SessionEnded) ==> !calm.alive
    requires o == Raised(SessionFailed) ==> ShellRefused(setup, timeout, token, before, mid, after)
    ensures StartEnded(setup, timeout, sudo, token, all, before, mid, after, o)
  {
    hide Starts, Shell, ShellBegun, ShellRefused;
  }

  lemma ShellTimeIs(timeout: int, before: Session, mid: Session, left: int, time: int)
    requires left == Max(before.clock + timeout - mid.clock, 100)
    requires time == if left < BOOTSTRAP_TIMEOUT then left else BOOTSTRAP_TIMEOUT
    ensures time == ShellTime(timeout, before, mid)
  {
  }

  lemma OpenEnds(setup: Setup, timeout: int, sudo: Option<string>, token: string, before: Session, mid: Session, started: Session,
                 after: Session, o: Outcome)
    requires Starts(sudo, before.(state := Starting), mid)
    ensures Starts(sudo, before, mid)
    ensures NeverReady(timeout, before.(state := Starting), mid, started) && Moved(started, after) ==>
      NeverReady(timeout, before, mid, after)
    ensures ShellRefused(setup, timeout, token, before.(state := Starting), mid, started) && Moved(started, after) ==>
      ShellRefused(setup, timeout, token, before, mid, after)
    ensures forall whole :: Shell(setup, token, mid, started, whole) && Moved(started, after) ==> Shell(setup, token, mid, after, whole)
  {
    hide FeedAll, Sound, Delivered, Answers, MatchCount;
  }

  // Interactive use

  lemma NotInteractive(setup: Setup, cursor: nat, before: Session)
    requires before.state != Interactive
    ensures InteractiveRead(setup, cursor, before, before, Raised(InvalidState))
  {
  }

  /** A read without a gate changes what was read and the clock. */
  lemma PromptsPassed(before: Session, after: Session, data: seq<Byte>, timeout: int, spent: nat, error: Option<Error>)
    requires PromptsHandled(before, after, data, None, 0, 0, timeout, spent, error)
    ensures Grows(before, after) && after.state == before.state
    ensures after.log == before.log.(reading := after.log.reading, begun := after.log.begun, seen := after.log.seen, ended := after.log.ended)
  {
    hide Sound, Answers, MatchCount;
    AnswersMatch(Seen(before, after), None);
  }

  lemma InteractiveShown(setup: Setup, cursor: nat, before: Session, handled: Session, shown: Session, after: Session,
                         o: Outcome, read: RingBuffer.BufferRead)
    requires before.state == Interactive && Grows(before, handled)
    requires handled.log == before.log.(reading := handled.log.reading, begun := handled.log.begun, seen := handled.log.seen,
                                        ended := handled.log.ended)
    requires ReadingGrows(handled.log.reading, shown.log.reading)
    requires shown == handled.(log := handled.log.(reading := shown.log.reading)) && Moved(shown, after)
    requires read == RingBuffer.ReadLog(shown.log.reading.printed, setup.limit, cursor)
    requires (o == Raised(SessionEnded) && after.state == Lost)
          || (o == Shown(Utf8.DecodeReplacing(read.data), read.nextCursor, read.dropped) && after.state == Interactive)
    ensures InteractiveRead(setup, cursor, before, after, o)
  {
    hide Sound, RingBuffer.ReadLog, Utf8.DecodeReplacing;
  }

  // Leaving interactive use

  lemma ClosingRefused(setup: Setup, timeout: int, token: string, calm: Calm, before: Session)
    requires before.state != Interactive
    ensures InteractiveClosed(setup, timeout, token, calm, before, before, Raised(InvalidState))
  {
  }

  lemma ClosingBroken(setup: Setup, timeout: int, token: string, calm: Calm, before: Session, after: Session)
    requires before.state == Interactive && after.state == Interactive && !calm.willing
    requires before.clock <= after.clock <= before.clock + INTERRUPT_DELAY
    requires after.log == before.log.(commands := after.log.commands, interrupts := before.log.interrupts + 1)
    requires after.log.commands in
      {before.log.commands, before.log.commands + [setup.scripts.command(":", token, setup.nonce)]}
    ensures InteractiveClosed(setup, timeout, token, calm, before, after, Raised(Foreign))
  {
    hide Verdict, Sound;
  }

  ghost predicate InClosing(text: string, limit: int, before: Session, now: Session) {
    && Grows(before, now)
    && now.log == before.log.(reading := now.log.reading, begun := now.log.begun, seen := now.log.seen,
                              commands := before.log.commands + [text], interrupts := before.log.interrupts + 1, ended := now.log.ended)
    && before.clock + INTERRUPT_DELAY <= now.clock && now.clock <= Max(limit, before.clock + INTERRUPT_DELAY)
    && now.clock <= before.clock + INTERRUPT_DELAY + POLL * Polls(before, now)
    && |now.log.reading.taken| - |before.log.reading.taken| == Polls(before, now)
  }

  lemma ClosingBegun(text: string, limit: int, before: Session, now: Session)
    requires now.clock == before.clock + INTERRUPT_DELAY
    requires now.log == before.log.(commands := before.log.commands + [text], interrupts := before.log.interrupts + 1)
    ensures InClosing(text, limit, before, now)
  {
    hide Sound;
  }

  lemma ReadInClosing(text: string, limit: int, before: Session, now: Session, after: Session,
                      data: seq<Byte>, poll: int, spent: nat, error: Option<Error>)
    requires InClosing(text, limit, before, now) && PromptsHandled(now, after, data, None, 0, 0, poll, spent, error)
    requires 0 < poll <= limit - now.clock && poll <= POLL
    ensures error == None && after.state == now.state && after.clock > now.clock
    ensures after.log.reading.given == Given(now.log.reading.given, data) && before.log.reading.given <= now.log.reading.given
    ensures InClosing(text, limit, before, after)
  {
    hide Sound, Answers, MatchCount;
    AnswersMatch(Seen(now, after), None);
    GrowsOn(before, now, after);
  }

  lemma ClosingMoved(text: string, limit: int, before: Session, now: Session, after: Session)
    requires InClosing(text, limit, before, now) && Moved(now, after)
    ensures InClosing(text, limit, before, after)
  {
    hide Sound;
  }

  lemma ClosingDone(setup: Setup, timeout: int, token: string, calm: Calm, before: Session, read: Session, after: Session,
                    result: CommandResult)
    requires before.state == Interactive && after.state == Ready && Moved(read, after)
    requires InClosing(setup.scripts.command(":", token, setup.nonce), before.clock + INTERRUPT_DELAY + timeout, before, read)
    requires before.log.reading.given <= read.log.reading.given
    requires FeedAll(Initial(FrameOf(setup, token, 4096)), Reads(before, read)) == Completed(result)
    ensures InteractiveClosed(setup, timeout, token, calm, before, after, Done)
  {
    hide FeedAll, Sound;
  }

  lemma ClosingLost(setup: Setup, timeout: int, token: string, calm: Calm, before: Session, late: Session, after: Session)
    requires before.state == Interactive && after.state == Lost && after.log.ended && Moved(late, after)
    requires InClosing(setup.scripts.command(":", token, setup.nonce), before.clock + INTERRUPT_DELAY + timeout, before, late)
    requires before.log.reading.given <= late.log.reading.given
    requires calm.alive && calm.willing ==>
      var verdict := FeedAll(Initial(FrameOf(setup, token, 4096)), Reads(before, late));
      verdict.Failed? || (verdict.Waiting? && late.clock >= before.clock + INTERRUPT_DELAY + timeout)
    ensures InteractiveClosed(setup, timeout, token, calm, before, after, Raised(OutcomeUnknown))
  {
    hide FeedAll, Sound;
  }
}
