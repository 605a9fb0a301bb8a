/** The terminal as its session sees it. What the remote side, the user and the
    clock do is an oracle: one observation for every time the session looks. */
module Terminal {
  import opened Bytes
  import opened FrameSpec
  import opened RingBuffer

  datatype PromptKind = HostKey | Password | KeyPassphrase | SudoPassword

  datatype PromptEvent = PromptEvent(kind: PromptKind, prompt: string)

  type Token = t: string | ValidToken(t) witness "0"

  /** Everything the environment may decide at one moment: bytes that arrived, the
      prompts seen in them, how long it took, whether the process still runs,
      whether the call fails, whether an answer was given, whether a Bash prompt
      was seen, and the next random token. */
  datatype Observation = Observation(
    data: seq<Byte>, prompts: seq<PromptEvent>, elapsed: nat, running: bool,
    fails: bool, answered: bool, ready: bool, token: Token)

  datatype Input = Command(text: string) | Recovery(text: string) | Typed(text: string) | Interrupt | Exit

  /** All that the terminal has printed, how far the session has read, its reads, and
      the data that they brought when they brought any. */
  datatype Reading = Reading(printed: seq<Byte>, cursor: nat, taken: seq<Taken>, given: seq<seq<Byte>>)

  /** What has passed between session and terminal: what was read, when each read began,
      the prompts seen in what was read, and whether a shell's prompt was; the pieces of
      commands written, recovery scripts, raw input, interrupts, farewells and the prompts that
      were answered; the milliseconds spent on answering; and whether the process was
      ever found to have ended or was told to. */
  datatype Log = Log(
    reading: Reading, begun: seq<nat>, seen: seq<PromptEvent>, ready: bool, commands: seq<string>, recoveries: seq<string>, typed: seq<string>, interrupts: nat, exits: nat,
    answered: seq<PromptEvent>, authentication: nat, ended: bool)

  const NewLog := Log(Reading([], 0, [], []), [], [], false, [], [], [], 0, 0, [], 0, false)

  function Written(log: Log, input: Input): Log {
    match input
    case Command(text) => log.(commands := log.commands + [text])
    case Recovery(text) => log.(recoveries := log.recoveries + [text])
    case Typed(text) => log.(typed := log.typed + [text])
    case Interrupt => log.(interrupts := log.interrupts + 1)
    case Exit => log.(exits := log.exits + 1)
  }

  function Given(given: seq<seq<Byte>>, data: seq<Byte>): seq<seq<Byte>> {
    if data == [] then given else given + [data]
  }

  function NonEmpty(chunks: seq<seq<Byte>>): seq<seq<Byte>> {
    if chunks == [] then [] else Given(NonEmpty(chunks[..|chunks| - 1]), chunks[|chunks| - 1])
  }

  /** The reads are slices of what was printed, one after the other, up to the cursor. */
  predicate Sound(r: Reading) {
    Chained(r.printed, r.taken, r.cursor) && r.given == NonEmpty(Chunks(r.taken))
  }

  /** One read through the bounded buffer, after more has been printed. */
  function Received(r: Reading, capacity: nat, more: seq<Byte>): Reading {
    var printed := r.printed + more;
    var next := TakeNext(printed, capacity, r.cursor);
    Reading(printed, next.to, r.taken + [next], Given(r.given, next.data))
  }

  /** Between two moments the process ran. */
  ghost predicate Alive(world: nat -> Observation, from: nat, to: nat) {
    forall n :: from <= n < to ==> world(n).running
  }

  /** Between two moments nothing failed and every prompt was answered. */
  ghost predicate Willing(world: nat -> Observation, from: nat, to: nat) {
    forall n :: from <= n < to ==> !world(n).fails && world(n).answered
  }

  /** Whether the terminal gave no trouble of either kind. */
  datatype Calm = Calm(alive: bool, willing: bool)

  ghost function CalmOf(world: nat -> Observation, from: nat, to: nat): Calm {
    Calm(Alive(world, from, to), Willing(world, from, to))
  }

  /** There is no more trouble in a part of a time than in all of it. */
  predicate Calmer(a: Calm, b: Calm) {
    (b.alive ==> a.alive) && (b.willing ==> a.willing)
  }

  lemma CalmPart(world: nat -> Observation, from: nat, a: nat, b: nat, to: nat)
    requires from <= a && b <= to
    ensures Calmer(CalmOf(world, a, b), CalmOf(world, from, to))
  {
  }

  lemma NotRunning(world: nat -> Observation, from: nat, n: nat, to: nat)
    requires from <= n < to
    ensures !world(n).running ==> !CalmOf(world, from, to).alive
    ensures world(n).fails || !world(n).answered ==> !CalmOf(world, from, to).willing
  {
  }

  /** What has been read after `k` polls, each but the last followed by one other look. */
  function PollsFrom(world: nat -> Observation, capacity: nat, r: Reading, moment: nat, k: nat): Reading {
    if k == 0 then r else Received(PollsFrom(world, capacity, r, moment, k - 1), capacity, world(moment + 2 * (k - 1)).data)
  }

  /** After more had been printed, `data` was what the buffer still had of it from the
      cursor on. */
  ghost predicate ReadThrough(a: Reading, b: Reading, capacity: nat, data: seq<Byte>) {
    data == ReadLog(b.printed, capacity, a.cursor).data && exists more :: b == Received(a, capacity, more)
  }

  /** More was printed and read, and what was sound is sound. */
  predicate ReadingGrows(a: Reading, b: Reading) {
    a.printed <= b.printed && a.taken <= b.taken && a.given <= b.given && (Sound(a) ==> Sound(b))
  }

  lemma PrintedGrows(r: Reading, more: seq<Byte>)
    ensures ReadingGrows(r, r.(printed := r.printed + more))
  {
    hide Chained;
    if Sound(r) { ChainedGrows(r.printed, more, r.taken, r.cursor); }
  }

  lemma ReceivedGrows(r: Reading, capacity: nat, more: seq<Byte>)
    ensures ReadingGrows(r, Received(r, capacity, more))
  {
    hide Sound, TakeNext;
    if Sound(r) { ReceivedSound(r, capacity, more); }
  }

  lemma ReceivedThrough(r: Reading, capacity: nat, more: seq<Byte>)
    ensures var b := Received(r, capacity, more);
      b.taken != [] && ReadThrough(r, b, capacity, b.taken[|b.taken| - 1].data)
  {
    hide ReadLog, ReadFrom;
    var b := Received(r, capacity, more);
    assert b.taken[|b.taken| - 1] == TakeNext(b.printed, capacity, r.cursor);
  }

  lemma ReceivedSound(r: Reading, capacity: nat, more: seq<Byte>)
    requires Sound(r)
    ensures Sound(Received(r, capacity, more))
  {
    hide Chained, TakeNext, Follows;
    ChainEnds(r.printed, r.taken, r.cursor);
    ChainedGrows(r.printed, more, r.taken, r.cursor);
    var printed := r.printed + more;
    var next := TakeNext(printed, capacity, r.cursor);
    TakeFollows(printed, capacity, r.cursor);
    ChainedSnoc(printed, r.taken, r.cursor, next);
    ChunksSnoc(r.taken, next);
    assert (Chunks(r.taken) + [next.data])[..|r.taken|] == Chunks(r.taken);
  }

  /** Reads return within the time they are given, and no later than the clock's
      next tick when they are given none. */
  function Elapsed(o: Observation, timeout: int): (ms: nat)
    ensures timeout <= 0 ==> ms == 0
    ensures timeout > 0 ==> 1 <= ms <= timeout
  {
    if timeout <= 0 then 0 else 1 + o.elapsed % timeout
  }

  class Terminal {
    const world: nat -> Observation
    const capacity: nat
    var moment: nat
    var clock: nat
    var log: Log

    constructor (world: nat -> Observation, capacity: nat)
      ensures clock == 0 && log == NewLog && this.capacity == capacity
    {
      this.world, this.capacity := world, capacity;
      moment, clock, log := 0, 0, NewLog;
    }

    method Observe() returns (o: Observation)
      modifies this`moment
      ensures o == world(old(moment)) && moment == old(moment) + 1
    {
      o := world(moment);
      moment := moment + 1;
    }

    method Running() returns (running: bool)
      modifies this`moment, this`log
      ensures running == world(old(moment)).running && moment == old(moment) + 1
      ensures log == old(log).(ended := old(log).ended || !running)
    {
      var o := Observe();
      running := o.running;
      log := log.(ended := log.ended || !running);
    }

    /** Waits for the process to end, at most `timeout` milliseconds. */
    method WaitForExit(timeout: nat) returns (exited: bool)
      modifies this
      ensures moment == old(moment) + 1 && exited == (!world(old(moment)).running && !world(old(moment)).fails)
      ensures old(clock) <= clock <= old(clock) + timeout
      ensures log == old(log).(ended := old(log).ended || exited)
    {
      var o := Observe();
      exited := !o.running && !o.fails;
      clock := clock + Elapsed(o, timeout);
      log := log.(ended := log.ended || exited);
    }

    method Terminate()
      modifies this`log
      ensures log == old(log).(ended := true)
    {
      log := log.(ended := true);
    }

    method NewToken() returns (token: Token)
      modifies this`moment
      ensures moment == old(moment) + 1 && token == world(old(moment)).token
    {
      var o := Observe();
      token := o.token;
    }

    method Sleep(ms: nat)
      modifies this`clock
      ensures clock == old(clock) + ms
    {
      clock := clock + ms;
    }

    /** What was printed since the session's cursor, as far as the buffer still has it;
        the flag that says whether it does not is not passed on. */
    method WaitForData(timeout: int) returns (data: seq<Byte>, prompts: seq<PromptEvent>)
      modifies this
      ensures log == old(log).(reading := log.reading, begun := old(log).begun + [old(clock)],
                               seen := old(log).seen + if data == [] then [] else prompts)
      ensures ReadingGrows(old(log).reading, log.reading) && |log.reading.taken| == |old(log).reading.taken| + 1
      ensures log.reading == Received(old(log).reading, capacity, world(old(moment)).data)
      ensures ReadThrough(old(log).reading, log.reading, capacity, data)
      ensures prompts == world(old(moment)).prompts && moment == old(moment) + 1
      ensures log.reading.given == Given(old(log).reading.given, data) && old(clock) <= clock
      ensures timeout > 0 ==> old(clock) < clock <= old(clock) + timeout
      ensures timeout <= 0 ==> clock == old(clock)
    {
      hide ReadingGrows, TakeNext, ReadThrough;
      var o := Observe();
      var start := clock;
      clock := clock + Elapsed(o, timeout);
      var reading := Received(log.reading, capacity, o.data);
      ReceivedThrough(log.reading, capacity, o.data);
      data, prompts := reading.taken[|reading.taken| - 1].data, o.prompts;
      ReceivedGrows(log.reading, capacity, o.data);
      log := log.(reading := reading, begun := log.begun + [start], seen := log.seen + if data == [] then [] else prompts);
    }

    /** Whether a shell's prompt has been seen. */
    method Ready() returns (ready: bool)
      modifies this`moment, this`log
      ensures ready == world(old(moment)).ready && moment == old(moment) + 1
      ensures log == old(log).(ready := old(log).ready || ready)
    {
      var o := Observe();
      ready := o.ready;
      log := log.(ready := log.ready || ready);
    }

    /** A read from a cursor of the caller's own. */
    method Read(cursor: nat) returns (r: BufferRead)
      modifies this`moment, this`log
      ensures log == old(log).(reading := old(log).reading.(printed := log.reading.printed))
      ensures ReadingGrows(old(log).reading, log.reading)
      ensures r == ReadLog(log.reading.printed, capacity, cursor)
      ensures log.reading.printed == old(log).reading.printed + world(old(moment)).data && moment == old(moment) + 1
    {
      hide ReadingGrows, ReadLog;
      var o := Observe();
      PrintedGrows(log.reading, o.data);
      log := log.(reading := log.reading.(printed := log.reading.printed + o.data));
      r := ReadLog(log.reading.printed, capacity, cursor);
    }

    /** A write that raises may still have delivered something, so it is logged. */
    method Write(input: Input) returns (ok: bool)
      modifies this`moment, this`log
      ensures log == Written(old(log), input)
      ensures ok == !world(old(moment)).fails && moment == old(moment) + 1
    {
      var o := Observe();
      log := Written(log, input);
      ok := !o.fails;
    }

    /** The user answers a prompt, or fails to. */
    method Respond(event: PromptEvent) returns (raised: bool, answered: bool, elapsed: nat)
      modifies this
      ensures moment == old(moment) + 1
      ensures raised == world(old(moment)).fails && answered == world(old(moment)).answered
      ensures clock == old(clock) + elapsed
      ensures log == old(log).(answered := old(log).answered + [event], authentication := old(log).authentication + elapsed)
    {
      var o := Observe();
      raised, answered, elapsed := o.fails, o.answered, o.elapsed;
      clock := clock + elapsed;
      log := log.(answered := log.answered + [event], authentication := log.authentication + elapsed);
    }
  }
}
