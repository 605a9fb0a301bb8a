/** When a session's calls succeed: as long as the terminal gives no trouble, what is
    printed in time is what is returned. */
module SessionProgress {
  import opened Common
  import opened Bytes
  import opened FrameSpec
  import opened SessionState
  import opened Terminal
  import opened SessionSpec
  import RingBuffer

  /** Once a frame has ended, more reads change nothing. */
  lemma {:induction false} FeedAllFront(f: Frame, a: seq<seq<Byte>>, b: seq<seq<Byte>>)
    requires !FeedAll(f, a).Waiting?
    ensures FeedAll(f, a + b) == FeedAll(f, a)
    decreases |a|
  {
    hide Feed;
    assert a != [] && (a + b)[1..] == a[1..] + b;
    match Feed(f, a[0])
    case Waiting(g) => FeedAllFront(g, a[1..], b);
    case _ =>
  }

  /** Of two stretches of reads that begin alike, both ended frames are the same. */
  lemma Endings(f: Frame, all: seq<seq<Byte>>, a: seq<seq<Byte>>, b: seq<seq<Byte>>)
    requires a <= all && b <= all && !FeedAll(f, a).Waiting? && !FeedAll(f, b).Waiting?
    ensures FeedAll(f, a) == FeedAll(f, b)
  {
    FeedAllFront(f, a, all[|a|..]);
    FeedAllFront(f, b, all[|b|..]);
    assert a + all[|a|..] == all == b + all[|b|..];
  }

  /** The data that the first `n` polls of a call brought. */
  function FirstReads(before: Session, after: Session, n: nat): seq<seq<Byte>>
    requires |before.log.reading.taken| + n <= |after.log.reading.taken|
  {
    NonEmpty(RingBuffer.Chunks(after.log.reading.taken[|before.log.reading.taken|..|before.log.reading.taken| + n]))
  }

  /** What was given to the session are the polls that brought something. */
  lemma ReadsArePolls(before: Session, now: Session, after: Session)
    requires Grows(before, now) && Grows(now, after) && Sound(before.log.reading)
    ensures FirstReads(before, after, |now.log.reading.taken| - |before.log.reading.taken|) == Reads(before, now)
  {
    hide RingBuffer.Chained, RingBuffer.Chunks, NonEmpty;
    var a, b := before.log.reading.taken, now.log.reading.taken;
    var news := MiddlePart(a, b, after.log.reading.taken);
    ChunksSplit(a, news);
    NonEmptySplit(RingBuffer.Chunks(a), RingBuffer.Chunks(news));
  }

  lemma MiddlePart(a: seq<RingBuffer.Taken>, b: seq<RingBuffer.Taken>, c: seq<RingBuffer.Taken>) returns (news: seq<RingBuffer.Taken>)
    requires a <= b <= c
    ensures b == a + news && c[|a|..|b|] == news && |a| + (|b| - |a|) == |b|
  {
    news := b[|a|..];
    assert c[..|b|] == b;
    assert c[..|b|][|a|..] == c[|a|..|b|];
  }

  lemma FirstReadsGrow(before: Session, after: Session, m: nat, n: nat)
    requires m <= n && |before.log.reading.taken| + n <= |after.log.reading.taken|
    ensures FirstReads(before, after, m) <= FirstReads(before, after, n)
  {
    hide RingBuffer.Chunks, NonEmpty;
    var start := |before.log.reading.taken|;
    var all := after.log.reading.taken[start..start + n];
    var front, rest := all[..m], all[m..];
    assert all == front + rest && front == after.log.reading.taken[start..start + m];
    ChunksSplit(front, rest);
    NonEmptySplit(RingBuffer.Chunks(front), RingBuffer.Chunks(rest));
  }

  /** A command that can run. */
  predicate Startable(command: string, allowSudo: bool, sudo: Option<string>, before: Session) {
    command != "" && '\0' !in command && allowSudo == sudo.Some? && before.state == Ready
  }

  /** A FRAME IN TIME IS A RESULT. When the process runs all the while, no write fails and
      every prompt is answered: if a poll that was begun before the deadline, as it was
      moved by the time that answers took, completes the frame, then the call returns
      that frame's result and leaves the session ready. */
  lemma FinishesInTime(setup: Setup, command: string, timeout: int, allowSudo: bool, sudo: Option<string>, token: string,
                       calm: Calm, before: Session, polled: Session, after: Session, o: Outcome, n: nat, result: CommandResult)
    requires Startable(command, allowSudo, sudo, before) && calm.alive && calm.willing && Sound(before.log.reading)
    requires Executed(setup, command, timeout, allowSudo, sudo, token, calm, before, polled, after, o)
    requires Grows(before, after) && 0 < n <= |after.log.reading.taken| - |before.log.reading.taken|
    requires FeedAll(Initial(FrameOf(setup, token, setup.limit)), FirstReads(before, after, n)) == Completed(result)
    requires n <= Polls(before, after)
    requires after.log.begun[|before.log.begun| + n - 1] < before.clock + timeout + Answering(before, after)
    ensures o.Finished? && o.result == result && after.state == Ready
  {
    hide FeedAll, Sound, Delivered, Answers, MatchCount, FirstReads;
    var cfg := FrameOf(setup, token, setup.limit);
    var j := |polled.log.reading.taken| - |before.log.reading.taken|;
    ReadsArePolls(before, polled, after);
    if n <= j {
      FirstReadsGrow(before, after, n, j);
      CompletedStays(cfg, FirstReads(before, after, n), FirstReads(before, after, j), result);
    }
  }

  lemma CompletedStays(cfg: Config, front: seq<seq<Byte>>, all: seq<seq<Byte>>, result: CommandResult)
    requires front <= all && FeedAll(Initial(cfg), front) == Completed(result)
    ensures FeedAll(Initial(cfg), all) == Completed(result)
  {
    FeedAllFront(Initial(cfg), front, all[|front|..]);
    assert front + all[|front|..] == all;
  }

  lemma {:induction false} PollsGrow(world: nat -> Observation, capacity: nat, r: Reading, first: nat, m: nat, n: nat)
    requires m <= n
    ensures PollsFrom(world, capacity, r, first, m).given <= PollsFrom(world, capacity, r, first, n).given
    decreases n
  {
    hide Received;
    if m < n {
      PollsGrow(world, capacity, r, first, m, n - 1);
      ReceivedGrows(PollsFrom(world, capacity, r, first, n - 1), capacity, world(first + 2 * (n - 1)).data);
    }
  }

  /** The data that `n` polls from the moment `first` on bring. */
  function WorldReads(world: nat -> Observation, capacity: nat, before: Session, first: nat, n: nat): seq<seq<Byte>> {
    PollsGrow(world, capacity, before.log.reading, first, 0, n);
    PollsFrom(world, capacity, before.log.reading, first, n).given[|before.log.reading.given|..]
  }

  /** PRINTED IN TIME IS RETURNED. In a world that gives no trouble, a command without
      authentication ends in the result of its frame as soon as what the world prints at
      its first `n` polls completes it, when so many fit before the deadline. Execute
      says at which moments the polls are. */
  lemma FinishesInWorld(setup: Setup, command: string, timeout: int, token: string, calm: Calm,
                        before: Session, polled: Session, after: Session, o: Outcome,
                        world: nat -> Observation, first: nat, n: nat, result: CommandResult)
    requires Startable(command, false, None, before) && calm.alive && calm.willing
    requires Executed(setup, command, timeout, false, None, token, calm, before, polled, after, o)
    requires FromWorld(world, setup.limit, first, before, polled)
    requires n > 0 && before.log.commands <= polled.log.commands
    requires 10 * Pieces(before, polled) + 250 * (n - 1) < timeout
    requires FeedAll(Initial(FrameOf(setup, token, setup.limit)), WorldReads(world, setup.limit, before, first, n)) == Completed(result)
    ensures o.Finished? && o.result == result && after.state == Ready
  {
    hide FeedAll, Sound, Delivered, Answers, MatchCount, PollsFrom;
    var cfg, polls := FrameOf(setup, token, setup.limit), Polls(before, polled);
    var all := WorldReads(world, setup.limit, before, first, if polls < n then n else polls);
    ReadsInWorld(world, setup.limit, before, polled, first, n);
    if !Verdict(setup, token, setup.limit, before, polled).Waiting? {
      Endings(Initial(cfg), all, Reads(before, polled), WorldReads(world, setup.limit, before, first, n));
    } else if n <= polls {
      CompletedStays(cfg, WorldReads(world, setup.limit, before, first, n), Reads(before, polled), result);
    }
  }

  /** The reads of a session and the first so many of its world begin alike. */
  lemma ReadsInWorld(world: nat -> Observation, capacity: nat, before: Session, now: Session, first: nat, n: nat)
    requires FromWorld(world, capacity, first, before, now) && before.log.reading.given <= now.log.reading.given
    ensures var all := WorldReads(world, capacity, before, first, if Polls(before, now) < n then n else Polls(before, now));
      Reads(before, now) <= all && WorldReads(world, capacity, before, first, n) <= all
    ensures n <= Polls(before, now) ==> WorldReads(world, capacity, before, first, n) <= Reads(before, now)
  {
    hide PollsFrom;
    var polls := Polls(before, now);
    PollsGrow(world, capacity, before.log.reading, first, 0, n);
    PollsGrow(world, capacity, before.log.reading, first, 0, polls);
    var r, start := before.log.reading, |before.log.reading.given|;
    var a, b := PollsFrom(world, capacity, r, first, n).given, PollsFrom(world, capacity, r, first, polls).given;
    NoPolls(world, capacity, r, first);
    if polls < n {
      PollsGrow(world, capacity, r, first, polls, n);
      AlikeBehind(b, a, start);
    } else {
      PollsGrow(world, capacity, r, first, n, polls);
      AlikeBehind(a, b, start);
    }
  }

  lemma NoPolls(world: nat -> Observation, capacity: nat, r: Reading, first: nat)
    ensures PollsFrom(world, capacity, r, first, 0) == r
  {
  }

  lemma AlikeBehind(a: seq<seq<Byte>>, b: seq<seq<Byte>>, k: nat)
    requires a <= b && k <= |a|
    ensures a[k..] <= b[k..]
  {
    assert b[k..][..|a| - k] == a[k..];
  }

  /** The way back from interactive use, in a world that gives no trouble: when the first
      `n` polls complete the empty command's frame, and fit into the time given. */
  lemma ReturnsInWorld(setup: Setup, timeout: int, token: string, calm: Calm, before: Session, after: Session, o: Outcome,
                       world: nat -> Observation, first: nat, n: nat, result: CommandResult)
    requires before.state == Interactive && calm.alive && calm.willing
    requires InteractiveClosed(setup, timeout, token, calm, before, after, o)
    requires FromWorld(world, setup.limit, first, before, after) && n > 0 && 250 * (n - 1) < timeout
    requires FeedAll(Initial(FrameOf(setup, token, 4096)), WorldReads(world, setup.limit, before, first, n)) == Completed(result)
    ensures o == Done && after.state == Ready
  {
    hide FeedAll, Sound, PollsFrom;
    var cfg, polls := FrameOf(setup, token, 4096), Polls(before, after);
    var all := WorldReads(world, setup.limit, before, first, if polls < n then n else polls);
    ReadsInWorld(world, setup.limit, before, after, first, n);
    if !Verdict(setup, token, 4096, before, after).Waiting? {
      Endings(Initial(cfg), all, Reads(before, after), WorldReads(world, setup.limit, before, first, n));
    } else if n <= polls {
      CompletedStays(cfg, WorldReads(world, setup.limit, before, first, n), Reads(before, after), result);
    }
  }

  /** A connection without trouble opens, exactly if the shell's prompt is seen and its
      bootstrap completes its frame with exit code 0. */
  lemma OpensIff(setup: Setup, timeout: int, allowSudo: bool, sudo: Option<string>, token: string, calm: Calm,
                 before: Session, mid: Session, after: Session, o: Outcome)
    requires before.state == Created && allowSudo == sudo.Some? && !before.log.ready && calm.alive && calm.willing
    requires Opened(setup, timeout, allowSudo, sudo, token, calm, before, mid, after, o)
    ensures o == Done <==> mid.log.ready && ShellBegun(setup, token, mid, after)
    ensures o == Done <==> after.state == Ready
  {
    hide FeedAll, Sound, Delivered, Answers, MatchCount, Starts, Shell;
  }
}
