/** Feeding a stream in pieces: how far the parser's answer depends on where the
    pieces end. */
module FrameChunks {
  import opened Common
  import opened Bytes
  import opened FrameSpec
  import Ansi
  import Utf8

  /** No newline is waiting and the unfinished line is within its limit: how
      every feed leaves the parser. */
  predicate Settled(f: Frame) {
    NEWLINE !in f.scan && |f.scan| <= PARTIAL_LINE_LIMIT
  }

  /** A body line that no marker test reacts to. */
  predicate Ordinary(cfg: Config, raw: seq<Byte>)
    requires raw != []
  {
    var line := Normalize(raw);
    !(cfg.EndPrefix() <= line) && (cfg.nonce.Some? ==> !(cfg.Probe() <= line))
  }

  /** A long output line may be cut anywhere that leaves the limit's worth of
      bytes: it is safe when none of those tails looks like a marker and the last
      of them is not all carriage returns. */
  ghost predicate SafeToCut(cfg: Config, raw: seq<Byte>)
    requires |raw| > PARTIAL_LINE_LIMIT + 1
  {
    (forall k :: 0 <= k <= |raw| - 1 - PARTIAL_LINE_LIMIT ==> Ordinary(cfg, raw[k..])) &&
    TrimLineEnd(raw[|raw| - 1 - PARTIAL_LINE_LIMIT..]) != []
  }

  /** Every line longer than the limit is output and safe to cut. */
  ghost predicate Tame(f: Frame)
    decreases |f.scan|
  {
    var n := FindNewline(f.scan);
    if n == |f.scan| then n <= PARTIAL_LINE_LIMIT || f.phase.Body?
    else
      (n > PARTIAL_LINE_LIMIT ==> f.phase.Body? && SafeToCut(f.cfg, f.scan[..n + 1])) &&
      (match Consume(f.(scan := f.scan[n + 1..]), f.scan[..n + 1])
       case Waiting(g) => Tame(g)
       case _ => true)
  }

  /** Two states that will store the same bytes whether the next line is a
      marker or more output. */
  ghost predicate Alike(f: Frame, g: Frame) {
    f == g ||
    (f.phase.Body? && f.cfg == g.cfg && f.phase == g.phase && f.scan == g.scan &&
     StoreHeld(f).stored == StoreHeld(g).stored && FlushFinal(f).stored == FlushFinal(g).stored)
  }

  ghost predicate AlikeSteps(a: Step, b: Step) {
    if a.Waiting? && b.Waiting? then Alike(a.frame, b.frame) else a == b
  }

  lemma ConsumeAlike(f: Frame, g: Frame, raw: seq<Byte>)
    requires Alike(f, g) && raw != []
    ensures AlikeSteps(Consume(f, raw), Consume(g, raw))
  {
    hide Normalize;
  }

  lemma AlikeOnScan(f: Frame, g: Frame, scan: seq<Byte>)
    requires Alike(f, g)
    ensures f.scan == g.scan && f.cfg == g.cfg && Alike(f.(scan := scan), g.(scan := scan))
  {
  }

  lemma BoundAlike(f: Frame, g: Frame)
    requires Alike(f, g)
    ensures AlikeSteps(Bound(f), Bound(g))
  {
  }

  lemma {:induction false} DrainAlike(f: Frame, g: Frame)
    requires Alike(f, g)
    ensures AlikeSteps(Drain(f), Drain(g))
    decreases |f.scan|
  {
    hide Consume, Bound, Alike;
    var n := FindNewline(f.scan);
    AlikeOnScan(f, g, f.scan);
    if n < |f.scan| {
      var f', g', raw := f.(scan := f.scan[n + 1..]), g.(scan := f.scan[n + 1..]), f.scan[..n + 1];
      AlikeOnScan(f, g, f.scan[n + 1..]);
      ConsumeAlike(f', g', raw);
      if Consume(f', raw).Waiting? {
        DrainAlike(Consume(f', raw).frame, Consume(g', raw).frame);
      }
    } else {
      BoundAlike(f, g);
    }
  }

  function Extend(f: Frame, data: seq<Byte>): Frame {
    f.(scan := f.scan + data)
  }

  lemma FindNewlineExtends(b: seq<Byte>, data: seq<Byte>)
    requires NEWLINE in b
    ensures FindNewline(b + data) == FindNewline(b) < |b|
  {
    var n, m := FindNewline(b), FindNewline(b + data);
    assert n < |b| ==> (b + data)[n] == NEWLINE;
  }

  lemma FindNewlineAfter(b: seq<Byte>, cut: nat)
    requires cut <= |b| && forall i :: 0 <= i < cut ==> b[i] != NEWLINE
    ensures FindNewline(b) >= cut && FindNewline(b[cut..]) == FindNewline(b) - cut
  {
    var n, m := FindNewline(b), FindNewline(b[cut..]);
    assert n < |b| ==> b[cut..][n - cut] == NEWLINE;
    assert m < |b| - cut ==> b[m + cut] == NEWLINE;
  }

  /** The only prefix of `b` that ends in no carriage return and leaves only
      carriage returns behind. */
  lemma StripUnique(b: seq<Byte>, p: seq<Byte>)
    requires p <= b && p != [] && p[|p| - 1] != RETURN
    requires forall i :: |p| <= i < |b| ==> b[i] == RETURN
    ensures StripReturns(b) == p
  {
    hide StripReturns;
    var r := StripReturns(b);
    assert p[|p| - 1] == b[|p| - 1];
    assert r != [] ==> r[|r| - 1] == b[|r| - 1];
  }

  lemma StripAfterCut(b: seq<Byte>, cut: nat)
    requires cut <= |b| && StripReturns(b[cut..]) != []
    ensures StripReturns(b) == b[..cut] + StripReturns(b[cut..])
  {
    hide StripReturns;
    var r := StripReturns(b[cut..]);
    forall i | |b[..cut] + r| <= i < |b| ensures b[i] == RETURN {
      assert b[i] == b[cut..][i - cut];
    }
    StripUnique(b, b[..cut] + r);
  }

  /** Cutting the front off a line moves those bytes from the line to the store,
      and nothing else, unless only carriage returns are left of the line. */
  lemma TrimAfterCut(line: seq<Byte>, cut: nat)
    requires cut < |line| && line[|line| - 1] == NEWLINE && TrimLineEnd(line[cut..]) != []
    ensures TrimLineEnd(line) == line[..cut] + TrimLineEnd(line[cut..])
  {
    hide StripReturns;
    var content := line[..|line| - 1];
    var tail := line[cut..];
    assert tail[..|tail| - 1] == content[cut..];
    assert tail[|tail| - 1] == NEWLINE;
    assert content[..cut] == line[..cut];
    StripAfterCut(content, cut);
  }

  lemma OrdinaryConsume(f: Frame, raw: seq<Byte>)
    requires raw != [] && f.phase.Body? && Ordinary(f.cfg, raw)
    ensures Consume(f, raw) == Waiting(f.(stored := f.stored + HeldBytes(f.held), held := Some(raw)))
  {
    hide Normalize;
  }

  /** The state after a line of which the front was already stored is like the
      state after the whole line. */
  lemma AlikeAfterCut(f: Frame, line: seq<Byte>, cut: nat, left: seq<Byte>)
    requires f.phase.Body? && cut < |line| && line[|line| - 1] == NEWLINE
    requires TrimLineEnd(line[cut..]) != []
    ensures var stored := f.stored + HeldBytes(f.held);
            Alike(f.(stored := stored + line[..cut], held := Some(line[cut..]), scan := left),
                  f.(stored := stored, held := Some(line), scan := left))
  {
    hide TrimLineEnd;
    TrimAfterCut(line, cut);
    var stored := f.stored + HeldBytes(f.held);
    StoredParts(stored, line, cut, line[cut..], line);
    StoredParts(stored, line, cut, TrimLineEnd(line[cut..]), TrimLineEnd(line));
  }

  lemma StoredParts(stored: seq<Byte>, line: seq<Byte>, cut: nat, rest: seq<Byte>, whole: seq<Byte>)
    requires cut <= |line| && whole == line[..cut] + rest
    ensures stored + line[..cut] + rest == stored + whole
  {
  }

  lemma DrainStep(f: Frame, line: seq<Byte>, left: seq<Byte>)
    requires f.scan == line + left && line != [] && FindNewline(f.scan) == |line| - 1
    ensures Drain(f) ==
            (match Consume(f.(scan := left), line) case Waiting(g) => Drain(g) case other => other)
  {
    hide Consume;
    assert f.scan[..|line|] == line && f.scan[|line|..] == left;
  }

  lemma BoundCut(f: Frame)
    requires (f.phase.Body? || f.phase.Probing?) && |f.scan| > PARTIAL_LINE_LIMIT
    ensures var cut := |f.scan| - PARTIAL_LINE_LIMIT;
            Bound(f) == Waiting(f.(stored := f.stored + HeldBytes(f.held) + f.scan[..cut], held := None, scan := f.scan[cut..]))
  {
  }

  lemma CutLine(f: Frame, data: seq<Byte>, line: seq<Byte>, left: seq<Byte>)
    requires f.phase.Body? && |f.scan| > PARTIAL_LINE_LIMIT
    requires f.scan + data == line + left && |line| > |f.scan|
    requires FindNewline(line + left) == |line| - 1 && line[|line| - 1] == NEWLINE
    requires SafeToCut(f.cfg, line)
    ensures AlikeSteps(Drain(Extend(Bound(f).frame, data)), Drain(Extend(f, data)))
  {
    hide Normalize, SafeToCut, Consume, Drain, Alike, TrimLineEnd, FlushFinal, Ordinary;
    var cut := |f.scan| - PARTIAL_LINE_LIMIT;
    var g := Bound(f).frame;
    BoundCut(f);
    hide Bound;
    SplitAtCut(f.scan, data, line, left, cut);
    FindNewlineAfter(line + left, cut);
    assert (line + left)[cut..] == line[cut..] + left;
    DrainStep(Extend(f, data), line, left);
    DrainStep(Extend(g, data), line[cut..], left);
    SafeAtCut(f.cfg, line, cut);
    OrdinaryConsume(f.(scan := left), line);
    OrdinaryConsume(g.(scan := left), line[cut..]);
    AlikeAfterCut(f, line, cut, left);
    assert g.stored + HeldBytes(g.held) == f.stored + HeldBytes(f.held) + line[..cut];
    DrainAlike(Consume(g.(scan := left), line[cut..]).frame, Consume(f.(scan := left), line).frame);
  }

  lemma SplitAtCut<T>(a: seq<T>, b: seq<T>, line: seq<T>, left: seq<T>, cut: nat)
    requires a + b == line + left && cut <= |a| <= |line|
    ensures a[cut..] + b == line[cut..] + left && a[..cut] == line[..cut]
  {
    assert (a + b)[cut..] == a[cut..] + b && (line + left)[cut..] == line[cut..] + left;
    assert (a + b)[..cut] == a[..cut] && (line + left)[..cut] == line[..cut];
  }

  lemma TameStep(f: Frame, line: seq<Byte>, left: seq<Byte>)
    requires f.scan == line + left && line != [] && FindNewline(f.scan) == |line| - 1
    ensures Tame(f) <==>
            (|line| - 1 > PARTIAL_LINE_LIMIT ==> f.phase.Body? && SafeToCut(f.cfg, line)) &&
            (Consume(f.(scan := left), line).Waiting? ==> Tame(Consume(f.(scan := left), line).frame))
  {
    hide Consume, SafeToCut;
    assert f.scan[..|line|] == line && f.scan[|line|..] == left;
  }

  lemma TameLine(f: Frame)
    requires Tame(f) && FindNewline(f.scan) < |f.scan|
    ensures var n := FindNewline(f.scan);
            n > PARTIAL_LINE_LIMIT ==> f.phase.Body? && SafeToCut(f.cfg, f.scan[..n + 1])
  {
    hide Tame, SafeToCut, Consume;
    var n := FindNewline(f.scan);
    assert f.scan == f.scan[..n + 1] + f.scan[n + 1..];
    TameStep(f, f.scan[..n + 1], f.scan[n + 1..]);
  }

  /** The one place where a cut happens: an output line grown past the limit. */
  lemma BoundExtends(f: Frame, data: seq<Byte>)
    requires NEWLINE !in f.scan && f.phase.Body? && |f.scan| > PARTIAL_LINE_LIMIT
    requires Tame(Extend(f, data))
    ensures AlikeSteps(Drain(Extend(Bound(f).frame, data)), Drain(Extend(f, data)))
  {
    hide Drain, Consume, Tame, SafeToCut;
    var whole := f.scan + data;
    var n := FindNewline(whole);
    assert n >= |f.scan| by { FindNewlineAfter(whole, |f.scan|); }
    if n < |whole| {
      TameLine(Extend(f, data));
      assert whole == whole[..n + 1] + whole[n + 1..];
      CutLine(f, data, whole[..n + 1], whole[n + 1..]);
    } else {
      BoundTwice(f, data);
      DrainUnfinished(f, data);
    }
  }

  lemma DrainUnfinished(f: Frame, data: seq<Byte>)
    requires FindNewline(f.scan + data) == |f.scan + data|
    requires f.phase.Body? && |f.scan| > PARTIAL_LINE_LIMIT
    ensures Drain(Extend(f, data)) == Bound(Extend(f, data))
    ensures Drain(Extend(Bound(f).frame, data)) == Bound(Extend(Bound(f).frame, data))
  {
    var g := Extend(Bound(f).frame, data);
    assert g.scan == (f.scan + data)[|f.scan| - PARTIAL_LINE_LIMIT..];
    FindNewlineAfter(f.scan + data, |f.scan| - PARTIAL_LINE_LIMIT);
  }

  lemma SafeAtCut(cfg: Config, line: seq<Byte>, cut: nat)
    requires |line| > PARTIAL_LINE_LIMIT + 1 && SafeToCut(cfg, line) && line[|line| - 1] == NEWLINE
    requires cut <= |line| - 1 - PARTIAL_LINE_LIMIT
    ensures Ordinary(cfg, line) && Ordinary(cfg, line[cut..]) && TrimLineEnd(line[cut..]) != []
  {
    hide Normalize, Ordinary, TrimLineEnd;
    assert line[0..] == line;
    var shortest := |line| - 1 - PARTIAL_LINE_LIMIT;
    assert line[cut..][shortest - cut..] == line[shortest..];
    TrimAfterCut(line[cut..], shortest - cut);
  }

  lemma CutTwice<T>(s: seq<T>, d: seq<T>, cut: nat, all: nat)
    requires cut <= |s| && cut <= all <= |s| + |d|
    ensures (s + d)[..all] == s[..cut] + (s[cut..] + d)[..all - cut]
    ensures (s + d)[all..] == (s[cut..] + d)[all - cut..]
  {
  }

  lemma BoundTwice(f: Frame, data: seq<Byte>)
    requires f.phase.Body? && |f.scan| > PARTIAL_LINE_LIMIT
    ensures Bound(Extend(Bound(f).frame, data)) == Bound(Extend(f, data))
  {
    var cut, all := |f.scan| - PARTIAL_LINE_LIMIT, |f.scan| + |data| - PARTIAL_LINE_LIMIT;
    CutTwice(f.scan, data, cut, all);
    var stored, g := StoreHeld(f).stored, Bound(f).frame;
    assert StoreHeld(Extend(g, data)).stored == stored + f.scan[..cut];
    assert stored + (f.scan + data)[..all] == stored + f.scan[..cut] + (f.scan[cut..] + data)[..|data|];
  }

  lemma {:induction false} TamePrefix(f: Frame, data: seq<Byte>)
    requires Tame(Extend(f, data))
    ensures Tame(f)
    decreases |f.scan|
  {
    hide Consume, SafeToCut, Tame;
    var n := FindNewline(f.scan);
    if n < |f.scan| {
      var raw, left := f.scan[..n + 1], f.scan[n + 1..];
      FindNewlineExtends(f.scan, data);
      assert f.scan + data == raw + (left + data) && f.scan == raw + left;
      TameStep(Extend(f, data), raw, left + data);
      TameStep(f, raw, left);
      ConsumeIgnoresScan(f, left, raw);
      ConsumeIgnoresScan(f, left + data, raw);
      if Consume(f, raw).Waiting? {
        TamePrefix(Consume(f, raw).frame.(scan := left), data);
      }
    } else {
      FindNewlineAfter(f.scan + data, |f.scan|);
      TameRest(f, data);
    }
  }

  lemma TameRest(f: Frame, data: seq<Byte>)
    requires Tame(Extend(f, data)) && FindNewline(f.scan) == |f.scan| <= FindNewline(f.scan + data)
    ensures Tame(f)
  {
    if |f.scan| > PARTIAL_LINE_LIMIT {
      TameLineOrRest(Extend(f, data));
    }
    hide Consume, SafeToCut;
  }

  function OnScan(s: Step, scan: seq<Byte>): Step {
    if s.Waiting? then Waiting(s.frame.(scan := scan)) else s
  }

  lemma ConsumeIgnoresScan(f: Frame, scan: seq<Byte>, raw: seq<Byte>)
    requires raw != []
    ensures Consume(f.(scan := scan), raw) == OnScan(Consume(f, raw), scan)
  {
    hide Normalize;
  }

  lemma TameLineOrRest(f: Frame)
    requires Tame(f) && FindNewline(f.scan) > PARTIAL_LINE_LIMIT
    ensures f.phase.Body?
  {
    hide Normalize, SafeToCut, Consume;
    if FindNewline(f.scan) < |f.scan| {
      hide Tame;
      TameLine(f);
    }
  }

  lemma DrainRest(f: Frame)
    requires FindNewline(f.scan) == |f.scan|
    ensures Drain(f) == Bound(f)
  {
    hide Consume, Bound;
  }

  /** Draining a buffer and later the bytes that follow it is like draining both
      at once. */
  lemma {:induction false} DrainExtends(f: Frame, data: seq<Byte>)
    requires Tame(Extend(f, data))
    ensures match Drain(f)
            case Waiting(g) => AlikeSteps(Drain(Extend(g, data)), Drain(Extend(f, data)))
            case other => Drain(Extend(f, data)) == other
    decreases |f.scan|
  {
    hide Consume, Tame, Alike, Bound;
    var n := FindNewline(f.scan);
    if n < |f.scan| {
      FindNewlineExtends(f.scan, data);
      var raw, left := f.scan[..n + 1], f.scan[n + 1..];
      assert f.scan + data == raw + (left + data);
      DrainStep(Extend(f, data), raw, left + data);
      ConsumeIgnoresScan(f, left, raw);
      ConsumeIgnoresScan(f, left + data, raw);
      match Consume(f, raw) {
        case Waiting(g) =>
          TameStep(Extend(f, data), raw, left + data);
          DrainExtends(g.(scan := left), data);
        case other =>
      }
    } else {
      TamePrefix(f, data);
      DrainRestExtends(f, data);
    }
  }

  lemma DrainRestExtends(f: Frame, data: seq<Byte>)
    requires Tame(Extend(f, data)) && Tame(f) && FindNewline(f.scan) == |f.scan|
    ensures Drain(f).Waiting?
    ensures AlikeSteps(Drain(Extend(Drain(f).frame, data)), Drain(Extend(f, data)))
  {
    hide Drain, Tame, Consume;
    DrainRest(f);
    if |f.scan| > PARTIAL_LINE_LIMIT {
      TameLineOrRest(f);
      BoundExtends(f, data);
    }
  }

  lemma FeedAllAppend(f: Frame, chunks: seq<seq<Byte>>, last: seq<Byte>)
    ensures FeedAll(f, chunks + [last]) ==
            (match FeedAll(f, chunks) case Waiting(g) => Feed(g, last) case other => other)
    decreases |chunks|
  {
    hide Feed;
    if chunks == [] {
      assert chunks + [last] == [last];
    } else {
      assert (chunks + [last])[0] == chunks[0] && (chunks + [last])[1..] == chunks[1..] + [last];
      match Feed(f, chunks[0])
      case Waiting(g) => FeedAllAppend(g, chunks[1..], last);
      case other =>
    }
  }

  /** CHUNK INDEPENDENCE. However a tame stream is cut into pieces, the parser
      gives the answer it gives to the whole: the same result or the same protocol
      error, or else a state alike in everything that can still matter. */
  lemma {:induction false} ChunkIndependence(f: Frame, chunks: seq<seq<Byte>>)
    requires Settled(f) && Tame(Extend(f, Flatten(chunks)))
    ensures AlikeSteps(FeedAll(f, chunks), Feed(f, Flatten(chunks)))
    decreases |chunks|
  {
    hide Consume, Normalize, Tame, Bound;
    if chunks == [] {
      assert f.scan + [] == f.scan;
      assert Extend(f, []) == f;
      SettledDrain(f);
    } else {
      var init, last := chunks[..|chunks| - 1], chunks[|chunks| - 1];
      assert chunks == init + [last];
      FlattenAppend(init, [last]);
      assert Flatten([last]) == last + [] == last;
      var head := Flatten(init);
      assert Extend(f, head + last) == Extend(Extend(f, head), last) by {
        assert f.scan + (head + last) == f.scan + head + last;
      }
      TamePrefix(Extend(f, head), last);
      ChunkIndependence(f, init);
      FeedAllAppend(f, init, last);
      ChunkStep(f, init, head, last);
    }
  }

  lemma SettledDrain(f: Frame)
    requires Settled(f)
    ensures Drain(f) == Waiting(f)
  {
    hide Consume;
  }

  lemma ChunkStep(f: Frame, init: seq<seq<Byte>>, head: seq<Byte>, last: seq<Byte>)
    requires Tame(Extend(Extend(f, head), last))
    requires AlikeSteps(FeedAll(f, init), Feed(f, head))
    ensures AlikeSteps(match FeedAll(f, init) case Waiting(g) => Feed(g, last) case other => other,
                       Drain(Extend(Extend(f, head), last)))
  {
    hide Drain, Tame, FeedAll, StoreHeld, FlushFinal;
    DrainExtends(Extend(f, head), last);
    match FeedAll(f, init)
    case Waiting(g) =>
      var w := Drain(Extend(f, head)).frame;
      AlikeOnScan(g, w, g.scan + last);
      DrainAlike(Extend(g, last), Extend(w, last));
    case other =>
  }

  /** No stretch without a newline is longer than `limit`. */
  ghost predicate RunsWithin(b: seq<Byte>, limit: nat) {
    forall i, j :: 0 <= i <= j <= |b| && j - i > limit ==> NEWLINE in b[i..j]
  }

  lemma {:induction false} ShortRunsAreTame(f: Frame)
    requires RunsWithin(f.scan, PARTIAL_LINE_LIMIT)
    ensures Tame(f)
    decreases |f.scan|
  {
    hide Consume, SafeToCut;
    var n := FindNewline(f.scan);
    assert NEWLINE !in f.scan[0..n];
    if n < |f.scan| {
      var left := f.scan[n + 1..];
      forall i, j | 0 <= i <= j <= |left| && j - i > PARTIAL_LINE_LIMIT ensures NEWLINE in left[i..j] {
        assert left[i..j] == f.scan[n + 1 + i..n + 1 + j];
      }
      var next := Consume(f.(scan := left), f.scan[..n + 1]);
      if next.Waiting? { ShortRunsAreTame(next.frame); }
    }
  }

  /** Every stream with runs this short gives one answer however it is cut. */
  ghost predicate CutsDoNotMatter(cfg: Config, limit: nat) {
    forall chunks: seq<seq<Byte>> :: RunsWithin(Flatten(chunks), limit) ==>
      AlikeSteps(FeedAll(Initial(cfg), chunks), Feed(Initial(cfg), Flatten(chunks)))
  }

  /** THE EXACT LIMIT. Streams with newline-free runs of at most `limit` bytes are all
      chunk independent if and only if the limit is 4096 or less. */
  lemma LargestLimit(cfg: Config, limit: nat)
    ensures CutsDoNotMatter(cfg, limit) <==> limit <= 4096
  {
    hide Feed, FeedAll, AlikeSteps, Tame, RunsWithin, Flatten;
    if limit <= PARTIAL_LINE_LIMIT {
      forall chunks: seq<seq<Byte>> | RunsWithin(Flatten(chunks), limit)
        ensures AlikeSteps(FeedAll(Initial(cfg), chunks), Feed(Initial(cfg), Flatten(chunks)))
      {
        ShorterRuns(Flatten(chunks), limit, PARTIAL_LINE_LIMIT);
        assert [] + Flatten(chunks) == Flatten(chunks);
        ShortRunsAreTame(Extend(Initial(cfg), Flatten(chunks)));
        ChunkIndependence(Initial(cfg), chunks);
      }
    } else {
      var chunks := [OverlongLine(), [NEWLINE]];
      OverlongRuns(limit);
      OverlongCut(cfg);
      OverlongWhole(cfg);
      OverlongDiffers(cfg);
    }
  }

  lemma ShorterRuns(b: seq<Byte>, limit: nat, more: nat)
    requires RunsWithin(b, limit) && limit <= more
    ensures RunsWithin(b, more)
  {
  }

  /** One byte more than the parser keeps of an unfinished line. */
  function OverlongLine(): (line: seq<Byte>)
    ensures |line| == PARTIAL_LINE_LIMIT + 1 && forall i :: 0 <= i < |line| ==> line[i] == 120
  {
    seq(PARTIAL_LINE_LIMIT + 1, i => 120)
  }

  lemma OverlongRuns(limit: nat)
    requires limit > PARTIAL_LINE_LIMIT
    ensures Flatten([OverlongLine(), [NEWLINE]]) == OverlongLine() + [NEWLINE]
    ensures RunsWithin(Flatten([OverlongLine(), [NEWLINE]]), limit)
  {
    hide OverlongLine;
    var chunks, b := [OverlongLine(), [NEWLINE]], OverlongLine() + [NEWLINE];
    assert chunks[1..] == [[NEWLINE]] && Flatten(chunks[1..][1..]) == [] && [NEWLINE] + [] == [NEWLINE];
    assert Flatten(chunks) == b;
    forall i, j | 0 <= i <= j <= |b| && j - i > limit ensures NEWLINE in b[i..j] {
      assert j == |b| && b[i..j][j - i - 1] == NEWLINE;
    }
  }

  /** Cut before its newline, the line is too long to be anything before the frame. */
  lemma OverlongCut(cfg: Config)
    ensures FeedAll(Initial(cfg), [OverlongLine(), [NEWLINE]]) == Failed(LineTooLong)
  {
    hide Consume, FindNewline, Drain, OverlongLine;
    var line := OverlongLine();
    assert [] + line == line;
    DrainRest(Initial(cfg).(scan := line));
    assert Feed(Initial(cfg), line) == Failed(LineTooLong);
  }

  /** Fed whole, it is a line like any other. */
  lemma OverlongWhole(cfg: Config)
    ensures Feed(Initial(cfg), OverlongLine() + [NEWLINE]) != Failed(LineTooLong)
  {
    hide Normalize, FindNewline, OverlongLine;
    var whole := OverlongLine() + [NEWLINE];
    FindNewlineAt(whole, |whole| - 1);
    assert [] + whole == whole == whole + [];
    hide Drain;
    DrainStep(Initial(cfg).(scan := whole), whole, []);
    SettledDrain(Initial(cfg));
  }

  lemma OverlongDiffers(cfg: Config)
    ensures var chunks := [OverlongLine(), [NEWLINE]];
      !AlikeSteps(FeedAll(Initial(cfg), chunks), Feed(Initial(cfg), Flatten(chunks)))
  {
    hide Feed, FeedAll, OverlongLine;
    OverlongRuns(PARTIAL_LINE_LIMIT + 1);
    OverlongCut(cfg);
    OverlongWhole(cfg);
  }

  /** A line of the DEBUG probe that is one byte and then more carriage returns
      than the parser keeps of an unfinished line. */
  function LongProbeLine(): (line: seq<Byte>)
    ensures |line| == PARTIAL_LINE_LIMIT + 1 && line[0] == 120
    ensures forall i :: 1 <= i < |line| ==> line[i] == RETURN
  {
    [120] + seq(PARTIAL_LINE_LIMIT, i => RETURN)
  }

  lemma FindNewlineAt(b: seq<Byte>, n: nat)
    requires n < |b| && b[n] == NEWLINE && forall i :: 0 <= i < n ==> b[i] != NEWLINE
    ensures FindNewline(b) == n
  {
    hide FindNewline;
  }

  /** Outside tame streams the pieces matter: a probe line that makes the whole
      stream a protocol error passes for a blank line, and its first byte for
      output, when its newline arrives in a later piece. */
  lemma ChunkingMatters(f: Frame)
    requires f.phase.Probing? && f.scan == [] && f.held == None
    ensures Feed(f, LongProbeLine() + [NEWLINE]) == Failed(DebugTrapChanged)
    ensures FeedAll(f, [LongProbeLine(), [NEWLINE]]) == Waiting(f.(stored := f.stored + [120]))
    ensures !Tame(Extend(f, LongProbeLine() + [NEWLINE]))
  {
    hide LongProbeLine, FeedAll;
    LongLineWhole(f, LongProbeLine() + [NEWLINE]);
    LongLineCut(f);
    LongLineTail(f.(stored := f.stored + [120]));
    hide Drain, Tame, Consume;
    var line := LongProbeLine();
    assert f.scan + line == line;
    FeedTwo(f, line, [NEWLINE]);
  }

  lemma FeedTwo(f: Frame, a: seq<Byte>, b: seq<Byte>)
    requires Feed(f, a).Waiting? && Feed(Feed(f, a).frame, b).Waiting?
    ensures FeedAll(f, [a, b]) == Feed(Feed(f, a).frame, b)
  {
    hide Feed;
    var chunks := [a, b];
    assert chunks[1..] == [b] && [b][1..] == [];
    assert FeedAll(Feed(f, a).frame, [b]) == Feed(Feed(f, a).frame, b);
  }

  lemma LongLineWhole(f: Frame, whole: seq<Byte>)
    requires f.phase.Probing? && f.scan == [] && whole == LongProbeLine() + [NEWLINE]
    ensures Feed(f, whole) == Failed(DebugTrapChanged) && !Tame(Extend(f, whole))
  {
    hide LongProbeLine, FindNewline;
    LongLineTexts();
    FindNewlineAt(whole, |whole| - 1);
    assert f.scan + whole == whole + [] == whole;
    hide Normalize, Drain, Tame, SafeToCut;
    DrainStep(Extend(f, whole), whole, []);
    TameStep(Extend(f, whole), whole, []);
  }

  lemma LongLineTail(f: Frame)
    requires f.phase.Probing? && f.scan == []
    ensures Feed(f.(scan := LongProbeLine()[1..]), [NEWLINE]) == Waiting(f)
  {
    hide LongProbeLine, FindNewline;
    LongLineTexts();
    var tail := LongProbeLine()[1..] + [NEWLINE];
    FindNewlineAt(tail, |tail| - 1);
    assert tail == tail + [];
    hide Normalize, Drain;
    DrainStep(f.(scan := tail), tail, []);
    assert f.(scan := []) == f;
    SettledDrain(f);
  }

  lemma LongLineCut(f: Frame)
    requires f.phase.Probing? && f.held == None
    ensures Drain(f.(scan := LongProbeLine())) ==
            Waiting(f.(stored := f.stored + [120], scan := LongProbeLine()[1..]))
  {
    hide Consume, LongProbeLine, FindNewline, Drain;
    var line := LongProbeLine();
    DrainRest(f.(scan := line));
    assert line[..1] == [120];
    assert f.stored + HeldBytes(None) == f.stored;
  }

  lemma LongLineTexts()
    ensures Normalize(LongProbeLine() + [NEWLINE]) == "x"
    ensures Normalize(LongProbeLine()[1..] + [NEWLINE]) == ""
  {
    hide StripReturns, LongProbeLine;
    var line := LongProbeLine();
    assert (line + [NEWLINE])[..|line|] == line;
    assert (line[1..] + [NEWLINE])[..|line| - 1] == line[1..];
    StripUnique(line, [120]);
    assert StripReturns(line[1..]) == [];
    assert Utf8.DecodeReplacing([120]) == "x" by {
      assert AsciiBytes("x") + [] == [120];
      Utf8.DecodeAsciiPrefix("x", []);
    }
    Ansi.StripPlain("x");
  }
}
