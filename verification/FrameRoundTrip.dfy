/** The transcript the command wrapper prints, and its way back through the
    parser. */
module FrameRoundTrip {
  import opened Common
  import opened Bytes
  import opened FrameSpec
  import opened FrameChunks
  import opened FrameTranscript
  import opened FrameSoundness
  import opened FrameCompleteness
  import Ansi
  import Decimal
  import Utf8

  /** A line end as it arrives: every terminal on the way adds a carriage return. */
  function LineEnd(terminals: nat): (b: seq<Byte>)
    ensures |b| == terminals + 1 && IsLine(b)
  {
    seq(terminals, i => 13) + [10]
  }

  predicate NoTrailingReturn(b: seq<Byte>) {
    b == [] || b[|b| - 1] != RETURN
  }

  /** The lines of a byte string, the last one perhaps unfinished. */
  function Lines(b: seq<Byte>): seq<seq<Byte>> {
    var n := FindNewline(b);
    if b == [] then [] else if n == |b| then [b] else [b[..n + 1]] + Lines(b[n + 1..])
  }

  lemma LinesFirst(b: seq<Byte>, n: nat)
    requires FindNewline(b) == n < |b|
    ensures Lines(b) == [b[..n + 1]] + Lines(b[n + 1..])
  {
    hide FindNewline;
  }

  lemma FlattenCons<T>(first: seq<T>, rest: seq<seq<T>>)
    ensures Flatten([first] + rest) == first + Flatten(rest)
  {
    assert ([first] + rest)[1..] == rest;
  }

  lemma {:induction false} LinesJoin(b: seq<Byte>)
    ensures Flatten(Lines(b)) == b
    ensures b != [] ==> Lines(b) != []
  {
    var n := FindNewline(b);
    if b == [] {
    } else if n == |b| {
      FlattenCons(b, []);
      assert [b] + [] == [b];
    } else {
      LinesJoin(b[n + 1..]);
      LinesFirst(b, n);
      hide Lines, Flatten, FindNewline;
      FlattenCons(b[..n + 1], Lines(b[n + 1..]));
    }
  }

  lemma {:induction false} LinesAreLines(b: seq<Byte>)
    requires b == [] || b[|b| - 1] == NEWLINE
    ensures forall p <- Lines(b) :: IsLine(p)
  {
    var n := FindNewline(b);
    if b != [] {
      assert IsLine(b[..n + 1]);
      LinesAreLines(b[n + 1..]);
    }
  }

  lemma OneLastLine(b: seq<Byte>, k: nat)
    requires NEWLINE !in b
    ensures Lines(b + LineEnd(k)) == [b + LineEnd(k)]
  {
    var whole := b + LineEnd(k);
    FindNewlineAt(whole, |b| + k);
    assert whole[..|b| + k + 1] == whole && whole[|b| + k + 1..] == [];
  }

  /** The last line of `b` and its line end is some end of `b`, and that line end. */
  lemma {:induction false} LastLine(b: seq<Byte>, k: nat) returns (tail: nat)
    ensures tail <= |b| && Lines(b + LineEnd(k)) != []
    ensures var lines := Lines(b + LineEnd(k)); lines[|lines| - 1] == b[tail..] + LineEnd(k)
  {
    hide Lines, LineEnd;
    var n := FindNewline(b);
    if n < |b| {
      hide FindNewline;
      FindNewlineExtends(b, LineEnd(k));
      LinesFirst(b + LineEnd(k), n);
      assert (b + LineEnd(k))[n + 1..] == b[n + 1..] + LineEnd(k);
      tail := LastLine(b[n + 1..], k);
      assert b[n + 1..][tail..] == b[n + 1 + tail..];
      tail := n + 1 + tail;
    } else {
      OneLastLine(b, k);
      tail := 0;
      assert b[0..] == b;
    }
  }

  lemma OnlyReturns(b: seq<Byte>)
    requires forall i :: 0 <= i < |b| ==> b[i] == RETURN
    ensures StripReturns(b) == []
  {
    hide StripReturns;
    assert StripReturns(b) == b[..|StripReturns(b)|];
  }

  lemma CancelRight<T>(a: seq<T>, b: seq<T>, c: seq<T>)
    requires a + c == b + c
    ensures a == b
  {
    assert |a| == |b| && a == (a + c)[..|a|] && b == (b + c)[..|b|];
  }

  lemma TrimEnd(b: seq<Byte>, k: nat)
    requires NoTrailingReturn(b)
    ensures TrimLineEnd(b + LineEnd(k)) == b
    ensures Normalize(b + LineEnd(k)) == Ansi.Strip(Utf8.DecodeReplacing(b))
  {
    hide StripReturns, Utf8.DecodeReplacing, Ansi.Strip;
    var line := b + LineEnd(k);
    var content := b + seq(k, i => RETURN);
    assert line[..|line| - 1] == content;
    if b != [] {
      StripUnique(content, b);
    } else {
      OnlyReturns(content);
    }
  }

  lemma KeptParts(init: seq<seq<Byte>>, last: seq<Byte>, front: seq<Byte>)
    requires Flatten(init + [last]) == front + last
    ensures Kept(init + [last]) == front + TrimLineEnd(last)
  {
    hide TrimLineEnd, Flatten, Kept;
    KeptSnoc(init, last);
    FlattenSnoc(init, last);
    CancelRight(Flatten(init), front, last);
  }

  /** Printed with its line end, output comes back exactly. */
  lemma KeptOutput(b: seq<Byte>, k: nat)
    requires NoTrailingReturn(b)
    ensures Kept(Lines(b + LineEnd(k))) == b
  {
    hide Lines, TrimLineEnd, Flatten, LineEnd, Kept;
    var lines := Lines(b + LineEnd(k));
    var tail := LastLine(b, k);
    LinesJoin(b + LineEnd(k));
    var last := lines[|lines| - 1];
    assert lines == lines[..|lines| - 1] + [last];
    TrimEnd(b[tail..], k);
    assert b[..tail] + b[tail..] == b;
    assert b[..tail] + last == b + LineEnd(k);
    KeptParts(lines[..|lines| - 1], last, b[..tail]);
  }

  /** The tokens that sessions make, hexadecimal digits in capitals, are valid. */
  lemma HexIsToken(token: string)
    requires token != "" && forall i :: 0 <= i < |token| ==> '0' <= token[i] <= '9' || 'A' <= token[i] <= 'F'
    ensures ValidToken(token)
  {
  }

  predicate Printable(s: string) {
    forall i :: 0 <= i < |s| ==> ' ' <= s[i] <= '~'
  }

  lemma PrintableIsPlain(s: string)
    requires Printable(s)
    ensures IsAscii(s) && ESCAPE !in s && NEWLINE !in AsciiBytes(s) && RETURN !in AsciiBytes(s)
  {
  }

  /** A printed text and its line end. */
  function Marker(s: string, terminals: nat): seq<Byte> {
    Utf8.Encode(s) + LineEnd(terminals)
  }

  /** A marker line is read as the text that was printed. */
  lemma MarkerLine(s: string, k: nat)
    requires Printable(s)
    ensures IsLine(Marker(s, k)) && Normalize(Marker(s, k)) == s
  {
    PrefixedLine(s, [], k);
    assert Utf8.Encode(s) + [] == Utf8.Encode(s) && s + "" == s;
  }

  /** A line that starts with printable text, whatever bytes follow. */
  lemma PrefixedLine(s: string, b: seq<Byte>, k: nat)
    requires Printable(s) && NoTrailingReturn(b) && NEWLINE !in b
    ensures IsLine(Utf8.Encode(s) + b + LineEnd(k))
    ensures Normalize(Utf8.Encode(s) + b + LineEnd(k)) == s + Ansi.Strip(Utf8.DecodeReplacing(b))
  {
    hide Normalize, Utf8.DecodeReplacing, Ansi.Strip, Printable, Utf8.Encode;
    PrintableIsPlain(s);
    Utf8.DecodeAsciiPrefix(s, b);
    var all := Utf8.Encode(s) + b;
    assert NoTrailingReturn(all) && NEWLINE !in all;
    PlainLine(all, k);
    TrimEnd(all, k);
    Ansi.StripPlainPrefix(s, Utf8.DecodeReplacing(b));
  }

  lemma PlainLine(b: seq<Byte>, k: nat)
    requires NEWLINE !in b
    ensures IsLine(b + LineEnd(k))
  {
  }

  lemma PrintableJoin(a: string, b: string, c: string)
    requires Printable(a) && Printable(b) && Printable(c)
    ensures Printable(a + b + c)
  {
  }

  lemma MarkersPrintable(cfg: Config)
    requires cfg.Valid()
    ensures Printable(cfg.Begin()) && Printable(cfg.Probe()) && Printable(cfg.ProbeEnd())
  {
    AlnumPrintable(cfg.token);
    LiteralsPrintable();
    hide Printable;
    PrintableJoin("__SERVEROPS_BEGIN_", cfg.token, "__");
    PrintableJoin("__SERVEROPS_DEBUG_", cfg.token, "__");
    PrintableJoin("__SERVEROPS_DEBUG_END_", cfg.token, "__");
  }

  lemma PrefixesPrintable(cfg: Config, code: int)
    requires cfg.Valid()
    ensures Printable(cfg.CwdPrefix()) && Printable(cfg.EndPrefix() + Decimal.Print(code))
  {
    AlnumPrintable(cfg.token);
    LiteralsPrintable();
    PrintedPrintable(code);
    hide Printable, Decimal.Print;
    PrintableJoin("__SERVEROPS_CWD_", cfg.token, "__:");
    PrintableJoin("__SERVEROPS_END_", cfg.token, "__:");
    PrintableJoin(cfg.EndPrefix(), Decimal.Print(code), "");
    assert cfg.EndPrefix() + Decimal.Print(code) + "" == cfg.EndPrefix() + Decimal.Print(code);
  }

  lemma HealthPrintable(cfg: Config)
    requires cfg.Valid() && cfg.nonce.Some?
    ensures Printable(cfg.Health())
  {
    AlnumPrintable(cfg.token);
    AlnumPrintable(cfg.nonce.value);
    LiteralsPrintable();
    hide Printable;
    PrintableJoin("__SERVEROPS_HEALTH_", cfg.token, "__:");
    PrintableJoin("__SERVEROPS_HEALTH_" + cfg.token + "__:", cfg.nonce.value, "");
    assert cfg.Health() + "" == cfg.Health();
  }

  lemma LiteralsPrintable()
    ensures Printable("__SERVEROPS_BEGIN_") && Printable("__SERVEROPS_DEBUG_") && Printable("__SERVEROPS_DEBUG_END_")
    ensures Printable("__SERVEROPS_CWD_") && Printable("__SERVEROPS_END_") && Printable("__SERVEROPS_HEALTH_")
    ensures Printable("__") && Printable("__:") && Printable("")
  {
  }

  lemma AlnumPrintable(t: string)
    requires ValidToken(t)
    ensures Printable(t)
  {
    assert forall c <- t :: IsAlnum(c);
  }

  lemma PrintedPrintable(code: int)
    ensures Printable(Decimal.Print(code))
  {
    var d := Decimal.Digits(if code < 0 then -code else code);
    assert forall c <- d :: Decimal.IsDigit(c);
    assert forall c <- Decimal.Print(code) :: c == '-' || Decimal.IsDigit(c);
  }

  /** What arrives of a wrapped command: what was there before, the begin line,
      the command's output, the DEBUG probe of a shell that set no trap, and the
      exit, directory and health lines, in the order of the wrapper's prints. */
  function WrapperOutput(cfg: Config, k: nat, noise: seq<Byte>, out: seq<Byte>, code: int, cwd: seq<Byte>): seq<Byte> {
    noise + LineEnd(k) + Marker("__SERVEROPS_BEGIN_" + cfg.token + "__", k) +
    out +
    (if cfg.nonce.Some? then
       LineEnd(k) + Marker("__SERVEROPS_DEBUG_" + cfg.token + "__", k) + Marker("__SERVEROPS_DEBUG_END_" + cfg.token + "__", k)
     else []) +
    LineEnd(k) + Marker("__SERVEROPS_END_" + cfg.token + "__:" + Decimal.Print(code), k) +
    Utf8.Encode("__SERVEROPS_CWD_" + cfg.token + "__:") + cwd + LineEnd(k) +
    (if cfg.nonce.Some? then Marker("__SERVEROPS_HEALTH_" + cfg.token + "__:" + cfg.nonce.value, k) else [])
  }

  /** The lines that the parser waits for are those that the wrapper prints. */
  lemma MarkersMeet(cfg: Config)
    ensures cfg.Begin() == "__SERVEROPS_BEGIN_" + cfg.token + "__" && cfg.EndPrefix() == "__SERVEROPS_END_" + cfg.token + "__:"
    ensures cfg.Probe() == "__SERVEROPS_DEBUG_" + cfg.token + "__" && cfg.ProbeEnd() == "__SERVEROPS_DEBUG_END_" + cfg.token + "__"
    ensures cfg.CwdPrefix() == "__SERVEROPS_CWD_" + cfg.token + "__:"
    ensures cfg.nonce.Some? ==> cfg.Health() == "__SERVEROPS_HEALTH_" + cfg.token + "__:" + cfg.nonce.value
  {
  }

  lemma WrapperMarkers(cfg: Config, k: nat, noise: seq<Byte>, out: seq<Byte>, code: int, cwd: seq<Byte>)
    ensures WrapperOutput(cfg, k, noise, out, code, cwd) ==
      noise + LineEnd(k) + Marker(cfg.Begin(), k) +
      out +
      (if cfg.nonce.Some? then LineEnd(k) + Marker(cfg.Probe(), k) + Marker(cfg.ProbeEnd(), k) else []) +
      LineEnd(k) + Marker(cfg.EndPrefix() + Decimal.Print(code), k) +
      Utf8.Encode(cfg.CwdPrefix()) + cwd + LineEnd(k) +
      (if cfg.nonce.Some? then Marker(cfg.Health(), k) else [])
  {
    hide Marker, LineEnd, Utf8.Encode, Decimal.Print;
    MarkersMeet(cfg);
  }

  /** The transcript of that stream. */
  function Printed(cfg: Config, k: nat, noise: seq<Byte>, out: seq<Byte>, code: int, cwd: seq<Byte>): Transcript {
    var lines := Lines(out + LineEnd(k));
    Transcript(
      Lines(noise + LineEnd(k)),
      Marker(cfg.Begin(), k),
      if cfg.nonce.Some? then [Round(lines, Marker(cfg.Probe(), k), [], Marker(cfg.ProbeEnd(), k))] else [],
      if cfg.nonce.Some? then [LineEnd(k)] else lines,
      Marker(cfg.EndPrefix() + Decimal.Print(code), k),
      Utf8.Encode(cfg.CwdPrefix()) + cwd + LineEnd(k),
      if cfg.nonce.Some? then Marker(cfg.Health(), k) else [])
  }

  lemma OneRound(r: Round)
    ensures RoundsBytes([r]) == r.Bytes() && RoundsOutput([r]) == Kept(r.output) + Leaked(r.inside)
    ensures RoundsBytes([]) == [] && RoundsOutput([]) == []
  {
    RoundsSnoc([], r);
    assert [] + [r] == [r];
    hide Round.Bytes, Kept, Leaked;
    assert [] + r.Bytes() == r.Bytes() && [] + Kept(r.output) == Kept(r.output);
  }

  lemma OnePiece(p: seq<Byte>)
    ensures Flatten([p]) == p && Kept([p]) == TrimLineEnd(p)
  {
    hide TrimLineEnd;
    KeptFirst([p]);
    assert Flatten([p]) == p + Flatten([p][1..]);
  }

  lemma PrintedBytes(cfg: Config, k: nat, noise: seq<Byte>, out: seq<Byte>, code: int, cwd: seq<Byte>)
    ensures Printed(cfg, k, noise, out, code, cwd).Bytes() == WrapperOutput(cfg, k, noise, out, code, cwd)
  {
    hide WrapperOutput, Lines, Flatten, Marker, LineEnd, Utf8.Encode, RoundsBytes, Decimal.Print, Config.Begin, Config.Probe,
      Config.ProbeEnd, Config.EndPrefix, Config.CwdPrefix, Config.Health, RoundsOutput, Kept, Leaked, TrimLineEnd;
    WrapperMarkers(cfg, k, noise, out, code, cwd);
    LinesJoin(noise + LineEnd(k));
    LinesJoin(out + LineEnd(k));
    OnePiece(LineEnd(k));
    var front, le := noise + LineEnd(k) + Marker(cfg.Begin(), k), LineEnd(k);
    var end, prefix := Marker(cfg.EndPrefix() + Decimal.Print(code), k), Utf8.Encode(cfg.CwdPrefix());
    if cfg.nonce.Some? {
      ProbedBytes(cfg, k, out);
      var probe := le + Marker(cfg.Probe(), k) + Marker(cfg.ProbeEnd(), k);
      assert out + le + Marker(cfg.Probe(), k) + Marker(cfg.ProbeEnd(), k) == out + probe;
      Regrouped(front, out + probe, le, end, prefix, cwd, le, Marker(cfg.Health(), k));
      assert front + (out + probe) == front + out + probe;
    } else {
      OneRound(Round([], [], [], []));
      Regrouped(front, [], out + le, end, prefix, cwd, le, []);
      assert front + [] + (out + le) == front + out + [] + le;
    }
  }

  lemma Regrouped(front: seq<Byte>, rounds: seq<Byte>, out: seq<Byte>, end: seq<Byte>, prefix: seq<Byte>, cwd: seq<Byte>,
                  le: seq<Byte>, health: seq<Byte>)
    ensures front + rounds + out + end + (prefix + cwd + le) + health == front + rounds + out + end + prefix + cwd + le + health
  {
    var a := front + rounds + out + end;
    assert a + (prefix + cwd + le) == a + prefix + cwd + le;
  }

  lemma ProbedBytes(cfg: Config, k: nat, out: seq<Byte>)
    ensures RoundsBytes([Round(Lines(out + LineEnd(k)), Marker(cfg.Probe(), k), [], Marker(cfg.ProbeEnd(), k))])
      == out + LineEnd(k) + Marker(cfg.Probe(), k) + Marker(cfg.ProbeEnd(), k)
  {
    hide Lines, Flatten, Marker, LineEnd, RoundsBytes, RoundsOutput, Kept, Leaked, Config.Probe, Config.ProbeEnd;
    LinesJoin(out + LineEnd(k));
    NothingKept();
    OneRound(Round(Lines(out + LineEnd(k)), Marker(cfg.Probe(), k), [], Marker(cfg.ProbeEnd(), k)));
  }

  /** The lines of the noise do not look like the begin line, and those of the
      output like no marker; the last line of each is finished by the wrapper. */
  ghost predicate Unmarked(cfg: Config, k: nat, noise: seq<Byte>, out: seq<Byte>) {
    (forall p <- Lines(noise + LineEnd(k)) :: IsNoise(cfg, p)) &&
    (forall p <- Lines(out + LineEnd(k)) :: IsLine(p) && Ordinary(cfg, p))
  }

  lemma MarkerPrefix(s: string, rest: string)
    ensures s <= s + rest && (s + rest)[|s|..] == rest
  {
  }

  lemma PrintedTail(cfg: Config, k: nat, noise: seq<Byte>, out: seq<Byte>, code: int, cwd: seq<Byte>)
    requires cfg.Valid() && NoTrailingReturn(cwd) && NEWLINE !in cwd
    ensures var t := Printed(cfg, k, noise, out, code, cwd);
            t.ExitCode(cfg) == Some(code) && t.HasCwd(cfg) &&
            Normalize(t.cwd)[|cfg.CwdPrefix()|..] == Ansi.Strip(Utf8.DecodeReplacing(cwd))
  {
    hide Normalize, Utf8.DecodeReplacing, Ansi.Strip, Printable, Utf8.Encode, Decimal.Parse, Decimal.Print, LineEnd,
      IsLine,
      Config.EndPrefix, Config.CwdPrefix, Marker, Lines;
    PrefixesPrintable(cfg, code);
    MarkerLine(cfg.EndPrefix() + Decimal.Print(code), k);
    MarkerPrefix(cfg.EndPrefix(), Decimal.Print(code));
    Decimal.ParsePrint(code);
    PrefixedLine(cfg.CwdPrefix(), cwd, k);
    MarkerPrefix(cfg.CwdPrefix(), Ansi.Strip(Utf8.DecodeReplacing(cwd)));
  }

  lemma BlankLine(cfg: Config, k: nat)
    ensures IsLine(LineEnd(k)) && Ordinary(cfg, LineEnd(k)) && TrimLineEnd(LineEnd(k)) == []
  {
    TrimEnd([], k);
    assert [] + LineEnd(k) == LineEnd(k);
    assert Ansi.Strip(Utf8.DecodeReplacing([])) == "";
    hide Normalize;
  }

  lemma PrintedOutput(cfg: Config, k: nat, noise: seq<Byte>, out: seq<Byte>, code: int, cwd: seq<Byte>)
    requires NoTrailingReturn(out)
    ensures Printed(cfg, k, noise, out, code, cwd).Output() == out
  {
    hide Lines, LineEnd, Marker, TrimLineEnd, Flatten, Utf8.Encode, RoundsBytes, Decimal.Print, RoundsOutput, Kept,
      Leaked,
      NoTrailingReturn, Ordinary, IsLine;
    var t := Printed(cfg, k, noise, out, code, cwd);
    KeptOutput(out, k);
    NothingKept();
    OnePiece(LineEnd(k));
    BlankLine(cfg, k);
    if cfg.nonce.Some? {
      OneRound(t.rounds[0]);
      assert t.rounds == [t.rounds[0]];
    } else {
      OneRound(Round([], [], [], []));
    }
  }

  lemma PrintedValid(cfg: Config, k: nat, noise: seq<Byte>, out: seq<Byte>, code: int, cwd: seq<Byte>)
    requires cfg.Valid() && Unmarked(cfg, k, noise, out) && NoTrailingReturn(cwd) && NEWLINE !in cwd
    ensures var t := Printed(cfg, k, noise, out, code, cwd); t.Valid(cfg) && t.Plain()
  {
    hide Normalize, Printable, Lines, LineEnd, Marker, IsLine, Ordinary, Decimal.Print, Config.Begin, Config.Probe,
      Config.ProbeEnd, Config.EndPrefix, Config.CwdPrefix, Config.Health, Transcript.ExitCode, Transcript.HasCwd, Utf8.Encode;
    MarkersPrintable(cfg);
    MarkerLine(cfg.Begin(), k);
    MarkerLine(cfg.Probe(), k);
    MarkerLine(cfg.ProbeEnd(), k);
    BlankLine(cfg, k);
    PrintedTail(cfg, k, noise, out, code, cwd);
    if cfg.nonce.Some? {
      HealthPrintable(cfg);
      MarkerLine(cfg.Health(), k);
    }
  }

  /** FRAME ROUND TRIP. The stream a wrapped command prints, with any noise before
      it and anything after it, gives back the last bytes of the output, the exit
      status and the directory, exactly. */
  lemma FrameRoundTrip(cfg: Config, k: nat, noise: seq<Byte>, out: seq<Byte>, code: int, cwd: seq<Byte>, rest: seq<Byte>)
    requires cfg.Valid() && Unmarked(cfg, k, noise, out) && NoTrailingReturn(out)
    requires NoTrailingReturn(cwd) && NEWLINE !in cwd
    ensures Feed(Initial(cfg), WrapperOutput(cfg, k, noise, out, code, cwd) + rest) ==
            Completed(CommandResult(Present(Last(out, cfg.limit)), code,
                                    Ansi.Strip(Utf8.DecodeReplacing(cwd)), |out| > cfg.limit))
    ensures GentleTranscript(cfg, Printed(cfg, k, noise, out, code, cwd)) ==>
            Tame(Extend(Initial(cfg), WrapperOutput(cfg, k, noise, out, code, cwd) + rest))
  {
    hide Feed, Tame, Extend, Normalize, Printed, WrapperOutput, Present, Ansi.Strip, Utf8.DecodeReplacing,
      GentleTranscript,
      Transcript.Valid, Transcript.Plain, Transcript.Bytes, Transcript.Output, Transcript.ExitCode;
    var t := Printed(cfg, k, noise, out, code, cwd);
    PrintedValid(cfg, k, noise, out, code, cwd);
    PrintedBytes(cfg, k, noise, out, code, cwd);
    PrintedOutput(cfg, k, noise, out, code, cwd);
    PrintedTail(cfg, k, noise, out, code, cwd);
    TranscriptCompletes(cfg, t, rest);
  }

  /** The same however the stream is cut, as long as overlong lines occur only in
      the output and have no tail that looks like a marker. */
  lemma PiecewiseRoundTrip(cfg: Config, k: nat, noise: seq<Byte>, out: seq<Byte>, code: int, cwd: seq<Byte>,
                           rest: seq<Byte>, chunks: seq<seq<Byte>>)
    requires cfg.Valid() && Unmarked(cfg, k, noise, out) && NoTrailingReturn(out)
    requires NoTrailingReturn(cwd) && NEWLINE !in cwd
    requires GentleTranscript(cfg, Printed(cfg, k, noise, out, code, cwd))
    requires Flatten(chunks) == WrapperOutput(cfg, k, noise, out, code, cwd) + rest
    ensures FeedAll(Initial(cfg), chunks) ==
            Completed(CommandResult(Present(Last(out, cfg.limit)), code,
                                    Ansi.Strip(Utf8.DecodeReplacing(cwd)), |out| > cfg.limit))
  {
    hide Feed, Tame, Extend, FeedAll, Printed, WrapperOutput, Present, Ansi.Strip, Utf8.DecodeReplacing,
      GentleTranscript,
      Unmarked;
    FrameRoundTrip(cfg, k, noise, out, code, cwd, rest);
    ChunkIndependence(Initial(cfg), chunks);
  }
}
