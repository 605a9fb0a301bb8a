/** From a remote script's rows to the caller: through the terminals' line ends, the
    command frame, the session's reads, and the answer's parser. */
module RemoteCommand {
  import opened Common
  import opened Bytes
  import opened FrameSpec
  import opened FrameCompleteness
  import opened FrameRoundTrip
  import opened Terminal
  import opened SessionSpec
  import Ansi
  import Base64
  import Utf8
  import Wire

  /** What arrives is the wrapper's frame around `out`, with `k` terminals on the way,
      whatever came before and after, and nothing in it looks like a marker. */
  ghost predicate Arrives(cfg: Config, k: nat, noise: seq<Byte>, out: seq<Byte>, code: int, cwd: seq<Byte>, rest: seq<Byte>,
                          pieces: seq<seq<Byte>>) {
    && Unmarked(cfg, k, noise, out) && NoTrailingReturn(out) && NoTrailingReturn(cwd) && NEWLINE !in cwd
    && GentleTranscript(cfg, Printed(cfg, k, noise, out, code, cwd))
    && Flatten(pieces) == WrapperOutput(cfg, k, noise, out, code, cwd) + rest
  }

  /** A finished call on a shell that printed its frame returns exactly what the
      command wrote, however the terminal cut it into reads. */
  lemma FinishedCall(setup: Setup, command: string, timeout: int, allowSudo: bool, sudo: Option<string>, token: Token,
                     calm: Calm, before: Session, polled: Session, after: Session, o: Outcome,
                     k: nat, noise: seq<Byte>, out: seq<Byte>, code: int, cwd: seq<Byte>, rest: seq<Byte>)
    requires setup.limit >= 1 && o.Finished?
    requires Executed(setup, command, timeout, allowSudo, sudo, token, calm, before, polled, after, o)
    requires Grows(before, after)
    requires Arrives(FrameOf(setup, token, setup.limit), k, noise, out, code, cwd, rest, Reads(before, after))
    ensures o.result == CommandResult(Present(Last(out, setup.limit)), code, Ansi.Strip(Utf8.DecodeReplacing(cwd)), |out| > setup.limit)
  {
    hide FeedAll, Unmarked, GentleTranscript, Printed, WrapperOutput, Present, Flatten, Ansi.Strip,
      Utf8.DecodeReplacing, Last;
    PiecewiseRoundTrip(FrameOf(setup, token, setup.limit), k, noise, out, code, cwd, rest, Reads(before, after));
  }

  // Line ends

  predicate PlainChar(c: char) {
    c == '\n' || c == '\t' || ' ' <= c <= '~'
  }

  predicate PlainText(t: string) {
    forall i :: 0 <= i < |t| ==> PlainChar(t[i])
  }

  /** The text as `k` terminals pass it on, each putting a carriage return before every
      line feed. */
  function Translate(t: string, k: nat): string {
    if t == "" then ""
    else (if t[0] == '\n' then seq(k, i => '\r') + "\n" else [t[0]]) + Translate(t[1..], k)
  }

  lemma {:induction false} TranslatePlain(t: string, k: nat)
    requires PlainText(t)
    ensures IsAscii(Translate(t, k)) && ESCAPE !in Translate(t, k)
    ensures t != "" ==> Translate(t, k) != "" && Translate(t, k)[|Translate(t, k)| - 1] != '\r'
  {
    if t != "" {
      TranslatePlain(t[1..], k);
    }
  }

  lemma {:induction false} SpanReturns(n: nat, rest: string, i: nat)
    requires i <= n && (rest == "" || rest[0] != '\r')
    ensures Ansi.SpanWhile(seq(n, j => '\r') + rest, i, '\r', '\r') == n
    decreases n - i
  {
    var t := seq(n, j => '\r') + rest;
    if i < n {
      assert t[i] == '\r';
      SpanReturns(n, rest, i + 1);
    }
  }

  lemma {:induction false} TranslateCollapses(t: string, k: nat)
    requires PlainText(t)
    ensures Ansi.CollapseReturns(Translate(t, k)) == t
  {
    if t != "" {
      TranslateCollapses(t[1..], k);
      assert [t[0]] + t[1..] == t;
      if t[0] == '\n' {
        LineEndCollapses(k, Translate(t[1..], k));
      } else {
        var all := Translate(t, k);
        assert all == [t[0]] + Translate(t[1..], k) && all[1..] == Translate(t[1..], k);
      }
    }
  }

  lemma LineEndCollapses(k: nat, rest: string)
    ensures Ansi.CollapseReturns(seq(k, i => '\r') + "\n" + rest) == "\n" + Ansi.CollapseReturns(rest)
  {
    var all := seq(k, i => '\r') + "\n" + rest;
    if k > 0 {
      assert all == seq(k, i => '\r') + ("\n" + rest);
      SpanReturns(k, "\n" + rest, 1);
      assert all[0] == '\r' && all[k] == '\n' && all[k + 1..] == rest;
    } else {
      assert all == "\n" + rest && all[1..] == rest;
    }
  }

  /** Clean-up undoes what the terminals did. */
  lemma PresentTranslated(t: string, k: nat)
    requires PlainText(t)
    ensures IsAscii(Translate(t, k)) && Present(AsciiBytes(Translate(t, k))) == t
    ensures t != "" ==> NoTrailingReturn(AsciiBytes(Translate(t, k)))
  {
    hide Translate, Ansi.CollapseReturns, Ansi.Strip, Utf8.DecodeReplacing;
    TranslatePlain(t, k);
    var arrived := Translate(t, k);
    Utf8.DecodeAsciiPrefix(arrived, []);
    assert AsciiBytes(arrived) + [] == AsciiBytes(arrived);
    NothingDecoded();
    assert arrived + "" == arrived;
    Ansi.StripPlain(arrived);
    TranslateCollapses(t, k);
    assert Ansi.Replace(t, '\r', '\n') == t;
  }

  lemma NothingDecoded()
    ensures Utf8.DecodeReplacing([]) == ""
  {
  }

  // File answers

  lemma LettersPlain(cell: seq<Byte>)
    ensures PlainText(Base64.Encode(cell))
  {
    Base64.EncodedLetters(cell);
    var s := Base64.Encode(cell);
    forall i | 0 <= i < |s| ensures PlainChar(s[i]) {
      assert s[i] in s;
    }
  }

  lemma {:induction false} CellsPlain(cells: seq<seq<Byte>>)
    ensures PlainText(Wire.PrintCells(cells))
  {
    hide Base64.Encode;
    if cells != [] {
      LettersPlain(cells[0]);
      CellsPlain(cells[1..]);
    }
  }

  lemma RowPlain(row: Wire.Row)
    requires Wire.Sound(row)
    ensures PlainText(Wire.PrintRow(row))
  {
    CellsPlain(row.cells);
    forall i | 0 <= i < |row.key| ensures Wire.IsKeyChar(row.key[i]) {}
  }

  lemma {:induction false} LinesPlain(lines: seq<string>)
    requires forall i :: 0 <= i < |lines| ==> PlainText(lines[i])
    ensures PlainText(Wire.PrintLines(lines))
  {
    if lines != [] {
      LinesPlain(lines[1..]);
    }
  }

  lemma MarkersPlain(token: string)
    requires PlainText(token)
    ensures PlainText(Wire.Begin(token)) && PlainText(Wire.End(token))
  {
    assert PlainText("__SERVEROPS_FILE_BEGIN_") && PlainText("__SERVEROPS_FILE_END_") && PlainText("__");
  }

  lemma AnswerPlain(token: string, noise: seq<string>, rows: seq<Wire.Row>)
    requires PlainText(token) && (forall r <- rows :: Wire.Sound(r))
    requires forall i :: 0 <= i < |noise| ==> PlainText(noise[i])
    ensures PlainText(Wire.PrintLines(noise + Wire.PrintAnswer(token, rows)))
  {
    hide PlainText, Wire.PrintRow, Wire.Sound, Wire.Begin, Wire.End, Wire.PrintLines, Wire.PrintAnswer;
    MarkersPlain(token);
    Wire.AnswerMarkers(token, rows);
    var lines := noise + Wire.PrintAnswer(token, rows);
    forall i | 0 <= i < |lines| ensures PlainText(lines[i]) {
      if |noise| < i < |lines| - 1 {
        var row := rows[i - |noise| - 1];
        assert row in rows;
        RowPlain(row);
      }
    }
    LinesPlain(lines);
  }

  lemma {:induction false} PlainHasNoReturns(t: string)
    requires PlainText(t)
    ensures Wire.DropReturns(t) == t
  {
    if t != "" {
      PlainHasNoReturns(t[1..]);
    }
  }

  /** ROWS ARRIVE. Rows with any bytes in their cells, printed by a remote script after
      any other plain lines, passed on by any number of terminals, framed, cut into
      any reads and completed: the parser gives exactly those rows, judged by their
      status row. */
  lemma RowsArrive(setup: Setup, command: string, timeout: int, allowSudo: bool, sudo: Option<string>, token: Token,
                   calm: Calm, before: Session, polled: Session, after: Session, o: Outcome,
                   k: nat, noise: seq<Byte>, code: int, cwd: seq<Byte>, rest: seq<Byte>,
                   fileToken: string, lines: seq<string>, rows: seq<Wire.Row>)
    requires setup.limit >= 1 && o.Finished? && Executed(setup, command, timeout, allowSudo, sudo, token, calm, before, polled, after, o)
    requires Grows(before, after)
    requires Wire.IsToken(fileToken) && PlainText(fileToken) && (forall r <- rows :: Wire.Sound(r))
    requires forall i :: 0 <= i < |lines| ==> PlainText(lines[i]) && '\n' !in lines[i] && lines[i] != Wire.Begin(fileToken)
    requires var text := Wire.PrintLines(lines + Wire.PrintAnswer(fileToken, rows));
      && |Utf8.Encode(text)| <= 8_388_608 && |Translate(text, k)| <= setup.limit
      && IsAscii(Translate(text, k))
      && Arrives(FrameOf(setup, token, setup.limit), k, noise, AsciiBytes(Translate(text, k)), code, cwd, rest, Reads(before, after))
    ensures Wire.ParseFileResponse(o.result.output, fileToken) == Wire.Judge(Wire.Grouped(rows))
  {
    hide Arrives, Executed, Present, Translate, PlainText, Grows, Wire.PrintLines, Wire.PrintAnswer,
      Wire.ParseFileResponse,
      Wire.Judge, Wire.Grouped, Wire.DropReturns, Wire.Sound, Wire.IsToken, Wire.Begin, Utf8.Encode, Ansi.Strip, Utf8.DecodeReplacing;
    var text := Wire.PrintLines(lines + Wire.PrintAnswer(fileToken, rows));
    var out := AsciiBytes(Translate(text, k));
    AnswerPlain(fileToken, lines, rows);
    PresentTranslated(text, k);
    FinishedCall(setup, command, timeout, allowSudo, sudo, token, calm, before, polled, after, o, k, noise, out, code, cwd, rest);
    PlainHasNoReturns(text);
    Wire.MarkersMeet(fileToken);
    forall l | l in lines ensures '\n' !in l && l != Wire.Begin(fileToken) {}
    Wire.FileRoundTrip(text, fileToken, lines, rows);
  }
}
