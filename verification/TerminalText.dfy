/** What a caller sees of the bytes that a terminal delivered: the text without its
    escape sequences and with its line ends cleaned up. */
module TerminalText {
  import opened Bytes
  import opened FrameSpec
  import Ansi
  import Utf8

  // Escape sequences

  /** What a terminal prints: text, a control sequence with its parameters, intermediate
      characters and final character, or an escape of two characters (sections 5.3 and
      5.4 of ECMA-48). */
  datatype Print = Text(text: string) | Control(parameters: string, between: string, final: char) | Short(letter: char)

  predicate AllBetween(t: string, low: char, high: char) {
    forall i :: 0 <= i < |t| ==> low <= t[i] <= high
  }

  predicate IsPrint(p: Print) {
    match p
    case Text(text) => '\U{1B}' !in text
    case Control(parameters, between, final) =>
      AllBetween(parameters, '0', '?') && AllBetween(between, ' ', '/') && '@' <= final <= '~'
    case Short(letter) => '@' <= letter <= '_' && letter != '['
  }

  predicate ArePrints(ps: seq<Print>) {
    forall i :: 0 <= i < |ps| ==> IsPrint(ps[i])
  }

  function Written(p: Print): string {
    match p
    case Text(text) => text
    case Control(parameters, between, final) => "\U{1B}[" + parameters + between + [final]
    case Short(letter) => ['\U{1B}', letter]
  }

  function AllWritten(ps: seq<Print>): string {
    if ps == [] then "" else Written(ps[0]) + AllWritten(ps[1..])
  }

  function Texts(ps: seq<Print>): string {
    if ps == [] then "" else (if ps[0].Text? then ps[0].text else "") + Texts(ps[1..])
  }

  lemma {:induction false} SpanFound(front: string, t: string, rest: string, low: char, high: char)
    requires AllBetween(t, low, high) && (rest == "" || !(low <= rest[0] <= high))
    ensures Ansi.SpanWhile(front + t + rest, |front|, low, high) == |front| + |t|
    decreases |t|
  {
    var s := front + t + rest;
    if t != "" {
      assert s[|front|] == t[0];
      assert front + [t[0]] + t[1..] + rest == s;
      SpanFound(front + [t[0]], t[1..], rest, low, high);
    } else if rest != "" {
      assert s[|front|] == rest[0];
    }
  }

  /** Where the parameters and the characters between them and the final one end. */
  lemma ControlEnd(parameters: string, between: string, rest: string)
    requires AllBetween(parameters, '0', '?') && AllBetween(between, ' ', '/')
    requires rest != "" ==> !(' ' <= rest[0] <= '/') && (between != "" || !('0' <= rest[0] <= '?'))
    ensures var s := "\U{1B}[" + parameters + between + rest;
      Ansi.SpanWhile(s, Ansi.SpanWhile(s, 2, '0', '?'), ' ', '/') == 2 + |parameters| + |between|
  {
    hide Ansi.SpanWhile;
    var head := "\U{1B}[";
    assert head + parameters + between + rest == head + parameters + (between + rest);
    SpanFound(head, parameters, between + rest, '0', '?');
    SpanFound(head + parameters, between, rest, ' ', '/');
  }

  lemma ControlLength(parameters: string, between: string, rest: string)
    requires AllBetween(parameters, '0', '?') && AllBetween(between, ' ', '/')
    requires rest != "" ==> !(' ' <= rest[0] <= '/') && (between != "" || !('0' <= rest[0] <= '?'))
    ensures Ansi.EscapeLength("\U{1B}[" + parameters + between + rest)
      == if rest != "" && '@' <= rest[0] <= '~' then 3 + |parameters| + |between| else 0
  {
    hide Ansi.SpanWhile, AllBetween;
    ControlEnd(parameters, between, rest);
    var s := "\U{1B}[" + parameters + between + rest;
    assert s[0] == '\U{1B}' && s[1] == '[';
    assert rest != "" ==> s[2 + |parameters| + |between|] == rest[0];
  }

  lemma PrintStripped(p: Print, rest: string)
    requires IsPrint(p)
    ensures Ansi.Strip(Written(p) + rest) == (if p.Text? then p.text else "") + Ansi.Strip(rest)
  {
    hide Ansi.EscapeLength;
    match p
    case Text(text) => Ansi.StripPlainPrefix(text, rest);
    case Control(parameters, between, final) =>
      var s := Written(p) + rest;
      assert s == "\U{1B}[" + parameters + between + ([final] + rest);
      ControlLength(parameters, between, [final] + rest);
      assert s[|Written(p)|..] == rest;
      assert "" + Ansi.Strip(rest) == Ansi.Strip(rest);
    case Short(letter) =>
      ShortLength(letter, rest);
      assert (Written(p) + rest)[2..] == rest;
      assert "" + Ansi.Strip(rest) == Ansi.Strip(rest);
  }

  lemma ShortLength(letter: char, rest: string)
    requires IsPrint(Short(letter))
    ensures Ansi.EscapeLength(Written(Short(letter)) + rest) == 2
  {
  }

  /** Of everything printed the text remains, and nothing else. */
  lemma {:induction false} TextRemains(ps: seq<Print>)
    requires ArePrints(ps)
    ensures Ansi.Strip(AllWritten(ps)) == Texts(ps)
  {
    hide Ansi.Strip, IsPrint, Written;
    if ps == [] {
      assert Ansi.Strip("") == "" by { NothingStripped(); }
    } else {
      TextRemains(ps[1..]);
      PrintStripped(ps[0], AllWritten(ps[1..]));
    }
  }

  lemma NothingStripped()
    ensures Ansi.Strip("") == ""
  {
  }

  /** An escape character that starts no sequence stays, with what follows it. */
  lemma LoneEscapeStays(rest: string)
    requires rest == "" || !('@' <= rest[0] <= '_')
    ensures Ansi.Strip("\U{1B}" + rest) == "\U{1B}" + Ansi.Strip(rest)
  {
    assert ("\U{1B}" + rest)[1..] == rest;
  }

  /** And so does a control sequence that is not finished. */
  lemma UnfinishedStays(parameters: string, between: string, rest: string)
    requires AllBetween(parameters, '0', '?') && AllBetween(between, ' ', '/')
    requires rest == "" || rest[0] < ' ' || rest[0] > '~' || (between != "" && '0' <= rest[0] <= '?')
    ensures Ansi.Strip("\U{1B}[" + parameters + between + rest) == "\U{1B}" + Ansi.Strip("[" + parameters + between + rest)
  {
    hide Ansi.EscapeLength, Ansi.Strip;
    ControlLength(parameters, between, rest);
    var s := "\U{1B}[" + parameters + between + rest;
    OneStays(s);
    assert s[1..] == "[" + parameters + between + rest;
  }

  lemma OneStays(s: string)
    requires s != "" && Ansi.EscapeLength(s) == 0
    ensures Ansi.Strip(s) == [s[0]] + Ansi.Strip(s[1..])
  {
  }

  // Line ends

  /** Carriage returns up to a line feed. */
  predicate ReturnsThenFeed(t: string) {
    exists n :: 0 <= n < |t| && t[n] == '\n' && forall i :: 0 <= i < n ==> t[i] == '\r'
  }

  /** The text with its line ends cleaned up: carriage returns before a line feed are
      dropped, and every other one is a line end of its own. */
  function Shown(t: string): string {
    if t == "" then ""
    else if t[0] == '\r' then (if ReturnsThenFeed(t) then "" else "\n") + Shown(t[1..])
    else [t[0]] + Shown(t[1..])
  }

  /** `n` carriage returns. */
  function Returns(n: nat): string {
    seq(n, i => '\r')
  }

  lemma ReturnsBefore(n: nat, rest: string)
    requires rest == "" || rest[0] != '\r'
    ensures ReturnsThenFeed(Returns(n) + rest) <==> rest != "" && rest[0] == '\n'
  {
    var t := Returns(n) + rest;
    if rest != "" && rest[0] == '\n' {
      assert t[n] == '\n' && forall i :: 0 <= i < n ==> t[i] == '\r';
    }
    if k :| 0 <= k < |t| && t[k] == '\n' && forall i :: 0 <= i < k ==> t[i] == '\r' {
      assert rest != "" && t[n] == rest[0];
    }
  }

  lemma {:induction false} ReturnsShown(n: nat, rest: string)
    requires rest == "" || rest[0] != '\r'
    ensures Shown(Returns(n) + rest) == (if rest != "" && rest[0] == '\n' then "" else seq(n, i => '\n')) + Shown(rest)
  {
    hide ReturnsThenFeed;
    var t := Returns(n) + rest;
    if n == 0 {
      assert t == rest;
      assert (if rest != "" && rest[0] == '\n' then "" else seq(n, i => '\n')) + Shown(rest) == Shown(rest);
    } else {
      assert t[1..] == Returns(n - 1) + rest;
      ReturnsBefore(n, rest);
      ReturnsShown(n - 1, rest);
      if rest == "" || rest[0] != '\n' {
        assert "\n" + (seq(n - 1, i => '\n') + Shown(rest)) == seq(n, i => '\n') + Shown(rest);
      }
    }
  }

  lemma {:induction false} SpanReturns(t: string, i: nat)
    requires i <= |t| && forall k :: 0 <= k < i ==> t[k] == '\r'
    ensures var n := Ansi.SpanWhile(t, i, '\r', '\r');
      t[..n] == Returns(n) && (n < |t| ==> t[n] != '\r')
    decreases |t| - i
  {
    if i < |t| && t[i] == '\r' { SpanReturns(t, i + 1); }
  }

  lemma {:induction false} ReplaceAppend(a: string, b: string)
    ensures Ansi.Replace(a + b, '\r', '\n') == Ansi.Replace(a, '\r', '\n') + Ansi.Replace(b, '\r', '\n')
  {
  }

  /** The clean-up by two substitutions, one after the other, is that of `Shown`. */
  lemma {:induction false} CleanIsShown(t: string)
    ensures Ansi.CleanLineEnds(t) == Shown(t)
    decreases |t|
  {
    if t == "" {
    } else if t[0] != '\r' {
      CleanIsShown(t[1..]);
      ReplaceAppend([t[0]], Ansi.CollapseReturns(t[1..]));
      assert Ansi.Replace([t[0]], '\r', '\n') == [t[0]];
    } else {
      SpanReturns(t, 1);
      CleanReturns(t, Ansi.SpanWhile(t, 1, '\r', '\r'));
    }
  }

  lemma {:induction false} CleanReturns(t: string, n: nat)
    requires t != "" && t[0] == '\r' && n == Ansi.SpanWhile(t, 1, '\r', '\r') && t[..n] == Returns(n)
    requires n < |t| ==> t[n] != '\r'
    ensures Ansi.CleanLineEnds(t) == Shown(t)
    decreases |t|, 0
  {
    var rest := t[n..];
    assert t == Returns(n) + rest;
    ReturnsShown(n, rest);
    if rest != "" && rest[0] == '\n' {
      CleanIsShown(t[n + 1..]);
      assert rest[1..] == t[n + 1..];
      ReplaceAppend("\n", Ansi.CollapseReturns(t[n + 1..]));
      assert Ansi.Replace("\n", '\r', '\n') == "\n";
    } else {
      CleanIsShown(rest);
      ReplaceAppend(t[..n], Ansi.CollapseReturns(rest));
      assert Ansi.Replace(t[..n], '\r', '\n') == seq(n, i => '\n');
    }
  }

  /** What is shown of any bytes: the text that remains of them, with its line ends
      cleaned up, and never a carriage return. */
  lemma PresentIsShown(output: seq<Byte>)
    ensures Present(output) == Shown(Ansi.Strip(Utf8.DecodeReplacing(output)))
    ensures '\r' !in Present(output)
  {
    hide Ansi.CleanLineEnds, Ansi.Strip, Utf8.DecodeReplacing, Shown;
    CleanIsShown(Ansi.Strip(Utf8.DecodeReplacing(output)));
    NoReturnShown(Ansi.Strip(Utf8.DecodeReplacing(output)));
  }

  lemma {:induction false} NoReturnShown(t: string)
    ensures '\r' !in Shown(t)
  {
    hide ReturnsThenFeed;
    if t != "" { NoReturnShown(t[1..]); }
  }

  /** Printed text and escape sequences, as their bytes: the text is shown. */
  lemma PrintsShown(ps: seq<Print>)
    requires ArePrints(ps)
    ensures Present(Utf8.Encode(AllWritten(ps))) == Shown(Texts(ps))
  {
    hide Ansi.Strip, Utf8.DecodeReplacing, Utf8.Encode, Shown, Present, IsPrint, AllWritten, Texts;
    PresentIsShown(Utf8.Encode(AllWritten(ps)));
    Utf8.DecodeEncoded(AllWritten(ps));
    TextRemains(ps);
  }

  lemma {:induction false} ShownPlain(a: string, rest: string)
    requires '\r' !in a
    ensures Shown(a + rest) == a + Shown(rest)
  {
    hide ReturnsThenFeed;
    if a == "" {
      assert a + rest == rest;
    } else {
      assert (a + rest)[1..] == a[1..] + rest;
      ShownPlain(a[1..], rest);
    }
  }

  /** A progress line: text, carriage returns and more text are shown as lines, and
      carriage returns before a line feed as one line's end. */
  lemma ProgressShown(a: string, n: nat, b: string)
    requires '\r' !in a && '\U{1B}' !in a && '\r' !in b && '\U{1B}' !in b && n > 0
    ensures Present(Utf8.Encode(a + Returns(n) + b)) == a + (if b != "" && b[0] == '\n' then "" else seq(n, i => '\n')) + b
  {
    hide Present, Utf8.Encode, Shown;
    var t := a + Returns(n) + b;
    assert '\U{1B}' !in t;
    var ps := [Text(t)];
    assert ps[1..] == [] && AllWritten(ps) == t + "" == t && Texts(ps) == t + "" == t;
    PrintsShown(ps);
    assert t == a + (Returns(n) + b);
    ShownPlain(a, Returns(n) + b);
    ReturnsShown(n, b);
    ShownPlain(b, "");
    assert b + "" == b && Shown("") == "" by { NothingShown(); }
    assert a + ((if b != "" && b[0] == '\n' then "" else seq(n, i => '\n')) + b)
        == a + (if b != "" && b[0] == '\n' then "" else seq(n, i => '\n')) + b;
  }

  lemma NothingShown()
    ensures Shown("") == ""
  {
  }

  // Bytes that are no text

  /** A character cut short, before anything that does not continue it, is shown as one
      replacement character. */
  lemma CutReplaced(c: char, k: nat, rest: seq<Byte>)
    requires 0 < k < |Utf8.EncodeChar(c)| && (rest == [] || !(0x80 <= rest[0] < 0xC0))
    ensures Utf8.DecodeReplacing(Utf8.EncodeChar(c)[..k] + rest) == "\U{FFFD}" + Utf8.DecodeReplacing(rest)
  {
    hide Utf8.ScanFront, Utf8.EncodeChar;
    var cut := Utf8.EncodeChar(c)[..k];
    CutScanned(c, k, rest);
    assert (cut + rest)[k..] == rest && (rest == [] ==> cut + rest == cut);
  }

  lemma CutScanned(c: char, k: nat, rest: seq<Byte>)
    requires 0 < k < |Utf8.EncodeChar(c)| && (rest == [] || !(0x80 <= rest[0] < 0xC0))
    ensures Utf8.ScanFront(Utf8.EncodeChar(c)[..k] + rest) == if rest == [] then Utf8.Unfinished else Utf8.Malformed(k)
  {
    var b := Utf8.EncodeChar(c)[..k] + rest;
    if rest == [] {
      assert b == Utf8.EncodeChar(c)[..k];
      Utf8.ScanCutChar(c, k);
    } else {
      Utf8.ScanCutChar(c, k);
      assert b[0] == Utf8.EncodeChar(c)[..k][0];
      assert k > 1 ==> b[1] == Utf8.EncodeChar(c)[..k][1];
      assert k > 2 ==> b[2] == Utf8.EncodeChar(c)[..k][2];
      assert b[k] == rest[0];
    }
  }

  /** A byte that begins no character is shown as one replacement character. */
  lemma ByteReplaced(x: Byte, rest: seq<Byte>)
    requires 0x80 <= x < 0xC2 || x > 0xF4
    ensures Utf8.DecodeReplacing([x] + rest) == "\U{FFFD}" + Utf8.DecodeReplacing(rest)
  {
    assert ([x] + rest)[1..] == rest;
  }
}
