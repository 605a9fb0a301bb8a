/** Lines of text with their ends kept, split where Python's str.splitlines does. */
module TextLines {
  import opened Bytes

  predicate IsSeparator(c: char) {
    '\n' <= c <= '\r' || 0x1C <= c as int <= 0x1E || c as int == 0x85 || c as int == 0x2028 || c as int == 0x2029
  }

  /** Where the first line of `s` ends: after its separator, a carriage return and a
      line feed counting as one, or at the end of `s`. */
  function FirstLineEnd(s: string): (n: nat)
    ensures n <= |s|
    ensures s != "" ==> n > 0
  {
    if s == "" then 0
    else if IsSeparator(s[0]) then (if |s| > 1 && s[0] == '\r' && s[1] == '\n' then 2 else 1)
    else 1 + FirstLineEnd(s[1..])
  }

  function SplitLines(s: string): (lines: seq<string>)
    ensures s == "" <==> lines == []
  {
    if s == "" then [] else [s[..FirstLineEnd(s)]] + SplitLines(s[FirstLineEnd(s)..])
  }

  /** A line that ends in a separator. */
  predicate Terminated(line: string) {
    line != "" && IsSeparator(line[|line| - 1])
  }

  /** Text that splitting would leave in one piece. */
  predicate IsOneLine(line: string) {
    line != "" && FirstLineEnd(line) == |line|
  }

  lemma {:induction false} SplitLinesJoin(s: string)
    ensures Flatten(SplitLines(s)) == s
    ensures forall l <- SplitLines(s) :: IsOneLine(l)
    ensures forall i :: 0 <= i < |SplitLines(s)| - 1 ==> Terminated(SplitLines(s)[i])
  {
    if s != "" {
      var n := FirstLineEnd(s);
      FirstLineAlone(s);
      SplitLinesJoin(s[n..]);
      if SplitLines(s[n..]) != [] { FirstLineTerminated(s); }
      var rest := SplitLines(s[n..]);
      assert ([s[..n]] + rest)[1..] == rest;
    }
  }

  lemma {:induction false} FirstLineAlone(s: string)
    requires s != ""
    ensures IsOneLine(s[..FirstLineEnd(s)])
  {
    var n := FirstLineEnd(s);
    if !IsSeparator(s[0]) && |s| > 1 {
      FirstLineAlone(s[1..]);
      assert s[..n][1..] == s[1..][..n - 1];
    }
  }

  lemma {:induction false} FirstLineTerminated(s: string)
    requires FirstLineEnd(s) < |s|
    ensures Terminated(s[..FirstLineEnd(s)])
  {
    var n := FirstLineEnd(s);
    if !IsSeparator(s[0]) {
      FirstLineTerminated(s[1..]);
      assert s[..n][1..] == s[1..][..n - 1];
    }
  }

  /** No carriage return and line feed meet between the two. */
  predicate Apart(a: string, b: string) {
    a == "" || b == "" || !(a[|a| - 1] == '\r' && b[0] == '\n')
  }

  /** A terminated line is found again in front of whatever stays apart from it. */
  lemma {:induction false} FirstLineFound(line: string, rest: string)
    requires IsOneLine(line) && Terminated(line) && Apart(line, rest)
    ensures FirstLineEnd(line + rest) == |line|
  {
    if !IsSeparator(line[0]) {
      assert (line + rest)[1..] == line[1..] + rest;
      FirstLineFound(line[1..], rest);
    } else {
      assert |line| > 1 ==> line[0] == '\r' && line[1] == '\n';
    }
  }

  /** A line that ends before the next one begins. */
  predicate Joins(line: string, next: string) {
    Terminated(line) && Apart(line, next)
  }

  /** Lines that stay lines when they are joined. */
  predicate AreLines(lines: seq<string>) {
    lines != [] ==> IsOneLine(lines[0]) && (|lines| > 1 ==> Joins(lines[0], lines[1])) && AreLines(lines[1..])
  }

  lemma {:induction false} AreLinesJoin(a: seq<string>, b: seq<string>)
    requires AreLines(a) && AreLines(b) && (a != [] && b != [] ==> Joins(a[|a| - 1], b[0]))
    ensures AreLines(a + b)
  {
    hide IsOneLine, Joins;
    if a == [] {
      assert a + b == b;
    } else {
      assert (a + b)[1..] == a[1..] + b;
      AreLinesJoin(a[1..], b);
    }
  }

  /** Splitting joined lines gives them back. */
  lemma {:induction false} SplitJoined(lines: seq<string>)
    requires AreLines(lines)
    ensures SplitLines(Flatten(lines)) == lines
  {
    hide IsOneLine, Joins;
    if lines != [] {
      SplitJoined(lines[1..]);
      SplitOneMore(lines[0], lines[1..]);
      assert lines == [lines[0]] + lines[1..];
    }
  }

  lemma SplitOneMore(line: string, lines: seq<string>)
    requires IsOneLine(line) && (lines != [] ==> Joins(line, lines[0]) && IsOneLine(lines[0]))
    ensures SplitLines(Flatten([line] + lines)) == [line] + SplitLines(Flatten(lines))
  {
    hide IsSeparator, Terminated, FirstLineEnd;
    var rest := Flatten(lines);
    assert ([line] + lines)[1..] == lines;
    if lines != [] {
      assert rest == lines[0] + Flatten(lines[1..]);
      assert rest[0] == lines[0][0];
      FirstLineFound(line, rest);
    } else {
      assert line + rest == line;
    }
    assert (line + rest)[..|line|] == line && (line + rest)[|line|..] == rest;
  }

  /** What splitting gives are lines that stay lines. */
  lemma {:induction false} SplitAreLines(s: string)
    ensures AreLines(SplitLines(s))
  {
    hide IsOneLine, Terminated, FirstLineEnd;
    if s != "" {
      var n := FirstLineEnd(s);
      FirstLineAlone(s);
      SplitAreLines(s[n..]);
      if n < |s| {
        FirstLineTerminated(s);
        FirstLineApart(s);
        assert SplitLines(s)[1..] == SplitLines(s[n..]) && SplitLines(s[n..])[0] == s[n..][..FirstLineEnd(s[n..])];
      }
    }
  }

  lemma {:induction false} FirstLineApart(s: string)
    requires s != ""
    ensures var n := FirstLineEnd(s); n < |s| ==> !(s[n - 1] == '\r' && s[n] == '\n')
  {
    if !IsSeparator(s[0]) && |s| > 1 { FirstLineApart(s[1..]); }
  }

  /** Text that no line ends in. */
  predicate IsPlain(s: string) {
    forall i :: 0 <= i < |s| ==> ' ' <= s[i] <= '~'
  }

  lemma {:induction false} PlainLine(a: string, rest: string)
    requires IsPlain(a)
    ensures FirstLineEnd(a + rest) == |a| + FirstLineEnd(rest)
  {
    if a == "" {
      assert a + rest == rest;
    } else {
      assert (a + rest)[1..] == a[1..] + rest;
      PlainLine(a[1..], rest);
    }
  }

  /** Exactly these ten characters end a line, as in Python's str.splitlines. */
  lemma LinesEndAt(a: string, c: char, b: string)
    requires IsPlain(a) && IsPlain(b) && b != ""
    ensures SplitLines(a + [c] + b) ==
      if c in {'\n', '\r', '\U{0B}', '\U{0C}', '\U{1C}', '\U{1D}', '\U{1E}', '\U{85}', '\U{2028}', '\U{2029}'}
      then [a + [c], b] else [a + [c] + b]
  {
    hide FirstLineEnd;
    var s := a + [c] + b;
    assert s == a + ([c] + b);
    PlainLine(a, [c] + b);
    FirstLineOf(c, b);
    PlainLine(b, "");
    NoLine();
    assert b + "" == b;
    assert s[..|a| + 1] == a + [c] && s[|a| + 1..] == b;
    assert b[..|b|] == b && b[|b|..] == "" && s[..|s|] == s && s[|s|..] == "";
  }

  lemma NoLine()
    ensures FirstLineEnd("") == 0 && SplitLines("") == []
  {
  }

  lemma FirstLineOf(c: char, b: string)
    requires IsPlain(b) && b != ""
    ensures FirstLineEnd([c] + b) ==
      if c in {'\n', '\r', '\U{0B}', '\U{0C}', '\U{1C}', '\U{1D}', '\U{1E}', '\U{85}', '\U{2028}', '\U{2029}'}
      then 1 else 1 + |b|
  {
    assert ([c] + b)[1..] == b && ([c] + b)[1] == b[0];
    PlainLine(b, "");
    assert b + "" == b;
  }
}
