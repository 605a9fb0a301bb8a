/** Printing an edit script as a unified diff, and reading it back. */
module PatchPrinter {
  import opened Common
  import opened Bytes
  import opened TextLines
  import opened Patch
  import opened PatchHeader
  import opened PatchInverse
  import opened PatchMeaning
  import Decimal
  import Utf8

  datatype Op = Keep(line: string) | Delete(line: string) | Insert(line: string)

  /** Lines passed over, then the lines of one hunk. */
  datatype Change = Change(kept: seq<string>, ops: seq<Op>)

  datatype Script = Script(changes: seq<Change>, tail: seq<string>)

  function OldOf(ops: seq<Op>): seq<string> {
    if ops == [] then [] else (if ops[0].Insert? then [] else [ops[0].line]) + OldOf(ops[1..])
  }

  function NewOf(ops: seq<Op>): seq<string> {
    if ops == [] then [] else (if ops[0].Delete? then [] else [ops[0].line]) + NewOf(ops[1..])
  }

  function OldText(changes: seq<Change>, tail: seq<string>): seq<string> {
    if changes == [] then tail else changes[0].kept + OldOf(changes[0].ops) + OldText(changes[1..], tail)
  }

  function NewText(changes: seq<Change>, tail: seq<string>): seq<string> {
    if changes == [] then tail else changes[0].kept + NewOf(changes[0].ops) + NewText(changes[1..], tail)
  }

  // Printing

  function Sign(op: Op): char {
    match op case Keep(_) => ' ' case Delete(_) => '-' case Insert(_) => '+'
  }

  function OpLine(op: Op): string {
    [Sign(op)] + op.line
  }

  const MARKER_LINE := "\\ No newline at end of file\n"

  lemma MarkerLine()
    ensures MARKER_LINE == NO_NEWLINE_MARKER + "\n"
  {
  }

  /** One line of a hunk, and a marker after it when the text's line has no end. */
  function PrintOp(op: Op): seq<string> {
    if Terminated(op.line) then [OpLine(op)] else [OpLine(op) + "\n", MARKER_LINE]
  }

  function PrintOps(ops: seq<Op>): seq<string> {
    if ops == [] then [] else PrintOps(ops[..|ops| - 1]) + PrintOp(ops[|ops| - 1])
  }

  /** The line number of a range: that of its first line, or of the line before it
      when it is empty. */
  function Start(index: nat, count: nat): nat {
    if count == 0 then index else index + 1
  }

  function Hunks(oldIndex: nat, newIndex: nat, changes: seq<Change>): (hunks: seq<Hunk>)
    ensures |hunks| == |changes|
    decreases |changes|
  {
    if changes == [] then []
    else
      var Change(kept, ops) := changes[0];
      var removed, added := |OldOf(ops)|, |NewOf(ops)|;
      var oldAt, newAt := oldIndex + |kept|, newIndex + |kept|;
      [Hunk(Header(Start(oldAt, removed), removed, Start(newAt, added), added), PrintOps(ops))]
      + Hunks(oldAt + removed, newAt + added, changes[1..])
  }

  function PrintCount(count: nat): string {
    if count == 1 then "" else "," + Decimal.Digits(count)
  }

  function PrintRange(start: nat, count: nat): string {
    Decimal.Digits(start) + PrintCount(count)
  }

  function PrintTail(heading: Option<string>): string {
    (if heading.Some? then " " + heading.value else "") + "\n"
  }

  function PrintHeader(h: Header, heading: Option<string>): string {
    "@@ -" + PrintRange(h.oldStart, h.oldCount) + " +" + PrintRange(h.newStart, h.newCount) + " @@" + PrintTail(heading)
  }

  /** A line in front of a hunk that says nothing about it: the old or the new file's
      name, git's two lines of a file's preamble, or a blank line. */
  datatype Gap =
    | OldName(text: string)
    | NewName(text: string)
    | DiffLine(text: string)
    | IndexLine(text: string)
    | Blank(spaces: string)

  function PrintGap(gap: Gap): string {
    match gap
    case OldName(text) => "--- " + text + "\n"
    case NewName(text) => "+++ " + text + "\n"
    case DiffLine(text) => "diff " + text + "\n"
    case IndexLine(text) => "index " + text + "\n"
    case Blank(spaces) => spaces + "\n"
  }

  function PrintGaps(gaps: seq<Gap>): (lines: seq<string>)
    ensures |lines| == |gaps|
  {
    if gaps == [] then [] else [PrintGap(gaps[0])] + PrintGaps(gaps[1..])
  }

  /** What a diff carries besides a hunk: lines before it and a section heading. */
  datatype Dress = Dress(gaps: seq<Gap>, heading: Option<string>)

  function PrintHunks(dresses: seq<Dress>, hunks: seq<Hunk>): seq<string>
    requires |dresses| == |hunks|
  {
    if hunks == [] then []
    else
      PrintGaps(dresses[0].gaps) + ([PrintHeader(hunks[0].header, dresses[0].heading)] +
      (hunks[0].lines + PrintHunks(dresses[1..], hunks[1..])))
  }

  /** All of a diff but its hunks; `last` are the lines behind the last hunk. */
  datatype Preamble = Preamble(dresses: seq<Dress>, last: seq<Gap>)

  function PrintDiff(p: Preamble, hunks: seq<Hunk>): seq<string>
    requires |p.dresses| == |hunks|
  {
    PrintHunks(p.dresses, hunks) + PrintGaps(p.last)
  }

  function PrintScript(p: Preamble, script: Script): string
    requires |p.dresses| == |script.changes|
  {
    Flatten(PrintDiff(p, Hunks(0, 0, script.changes)))
  }

  /** A blank that does not end a line. */
  predicate IsBlankChar(c: char) {
    c == ' ' || c == '\t' || c as int in {0x1F, 0xA0, 0x1680, 0x202F, 0x205F, 0x3000} || 0x2000 <= c as int <= 0x200A
  }

  predicate IsGap(gap: Gap) {
    if gap.Blank? then forall c <- gap.spaces :: IsBlankChar(c) else IsName(gap.text)
  }

  predicate AreGaps(gaps: seq<Gap>) {
    forall i :: 0 <= i < |gaps| ==> IsGap(gaps[i])
  }

  /** Behind a hunk, a line with a file's name or one that starts with a blank would be
      taken for a line of the hunk; one of the others must come first. */
  predicate EndsHunk(gaps: seq<Gap>) {
    gaps != [] ==> gaps[0].DiffLine? || gaps[0].IndexLine? || (gaps[0].Blank? && !(" " <= gaps[0].spaces))
  }

  predicate AreDresses(dresses: seq<Dress>) {
    && (forall i :: 0 <= i < |dresses| ==> AreGaps(dresses[i].gaps))
    && (forall i :: 1 <= i < |dresses| ==> EndsHunk(dresses[i].gaps))
    && (forall i :: 0 <= i < |dresses| ==> dresses[i].heading.Some? ==> IsName(dresses[i].heading.value))
  }

  predicate IsPreamble(p: Preamble) {
    AreDresses(p.dresses) && AreGaps(p.last) && EndsHunk(p.last)
  }

  predicate IsName(name: string) {
    forall c <- name :: !IsSeparator(c)
  }

  // Reading headers back

  lemma DigitsSpell(n: nat)
    ensures Spells(Decimal.Digits(n), n)
  {
    Decimal.ValueOfDigits(n);
    var digits := Decimal.Digits(n);
    forall i | 0 <= i < |digits| ensures digits[i] in "0123456789" {
      DigitListed(digits[i]);
    }
  }

  lemma HeaderFound(h: Header, heading: Option<string>)
    requires heading.Some? ==> IsName(heading.value)
    ensures ParseHeader(PrintHeader(h, heading)) == Some(h)
  {
    hide Decimal.Digits, Spells, SpellsCount, ParseHeader, IsTail, PrintHeader, Parts.Line;
    DigitsSpell(h.oldStart);
    DigitsSpell(h.newStart);
    CountSpells(h.oldCount);
    CountSpells(h.newCount);
    TailSpells(heading);
    var parts := Parts(Decimal.Digits(h.oldStart), PrintCount(h.oldCount), Decimal.Digits(h.newStart), PrintCount(h.newCount),
                       PrintTail(heading));
    HeaderLine(h, heading);
    PartsRead(parts, h);
  }

  lemma CountSpells(n: nat)
    ensures SpellsCount(PrintCount(n), n)
  {
    hide Decimal.Digits, Spells;
    DigitsSpell(n);
    if n != 1 { assert PrintCount(n)[1..] == Decimal.Digits(n); }
  }

  lemma TailSpells(heading: Option<string>)
    requires heading.Some? ==> IsName(heading.value)
    ensures IsTail(PrintTail(heading))
  {
    var tail := PrintTail(heading);
    forall i | 1 <= i < |tail| - 1 ensures tail[i] != '\n' { assert tail[i] in heading.value; }
  }

  lemma HeaderLine(h: Header, heading: Option<string>)
    ensures PrintHeader(h, heading)
      == Parts(Decimal.Digits(h.oldStart), PrintCount(h.oldCount), Decimal.Digits(h.newStart), PrintCount(h.newCount),
               PrintTail(heading)).Line()
  {
    hide Decimal.Digits, PrintCount, PrintTail;
    var a, b, c, d, e :=
      Decimal.Digits(h.oldStart), PrintCount(h.oldCount), Decimal.Digits(h.newStart), PrintCount(h.newCount), PrintTail(heading);
    Regrouped("@@ -", a, b, " +", c, d, " @@", e);
  }

  lemma Regrouped(p: string, a: string, b: string, q: string, c: string, d: string, r: string, e: string)
    ensures p + (a + b) + q + (c + d) + r + e == p + (a + (b + (q + (c + (d + (r + e))))))
  {
    assert c + d + (r + e) == c + (d + (r + e));
    assert a + b + (q + (c + (d + (r + e)))) == a + (b + (q + (c + (d + (r + e)))));
    assert p + (a + b) + q + (c + d) + r + e == p + (a + b) + (q + (c + d + (r + e)));
  }

  // Lines of a printed diff

  /** A body line as printed: one line, with an end, that no header could be. */
  predicate IsPrinted(line: string) {
    IsOneLine(line) && Terminated(line) && line[0] in " -+\\" && IsBodyLine(line)
  }

  predicate AllPrinted(lines: seq<string>) {
    forall i :: 0 <= i < |lines| ==> IsPrinted(lines[i])
  }

  lemma {:induction false} OneLineJoined(front: string, rest: string)
    requires IsOneLine(rest) && forall c <- front :: !IsSeparator(c)
    ensures IsOneLine(front + rest)
  {
    if front == "" {
      assert front + rest == rest;
    } else {
      assert (front + rest)[1..] == front[1..] + rest && front[0] in front;
      OneLineJoined(front[1..], rest);
    }
  }

  lemma {:induction false} OneLineExtended(line: string)
    requires IsOneLine(line) && !Terminated(line)
    ensures IsOneLine(line + "\n") && Terminated(line + "\n")
    ensures forall c <- line :: !IsSeparator(c)
  {
    assert line[0..] == line;
    if |line| > 1 {
      assert !IsSeparator(line[0]);
      assert line[1..][|line| - 2] == line[|line| - 1];
      OneLineExtended(line[1..]);
      assert (line + "\n")[1..] == line[1..] + "\n";
      assert line == [line[0]] + line[1..];
    } else {
      assert (line + "\n")[1..] == "\n";
    }
  }

  lemma MarkerPrinted()
    ensures IsPrinted(MARKER_LINE)
  {
    hide MARKER_LINE;
    MarkerLine();
    var m := NO_NEWLINE_MARKER;
    assert forall i :: 0 <= i < |m| ==> !IsSeparator(m[i]);
    assert IsOneLine("\n");
    OneLineJoined(m, "\n");
    assert m <= m + "\n";
  }

  lemma PrintOpPrinted(op: Op)
    requires IsOneLine(op.line)
    ensures AllPrinted(PrintOp(op))
  {
    hide MARKER_LINE;
    var line := if Terminated(op.line) then op.line else op.line + "\n";
    if !Terminated(op.line) {
      OneLineExtended(op.line);
    }
    OneLineJoined([Sign(op)], line);
    var printed := [Sign(op)] + line;
    assert printed[|printed| - 1] == line[|line| - 1];
    assert IsPrinted(printed);
    assert OpLine(op) + "\n" == [Sign(op)] + (op.line + "\n");
    MarkerPrinted();
  }

  predicate OneLiners(ops: seq<Op>) {
    forall i :: 0 <= i < |ops| ==> IsOneLine(ops[i].line)
  }

  lemma {:induction false} PrintOpsPrinted(ops: seq<Op>)
    requires OneLiners(ops)
    ensures AllPrinted(PrintOps(ops))
  {
    hide IsPrinted, PrintOp;
    if ops != [] {
      PrintOpsPrinted(ops[..|ops| - 1]);
      PrintOpPrinted(ops[|ops| - 1]);
    }
  }

  // Normalising the printed body

  function SignedLines(ops: seq<Op>): seq<string> {
    seq(|ops|, i requires 0 <= i < |ops| => OpLine(ops[i]))
  }

  lemma NormalizeSnoc(lines: seq<string>, last: string)
    requires NormalizeMarkers(lines).Ok?
    ensures NormalizeMarkers(lines + [last]) ==
      var done := NormalizeMarkers(lines).value;
      if NO_NEWLINE_MARKER <= last then
        if done == [] then Err(PatchInvalid) else Ok(done[..|done| - 1] + [DropNewline(done[|done| - 1])])
      else if IsOpLine(last) then Ok(done + [last])
      else Err(PatchInvalid)
  {
    hide DropNewline;
    assert (lines + [last])[..|lines|] == lines;
  }

  lemma SignedLine(op: Op, line: string)
    ensures IsOpLine([Sign(op)] + line) && !(NO_NEWLINE_MARKER <= [Sign(op)] + line)
    ensures "+" <= [Sign(op)] + line <==> op.Insert?
    ensures "-" <= [Sign(op)] + line <==> op.Delete?
  {
    var signed := [Sign(op)] + line;
    assert NO_NEWLINE_MARKER[0] == '\\' && signed[0] == Sign(op);
    assert "+" <= signed ==> signed[0] == "+"[0];
    assert "-" <= signed ==> signed[0] == "-"[0];
  }

  /** A printed line and its marker are read as the line alone. */
  lemma OpNormalized(before: seq<string>, op: Op)
    requires NormalizeMarkers(before).Ok?
    ensures NormalizeMarkers(before + PrintOp(op)) == Ok(NormalizeMarkers(before).value + [OpLine(op)])
  {
    hide NormalizeMarkers, Terminated, IsOpLine, MARKER_LINE, NO_NEWLINE_MARKER;
    MarkerLine();
    var done := NormalizeMarkers(before).value;
    SignedLine(op, op.line);
    if Terminated(op.line) {
      NormalizeSnoc(before, OpLine(op));
    } else {
      var line := OpLine(op) + "\n";
      assert line == [Sign(op)] + (op.line + "\n");
      SignedLine(op, op.line + "\n");
      NormalizeSnoc(before, line);
      NormalizeSnoc(before + [line], NO_NEWLINE_MARKER + "\n");
      assert before + PrintOp(op) == before + [line] + [NO_NEWLINE_MARKER + "\n"];
      assert DropNewline(line) == OpLine(op);
      assert (done + [line])[..|done|] == done;
    }
  }

  lemma {:induction false} OpsNormalized(ops: seq<Op>)
    ensures NormalizeMarkers(PrintOps(ops)) == Ok(SignedLines(ops))
  {
    hide PrintOp, OpLine, NormalizeMarkers;
    if ops != [] {
      var front := ops[..|ops| - 1];
      OpsNormalized(front);
      OpNormalized(PrintOps(front), ops[|ops| - 1]);
      assert SignedLines(ops) == SignedLines(front) + [OpLine(ops[|ops| - 1])];
    } else {
      assert SignedLines(ops) == [];
      NothingNormalized();
    }
  }

  lemma NothingNormalized()
    ensures NormalizeMarkers([]) == Ok([])
  {
  }

  lemma {:induction false} OpSides(ops: seq<Op>)
    ensures OpLines(SignedLines(ops))
    ensures OldSide(SignedLines(ops)) == OldOf(ops)
    ensures NewSide(SignedLines(ops)) == NewOf(ops)
  {
    if ops != [] {
      var lines := SignedLines(ops);
      OpSides(ops[1..]);
      assert lines[1..] == SignedLines(ops[1..]);
      assert lines[0] == [Sign(ops[0])] + ops[0].line && lines[0][1..] == ops[0].line;
      SignedLine(ops[0], ops[0].line);
      assert OpLines(lines) by {
        forall i | 0 <= i < |lines| ensures IsOpLine(lines[i]) {
          SignedLine(ops[i], ops[i].line);
        }
      }
    } else {
      assert SignedLines(ops) == [];
    }
  }

  // Parsing the printed lines

  lemma {:induction false} BodyFound(body: seq<string>, rest: seq<string>)
    requires AllPrinted(body) && (rest == [] || ParseHeader(rest[0]).Some? || !IsBodyLine(rest[0]))
    ensures BodyLength(body + rest) == |body|
  {
    hide ParseHeader, IsPrinted, IsBodyLine;
    if body == [] {
      assert body + rest == rest;
    } else {
      assert (body + rest)[1..] == body[1..] + rest;
      PrintedNotHeader(body[0]);
      BodyFound(body[1..], rest);
    }
  }

  lemma PrintedNotHeader(line: string)
    requires IsPrinted(line)
    ensures ParseHeader(line) == None && IsBodyLine(line)
  {
    assert line[0] != "@@ -"[0];
  }

  lemma HeaderNotSkipped(h: Header, heading: Option<string>)
    ensures !IsSkipped(PrintHeader(h, heading))
  {
    var line := PrintHeader(h, heading);
    assert line[0] == '@' && line[0] in line && !IsWhitespace('@');
    assert "--- "[0] == '-' && "+++ "[0] == '+' && "diff "[0] == 'd' && "index "[0] == 'i';
  }

  predicate Printable(hunks: seq<Hunk>) {
    forall i :: 0 <= i < |hunks| ==> AllPrinted(hunks[i].lines)
  }

  lemma GapSkipped(gap: Gap)
    requires IsGap(gap)
    ensures IsSkipped(PrintGap(gap))
  {
    var line := PrintGap(gap);
    match gap
    case OldName(text) => assert "--- " <= line;
    case NewName(text) => assert "+++ " <= line;
    case DiffLine(text) => assert "diff " <= line;
    case IndexLine(text) => assert "index " <= line;
    case Blank(spaces) =>
      forall c | c in line ensures IsWhitespace(c) { assert c in spaces || c == '\n'; }
  }

  lemma {:induction false} GapsSkipped(gaps: seq<Gap>, lines: seq<string>)
    requires AreGaps(gaps)
    ensures ParseLines(PrintGaps(gaps) + lines) == ParseLines(lines)
  {
    hide ParseHeader, BodyLength, IsSkipped, IsGap, PrintGap;
    if gaps == [] {
      assert PrintGaps(gaps) + lines == lines;
    } else {
      GapSkipped(gaps[0]);
      GapsSkipped(gaps[1..], lines);
      var all := PrintGaps(gaps) + lines;
      assert all[0] == PrintGap(gaps[0]) && all[1..] == PrintGaps(gaps[1..]) + lines;
    }
  }

  /** A hunk's lines end before such a gap. */
  lemma GapEndsHunk(gaps: seq<Gap>)
    requires AreGaps(gaps) && EndsHunk(gaps) && gaps != []
    ensures !IsBodyLine(PrintGap(gaps[0]))
  {
    var line := PrintGap(gaps[0]);
    assert NO_NEWLINE_MARKER[0] == '\\' && " "[0] == ' ' && "+"[0] == '+' && "-"[0] == '-';
    if gaps[0].Blank? {
      var spaces := gaps[0].spaces;
      if spaces != "" {
        assert spaces[0] in spaces && " " <= [spaces[0]] + spaces[1..] <==> spaces[0] == ' ';
        assert spaces == [spaces[0]] + spaces[1..];
        assert line[0] == spaces[0];
      } else {
        assert line[0] == '\n';
      }
    } else {
      assert line[0] == 'd' || line[0] == 'i';
    }
  }

  /** What follows a hunk is a header or ends the hunk, or there is nothing. */
  lemma AfterHunk(p: Preamble, hunks: seq<Hunk>)
    requires |p.dresses| == |hunks| && IsPreamble(p) && (hunks != [] ==> EndsHunk(p.dresses[0].gaps))
    ensures var rest := PrintDiff(p, hunks);
      rest == [] || ParseHeader(rest[0]).Some? || !IsBodyLine(rest[0])
  {
    hide ParseHeader, IsBodyLine, PrintHeader, PrintGap, EndsHunk, IsGap;
    if hunks != [] {
      var dress := p.dresses[0];
      HeaderFound(hunks[0].header, dress.heading);
      if dress.gaps != [] { GapEndsHunk(dress.gaps); }
    } else if p.last != [] {
      GapEndsHunk(p.last);
    }
  }

  lemma RestIsPreamble(p: Preamble)
    requires IsPreamble(p) && p.dresses != []
    ensures IsPreamble(p.(dresses := p.dresses[1..]))
    ensures |p.dresses| > 1 ==> EndsHunk(p.dresses[1..][0].gaps)
  {
    hide EndsHunk, AreGaps, IsName;
  }

  lemma DiffSplit(p: Preamble, hunks: seq<Hunk>)
    requires |p.dresses| == |hunks| && hunks != []
    ensures PrintDiff(p, hunks) ==
      PrintGaps(p.dresses[0].gaps) + ([PrintHeader(hunks[0].header, p.dresses[0].heading)] +
      (hunks[0].lines + PrintDiff(p.(dresses := p.dresses[1..]), hunks[1..])))
  {
    hide PrintGaps, PrintHeader;
    var gaps, head := PrintGaps(p.dresses[0].gaps), [PrintHeader(hunks[0].header, p.dresses[0].heading)];
    var more, last := PrintHunks(p.dresses[1..], hunks[1..]), PrintGaps(p.last);
    assert PrintHunks(p.dresses, hunks) == gaps + (head + (hunks[0].lines + more));
    assert gaps + (head + (hunks[0].lines + more)) + last == gaps + (head + (hunks[0].lines + (more + last)));
  }

  /** Reading the lines of a printed diff gives its hunks, whatever is between them. */
  lemma {:induction false} HunksFound(p: Preamble, hunks: seq<Hunk>)
    requires |p.dresses| == |hunks| && IsPreamble(p) && Printable(hunks)
    ensures ParseLines(PrintDiff(p, hunks)) == Ok(hunks)
    decreases |hunks|
  {
    hide ParseHeader, ParseLines, BodyLength, PrintHeader, IsSkipped, IsPrinted, IsBodyLine, EndsHunk, IsGap, PrintHunks, IsPreamble;
    if hunks == [] {
      NoHunks(p);
      GapsSkipped(p.last, []);
    } else {
      var h, dress, q := hunks[0], p.dresses[0], p.(dresses := p.dresses[1..]);
      var rest := PrintDiff(q, hunks[1..]);
      var lines := [PrintHeader(h.header, dress.heading)] + (h.lines + rest);
      RestIsPreamble(p);
      FirstDress(p);
      HunksFound(q, hunks[1..]);
      HeaderFound(h.header, dress.heading);
      HeaderNotSkipped(h.header, dress.heading);
      AfterHunk(q, hunks[1..]);
      BodyFound(h.lines, rest);
      OneHunkFound(h, dress.heading, rest, hunks[1..]);
      GapsSkipped(dress.gaps, lines);
      DiffSplit(p, hunks);
      assert hunks == [h] + hunks[1..];
    }
  }

  lemma NoHunks(p: Preamble)
    requires p.dresses == []
    ensures PrintDiff(p, []) == PrintGaps(p.last) + [] == PrintGaps(p.last) && ParseLines([]) == Ok([])
    ensures IsPreamble(p) ==> AreGaps(p.last)
  {
  }

  lemma FirstDress(p: Preamble)
    requires IsPreamble(p) && p.dresses != []
    ensures AreGaps(p.dresses[0].gaps) && (p.dresses[0].heading.Some? ==> IsName(p.dresses[0].heading.value))
  {
  }

  lemma OneHunkFound(h: Hunk, heading: Option<string>, rest: seq<string>, hunks: seq<Hunk>)
    requires ParseHeader(PrintHeader(h.header, heading)) == Some(h.header) && !IsSkipped(PrintHeader(h.header, heading))
    requires BodyLength(h.lines + rest) == |h.lines| && ParseLines(rest) == Ok(hunks)
    ensures ParseLines([PrintHeader(h.header, heading)] + (h.lines + rest)) == Ok([h] + hunks)
  {
    hide ParseHeader, PrintHeader, IsSkipped, BodyLength;
    var lines := [PrintHeader(h.header, heading)] + (h.lines + rest);
    assert lines[1..] == h.lines + rest && lines[1..|h.lines| + 1] == h.lines && lines[|h.lines| + 1..] == rest;
    assert Hunk(h.header, h.lines) == h;
  }

  /** The old file's name right behind a hunk is taken for a line that the hunk deletes. */
  lemma NameTakenForLine(body: seq<string>, text: string)
    requires AllPrinted(body) && IsName(text)
    ensures BodyLength(body + ["--- " + text + "\n"]) == |body| + 1
  {
    hide ParseHeader, BodyLength;
    var line := "--- " + text + "\n";
    assert IsOneLine("\n");
    OneLineJoined("--- " + text, "\n");
    assert "-" <= line && IsPrinted(line);
    BodyFound(body + [line], []);
    assert body + [line] + [] == body + [line];
  }

  // What is no part of a diff

  /** Text that is neither a line of a preamble nor blank. */
  predicate IsStray(line: string) {
    && !("--- " <= line) && !("+++ " <= line) && !("diff " <= line) && !("index " <= line)
    && (exists i :: 0 <= i < |line| && '!' <= line[i] <= '~')
  }

  /** Any other text outside a hunk is refused, and so is a line that is almost a header. */
  lemma StrayRefused(gaps: seq<Gap>, stray: string, rest: seq<string>)
    requires AreGaps(gaps) && IsStray(stray)
    requires !exists h: Header, parts: Parts :: parts.Spell(h) && stray == parts.Line()
    ensures ParseLines(PrintGaps(gaps) + ([stray] + rest)) == Err(PatchInvalid)
  {
    hide ParseHeader, BodyLength, IsGap, PrintGap, Parts.Spell, Parts.Line;
    GapsSkipped(gaps, [stray] + rest);
    var i :| 0 <= i < |stray| && '!' <= stray[i] <= '~';
    assert stray[i] in stray && !IsWhitespace(stray[i]);
    if ParseHeader(stray).Some? {
      HeaderIff(stray, ParseHeader(stray).value);
      assert false;
    }
  }

  // The lines come out of the text as they went in

  /** A line that ends in a line feed. */
  predicate IsFed(line: string) {
    IsOneLine(line) && line[|line| - 1] == '\n'
  }

  predicate AllFed(lines: seq<string>) {
    forall i :: 0 <= i < |lines| ==> IsFed(lines[i])
  }

  lemma {:induction false} FedAreLines(lines: seq<string>)
    requires AllFed(lines)
    ensures AreLines(lines)
  {
    if lines != [] { FedAreLines(lines[1..]); }
  }

  lemma {:induction false} PrintedAreLines(lines: seq<string>)
    requires AllPrinted(lines)
    ensures AreLines(lines)
  {
    hide IsBodyLine, IsOneLine;
    if lines != [] { PrintedAreLines(lines[1..]); }
  }

  lemma LineFed(front: string)
    requires IsName(front)
    ensures IsFed(front + "\n")
  {
    assert IsOneLine("\n");
    OneLineJoined(front, "\n");
  }

  lemma GapFed(gap: Gap)
    requires IsGap(gap)
    ensures IsFed(PrintGap(gap))
  {
    match gap
    case OldName(text) => LineFed("--- " + text);
    case NewName(text) => LineFed("+++ " + text);
    case DiffLine(text) => LineFed("diff " + text);
    case IndexLine(text) => LineFed("index " + text);
    case Blank(spaces) => LineFed(spaces);
  }

  lemma {:induction false} GapsFed(gaps: seq<Gap>)
    requires AreGaps(gaps)
    ensures AllFed(PrintGaps(gaps))
  {
    hide IsFed, IsGap, PrintGap;
    if gaps != [] {
      GapFed(gaps[0]);
      GapsFed(gaps[1..]);
    }
  }

  lemma RangeName(start: nat, count: nat)
    ensures IsName(PrintRange(start, count))
  {
    var digits := Decimal.Digits(start) + Decimal.Digits(count);
    assert forall c <- digits :: Decimal.IsDigit(c);
    assert forall c <- PrintRange(start, count) :: c in digits || c == ',';
  }

  lemma HeaderFed(h: Header, heading: Option<string>)
    requires heading.Some? ==> IsName(heading.value)
    ensures IsFed(PrintHeader(h, heading))
  {
    hide PrintRange, IsFed;
    RangeName(h.oldStart, h.oldCount);
    RangeName(h.newStart, h.newCount);
    var tail := if heading.Some? then " " + heading.value else "";
    var front := "@@ -" + PrintRange(h.oldStart, h.oldCount) + " +" + PrintRange(h.newStart, h.newCount) + " @@" + tail;
    LineFed(front);
    assert PrintHeader(h, heading) == front + "\n";
  }

  /** No hunk ends in a carriage return in front of an empty line: the two would be
      read as one line's end. */
  predicate Fits(p: Preamble, hunks: seq<Hunk>)
    requires |p.dresses| == |hunks|
    decreases |hunks|
  {
    hunks != [] ==>
      var rest := PrintDiff(p.(dresses := p.dresses[1..]), hunks[1..]);
      && (hunks[0].lines != [] && rest != [] ==> Apart(hunks[0].lines[|hunks[0].lines| - 1], rest[0]))
      && Fits(p.(dresses := p.dresses[1..]), hunks[1..])
  }

  lemma {:induction false} DiffAreLines(p: Preamble, hunks: seq<Hunk>)
    requires |p.dresses| == |hunks| && IsPreamble(p) && Printable(hunks) && Fits(p, hunks)
    ensures AreLines(PrintDiff(p, hunks))
    decreases |hunks|
  {
    hide PrintHeader, PrintGap, PrintHunks, IsPreamble, IsGap, EndsHunk, AreGaps, IsName, IsPrinted, AreLines, IsFed, IsOneLine, Apart;
    if hunks == [] {
      NoHunks(p);
      GapsFed(p.last);
      FedAreLines(PrintGaps(p.last));
    } else {
      var dress, h, q := p.dresses[0], hunks[0], p.(dresses := p.dresses[1..]);
      var rest := PrintDiff(q, hunks[1..]);
      RestIsPreamble(p);
      FirstDress(p);
      DiffAreLines(q, hunks[1..]);
      GapsFed(dress.gaps);
      HeaderFed(h.header, dress.heading);
      HunkAreLines(PrintGaps(dress.gaps) + [PrintHeader(h.header, dress.heading)], h.lines, rest);
      DiffSplit(p, hunks);
      assert PrintDiff(p, hunks) == PrintGaps(dress.gaps) + [PrintHeader(h.header, dress.heading)] + h.lines + rest;
    }
  }

  lemma HunkAreLines(front: seq<string>, body: seq<string>, rest: seq<string>)
    requires AllFed(front) && AllPrinted(body) && AreLines(rest)
    requires body != [] && rest != [] ==> Apart(body[|body| - 1], rest[0])
    ensures AreLines(front + body + rest)
  {
    hide AreLines, IsBodyLine, FirstLineEnd;
    FedAreLines(front);
    PrintedAreLines(body);
    assert front != [] ==> IsFed(front[|front| - 1]);
    assert body != [] ==> IsPrinted(body[0]) && IsPrinted(body[|body| - 1]);
    AreLinesJoin(front, body);
    assert body == [] ==> front + body == front;
    AreLinesJoin(front + body, rest);
  }

  /** Reading a printed diff inverts the printer, for any number of hunks, whatever
      preamble, blank lines and section headings are printed with them. */
  lemma PrintedHunksRead(p: Preamble, hunks: seq<Hunk>)
    requires |p.dresses| == |hunks| && IsPreamble(p) && hunks != [] && Printable(hunks) && Fits(p, hunks)
    ensures ParseHunks(Flatten(PrintDiff(p, hunks))) == Ok(hunks)
  {
    hide ParseLines, PrintDiff, IsPreamble, Printable, AreLines, SplitLines, Fits;
    DiffAreLines(p, hunks);
    SplitJoined(PrintDiff(p, hunks));
    HunksFound(p, hunks);
  }

  // Applying the printed script

  function Kept(changes: seq<Change>, tail: seq<string>): (kept: seq<seq<string>>)
    ensures |kept| == |changes| + 1
  {
    if changes == [] then [tail] else [changes[0].kept] + Kept(changes[1..], tail)
  }

  lemma ChangeHunk(header: Header, ops: seq<Op>)
    requires header.oldCount == |OldOf(ops)| && header.newCount == |NewOf(ops)|
    ensures var h := Hunk(header, PrintOps(ops)); Counted(h) && Old(h) == OldOf(ops) && New(h) == NewOf(ops)
  {
    hide NormalizeMarkers, PrintOps, SignedLines, OldSide, NewSide;
    OpsNormalized(ops);
    OpSides(ops);
  }

  lemma {:induction false} ScriptRewrites(oldIndex: nat, newIndex: nat, changes: seq<Change>, tail: seq<string>)
    ensures Rewrites(oldIndex, Hunks(oldIndex, newIndex, changes), Kept(changes, tail),
                     OldText(changes, tail), NewText(changes, tail))
    decreases |changes|
  {
    hide Counted, Old, New, PrintOps, OldOf, NewOf;
    if changes == [] {
      NothingToDo(oldIndex, tail);
    } else {
      var Change(kept, ops) := changes[0];
      var hunks := Hunks(oldIndex, newIndex, changes);
      var h := hunks[0];
      ChangeHunk(h.header, ops);
      var oldNext, newNext := oldIndex + |kept| + |OldOf(ops)|, newIndex + |kept| + |NewOf(ops)|;
      ScriptRewrites(oldNext, newNext, changes[1..], tail);
      assert hunks[1..] == Hunks(oldNext, newNext, changes[1..]);
      FrontAndRest(kept + Old(h), OldText(changes[1..], tail), OldText(changes, tail));
      FrontAndRest(kept + New(h), NewText(changes[1..], tail), NewText(changes, tail));
      RewritesStep(oldIndex, hunks, Kept(changes, tail), OldText(changes, tail), NewText(changes, tail));
    }
  }

  /** The script turns the lines of one text into the lines of another. */
  predicate Edits(script: Script, before: string, after: string) {
    && script.changes != []
    && SplitLines(before) == OldText(script.changes, script.tail)
    && SplitLines(after) == NewText(script.changes, script.tail)
  }

  lemma {:induction false} OpsOneLine(ops: seq<Op>)
    requires forall l <- OldOf(ops) :: IsOneLine(l)
    requires forall l <- NewOf(ops) :: IsOneLine(l)
    ensures OneLiners(ops)
  {
    hide IsOneLine;
    if ops != [] {
      var o, n := OldOf(ops[1..]), NewOf(ops[1..]);
      assert forall l <- o :: l in OldOf(ops);
      assert forall l <- n :: l in NewOf(ops);
      OpsOneLine(ops[1..]);
      assert IsOneLine(ops[0].line) by {
        assert ops[0].line in OldOf(ops) || ops[0].line in NewOf(ops);
      }
    }
  }

  lemma AllInParts(a: seq<string>, b: seq<string>, c: seq<string>)
    requires forall l <- a + b + c :: IsOneLine(l)
    ensures forall l <- b :: IsOneLine(l)
    ensures forall l <- c :: IsOneLine(l)
  {
    hide IsOneLine;
    assert forall l <- b :: l in a + b + c;
    assert forall l <- c :: l in a + b + c;
  }

  lemma {:induction false} ChangesPrintable(oldIndex: nat, newIndex: nat, changes: seq<Change>, tail: seq<string>)
    requires forall l <- OldText(changes, tail) :: IsOneLine(l)
    requires forall l <- NewText(changes, tail) :: IsOneLine(l)
    ensures Printable(Hunks(oldIndex, newIndex, changes))
    decreases |changes|
  {
    hide IsOneLine, IsPrinted, PrintOps, OldOf, NewOf, OneLiners;
    if changes != [] {
      var Change(kept, ops) := changes[0];
      var o, n := OldText(changes[1..], tail), NewText(changes[1..], tail);
      AllInParts(kept, OldOf(ops), o);
      AllInParts(kept, NewOf(ops), n);
      OpsOneLine(ops);
      PrintOpsPrinted(ops);
      ChangesPrintable(oldIndex + |kept| + |OldOf(ops)|, newIndex + |kept| + |NewOf(ops)|, changes[1..], tail);
    }
  }

  /** A preamble for the diff of a script. */
  predicate Dresses(p: Preamble, script: Script) {
    |p.dresses| == |script.changes| && IsPreamble(p) && Fits(p, Hunks(0, 0, script.changes))
  }

  /** Printing an edit script as a diff, with any preamble, and applying it to the old text
      gives the new text, unless the diff is too long or carries a NUL. */
  lemma PatchRoundTrip(p: Preamble, script: Script, before: string, after: string)
    requires Dresses(p, script) && Edits(script, before, after)
    ensures var patch := PrintScript(p, script);
      ApplyPatch(before, patch) ==
        if 0 as char in patch || |Utf8.Encode(patch)| > 131072 then Err(InvalidArgument) else Ok(after)
  {
    hide ParseHunks, ApplyHunks, Hunks, Rewrites, Printable, Kept, OldText, NewText, Flatten, Utf8.Encode, SplitLines,
      IsPreamble, Fits, PrintDiff;
    var hunks := Hunks(0, 0, script.changes);
    SplitLinesJoin(before);
    SplitLinesJoin(after);
    ChangesPrintable(0, 0, script.changes, script.tail);
    PrintedHunksRead(p, hunks);
    ScriptRewrites(0, 0, script.changes, script.tail);
    assert SplitLines(before)[0..] == SplitLines(before);
    ApplyHunksIff(SplitLines(before), 0, hunks, SplitLines(after));
    PrintedNonempty(p, hunks);
  }

  lemma PrintedNonempty(p: Preamble, hunks: seq<Hunk>)
    requires |p.dresses| == |hunks| && ParseHunks(Flatten(PrintDiff(p, hunks))).Ok?
    ensures Flatten(PrintDiff(p, hunks)) != ""
  {
    hide PrintDiff;
  }

  lemma {:induction false} ScriptConsistent(oldIndex: nat, newIndex: nat, changes: seq<Change>)
    ensures Consistent(oldIndex, newIndex, Hunks(oldIndex, newIndex, changes))
    decreases |changes|
  {
    hide PrintOps, OldOf, NewOf;
    if changes != [] {
      var Change(kept, ops) := changes[0];
      var oldNext, newNext := oldIndex + |kept| + |OldOf(ops)|, newIndex + |kept| + |NewOf(ops)|;
      ScriptConsistent(oldNext, newNext, changes[1..]);
      assert Hunks(oldIndex, newIndex, changes)[1..] == Hunks(oldNext, newNext, changes[1..]);
    }
  }

  /** The hunks read from a printed script, swapped, take the new text back to the old. */
  lemma PrintedScriptUndone(p: Preamble, script: Script, before: string, after: string)
    requires Dresses(p, script) && Edits(script, before, after)
    ensures var hunks := ParseHunks(PrintScript(p, script));
      hunks.Ok? && ApplyHunks(SplitLines(after), 0, SwapAll(hunks.value)) == Ok(SplitLines(before))
  {
    hide ParseHunks, ApplyHunks, Hunks, Consistent, Rewrites, Printable, Kept, OldText, NewText, Flatten, SplitLines,
      IsPreamble, Fits, PrintDiff, SwapAll;
    var hunks := Hunks(0, 0, script.changes);
    SplitLinesJoin(before);
    SplitLinesJoin(after);
    ChangesPrintable(0, 0, script.changes, script.tail);
    PrintedHunksRead(p, hunks);
    ScriptRewrites(0, 0, script.changes, script.tail);
    ScriptConsistent(0, 0, script.changes);
    SwapRewrites(hunks, Kept(script.changes, script.tail), SplitLines(before), SplitLines(after));
    assert SplitLines(after)[0..] == SplitLines(after);
    ApplyHunksIff(SplitLines(after), 0, SwapAll(hunks), SplitLines(before));
  }

  /** Any two texts have an edit script between them. */
  lemma EveryEditHasAScript(before: string, after: string)
    ensures exists script :: Edits(script, before, after)
  {
    hide SplitLines, OldOf, NewOf, OldText, NewText;
    var o, n := SplitLines(before), SplitLines(after);
    var deletes := seq(|o|, i requires 0 <= i < |o| => Delete(o[i]));
    var inserts := seq(|n|, i requires 0 <= i < |n| => Insert(n[i]));
    DeletesAndInserts(o, n, deletes, inserts);
    OneChange(deletes + inserts);
    assert Edits(Script([Change([], deletes + inserts)], []), before, after);
  }

  lemma OneChange(ops: seq<Op>)
    ensures OldText([Change([], ops)], []) == OldOf(ops) && NewText([Change([], ops)], []) == NewOf(ops)
  {
    hide OldOf, NewOf;
    var changes := [Change([], ops)];
    assert changes[1..] == [] && OldText([], []) == [] && NewText([], []) == [];
    assert [] + OldOf(ops) + [] == OldOf(ops) && [] + NewOf(ops) + [] == NewOf(ops);
  }

  lemma {:induction false} DeletesAndInserts(o: seq<string>, n: seq<string>, deletes: seq<Op>, inserts: seq<Op>)
    requires |deletes| == |o| && forall i :: 0 <= i < |o| ==> deletes[i] == Delete(o[i])
    requires |inserts| == |n| && forall i :: 0 <= i < |n| ==> inserts[i] == Insert(n[i])
    ensures OldOf(deletes + inserts) == o && NewOf(deletes + inserts) == n
    decreases |o| + |n|
  {
    var ops := deletes + inserts;
    if o != [] {
      assert ops[1..] == deletes[1..] + inserts && ops[0] == Delete(o[0]);
      DeletesAndInserts(o[1..], n, deletes[1..], inserts);
      assert [] + NewOf(ops[1..]) == n && [o[0]] + o[1..] == o;
    } else if n != [] {
      assert ops[1..] == [] + inserts[1..] && ops[0] == Insert(n[0]);
      DeletesAndInserts(o, n[1..], [], inserts[1..]);
      assert [] + OldOf(ops[1..]) == o && [n[0]] + n[1..] == n;
    }
  }
}
