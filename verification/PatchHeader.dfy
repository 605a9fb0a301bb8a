/** What a hunk header is, as text: exactly the lines that are read as one. */
module PatchHeader {
  import opened Common
  import opened Patch
  import Decimal

  predicate IsNumeral(text: string) {
    text != "" && forall i :: 0 <= i < |text| ==> text[i] in "0123456789"
  }

  predicate Spells(text: string, n: nat) {
    IsNumeral(text) && Decimal.AllDigits(text) && Decimal.Value(text) == n
  }

  /** A count of one may be left out, with its comma. */
  predicate SpellsCount(text: string, n: nat) {
    if text == "" then n == 1 else text[0] == ',' && Spells(text[1..], n)
  }

  /** Nothing or a blank and a heading, and perhaps the line's end. */
  predicate IsTail(tail: string) {
    tail == "" || tail == "\n" || (tail[0] == ' ' && forall i :: 1 <= i < |tail| - 1 ==> tail[i] != '\n')
  }

  /** The parts of a header line. */
  datatype Parts = Parts(oldStart: string, oldCount: string, newStart: string, newCount: string, tail: string) {
    function Line(): string {
      "@@ -" + (oldStart + (oldCount + (" +" + (newStart + (newCount + (" @@" + tail))))))
    }

    predicate Spell(h: Header) {
      && Spells(oldStart, h.oldStart) && SpellsCount(oldCount, h.oldCount)
      && Spells(newStart, h.newStart) && SpellsCount(newCount, h.newCount) && IsTail(tail)
    }
  }

  lemma {:induction false} DigitsFound(digits: string, rest: string)
    requires Decimal.AllDigits(digits) && (rest == "" || !Decimal.IsDigit(rest[0]))
    ensures DigitsLength(digits + rest) == |digits|
  {
    if digits == "" {
      assert digits + rest == rest;
    } else {
      assert (digits + rest)[1..] == digits[1..] + rest;
      DigitsFound(digits[1..], rest);
    }
  }

  lemma NumberSpelled(text: string, n: nat, rest: string)
    requires Spells(text, n) && (rest == "" || !Decimal.IsDigit(rest[0]))
    ensures ParseNumber(text + rest) == Some((n, rest))
  {
    hide DigitsLength, Decimal.Value;
    DigitsFound(text, rest);
    assert (text + rest)[..|text|] == text && (text + rest)[|text|..] == rest;
  }

  lemma NumberRead(s: string)
    requires ParseNumber(s).Some?
    ensures var (n, rest) := ParseNumber(s).value; Spells(s[..|s| - |rest|], n) && s == s[..|s| - |rest|] + rest
  {
    hide DigitsLength, Decimal.Value;
    var text := s[..DigitsLength(s)];
    forall i | 0 <= i < |text| ensures text[i] in "0123456789" {
      assert Decimal.IsDigit(text[i]);
      DigitListed(text[i]);
    }
  }

  lemma DigitListed(c: char)
    ensures Decimal.IsDigit(c) <==> c in "0123456789"
  {
    var listed := "0123456789";
    if Decimal.IsDigit(c) { assert listed[c as int - '0' as int] == c; }
  }

  lemma RangeSpelled(start: string, count: string, a: nat, n: nat, rest: string)
    requires Spells(start, a) && SpellsCount(count, n) && rest != "" && rest[0] == ' '
    ensures ParseRange(start + (count + rest)) == Some((a, n, rest))
  {
    hide ParseNumber, Spells;
    if count == "" {
      assert count + rest == rest;
      NumberSpelled(start, a, rest);
    } else {
      NumberSpelled(start, a, count + rest);
      NumberSpelled(count[1..], n, rest);
      assert (count + rest)[1..] == count[1..] + rest;
    }
  }

  lemma RangeRead(s: string) returns (start: string, count: string)
    requires ParseRange(s).Some?
    ensures var (a, n, rest) := ParseRange(s).value;
      Spells(start, a) && SpellsCount(count, n) && s == start + (count + rest)
  {
    hide ParseNumber, ParseCount, Spells, SpellsCount;
    NumberRead(s);
    var (a, after) := ParseNumber(s).value;
    start, count := s[..|s| - |after|], "";
    count := CountRead(after);
  }

  lemma CountRead(s: string) returns (count: string)
    ensures var (n, rest) := ParseCount(s); SpellsCount(count, n) && s == count + rest
  {
    hide ParseNumber, Spells;
    count := "";
    if s != "" && s[0] == ',' && ParseNumber(s[1..]).Some? {
      NumberRead(s[1..]);
      var (n, rest) := ParseNumber(s[1..]).value;
      var numeral := s[1..][..|s[1..]| - |rest|];
      count := "," + numeral;
      assert count[1..] == numeral;
      assert s == [s[0]] + (numeral + rest) == count + rest;
    } else {
      assert count + s == s;
    }
  }

  lemma TailIff(tail: string)
    ensures HeaderTail(tail) <==> IsTail(tail)
  {
    if tail != "" {
      var heading := if tail[|tail| - 1] == '\n' then tail[..|tail| - 1] else tail;
      if IsTail(tail) && tail != "\n" {
        forall i | 0 <= i < |heading| ensures heading[i] != '\n' { assert heading[i] == tail[i]; }
      }
      if HeaderTail(tail) && heading != "" {
        forall i | 1 <= i < |tail| - 1 ensures tail[i] != '\n' { assert tail[i] == heading[i]; }
      }
    }
  }

  lemma PartsRead(parts: Parts, h: Header)
    requires parts.Spell(h)
    ensures ParseHeader(parts.Line()) == Some(h)
  {
    hide ParseRange, Spells, SpellsCount, HeaderTail, IsTail;
    TailIff(parts.tail);
    var afterNew := " @@" + parts.tail;
    var afterOld := " +" + (parts.newStart + (parts.newCount + afterNew));
    RangeSpelled(parts.newStart, parts.newCount, h.newStart, h.newCount, afterNew);
    RangeSpelled(parts.oldStart, parts.oldCount, h.oldStart, h.oldCount, afterOld);
    assert parts.Line()[4..] == parts.oldStart + (parts.oldCount + afterOld);
    assert afterOld[2..] == parts.newStart + (parts.newCount + afterNew);
    assert afterNew[3..] == parts.tail;
  }

  lemma HeaderParts(line: string, h: Header) returns (parts: Parts)
    requires ParseHeader(line) == Some(h)
    ensures parts.Spell(h) && line == parts.Line()
  {
    hide ParseRange, Spells, SpellsCount, HeaderTail, IsTail;
    var first := line[4..];
    var oldStart, oldCount := RangeRead(first);
    var afterOld := ParseRange(first).value.2;
    var newStart, newCount := RangeRead(afterOld[2..]);
    var afterNew := ParseRange(afterOld[2..]).value.2;
    TailIff(afterNew[3..]);
    parts := Parts(oldStart, oldCount, newStart, newCount, afterNew[3..]);
    assert line == "@@ -" + first;
    assert afterOld == " +" + afterOld[2..];
    assert afterNew == " @@" + afterNew[3..];
  }

  /** A line is a hunk header if and only if it is spelled like one, with two ranges of
      decimal numbers between the signs and perhaps a section heading after them. */
  lemma HeaderIff(line: string, h: Header)
    ensures ParseHeader(line) == Some(h) <==> exists parts: Parts :: parts.Spell(h) && line == parts.Line()
  {
    hide ParseHeader, Parts.Spell, Parts.Line;
    if ParseHeader(line) == Some(h) {
      var parts := HeaderParts(line, h);
    }
    forall parts: Parts | parts.Spell(h) && line == parts.Line() ensures ParseHeader(line) == Some(h) {
      PartsRead(parts, h);
    }
  }
}
