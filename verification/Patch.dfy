/** The unified-diff engine: hunk parsing and application. */
module Patch {
  import opened Common
  import opened Bytes
  import opened TextLines
  import Decimal
  import Utf8

  const MAX_PATCH_BYTES := 131072
  const NO_NEWLINE_MARKER := "\\ No newline at end of file"

  datatype PatchError = InvalidArgument | FileConflict | PatchInvalid

  datatype Result<+T> = Ok(value: T) | Err(error: PatchError)

  datatype Header = Header(oldStart: nat, oldCount: nat, newStart: nat, newCount: nat)

  datatype Hunk = Hunk(header: Header, lines: seq<string>)

  /** A decimal number at the front of `s`, and what follows it. */
  function ParseNumber(s: string): (r: Option<(nat, string)>)
    ensures r.Some? ==> |r.value.1| < |s|
  {
    var n := DigitsLength(s);
    if n == 0 then None else Some((Decimal.Value(s[..n]), s[n..]))
  }

  function DigitsLength(s: string): (n: nat)
    ensures n <= |s| && Decimal.AllDigits(s[..n])
    ensures n < |s| ==> !Decimal.IsDigit(s[n])
  {
    if s == "" || !Decimal.IsDigit(s[0]) then 0 else 1 + DigitsLength(s[1..])
  }

  /** A comma and a number, or nothing and the count 1. */
  function ParseCount(s: string): (nat, string) {
    if s != "" && s[0] == ',' && ParseNumber(s[1..]).Some? then ParseNumber(s[1..]).value else (1, s)
  }

  /** A start and an optional count. */
  function ParseRange(s: string): Option<(nat, nat, string)> {
    match ParseNumber(s)
    case None => None
    case Some((start, rest)) => var (count, rest) := ParseCount(rest); Some((start, count, rest))
  }

  /** What may follow the second pair of at signs: nothing, or a blank and a
      section heading; then perhaps the line's end. */
  predicate HeaderTail(s: string) {
    var heading := if s != "" && s[|s| - 1] == '\n' then s[..|s| - 1] else s;
    heading == "" || (heading[0] == ' ' && '\n' !in heading)
  }

  function ParseHeader(line: string): Option<Header> {
    if !("@@ -" <= line) then None
    else
      match ParseRange(line[4..])
      case None => None
      case Some((oldStart, oldCount, rest)) =>
        if !(" +" <= rest) then None
        else
          match ParseRange(rest[2..])
          case None => None
          case Some((newStart, newCount, rest)) =>
            if " @@" <= rest && HeaderTail(rest[3..]) then Some(Header(oldStart, oldCount, newStart, newCount))
            else None
  }

  predicate IsWhitespace(c: char) {
    var n := c as int;
    9 <= n <= 13 || 0x1C <= n <= 0x20 || n == 0x85 || n == 0xA0 || n == 0x1680 || 0x2000 <= n <= 0x200A ||
    n == 0x2028 || n == 0x2029 || n == 0x202F || n == 0x205F || n == 0x3000
  }

  /** File header lines and blank lines between hunks carry nothing. */
  predicate IsSkipped(line: string) {
    "--- " <= line || "+++ " <= line || "diff " <= line || "index " <= line || forall c <- line :: IsWhitespace(c)
  }

  predicate IsBodyLine(line: string) {
    " " <= line || "+" <= line || "-" <= line || NO_NEWLINE_MARKER <= line
  }

  /** How many of the lines belong to the hunk whose header came before them. */
  function BodyLength(lines: seq<string>): (n: nat)
    ensures n <= |lines|
  {
    if lines != [] && ParseHeader(lines[0]) == None && IsBodyLine(lines[0]) then 1 + BodyLength(lines[1..]) else 0
  }

  function ParseLines(lines: seq<string>): Result<seq<Hunk>>
    decreases |lines|
  {
    if lines == [] then Ok([])
    else if IsSkipped(lines[0]) then ParseLines(lines[1..])
    else
      match ParseHeader(lines[0])
      case None => Err(PatchInvalid)
      case Some(header) =>
        var n := BodyLength(lines[1..]);
        match ParseLines(lines[n + 1..])
        case Ok(hunks) => Ok([Hunk(header, lines[1..n + 1])] + hunks)
        case Err(e) => Err(e)
  }

  function ParseHunks(patch: string): Result<seq<Hunk>> {
    var parsed := ParseLines(SplitLines(patch));
    if parsed == Ok([]) then Err(PatchInvalid) else parsed
  }

  function DropNewline(line: string): string {
    if line != "" && line[|line| - 1] == '\n' then line[..|line| - 1] else line
  }

  /** Body lines with the no-newline markers applied to the lines before them. */
  function NormalizeMarkers(lines: seq<string>): Result<seq<string>> {
    if lines == [] then Ok([])
    else
      var last := lines[|lines| - 1];
      match NormalizeMarkers(lines[..|lines| - 1])
      case Err(e) => Err(e)
      case Ok(done) =>
        if NO_NEWLINE_MARKER <= last then
          if done == [] then Err(PatchInvalid) else Ok(done[..|done| - 1] + [DropNewline(done[|done| - 1])])
        else if " " <= last || "+" <= last || "-" <= last then Ok(done + [last])
        else Err(PatchInvalid)
  }

  /** The index in the source at which a hunk applies: a hunk that takes no lines
      goes after the line its start names. */
  function Target(h: Header): int {
    if h.oldCount > 0 then h.oldStart - 1 else h.oldStart
  }

  /** The lines a hunk body puts in the result, how many source lines it takes. */
  datatype Effect = Effect(added: seq<string>, consumed: nat)

  function ApplyBody(source: seq<string>, index: nat, body: seq<string>): Result<Effect>
    decreases |body|
  {
    if body == [] then Ok(Effect([], 0))
    else
      var line := body[0];
      var value := if line == "" then "" else line[1..];
      if " " <= line then
        if index >= |source| || source[index] != value then Err(FileConflict)
        else
          match ApplyBody(source, index + 1, body[1..])
          case Ok(e) => Ok(Effect([value] + e.added, e.consumed + 1))
          case Err(e) => Err(e)
      else if "-" <= line then
        if index >= |source| || source[index] != value then Err(FileConflict)
        else
          match ApplyBody(source, index + 1, body[1..])
          case Ok(e) => Ok(e.(consumed := e.consumed + 1))
          case Err(e) => Err(e)
      else if "+" <= line then
        match ApplyBody(source, index, body[1..])
        case Ok(e) => Ok(Effect([value] + e.added, e.consumed))
        case Err(e) => Err(e)
      else Err(PatchInvalid)
  }

  lemma {:induction false} BodyStaysInside(source: seq<string>, index: nat, body: seq<string>)
    requires index <= |source| && ApplyBody(source, index, body).Ok?
    ensures index + ApplyBody(source, index, body).value.consumed <= |source|
    decreases |body|
  {
    if body != [] {
      if "+" <= body[0] && !(" " <= body[0]) && !("-" <= body[0]) {
        BodyStaysInside(source, index, body[1..]);
      } else {
        BodyStaysInside(source, index + 1, body[1..]);
      }
    }
  }

  /** One hunk from `cursor` on: the lines it adds to the result, kept ones
      included, and the new cursor. */
  function ApplyHunk(source: seq<string>, cursor: nat, hunk: Hunk): (r: Result<(seq<string>, nat)>)
    requires cursor <= |source|
    ensures r.Ok? ==> cursor <= Target(hunk.header) <= r.value.1 <= |source|
  {
    var target := Target(hunk.header);
    if target < cursor || target > |source| then Err(FileConflict)
    else
      match NormalizeMarkers(hunk.lines)
      case Err(e) => Err(e)
      case Ok(body) =>
        match ApplyBody(source, target, body)
        case Err(e) => Err(e)
        case Ok(effect) =>
          BodyStaysInside(source, target, body);
          if effect.consumed != hunk.header.oldCount || |effect.added| != hunk.header.newCount then Err(PatchInvalid)
          else Ok((source[cursor..target] + effect.added, target + effect.consumed))
  }

  /** The result from `cursor` on. */
  function ApplyHunks(source: seq<string>, cursor: nat, hunks: seq<Hunk>): Result<seq<string>>
    requires cursor <= |source|
    decreases |hunks|
  {
    if hunks == [] then Ok(source[cursor..])
    else
      match ApplyHunk(source, cursor, hunks[0])
      case Err(e) => Err(e)
      case Ok((lines, next)) =>
        match ApplyHunks(source, next, hunks[1..])
        case Err(e) => Err(e)
        case Ok(rest) => Ok(lines + rest)
  }

  function ApplyPatch(original: string, patch: string): Result<string> {
    if patch == "" || 0 as char in patch || |Utf8.Encode(patch)| > MAX_PATCH_BYTES then Err(InvalidArgument)
    else
      match ParseHunks(patch)
      case Err(e) => Err(e)
      case Ok(hunks) =>
        match ApplyHunks(SplitLines(original), 0, hunks)
        case Err(e) => Err(e)
        case Ok(lines) => Ok(Flatten(lines))
  }
}
