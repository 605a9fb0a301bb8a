/** The engine's loops, proved against the specification in Patch. */
module PatchEngine {
  import opened Common
  import opened Bytes
  import opened TextLines
  import opened Patch
  import Utf8

  lemma {:induction false} MarkersFail(lines: seq<string>, n: nat)
    requires n <= |lines| && NormalizeMarkers(lines[..n]).Err?
    ensures NormalizeMarkers(lines) == NormalizeMarkers(lines[..n])
    decreases |lines| - n
  {
    if n < |lines| {
      assert lines[..n + 1][..n] == lines[..n];
      MarkersFail(lines, n + 1);
    } else {
      assert lines[..n] == lines;
    }
  }

  method NormalizeNoNewlineMarkers(lines: seq<string>) returns (r: Result<seq<string>>)
    ensures r == NormalizeMarkers(lines)
  {
    hide DropNewline;
    var normalized: seq<string> := [];
    for i := 0 to |lines|
      invariant NormalizeMarkers(lines[..i]) == Ok(normalized)
    {
      var line := lines[i];
      assert lines[..i + 1][..i] == lines[..i];
      if NO_NEWLINE_MARKER <= line {
        if normalized == [] {
          MarkersFail(lines, i + 1);
          return Err(PatchInvalid);
        }
        normalized := normalized[..|normalized| - 1] + [DropNewline(normalized[|normalized| - 1])];
      } else if " " <= line || "+" <= line || "-" <= line {
        normalized := normalized + [line];
      } else {
        MarkersFail(lines, i + 1);
        return Err(PatchInvalid);
      }
    }
    assert lines[..|lines|] == lines;
    r := Ok(normalized);
  }

  /** What was already found in front of what a later step finds. */
  function After<T>(found: seq<T>, later: Result<seq<T>>): (r: Result<seq<T>>)
    ensures found == [] ==> r == later
  {
    if later.Ok? then
      assert [] + later.value == later.value;
      Ok(found + later.value)
    else later
  }

  lemma AfterAll<T>(found: seq<T>)
    ensures After(found, Ok([])) == Ok(found)
    ensures forall e {:trigger After(found, Err(e))} :: After(found, Err(e)) == Err(e)
  {
    assert found + [] == found;
  }

  lemma AfterTwice<T>(a: seq<T>, b: seq<T>, later: Result<seq<T>>)
    ensures After(a, After(b, later)) == After(a + b, later)
  {
    if later.Ok? { assert a + (b + later.value) == a + b + later.value; }
  }

  lemma SliceOfRest<T>(s: seq<T>, start: nat, end: nat)
    requires start < end <= |s|
    ensures s[start..][1..] == s[start + 1..]
    ensures s[start..][1..end - start] == s[start + 1..end]
    ensures s[start..][end - start..] == s[end..]
  {
  }

  method ParseHunkLines(patch: string) returns (r: Result<seq<Hunk>>)
    ensures r == ParseHunks(patch)
  {
    hide ParseHeader, IsSkipped, IsBodyLine, SplitLines, BodyLength, After;
    var lines := SplitLines(patch);
    var hunks: seq<Hunk> := [];
    var index := 0;
    assert lines[0..] == lines;
    while index < |lines|
      invariant index <= |lines|
      invariant ParseLines(lines) == After(hunks, ParseLines(lines[index..]))
    {
      var line := lines[index];
      assert lines[index..][1..] == lines[index + 1..];
      if IsSkipped(line) {
        index := index + 1;
      } else {
        var header := ParseHeader(line);
        if header == None {
          AfterAll(hunks);
          return Err(PatchInvalid);
        }
        var body: seq<string>;
        ghost var start := index;
        body, index := CollectBody(lines, index + 1);
        SliceOfRest(lines, start, index);
        HunkParsed(lines[start..], header.value, body, lines[index..]);
        AfterTwice(hunks, [Hunk(header.value, body)], ParseLines(lines[index..]));
        hunks := hunks + [Hunk(header.value, body)];
      }
    }
    assert lines[index..] == [];
    AfterAll(hunks);
    if hunks == [] {
      return Err(PatchInvalid);
    }
    r := Ok(hunks);
  }

  method CollectBody(lines: seq<string>, start: nat) returns (body: seq<string>, index: nat)
    requires start <= |lines|
    ensures start <= index <= |lines| && body == lines[start..index] && index - start == BodyLength(lines[start..])
  {
    hide ParseHeader, IsBodyLine;
    body, index := [], start;
    while index < |lines| && ParseHeader(lines[index]) == None && IsBodyLine(lines[index])
      invariant start <= index <= |lines| && body == lines[start..index]
      invariant BodyLength(lines[start..]) == index - start + BodyLength(lines[index..])
    {
      assert lines[index..][1..] == lines[index + 1..];
      body := body + [lines[index]];
      index := index + 1;
    }
  }

  lemma HunkParsed(lines: seq<string>, header: Header, body: seq<string>, rest: seq<string>)
    requires lines != [] && !IsSkipped(lines[0]) && ParseHeader(lines[0]) == Some(header)
    requires var n := BodyLength(lines[1..]); body == lines[1..n + 1] && rest == lines[n + 1..]
    ensures ParseLines(lines) == After([Hunk(header, body)], ParseLines(rest))
  {
    hide ParseHeader, IsSkipped, BodyLength;
  }

  /** An effect on top of what was already added and consumed. */
  function AfterBody(added: seq<string>, consumed: nat, later: Result<Effect>): Result<Effect> {
    if later.Ok? then Ok(Effect(added + later.value.added, consumed + later.value.consumed)) else later
  }

  lemma AfterBodyTwice(a: seq<string>, m: nat, b: seq<string>, n: nat, later: Result<Effect>)
    ensures AfterBody(a, m, AfterBody(b, n, later)) == AfterBody(a + b, m + n, later)
    ensures AfterBody([], 0, later) == later
  {
    if later.Ok? {
      assert a + (b + later.value.added) == a + b + later.value.added;
      assert [] + later.value.added == later.value.added;
    }
  }

  /** One body line in front of the rest of the body. */
  lemma BodyStep(source: seq<string>, index: nat, body: seq<string>)
    requires body != []
    ensures var line, rest := body[0], body[1..];
            ApplyBody(source, index, body) ==
            if " " <= line || "-" <= line then
              if index >= |source| || source[index] != line[1..] then Err(FileConflict)
              else AfterBody(if " " <= line then [line[1..]] else [], 1, ApplyBody(source, index + 1, rest))
            else if "+" <= line then AfterBody([line[1..]], 0, ApplyBody(source, index, rest))
            else Err(PatchInvalid)
  {
    var line, rest := body[0], body[1..];
    var later := ApplyBody(source, index + 1, rest);
    if later.Ok? { assert [] + later.value.added == later.value.added; }
  }

  method ApplyHunkBody(source: seq<string>, target: nat, body: seq<string>)
      returns (error: Option<PatchError>, added: seq<string>, sourceIndex: nat, consumed: nat, produced: nat)
    requires target <= |source|
    ensures match ApplyBody(source, target, body)
            case Err(e) => error == Some(e)
            case Ok(effect) =>
              error == None && added == effect.added && consumed == effect.consumed && produced == |added| &&
              sourceIndex == target + consumed
  {
    hide ApplyBody, AfterBody;
    error, added, sourceIndex, consumed, produced := None, [], target, 0, 0;
    assert body[0..] == body;
    AfterBodyTwice([], 0, [], 0, ApplyBody(source, target, body));
    for i := 0 to |body|
      invariant sourceIndex == target + consumed && produced == |added| && error == None
      invariant ApplyBody(source, target, body) == AfterBody(added, consumed, ApplyBody(source, sourceIndex, body[i..]))
    {
      var line := body[i];
      assert body[i..][1..] == body[i + 1..];
      BodyStep(source, sourceIndex, body[i..]);
      AfterBodyFails(added, consumed);
      var value := if line == "" then "" else line[1..];
      if " " <= line {
        AfterBodyTwice(added, consumed, [value], 1, ApplyBody(source, sourceIndex + 1, body[i + 1..]));
        if sourceIndex >= |source| || source[sourceIndex] != value { error := Some(FileConflict); return; }
        added, sourceIndex, consumed, produced := added + [value], sourceIndex + 1, consumed + 1, produced + 1;
      } else if "-" <= line {
        AfterBodyTwice(added, consumed, [], 1, ApplyBody(source, sourceIndex + 1, body[i + 1..]));
        assert added + [] == added;
        if sourceIndex >= |source| || source[sourceIndex] != value { error := Some(FileConflict); return; }
        sourceIndex, consumed := sourceIndex + 1, consumed + 1;
      } else if "+" <= line {
        AfterBodyTwice(added, consumed, [value], 0, ApplyBody(source, sourceIndex, body[i + 1..]));
        added, produced := added + [value], produced + 1;
      } else {
        error := Some(PatchInvalid);
        return;
      }
    }
    BodyDone(source, sourceIndex, added, consumed);
    assert body[|body|..] == [];
  }

  lemma AfterBodyFails(added: seq<string>, consumed: nat)
    ensures forall e {:trigger AfterBody(added, consumed, Err(e))} :: AfterBody(added, consumed, Err(e)) == Err(e)
  {
  }

  lemma BodyDone(source: seq<string>, index: nat, added: seq<string>, consumed: nat)
    ensures AfterBody(added, consumed, ApplyBody(source, index, [])) == Ok(Effect(added, consumed))
  {
    assert added + [] == added;
  }

  method ApplyUnifiedPatch(original: string, patch: string) returns (r: Result<string>)
    ensures r == ApplyPatch(original, patch)
  {
    hide ParseHunks, NormalizeMarkers, ApplyBody, SplitLines, After;
    if patch == "" || 0 as char in patch || |Utf8.Encode(patch)| > MAX_PATCH_BYTES {
      return Err(InvalidArgument);
    }
    var parsed := ParseHunkLines(patch);
    if parsed.Err? { return Err(parsed.error); }
    var hunks, source := parsed.value, SplitLines(original);
    var result: seq<string>, cursor: nat := [], 0;
    assert hunks[0..] == hunks;
    for i := 0 to |hunks|
      invariant cursor <= |source|
      invariant ApplyHunks(source, 0, hunks) == After(result, ApplyHunks(source, cursor, hunks[i..]))
    {
      var hunk := hunks[i];
      assert hunks[i..][1..] == hunks[i + 1..];
      AfterAll(result);
      var target := Target(hunk.header);
      if target < cursor || target > |source| { return Err(FileConflict); }
      var body := NormalizeNoNewlineMarkers(hunk.lines);
      if body.Err? { return Err(body.error); }
      var error, added, sourceIndex, consumed, produced := ApplyHunkBody(source, target, body.value);
      if error != None { return Err(error.value); }
      if consumed != hunk.header.oldCount || produced != hunk.header.newCount { return Err(PatchInvalid); }
      BodyStaysInside(source, target, body.value);
      HunkApplied(source, cursor, hunks[i..], source[cursor..target] + added, sourceIndex);
      AfterTwice(result, source[cursor..target] + added, ApplyHunks(source, sourceIndex, hunks[i + 1..]));
      assert result + (source[cursor..target] + added) == result + source[cursor..target] + added;
      result := result + source[cursor..target] + added;
      cursor := sourceIndex;
    }
    assert hunks[|hunks|..] == [];
    AllApplied(result, source[cursor..]);
    r := Ok(Flatten(result + source[cursor..]));
  }

  lemma AllApplied(result: seq<string>, rest: seq<string>)
    ensures After(result, Ok(rest)) == Ok(result + rest)
  {
  }

  lemma HunkApplied(source: seq<string>, cursor: nat, hunks: seq<Hunk>, lines: seq<string>, next: nat)
    requires cursor <= |source| && hunks != [] && ApplyHunk(source, cursor, hunks[0]) == Ok((lines, next))
    ensures next <= |source|
    ensures ApplyHunks(source, cursor, hunks) == After(lines, ApplyHunks(source, next, hunks[1..]))
  {
    hide ApplyHunk;
  }
}
