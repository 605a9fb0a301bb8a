/** Undoing a patch: the hunks with their two sides swapped take the result back. */
module PatchInverse {
  import opened Patch
  import opened PatchMeaning

  function SwapLine(line: string): string {
    if "+" <= line then "-" + line[1..]
    else if "-" <= line then "+" + line[1..]
    else line
  }

  function SwapLines(lines: seq<string>): (swapped: seq<string>)
    ensures |swapped| == |lines|
  {
    seq(|lines|, i requires 0 <= i < |lines| => SwapLine(lines[i]))
  }

  function SwapHeader(h: Header): Header {
    Header(h.newStart, h.newCount, h.oldStart, h.oldCount)
  }

  function Swap(h: Hunk): Hunk {
    Hunk(SwapHeader(h.header), SwapLines(h.lines))
  }

  function SwapAll(hunks: seq<Hunk>): (swapped: seq<Hunk>)
    ensures |swapped| == |hunks|
  {
    seq(|hunks|, i requires 0 <= i < |hunks| => Swap(hunks[i]))
  }

  lemma SwapLineTwice(line: string)
    ensures SwapLine(SwapLine(line)) == line
  {
    if "+" <= line {
      assert line == "+" + line[1..];
    } else if "-" <= line {
      assert line == "-" + line[1..];
    }
  }

  lemma SwapTwice(hunks: seq<Hunk>)
    ensures SwapAll(SwapAll(hunks)) == hunks
  {
    forall i | 0 <= i < |hunks| ensures Swap(Swap(hunks[i])) == hunks[i] {
      var h := hunks[i];
      forall j | 0 <= j < |h.lines| ensures SwapLine(SwapLine(h.lines[j])) == h.lines[j] {
        SwapLineTwice(h.lines[j]);
      }
      assert SwapLines(SwapLines(h.lines)) == h.lines;
    }
  }

  lemma SwapLineKind(line: string)
    ensures IsOpLine(line) <==> IsOpLine(SwapLine(line))
    ensures NO_NEWLINE_MARKER <= line <==> NO_NEWLINE_MARKER <= SwapLine(line)
    ensures IsOpLine(line) ==> SwapLine(line) != "" && SwapLine(line)[1..] == line[1..]
    ensures "+" <= line <==> "-" <= SwapLine(line)
    ensures "-" <= line <==> "+" <= SwapLine(line)
  {
    assert NO_NEWLINE_MARKER[0] == '\\';
    assert "+" <= line ==> line[0] == "+"[0];
    assert "-" <= line ==> line[0] == "-"[0];
    assert " " <= line ==> line[0] == " "[0];
    assert NO_NEWLINE_MARKER <= line ==> line[0] == '\\';
    assert SwapLine(line) != "" ==> NO_NEWLINE_MARKER <= SwapLine(line) ==> SwapLine(line)[0] == '\\';
  }

  lemma SignKept(sign: char, rest: string)
    requires sign != '\n'
    ensures DropNewline([sign] + rest) == [sign] + DropNewline(rest)
  {
  }

  lemma SwapDropNewline(line: string)
    requires IsOpLine(line)
    ensures DropNewline(SwapLine(line)) == SwapLine(DropNewline(line))
  {
    var sign, rest := line[0], line[1..];
    assert line == [sign] + rest && |DropNewline([sign] + rest)| > 0;
    SignKept(sign, rest);
    if sign == '+' {
      assert SwapLine(line) == "-" + rest && SwapLine(['+'] + DropNewline(rest)) == "-" + DropNewline(rest);
      SignKept('-', rest);
    } else if sign == '-' {
      assert SwapLine(line) == "+" + rest && SwapLine(['-'] + DropNewline(rest)) == "+" + DropNewline(rest);
      SignKept('+', rest);
    }
  }

  function SwapBody(r: Result<seq<string>>): Result<seq<string>> {
    if r.Ok? then Ok(SwapLines(r.value)) else r
  }

  /** Markers keep their meaning when the signs of the lines before them change. */
  lemma {:induction false} SwapNormalized(lines: seq<string>)
    ensures NormalizeMarkers(SwapLines(lines)) == SwapBody(NormalizeMarkers(lines))
  {
    hide SwapLine, DropNewline, IsOpLine;
    if lines != [] {
      var last, front := lines[|lines| - 1], lines[..|lines| - 1];
      assert SwapLines(lines)[..|lines| - 1] == SwapLines(front);
      assert SwapLines(lines)[|lines| - 1] == SwapLine(last);
      SwapNormalized(front);
      NormalizedLines(front);
      SwapLineKind(last);
      match NormalizeMarkers(front)
      case Err(_) =>
      case Ok(done) => NormalizeLast(lines, done); NormalizeLast(SwapLines(lines), SwapLines(done)); SwapLast(done, last);
    } else {
      assert SwapLines(lines) == [];
    }
  }

  lemma NormalizeLast(lines: seq<string>, done: seq<string>)
    requires lines != [] && NormalizeMarkers(lines[..|lines| - 1]) == Ok(done)
    ensures var last := lines[|lines| - 1];
      NormalizeMarkers(lines) ==
        if NO_NEWLINE_MARKER <= last then
          if done == [] then Err(PatchInvalid) else Ok(done[..|done| - 1] + [DropNewline(done[|done| - 1])])
        else if IsOpLine(last) then Ok(done + [last])
        else Err(PatchInvalid)
  {
    hide DropNewline;
  }

  lemma SwapLast(done: seq<string>, last: string)
    requires OpLines(done)
    ensures SwapLines(done + [last]) == SwapLines(done) + [SwapLine(last)]
    ensures done != [] ==>
      SwapLines(done[..|done| - 1] + [DropNewline(done[|done| - 1])])
      == SwapLines(done)[..|done| - 1] + [DropNewline(SwapLines(done)[|done| - 1])]
  {
    hide SwapLine, DropNewline, IsOpLine;
    if done != [] {
      SwapDropNewline(done[|done| - 1]);
    }
  }

  lemma {:induction false} SwapSides(body: seq<string>)
    requires OpLines(body)
    ensures OpLines(SwapLines(body))
    ensures OldSide(SwapLines(body)) == NewSide(body)
    ensures NewSide(SwapLines(body)) == OldSide(body)
  {
    hide SwapLine, IsOpLine;
    if body == [] {
      assert SwapLines(body) == [];
    } else {
      SwapLineKind(body[0]);
      SwapSides(body[1..]);
      assert SwapLines(body)[1..] == SwapLines(body[1..]);
      assert SwapLines(body)[0] == SwapLine(body[0]);
      assert OpLines(SwapLines(body)) by {
        assert forall i :: 1 <= i < |body| ==> SwapLines(body)[i] == SwapLines(body)[1..][i - 1];
      }
    }
  }

  lemma SwapHunk(h: Hunk)
    ensures Counted(Swap(h)) <==> Counted(h)
    ensures Counted(h) ==> Old(Swap(h)) == New(h) && New(Swap(h)) == Old(h)
  {
    hide NormalizeMarkers, OldSide, NewSide, SwapLines, IsOpLine;
    SwapNormalized(h.lines);
    if NormalizeMarkers(h.lines).Ok? { SwapSides(Body(h)); }
  }

  /** The index in the result at which a hunk's new side stands. */
  function NewTarget(h: Header): int {
    Target(SwapHeader(h))
  }

  /** The headers agree on how far apart the hunks are in both texts; applying a
      patch never looks at the new starts, so this is asked of the patch itself. */
  predicate Consistent(oldCursor: int, newCursor: int, hunks: seq<Hunk>)
    decreases |hunks|
  {
    hunks == [] ||
    var h := hunks[0].header;
    && Target(h) - oldCursor == NewTarget(h) - newCursor
    && Consistent(Target(h) + h.oldCount, NewTarget(h) + h.newCount, hunks[1..])
  }

  lemma {:induction false} SwapPlaced(oldCursor: nat, newCursor: nat, kept: seq<seq<string>>, hunks: seq<Hunk>)
    requires |kept| == |hunks| + 1 && Placed(oldCursor, kept, hunks) && Consistent(oldCursor, newCursor, hunks)
    ensures Placed(newCursor, kept, SwapAll(hunks))
    decreases |hunks|
  {
    hide SwapLines;
    if hunks != [] {
      var h := hunks[0].header;
      assert SwapAll(hunks)[1..] == SwapAll(hunks[1..]);
      SwapPlaced(oldCursor + |kept[0]| + h.oldCount, newCursor + |kept[0]| + h.newCount, kept[1..], hunks[1..]);
    }
  }

  lemma {:induction false} SwapConsistent(oldCursor: int, newCursor: int, hunks: seq<Hunk>)
    requires Consistent(oldCursor, newCursor, hunks)
    ensures Consistent(newCursor, oldCursor, SwapAll(hunks))
    decreases |hunks|
  {
    hide SwapLines;
    if hunks != [] {
      var h := hunks[0].header;
      assert SwapAll(hunks)[1..] == SwapAll(hunks[1..]);
      SwapConsistent(Target(h) + h.oldCount, NewTarget(h) + h.newCount, hunks[1..]);
    }
  }

  lemma SwapRewrites(hunks: seq<Hunk>, kept: seq<seq<string>>, before: seq<string>, after: seq<string>)
    requires Rewrites(0, hunks, kept, before, after) && Consistent(0, 0, hunks)
    ensures Rewrites(0, SwapAll(hunks), kept, after, before)
  {
    hide Counted, Old, New, Swap, Placed, Consistent, Weave;
    var swapped := SwapAll(hunks);
    forall i | 0 <= i < |hunks| ensures Counted(swapped[i]) && Old(swapped[i]) == New(hunks[i]) && New(swapped[i]) == Old(hunks[i]) {
      assert hunks[i] in hunks && swapped[i] == Swap(hunks[i]);
      SwapHunk(hunks[i]);
    }
    assert Olds(swapped) == News(hunks) && News(swapped) == Olds(hunks);
    SwapPlaced(0, 0, kept, hunks);
  }

  lemma Undo(source: seq<string>, hunks: seq<Hunk>, after: seq<string>)
    requires Consistent(0, 0, hunks) && ApplyHunks(source, 0, hunks) == Ok(after)
    ensures ApplyHunks(after, 0, SwapAll(hunks)) == Ok(source)
  {
    hide ApplyHunks, Rewrites, Consistent, SwapAll;
    assert source[0..] == source && after[0..] == after;
    ApplyHunksIff(source, 0, hunks, after);
    var kept :| Rewrites(0, hunks, kept, source[0..], after);
    SwapRewrites(hunks, kept, source, after);
    ApplyHunksIff(after, 0, SwapAll(hunks), source);
  }

  /** One list of hunks leads from `source` to `after` exactly when its swap leads back. */
  lemma UndoIff(source: seq<string>, hunks: seq<Hunk>, after: seq<string>)
    requires Consistent(0, 0, hunks)
    ensures ApplyHunks(source, 0, hunks) == Ok(after) <==> ApplyHunks(after, 0, SwapAll(hunks)) == Ok(source)
  {
    hide ApplyHunks, Consistent, SwapAll;
    if ApplyHunks(source, 0, hunks) == Ok(after) {
      Undo(source, hunks, after);
    } else if ApplyHunks(after, 0, SwapAll(hunks)) == Ok(source) {
      SwapConsistent(0, 0, hunks);
      SwapTwice(hunks);
      Undo(after, SwapAll(hunks), source);
      assert false;
    }
  }

  /** Every hunk's new side stands where its new start says. */
  predicate PlacedNew(cursor: nat, kept: seq<seq<string>>, hunks: seq<Hunk>)
    requires |kept| == |hunks| + 1
    decreases |hunks|
  {
    hunks == [] ||
    (NewTarget(hunks[0].header) == cursor + |kept[0]| &&
     PlacedNew(cursor + |kept[0]| + hunks[0].header.newCount, kept[1..], hunks[1..]))
  }

  lemma {:induction false} SwapPlacedIff(cursor: nat, kept: seq<seq<string>>, hunks: seq<Hunk>)
    requires |kept| == |hunks| + 1
    ensures Placed(cursor, kept, SwapAll(hunks)) <==> PlacedNew(cursor, kept, hunks)
    decreases |hunks|
  {
    hide SwapLines;
    if hunks != [] {
      assert SwapAll(hunks)[1..] == SwapAll(hunks[1..]);
      SwapPlacedIff(cursor + |kept[0]| + hunks[0].header.newCount, kept[1..], hunks[1..]);
    }
  }

  /** `after` is the same kept pieces around the new sides, each in its new place, as
      `back` is around the old ones. */
  ghost predicate Unweaves(hunks: seq<Hunk>, kept: seq<seq<string>>, after: seq<string>, back: seq<string>) {
    && |kept| == |hunks| + 1
    && (forall h <- hunks :: Counted(h))
    && PlacedNew(0, kept, hunks)
    && after == Weave(kept, News(hunks))
    && back == Weave(kept, Olds(hunks))
  }

  lemma UnweavesIff(hunks: seq<Hunk>, kept: seq<seq<string>>, after: seq<string>, back: seq<string>)
    ensures Unweaves(hunks, kept, after, back) <==> Rewrites(0, SwapAll(hunks), kept, after, back)
  {
    hide Counted, Old, New, Swap, Placed, PlacedNew, Weave;
    var swapped := SwapAll(hunks);
    forall i | 0 <= i < |hunks|
      ensures Counted(swapped[i]) <==> Counted(hunks[i])
      ensures Counted(hunks[i]) ==> Old(swapped[i]) == New(hunks[i]) && New(swapped[i]) == Old(hunks[i])
    {
      assert swapped[i] == Swap(hunks[i]);
      SwapHunk(hunks[i]);
    }
    assert (forall h <- swapped :: Counted(h)) <==> (forall h <- hunks :: Counted(h)) by {
      if forall h <- swapped :: Counted(h) {
        forall i | 0 <= i < |hunks| ensures Counted(hunks[i]) { assert swapped[i] in swapped; }
      }
      if forall h <- hunks :: Counted(h) {
        forall i | 0 <= i < |hunks| ensures Counted(swapped[i]) { assert hunks[i] in hunks; }
      }
    }
    if forall h <- hunks :: Counted(h) {
      forall i | 0 <= i < |hunks| ensures Counted(hunks[i]) { assert hunks[i] in hunks; }
      assert Olds(swapped) == News(hunks) && News(swapped) == Olds(hunks);
    }
    if |kept| == |hunks| + 1 { SwapPlacedIff(0, kept, hunks); }
  }

  /** WHEN A SWAP APPLIES, for hunks with any new starts: exactly when the text is made
      of kept pieces and the new sides where the new starts say, and then it gives the
      same pieces around the old sides. */
  lemma SwapAppliesIff(after: seq<string>, hunks: seq<Hunk>, back: seq<string>)
    ensures ApplyHunks(after, 0, SwapAll(hunks)) == Ok(back) <==> exists kept :: Unweaves(hunks, kept, after, back)
  {
    hide ApplyHunks, Rewrites, Unweaves, SwapAll;
    assert after[0..] == after;
    ApplyHunksIff(after, 0, SwapAll(hunks), back);
    forall kept ensures Unweaves(hunks, kept, after, back) <==> Rewrites(0, SwapAll(hunks), kept, after, back) {
      UnweavesIff(hunks, kept, after, back);
    }
  }

  lemma {:induction false} PlacedNewIff(oldCursor: nat, newCursor: nat, kept: seq<seq<string>>, hunks: seq<Hunk>)
    requires |kept| == |hunks| + 1 && Placed(oldCursor, kept, hunks)
    ensures PlacedNew(newCursor, kept, hunks) <==> Consistent(oldCursor, newCursor, hunks)
    decreases |hunks|
  {
    if hunks != [] {
      var h := hunks[0].header;
      PlacedNewIff(oldCursor + |kept[0]| + h.oldCount, newCursor + |kept[0]| + h.newCount, kept[1..], hunks[1..]);
    }
  }

  /** THE EXACT CONDITION. Where hunks apply, their swap applies at the same places, and
      so leads back, if and only if their starts agree. */
  lemma UndoneInPlaceIff(hunks: seq<Hunk>, kept: seq<seq<string>>, before: seq<string>, after: seq<string>)
    requires Rewrites(0, hunks, kept, before, after)
    ensures Unweaves(hunks, kept, after, before) <==> Consistent(0, 0, hunks)
    ensures Consistent(0, 0, hunks) ==> ApplyHunks(after, 0, SwapAll(hunks)) == Ok(before)
  {
    hide Counted, Old, New, Consistent, Weave, ApplyHunks, SwapAll, PlacedNew, Placed;
    PlacedNewIff(0, 0, kept, hunks);
    SwapAppliesIff(after, hunks, before);
  }

  /** A hunk that replaces the line `a` by the line `b`. */
  function Replace(h: Header, a: string, b: string): Hunk {
    Hunk(h, ["-" + a, "+" + b])
  }

  lemma ReplaceNormalized(h: Header, a: string, b: string)
    ensures NormalizeMarkers(Replace(h, a, b).lines) == Ok(Replace(h, a, b).lines)
  {
    hide DropNewline, OldSide, NewSide;
    var lines := Replace(h, a, b).lines;
    assert lines[0][0] == '-' && lines[1][0] == '+' && NO_NEWLINE_MARKER[0] == '\\';
    assert lines[..1] == [] + [lines[0]];
    NormalizeLast(lines[..1], []);
    assert lines == lines[..1] + [lines[1]];
    NormalizeLast(lines, lines[..1]);
  }

  lemma ReplaceSides(h: Header, a: string, b: string)
    ensures Counted(Replace(h, a, b)) <==> h.oldCount == h.newCount == 1
    ensures Old(Replace(h, a, b)) == [a] && New(Replace(h, a, b)) == [b]
  {
    hide NormalizeMarkers;
    ReplaceNormalized(h, a, b);
    var lines := Replace(h, a, b).lines;
    assert lines[0][0] == '-' && lines[1][0] == '+';
    assert lines[0][1..] == a && lines[1][1..] == b && lines[1..] == [lines[1]];
    assert OldSide(lines[1..]) == [] && NewSide(lines[1..]) == [b];
  }

  /** A hunk whose new start is wrong applies all the same, but does not go back. */
  lemma WrongNewStart() returns (source: seq<string>, hunk: Hunk, after: seq<string>)
    ensures ApplyHunks(source, 0, [hunk]) == Ok(after)
    ensures ApplyHunks(after, 0, SwapAll([hunk])) == Err(FileConflict)
  {
    hide NormalizeMarkers, OldSide, NewSide;
    var header := Header(1, 1, 5, 1);
    source, hunk, after := ["a\n"], Replace(header, "a\n", "b\n"), ["b\n"];
    ReplaceSides(header, "a\n", "b\n");
    ApplyHunkIff(source, 0, hunk);
    assert source[0..] == source && source[0..0] == [] && [] + after == after;
    assert ApplyHunk(source, 0, hunk) == Ok((after, 1));
    assert [hunk][1..] == [] && source[1..] == [] && after + [] == after;
    assert SwapAll([hunk])[0] == Swap(hunk);
    assert ApplyHunk(after, 0, Swap(hunk)) == Err(FileConflict);
  }
}
