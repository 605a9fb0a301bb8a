/** What applying hunks means: the source is cut into kept pieces and old sides,
    and the result is the same kept pieces around the new sides. */
module PatchMeaning {
  import opened Patch

  predicate IsOpLine(line: string) {
    " " <= line || "-" <= line || "+" <= line
  }

  predicate OpLines(body: seq<string>) {
    forall i :: 0 <= i < |body| ==> IsOpLine(body[i])
  }

  /** The source lines that a hunk body says are there. */
  function OldSide(body: seq<string>): seq<string>
    requires OpLines(body)
  {
    if body == [] then []
    else if "+" <= body[0] then OldSide(body[1..])
    else [body[0][1..]] + OldSide(body[1..])
  }

  /** The lines that a hunk body puts in their place. */
  function NewSide(body: seq<string>): seq<string>
    requires OpLines(body)
  {
    if body == [] then []
    else if "-" <= body[0] then NewSide(body[1..])
    else [body[0][1..]] + NewSide(body[1..])
  }

  lemma DropNewlineKeepsOp(line: string)
    requires IsOpLine(line)
    ensures DropNewline(line) != "" && DropNewline(line)[0] == line[0] && IsOpLine(DropNewline(line))
  {
  }

  lemma {:induction false} NormalizedLines(lines: seq<string>)
    ensures NormalizeMarkers(lines).Ok? ==> OpLines(NormalizeMarkers(lines).value)
  {
    if lines != [] {
      NormalizedLines(lines[..|lines| - 1]);
      var before := NormalizeMarkers(lines[..|lines| - 1]);
      if before.Ok? && before.value != [] {
        DropNewlineKeepsOp(before.value[|before.value| - 1]);
      }
    }
  }

  /** A hunk body applies at `index` exactly when its old side is there. */
  lemma {:induction false} ApplyBodyIff(source: seq<string>, index: nat, body: seq<string>)
    requires index <= |source|
    requires OpLines(body)
    ensures ApplyBody(source, index, body) ==
      if OldSide(body) <= source[index..] then Ok(Effect(NewSide(body), |OldSide(body)|)) else Err(FileConflict)
    decreases |body|
  {
    hide IsOpLine;
    if body != [] {
      OpPrefix(body[0]);
      if "+" <= body[0] {
        ApplyBodyIff(source, index, body[1..]);
      } else if index < |source| {
        ApplyBodyIff(source, index + 1, body[1..]);
        PrefixStep(body[0][1..], OldSide(body[1..]), source[index..]);
        assert source[index..][1..] == source[index + 1..];
      }
    }
  }

  lemma OpPrefix(line: string)
    requires IsOpLine(line)
    ensures line != ""
    ensures "+" <= line ==> !(" " <= line) && !("-" <= line)
    ensures "-" <= line ==> !(" " <= line)
    ensures " " <= line || "-" <= line || "+" <= line
  {
    assert " " <= line ==> line[0] == " "[0];
    assert "-" <= line ==> line[0] == "-"[0];
    assert "+" <= line ==> line[0] == "+"[0];
  }

  lemma PrefixStep<T>(x: T, xs: seq<T>, s: seq<T>)
    requires s != []
    ensures [x] + xs <= s <==> x == s[0] && xs <= s[1..]
  {
    if [x] + xs <= s {
      assert s[1..][..|xs|] == s[..|xs| + 1][1..] == xs;
    }
    if x == s[0] && xs <= s[1..] {
      assert s == [x] + s[1..];
      assert s[..|xs| + 1] == [x] + xs;
    }
  }

  /** The body of a hunk with its markers applied; nothing when they are malformed. */
  function Body(h: Hunk): (body: seq<string>)
    ensures OpLines(body)
  {
    NormalizedLines(h.lines);
    if NormalizeMarkers(h.lines).Ok? then NormalizeMarkers(h.lines).value else []
  }

  function Old(h: Hunk): seq<string> {
    OldSide(Body(h))
  }

  function New(h: Hunk): seq<string> {
    NewSide(Body(h))
  }

  /** The header counts what the body holds. */
  predicate Counted(h: Hunk) {
    NormalizeMarkers(h.lines).Ok? && |Old(h)| == h.header.oldCount && |New(h)| == h.header.newCount
  }

  /** One hunk applies exactly when it is well counted, its target is at or after
      the cursor, and its old side stands there. */
  lemma ApplyHunkIff(source: seq<string>, cursor: nat, h: Hunk)
    requires cursor <= |source|
    ensures ApplyHunk(source, cursor, h).Ok? <==>
      Counted(h) && cursor <= Target(h.header) <= |source| && Old(h) <= source[Target(h.header)..]
    ensures ApplyHunk(source, cursor, h).Ok? ==>
      ApplyHunk(source, cursor, h).value
      == (source[cursor..Target(h.header)] + New(h), Target(h.header) + h.header.oldCount)
  {
    hide OldSide, NewSide, NormalizeMarkers, ApplyBody, IsOpLine;
    var target := Target(h.header);
    if cursor <= target <= |source| && NormalizeMarkers(h.lines).Ok? {
      ApplyBodyIff(source, target, Body(h));
    }
  }

  function Olds(hunks: seq<Hunk>): seq<seq<string>> {
    seq(|hunks|, i requires 0 <= i < |hunks| => Old(hunks[i]))
  }

  function News(hunks: seq<Hunk>): seq<seq<string>> {
    seq(|hunks|, i requires 0 <= i < |hunks| => New(hunks[i]))
  }

  /** kept, side, kept, side, ..., kept. */
  function Weave(kept: seq<seq<string>>, sides: seq<seq<string>>): seq<string>
    requires |kept| == |sides| + 1
  {
    if sides == [] then kept[0] else kept[0] + sides[0] + Weave(kept[1..], sides[1..])
  }

  /** Every hunk starts where its header says, the kept piece before it ending there. */
  predicate Placed(cursor: nat, kept: seq<seq<string>>, hunks: seq<Hunk>)
    requires |kept| == |hunks| + 1
    decreases |hunks|
  {
    hunks == [] ||
    (Target(hunks[0].header) == cursor + |kept[0]| &&
     Placed(cursor + |kept[0]| + hunks[0].header.oldCount, kept[1..], hunks[1..]))
  }

  ghost predicate Rewrites(cursor: nat, hunks: seq<Hunk>, kept: seq<seq<string>>,
                           before: seq<string>, after: seq<string>) {
    && |kept| == |hunks| + 1
    && (forall h <- hunks :: Counted(h))
    && Placed(cursor, kept, hunks)
    && before == Weave(kept, Olds(hunks))
    && after == Weave(kept, News(hunks))
  }

  lemma RewritesStep(cursor: nat, hunks: seq<Hunk>, kept: seq<seq<string>>, before: seq<string>, after: seq<string>)
    requires hunks != [] && |kept| == |hunks| + 1
    ensures Rewrites(cursor, hunks, kept, before, after) <==>
      && Counted(hunks[0])
      && Target(hunks[0].header) == cursor + |kept[0]|
      && kept[0] + Old(hunks[0]) <= before
      && kept[0] + New(hunks[0]) <= after
      && Rewrites(cursor + |kept[0]| + hunks[0].header.oldCount, hunks[1..], kept[1..],
                  before[|kept[0] + Old(hunks[0])|..], after[|kept[0] + New(hunks[0])|..])
  {
    hide Counted, Old, New, Target;
    assert Olds(hunks)[1..] == Olds(hunks[1..]);
    assert News(hunks)[1..] == News(hunks[1..]);
    var before1, after1 := kept[0] + Old(hunks[0]), kept[0] + New(hunks[0]);
    assert Weave(kept, Olds(hunks)) == before1 + Weave(kept[1..], Olds(hunks[1..]));
    assert Weave(kept, News(hunks)) == after1 + Weave(kept[1..], News(hunks[1..]));
    assert (forall h <- hunks :: Counted(h)) <==> Counted(hunks[0]) && forall h <- hunks[1..] :: Counted(h) by {
      assert hunks == [hunks[0]] + hunks[1..];
    }
    FrontAndRest(before1, Weave(kept[1..], Olds(hunks[1..])), before);
    FrontAndRest(after1, Weave(kept[1..], News(hunks[1..])), after);
  }

  lemma FrontAndRest<T>(front: seq<T>, rest: seq<T>, whole: seq<T>)
    ensures whole == front + rest <==> front <= whole && whole[|front|..] == rest
  {
    if front <= whole { assert whole == front + whole[|front|..]; }
  }

  /** Applying hunks gives `after` exactly when the rest of the source and `after`
      are the same kept pieces woven with the hunks' two sides, in place. */
  lemma {:induction false} ApplyHunksIff(source: seq<string>, cursor: nat, hunks: seq<Hunk>, after: seq<string>)
    requires cursor <= |source|
    ensures ApplyHunks(source, cursor, hunks) == Ok(after) <==>
      exists kept :: Rewrites(cursor, hunks, kept, source[cursor..], after)
    decreases |hunks|
  {
    if ApplyHunks(source, cursor, hunks) == Ok(after) {
      ghost var kept := Applied(source, cursor, hunks, after);
    }
    forall kept | Rewrites(cursor, hunks, kept, source[cursor..], after)
      ensures ApplyHunks(source, cursor, hunks) == Ok(after)
    {
      Applies(source, cursor, hunks, kept, after);
    }
  }

  lemma {:induction false} Applied(source: seq<string>, cursor: nat, hunks: seq<Hunk>, after: seq<string>)
    returns (kept: seq<seq<string>>)
    requires cursor <= |source| && ApplyHunks(source, cursor, hunks) == Ok(after)
    ensures Rewrites(cursor, hunks, kept, source[cursor..], after)
    decreases |hunks|
  {
    hide ApplyHunk, Counted, Old, New, Target, Rewrites;
    if hunks == [] {
      kept := [after];
      NothingToDo(cursor, after);
    } else {
      var (lines, next) := ApplyHunk(source, cursor, hunks[0]).value;
      ApplyHunkIff(source, cursor, hunks[0]);
      SidesFit(hunks[0]);
      var rest := ApplyHunks(source, next, hunks[1..]).value;
      var piece := source[cursor..Target(hunks[0].header)];
      var later := Applied(source, next, hunks[1..], rest);
      kept := [piece] + later;
      LaterPieces(next, hunks[1..], later, source[next..], rest);
      var taken := piece + Old(hunks[0]);
      assert taken == source[cursor..next] by {
        assert source[Target(hunks[0].header)..][..|Old(hunks[0])|] == source[Target(hunks[0].header)..next];
      }
      assert source[cursor..][..|taken|] == taken && source[cursor..][|taken|..] == source[next..];
      assert after[..|lines|] == lines && after[|lines|..] == rest;
      assert kept[1..] == later;
      RewritesStep(cursor, hunks, kept, source[cursor..], after);
    }
  }

  lemma SidesFit(h: Hunk)
    ensures Counted(h) ==> |Old(h)| == h.header.oldCount && |New(h)| == h.header.newCount
  {
  }

  lemma LaterPieces(cursor: nat, hunks: seq<Hunk>, kept: seq<seq<string>>, before: seq<string>, after: seq<string>)
    requires Rewrites(cursor, hunks, kept, before, after)
    ensures |kept| == |hunks| + 1
  {
  }

  lemma NothingToDo(cursor: nat, lines: seq<string>)
    ensures Rewrites(cursor, [], [lines], lines, lines)
  {
  }

  lemma {:induction false} Applies(source: seq<string>, cursor: nat, hunks: seq<Hunk>, kept: seq<seq<string>>,
                                   after: seq<string>)
    requires cursor <= |source| && Rewrites(cursor, hunks, kept, source[cursor..], after)
    ensures ApplyHunks(source, cursor, hunks) == Ok(after)
    decreases |hunks|
  {
    hide ApplyHunk, Counted, Old, New, Target;
    if hunks != [] {
      RewritesStep(cursor, hunks, kept, source[cursor..], after);
      SidesFit(hunks[0]);
      hide Rewrites, Placed, Weave;
      var taken := kept[0] + Old(hunks[0]);
      var next := cursor + |taken|;
      assert source[cursor..][|taken|..] == source[next..];
      assert source[cursor..][..|taken|] == source[cursor..next];
      var target := Target(hunks[0].header);
      assert source[cursor..target] == kept[0] by {
        assert source[cursor..next][..|kept[0]|] == source[cursor..target];
      }
      assert Old(hunks[0]) <= source[target..] by {
        assert source[cursor..next][|kept[0]|..] == source[target..next] == source[target..][..next - target];
      }
      ApplyHunkIff(source, cursor, hunks[0]);
      var lines := kept[0] + New(hunks[0]);
      Applies(source, next, hunks[1..], kept[1..], after[|lines|..]);
      assert after == lines + after[|lines|..];
    }
  }

  function Growth(hunks: seq<Hunk>): int {
    if hunks == [] then 0 else hunks[0].header.newCount - hunks[0].header.oldCount + Growth(hunks[1..])
  }

  /** The result is longer by what the headers add and shorter by what they take. */
  lemma {:induction false} ResultLength(source: seq<string>, cursor: nat, hunks: seq<Hunk>)
    requires cursor <= |source| && ApplyHunks(source, cursor, hunks).Ok?
    ensures |ApplyHunks(source, cursor, hunks).value| == |source| - cursor + Growth(hunks)
    decreases |hunks|
  {
    hide ApplyHunk, Counted, Old, New, Target;
    if hunks != [] {
      ApplyHunkIff(source, cursor, hunks[0]);
      SidesFit(hunks[0]);
      ResultLength(source, ApplyHunk(source, cursor, hunks[0]).value.1, hunks[1..]);
    }
  }
}
