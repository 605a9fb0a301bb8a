/** The prompt detector's bookkeeping: a bounded history over an unbounded text, and the
    prompts found in it, each reported once. What a prompt looks like is left open. */
module Prompts {
  import opened Terminal

  /** A match in the history. */
  datatype Match = Match(start: nat, end: nat)

  /** A match in the whole text. */
  datatype Candidate = Candidate(start: nat, end: nat, kind: PromptKind)

  /** Searching one kind of prompt, from the left and without overlaps. */
  type Finder = (PromptKind, string) -> seq<Match>

  const KINDS: seq<PromptKind> := [HostKey, KeyPassphrase, SudoPassword, Password]

  predicate InOrder(ms: seq<Match>, length: nat) {
    && (forall i :: 0 <= i < |ms| ==> ms[i].start < ms[i].end <= length)
    && (forall i, j :: 0 <= i < j < |ms| ==> ms[i].end <= ms[j].start)
  }

  ghost predicate Finds(find: Finder) {
    forall kind, text :: InOrder(find(kind, text), |text|)
  }

  function Rank(kind: PromptKind): nat {
    match kind case HostKey => 0 case KeyPassphrase => 1 case Password => 2 case SudoPassword => 3
  }

  predicate NotAfter(a: Candidate, b: Candidate) {
    a.start < b.start || (a.start == b.start && (a.end < b.end || (a.end == b.end && Rank(a.kind) <= Rank(b.kind))))
  }

  function Insert(c: Candidate, s: seq<Candidate>): seq<Candidate> {
    if s == [] || NotAfter(c, s[0]) then [c] + s else [s[0]] + Insert(c, s[1..])
  }

  function Sort(s: seq<Candidate>): seq<Candidate> {
    if s == [] then [] else Insert(s[0], Sort(s[1..]))
  }

  predicate Sorted(s: seq<Candidate>) {
    forall i, j :: 0 <= i < j < |s| ==> NotAfter(s[i], s[j])
  }

  lemma {:induction false} InsertSorts(c: Candidate, s: seq<Candidate>)
    requires Sorted(s)
    ensures Sorted(Insert(c, s)) && multiset(Insert(c, s)) == multiset(s) + multiset{c}
  {
    if s == [] || NotAfter(c, s[0]) {
    } else {
      InsertSorts(c, s[1..]);
      var rest := Insert(c, s[1..]);
      assert s == [s[0]] + s[1..];
      forall i | 0 <= i < |rest| ensures NotAfter(s[0], rest[i]) {
        assert rest[i] in multiset(rest);
        assert rest[i] == c || rest[i] in s[1..];
      }
    }
  }

  lemma {:induction false} SortSorts(s: seq<Candidate>)
    ensures Sorted(Sort(s)) && multiset(Sort(s)) == multiset(s)
  {
    if s != [] {
      SortSorts(s[1..]);
      InsertSorts(s[0], Sort(s[1..]));
      assert s == [s[0]] + s[1..];
    }
  }

  function Seen(seen: map<PromptKind, nat>, kind: PromptKind): nat {
    if kind in seen then seen[kind] else 0
  }

  /** The matches of one kind that end after what was reported of that kind. */
  function FreshOf(ms: seq<Match>, base: nat, kind: PromptKind, seen: nat): seq<Candidate> {
    if ms == [] then []
    else
      var front := FreshOf(ms[..|ms| - 1], base, kind, seen);
      var m := ms[|ms| - 1];
      if base + m.end <= seen then front else front + [Candidate(base + m.start, base + m.end, kind)]
  }

  function Fresh(find: Finder, history: string, base: nat, seen: map<PromptKind, nat>, kinds: seq<PromptKind>): seq<Candidate> {
    if kinds == [] then []
    else
      var kind := kinds[|kinds| - 1];
      Fresh(find, history, base, seen, kinds[..|kinds| - 1]) + FreshOf(find(kind, history), base, kind, Seen(seen, kind))
  }

  /** No two candidates of one kind overlap, and each is new. */
  predicate Apart(cs: seq<Candidate>, seen: map<PromptKind, nat>) {
    && (forall i :: 0 <= i < |cs| ==> cs[i].start < cs[i].end && cs[i].end > Seen(seen, cs[i].kind))
    && (forall i, j :: 0 <= i < j < |cs| && cs[i].kind == cs[j].kind ==> cs[i].end <= cs[j].start)
  }

  function LastEnd(ms: seq<Match>): nat {
    if ms == [] then 0 else ms[|ms| - 1].end
  }

  lemma {:induction false} FreshOfApart(ms: seq<Match>, base: nat, kind: PromptKind, seen: map<PromptKind, nat>, length: nat)
    requires InOrder(ms, length)
    ensures var cs := FreshOf(ms, base, kind, Seen(seen, kind));
      Apart(cs, seen) && forall i :: 0 <= i < |cs| ==> cs[i].kind == kind && cs[i].end <= base + LastEnd(ms)
  {
    if ms != [] {
      var front, last := ms[..|ms| - 1], ms[|ms| - 1];
      FreshOfApart(front, base, kind, seen, length);
      assert LastEnd(front) <= last.start;
      ApartSnoc(FreshOf(front, base, kind, Seen(seen, kind)), seen, Candidate(base + last.start, base + last.end, kind));
    }
  }

  lemma ApartSnoc(cs: seq<Candidate>, seen: map<PromptKind, nat>, c: Candidate)
    requires Apart(cs, seen) && forall i :: 0 <= i < |cs| ==> cs[i].end <= c.start
    requires c.start < c.end
    ensures c.end > Seen(seen, c.kind) ==> Apart(cs + [c], seen)
  {
  }

  predicate Distinct(kinds: seq<PromptKind>) {
    forall i, j :: 0 <= i < j < |kinds| ==> kinds[i] != kinds[j]
  }

  lemma {:induction false} FreshApart(find: Finder, history: string, base: nat, seen: map<PromptKind, nat>, kinds: seq<PromptKind>)
    requires Finds(find) && Distinct(kinds)
    ensures var cs := Fresh(find, history, base, seen, kinds);
      Apart(cs, seen) && forall i :: 0 <= i < |cs| ==> cs[i].kind in kinds
  {
    hide InOrder;
    if kinds != [] {
      var front, kind := kinds[..|kinds| - 1], kinds[|kinds| - 1];
      FreshApart(find, history, base, seen, front);
      FreshOfApart(find(kind, history), base, kind, seen, |history|);
      assert kind !in front;
    }
  }

  /** Sorted, the candidates of each kind end later and later. */
  predicate EndsRise(cs: seq<Candidate>) {
    forall i, j :: 0 <= i < j < |cs| && cs[i].kind == cs[j].kind ==> cs[i].end < cs[j].end
  }

  /** Candidates that are apart stay so in any order: those of one kind have different
      starts, and the later start has the later end. */
  lemma SortedEndsRise(cs: seq<Candidate>, seen: map<PromptKind, nat>)
    requires Apart(cs, seen)
    ensures EndsRise(Sort(cs)) && forall i :: 0 <= i < |Sort(cs)| ==> Sort(cs)[i].end > Seen(seen, Sort(cs)[i].kind)
  {
    hide Sort;
    SortSorts(cs);
    var sorted := Sort(cs);
    forall i | 0 <= i < |sorted| ensures sorted[i] in cs && sorted[i].end > Seen(seen, sorted[i].kind) {
      assert sorted[i] in multiset(sorted);
      assert sorted[i] in multiset(cs);
    }
    forall i, j | 0 <= i < j < |sorted| && sorted[i].kind == sorted[j].kind ensures sorted[i].end < sorted[j].end {
      var a, b := sorted[i], sorted[j];
      if a == b {
        TwiceInMultiset(sorted, i, j);
        OnceInApart(cs, seen, a);
        assert false;
      }
      var k :| 0 <= k < |cs| && cs[k] == a;
      var l :| 0 <= l < |cs| && cs[l] == b;
      assert k != l;
    }
  }

  lemma TwiceInMultiset(s: seq<Candidate>, i: nat, j: nat)
    requires i < j < |s| && s[i] == s[j]
    ensures multiset(s)[s[i]] >= 2
  {
    assert s == s[..i + 1] + s[i + 1..] && s[i + 1..][j - i - 1] == s[j];
    assert s[i] in multiset(s[..i + 1]) && s[j] in multiset(s[i + 1..]);
  }

  lemma {:induction false} OnceInApart(cs: seq<Candidate>, seen: map<PromptKind, nat>, c: Candidate)
    requires Apart(cs, seen)
    ensures multiset(cs)[c] <= 1
  {
    if cs != [] {
      var front, last := cs[..|cs| - 1], cs[|cs| - 1];
      OnceInApart(front, seen, c);
      assert cs == front + [last];
      if last == c {
        assert c !in front by {
          forall i | 0 <= i < |front| ensures front[i] != c { assert cs[i] == front[i]; }
        }
        assert multiset(front)[c] == 0;
      }
    }
  }

  class PromptDetector {
    const find: Finder
    const historyCharacters: nat
    var history: string
    var baseOffset: nat
    var seenOffsets: map<PromptKind, nat>
    ghost var text: string
    ghost var reported: seq<Candidate>

    /** The history is the end of the text; per kind the reports end later and later,
        and the last of them is the offset remembered. */
    ghost predicate Valid()
      reads this
    {
      && historyCharacters >= 1024 && Finds(find)
      && baseOffset + |history| == |text| && history == text[baseOffset..]
      && |history| == (if |text| < historyCharacters then |text| else historyCharacters)
      && EndsRise(reported)
      && forall i :: 0 <= i < |reported| ==> reported[i].end <= Seen(seenOffsets, reported[i].kind)
    }

    constructor (find: Finder, historyCharacters: nat)
      requires historyCharacters >= 1024 && Finds(find)
      ensures Valid() && text == "" && reported == []
    {
      this.find, this.historyCharacters := find, historyCharacters;
      history, baseOffset, seenOffsets, text, reported := "", 0, map[], "", [];
    }

    /** EVERY PROMPT ONCE. The history is as much of the end of the text as it may be. A
        feed reports exactly the matches now in it that end after what was reported of
        their kind, in the order of their places in the text; afterwards no match of any
        kind in the history is unreported. Over all feeds, the ends reported of one kind
        strictly increase. */
    method Feed(plain: string) returns (events: seq<Candidate>)
      requires Valid()
      modifies this
      ensures Valid() && text == old(text) + plain && reported == old(reported) + events
      ensures events == Sort(Fresh(find, history, baseOffset, old(seenOffsets), KINDS)) && Sorted(events)
      ensures forall c :: c in events <==> IsFresh(find, history, baseOffset, old(seenOffsets), c)
      ensures forall i, j :: 0 <= i < j < |events| ==> InPlace(events[i], events[j])
      ensures forall kind, m :: m in find(kind, history) ==> baseOffset + m.end <= Seen(seenOffsets, kind)
    {
      hide Sort, Fresh, Finds, Sorted, InOrder, EndsRise, Apart, Seen;
      history, text := history + plain, text + plain;
      if |history| > historyCharacters {
        var dropped := |history| - historyCharacters;
        history, baseOffset := history[dropped..], baseOffset + dropped;
      }
      var candidates := Collect();
      FreshApart(find, history, baseOffset, seenOffsets, KINDS);
      SortedEndsRise(candidates, seenOffsets);
      SortSorts(candidates);
      events := Report(Sort(candidates));
      NothingLeft(find, history, baseOffset, old(seenOffsets), seenOffsets, events);
      FreshIff(find, history, baseOffset, old(seenOffsets), events);
      SortedInPlace(events);
    }

    method Collect() returns (candidates: seq<Candidate>)
      ensures candidates == Fresh(find, history, baseOffset, seenOffsets, KINDS)
    {
      candidates := [];
      for k := 0 to |KINDS|
        invariant candidates == Fresh(find, history, baseOffset, seenOffsets, KINDS[..k])
      {
        var kind := KINDS[k];
        var ms := find(kind, history);
        ghost var before := candidates;
        assert KINDS[..k + 1][..k] == KINDS[..k];
        assert before + [] == before;
        for i := 0 to |ms|
          invariant candidates == before + FreshOf(ms[..i], baseOffset, kind, Seen(seenOffsets, kind))
        {
          assert ms[..i + 1][..i] == ms[..i];
          if baseOffset + ms[i].end > Seen(seenOffsets, kind) {
            candidates := candidates + [Candidate(baseOffset + ms[i].start, baseOffset + ms[i].end, kind)];
          }
        }
        assert ms[..|ms|] == ms;
      }
      assert KINDS[..|KINDS|] == KINDS;
    }

    /** Reports candidates that rise; none of them is passed over. */
    method Report(sorted: seq<Candidate>) returns (events: seq<Candidate>)
      requires EndsRise(sorted) && forall i :: 0 <= i < |sorted| ==> sorted[i].end > Seen(seenOffsets, sorted[i].kind)
      requires EndsRise(reported) && forall i :: 0 <= i < |reported| ==> reported[i].end <= Seen(seenOffsets, reported[i].kind)
      modifies this`seenOffsets, this`reported
      ensures events == sorted && reported == old(reported) + events
      ensures EndsRise(reported) && forall i :: 0 <= i < |reported| ==> reported[i].end <= Seen(seenOffsets, reported[i].kind)
      ensures forall i :: 0 <= i < |events| ==> events[i].end <= Seen(seenOffsets, events[i].kind)
      ensures forall kind :: Seen(old(seenOffsets), kind) <= Seen(seenOffsets, kind)
    {
      events := [];
      for n := 0 to |sorted|
        invariant events == sorted[..n] && reported == old(reported) + events
        invariant EndsRise(reported) && forall i :: 0 <= i < |reported| ==> reported[i].end <= Seen(seenOffsets, reported[i].kind)
        invariant forall kind :: Seen(old(seenOffsets), kind) <= Seen(seenOffsets, kind)
        invariant forall j :: n <= j < |sorted| ==> sorted[j].end > Seen(seenOffsets, sorted[j].kind)
      {
        var c := sorted[n];
        if c.end <= Seen(seenOffsets, c.kind) {
          continue;
        }
        assert old(reported) + (events + [c]) == reported + [c];
        seenOffsets := seenOffsets[c.kind := c.end];
        events := events + [c];
        reported := reported + [c];
      }
      assert forall i :: 0 <= i < |events| ==> reported[|old(reported)| + i] == events[i];
    }
  }

  lemma {:induction false} FreshOfHas(ms: seq<Match>, base: nat, kind: PromptKind, seen: nat, m: Match)
    requires m in ms && base + m.end > seen
    ensures Candidate(base + m.start, base + m.end, kind) in FreshOf(ms, base, kind, seen)
  {
    if m != ms[|ms| - 1] {
      FreshOfHas(ms[..|ms| - 1], base, kind, seen, m);
    }
  }

  lemma {:induction false} FreshHas(find: Finder, history: string, base: nat, seen: map<PromptKind, nat>, kinds: seq<PromptKind>,
                                    kind: PromptKind, m: Match)
    requires kind in kinds && m in find(kind, history) && base + m.end > Seen(seen, kind)
    ensures Candidate(base + m.start, base + m.end, kind) in Fresh(find, history, base, seen, kinds)
  {
    var last := kinds[|kinds| - 1];
    if last == kind {
      FreshOfHas(find(kind, history), base, kind, Seen(seen, kind), m);
    } else {
      FreshHas(find, history, base, seen, kinds[..|kinds| - 1], kind, m);
    }
  }

  /** A match in the history that ends after what was reported of its kind. */
  predicate IsFresh(find: Finder, history: string, base: nat, seen: map<PromptKind, nat>, c: Candidate) {
    c.start >= base && c.end >= base && Match(c.start - base, c.end - base) in find(c.kind, history) && c.end > Seen(seen, c.kind)
  }

  /** Earlier in the text, or at the same place and no longer. */
  predicate InPlace(a: Candidate, b: Candidate) {
    a.start < b.start || (a.start == b.start && a.end <= b.end)
  }

  lemma SortedInPlace(cs: seq<Candidate>)
    requires Sorted(cs)
    ensures forall i, j :: 0 <= i < j < |cs| ==> InPlace(cs[i], cs[j])
  {
  }

  lemma {:induction false} FreshOfOnly(ms: seq<Match>, base: nat, kind: PromptKind, seen: nat, c: Candidate)
    requires c in FreshOf(ms, base, kind, seen)
    ensures c.kind == kind && c.start >= base && c.end >= base && Match(c.start - base, c.end - base) in ms && c.end > seen
  {
    var front := FreshOf(ms[..|ms| - 1], base, kind, seen);
    if c in front { FreshOfOnly(ms[..|ms| - 1], base, kind, seen, c); }
  }

  lemma {:induction false} FreshOnly(find: Finder, history: string, base: nat, seen: map<PromptKind, nat>, kinds: seq<PromptKind>,
                                     c: Candidate)
    requires c in Fresh(find, history, base, seen, kinds)
    ensures IsFresh(find, history, base, seen, c)
  {
    hide FreshOf, Seen;
    var front, kind := kinds[..|kinds| - 1], kinds[|kinds| - 1];
    if c in Fresh(find, history, base, seen, front) {
      FreshOnly(find, history, base, seen, front, c);
    } else {
      FreshOfOnly(find(kind, history), base, kind, Seen(seen, kind), c);
    }
  }

  lemma FreshIff(find: Finder, history: string, base: nat, seen: map<PromptKind, nat>, events: seq<Candidate>)
    requires events == Sort(Fresh(find, history, base, seen, KINDS))
    ensures forall c :: c in events <==> IsFresh(find, history, base, seen, c)
  {
    hide Sort, Fresh, Seen;
    var candidates := Fresh(find, history, base, seen, KINDS);
    SortSorts(candidates);
    forall c ensures c in events <==> IsFresh(find, history, base, seen, c) {
      assert c in events <==> c in multiset(events);
      assert c in candidates <==> c in multiset(candidates);
      if c in candidates { FreshOnly(find, history, base, seen, KINDS, c); }
      if IsFresh(find, history, base, seen, c) {
        EveryKind(c.kind);
        FreshHas(find, history, base, seen, KINDS, c.kind, Match(c.start - base, c.end - base));
      }
    }
  }

  lemma EveryKind(kind: PromptKind)
    ensures kind in KINDS
  {
    assert KINDS[0] == HostKey && KINDS[1] == KeyPassphrase && KINDS[2] == SudoPassword && KINDS[3] == Password;
  }

  lemma NothingLeft(find: Finder, history: string, base: nat, before: map<PromptKind, nat>, after: map<PromptKind, nat>,
                    events: seq<Candidate>)
    requires events == Sort(Fresh(find, history, base, before, KINDS))
    requires forall i :: 0 <= i < |events| ==> events[i].end <= Seen(after, events[i].kind)
    requires forall kind :: Seen(before, kind) <= Seen(after, kind)
    ensures forall kind, m :: m in find(kind, history) ==> base + m.end <= Seen(after, kind)
  {
    hide Sort, Fresh;
    var candidates := Fresh(find, history, base, before, KINDS);
    SortSorts(candidates);
    forall kind, m | m in find(kind, history) ensures base + m.end <= Seen(after, kind) {
      EveryKind(kind);
      if base + m.end > Seen(before, kind) {
        FreshHas(find, history, base, before, KINDS, kind, m);
        var c := Candidate(base + m.start, base + m.end, kind);
        assert c in multiset(candidates) && c in multiset(events);
      }
    }
  }
}
