/** Bytes and byte strings, shared by every component that reads a stream. */
module Bytes {
  type Byte = b: int | 0 <= b < 256

  const NEWLINE: Byte := 10
  const RETURN: Byte := 13
  const ESCAPE := 27 as char

  /** The index of the first newline, or the length of `b` when there is none. */
  function FindNewline(b: seq<Byte>): (n: nat)
    ensures n <= |b|
    ensures n < |b| ==> b[n] == NEWLINE
    ensures forall i :: 0 <= i < n ==> b[i] != NEWLINE
  {
    if b == [] || b[0] == NEWLINE then 0 else 1 + FindNewline(b[1..])
  }

  /** Drops the carriage returns at the end of `b`. */
  function StripReturns(b: seq<Byte>): (r: seq<Byte>)
    ensures r <= b
    ensures r == [] || r[|r| - 1] != RETURN
    ensures forall i :: |r| <= i < |b| ==> b[i] == RETURN
  {
    if b != [] && b[|b| - 1] == RETURN then StripReturns(b[..|b| - 1]) else b
  }

  /** The last `limit` elements of `s`, or all of it when it is shorter. */
  function Last<T>(s: seq<T>, limit: nat): (r: seq<T>)
    ensures |r| == if |s| <= limit then |s| else limit
    ensures r == s[|s| - |r|..]
  {
    if |s| <= limit then s else s[|s| - limit..]
  }

  lemma LastOfTail<T>(s: seq<T>, data: seq<T>, limit: nat)
    ensures Last(Last(s, limit) + data, limit) == Last(s + data, limit)
  {
    LastIs(s, limit);
    LastIs(Last(s, limit) + data, limit);
    LastIs(s + data, limit);
    hide Last;
    if |s| > limit {
      DropJoin(s, data, |s| - limit, |data|);
    }
  }

  lemma DropJoin<T>(s: seq<T>, data: seq<T>, cut: nat, more: nat)
    requires cut <= |s| && cut + more <= |s| + |data|
    ensures (s[cut..] + data)[more..] == (s + data)[cut + more..]
  {
  }

  lemma LastIs<T>(s: seq<T>, limit: nat)
    ensures Last(s, limit) == if |s| > limit then s[|s| - limit..] else s
  {
  }

  function Flatten<T>(pieces: seq<seq<T>>): seq<T> {
    if pieces == [] then [] else pieces[0] + Flatten(pieces[1..])
  }

  lemma FlattenAppend<T>(a: seq<seq<T>>, b: seq<seq<T>>)
    ensures Flatten(a + b) == Flatten(a) + Flatten(b)
  {
    if a == [] {
      assert a + b == b;
    } else {
      assert (a + b)[1..] == a[1..] + b;
      FlattenAppend(a[1..], b);
    }
  }

  lemma FlattenSnoc<T>(pieces: seq<seq<T>>, last: seq<T>)
    ensures Flatten(pieces + [last]) == Flatten(pieces) + last
  {
    FlattenAppend(pieces, [last]);
    assert [last][1..] == [] && last + [] == last;
  }

  predicate IsAscii(s: string) {
    forall i :: 0 <= i < |s| ==> s[i] as int < 128
  }

  /** The bytes of an ASCII text, one per character. */
  function AsciiBytes(s: string): (b: seq<Byte>)
    requires IsAscii(s)
    ensures |b| == |s|
    ensures forall i :: 0 <= i < |s| ==> b[i] == s[i] as int
  {
    seq(|s|, i requires 0 <= i < |s| => s[i] as int)
  }
}
