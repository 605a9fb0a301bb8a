/** Messages over a byte pipe: a four-byte big-endian length, then the message. Reads
    and writes come in fragments, and anything may fail at any byte. */
module Pipe {
  import opened Common
  import opened Bytes

  const PREFIX_LIMIT := 0x1_0000_0000

  function Prefix(n: nat): (b: seq<Byte>)
    requires n < PREFIX_LIMIT
    ensures |b| == 4
  {
    var c: nat := n / 0x100;
    var b: nat := c / 0x100;
    var a: nat := b / 0x100;
    var low: nat, mid: nat, high: nat := n % 0x100, c % 0x100, b % 0x100;
    [a, high, mid, low]
  }

  function Length(b: seq<Byte>): nat
    requires |b| == 4
  {
    var w: nat, x: nat, y: nat, z: nat := b[0], b[1], b[2], b[3];
    ((w * 0x100 + x) * 0x100 + y) * 0x100 + z
  }

  lemma LengthOfPrefix(n: nat)
    requires n < PREFIX_LIMIT
    ensures Length(Prefix(n)) == n
  {
    var c: nat := n / 0x100;
    var b: nat := c / 0x100;
    assert n == c * 0x100 + n % 0x100 && c == b * 0x100 + c % 0x100 && b == b / 0x100 * 0x100 + b % 0x100;
  }

  /** The most significant byte comes first. */
  lemma BigEndian(a: Byte, b: Byte, c: Byte, d: Byte)
    ensures Length([a, b, c, d]) == a * 0x100_0000 + b * 0x1_0000 + c * 0x100 + d
  {
  }

  lemma PrefixOfLength(b: seq<Byte>)
    requires |b| == 4
    ensures Length(b) < PREFIX_LIMIT && Prefix(Length(b)) == b
  {
    var n := Length(b);
    var w: nat, x: nat, y: nat := b[0], b[1], b[2];
    var d := w * 0x100 + x;
    var c := d * 0x100 + y;
    assert n / 0x100 == c && n % 0x100 == b[3];
    assert c / 0x100 == d && c % 0x100 == y && d / 0x100 == w && d % 0x100 == x;
  }

  predicate IsMessage(m: seq<Byte>) {
    0 < |m| < PREFIX_LIMIT
  }

  function Frame(m: seq<Byte>): (frame: seq<Byte>)
    requires IsMessage(m)
    ensures |frame| == |m| + 4
  {
    Prefix(|m|) + m
  }

  predicate AllMessages(ms: seq<seq<Byte>>) {
    forall i :: 0 <= i < |ms| ==> IsMessage(ms[i])
  }

  function Frames(ms: seq<seq<Byte>>): seq<Byte>
    requires AllMessages(ms)
  {
    if ms == [] then [] else Frame(ms[0]) + Frames(ms[1..])
  }

  lemma {:induction false} FramesSnoc(ms: seq<seq<Byte>>, m: seq<Byte>)
    requires AllMessages(ms) && IsMessage(m)
    ensures AllMessages(ms + [m]) && Frames(ms + [m]) == Frames(ms) + Frame(m)
  {
    if ms == [] {
      assert ms + [m] == [m] && [m][1..] == [];
    } else {
      assert (ms + [m])[1..] == ms[1..] + [m];
      FramesSnoc(ms[1..], m);
      assert Frame(ms[0]) + (Frames(ms[1..]) + Frame(m)) == Frame(ms[0]) + Frames(ms[1..]) + Frame(m);
    }
  }

  /** Two frames at the front of the same bytes are the same frame. */
  lemma OneFrame(a: seq<Byte>, b: seq<Byte>, more: seq<Byte>, rest: seq<Byte>)
    requires IsMessage(a) && IsMessage(b) && Frame(a) + more == Frame(b) + rest
    ensures a == b && more == rest
  {
    var whole := Frame(a) + more;
    assert whole[..4] == Prefix(|a|) && whole[..4] == Prefix(|b|);
    LengthOfPrefix(|a|);
    LengthOfPrefix(|b|);
    assert whole[4..4 + |a|] == a && whole[4..4 + |b|] == b;
    assert whole[4 + |a|..] == more && whole[4 + |b|..] == rest;
  }

  /** THE PIPE NEVER DESYNCHRONISES. Frames that a receiver found at the front of the
      bytes it got are the first frames that the sender wrote. */
  lemma {:induction false} ReceivedInOrder(received: seq<seq<Byte>>, sent: seq<seq<Byte>>)
    requires AllMessages(received) && AllMessages(sent) && Frames(received) <= Frames(sent)
    ensures received <= sent
  {
    hide Frame;
    if received != [] {
      assert |Frame(received[0])| > 0;
      assert sent != [];
      var left := Frames(sent)[|Frames(received)|..];
      assert Frames(sent) == Frames(received) + left;
      assert Frame(received[0]) + (Frames(received[1..]) + left) == Frame(sent[0]) + Frames(sent[1..]);
      OneFrame(received[0], sent[0], Frames(received[1..]) + left, Frames(sent[1..]));
      ReceivedInOrder(received[1..], sent[1..]);
      assert received == [received[0]] + received[1..] && sent == [sent[0]] + sent[1..];
    }
  }

  // Sends that fail half-way

  /** How much of its frame each send got into the pipe. */
  predicate AllCuts(ms: seq<seq<Byte>>, cuts: seq<nat>) {
    AllMessages(ms) && |cuts| == |ms| && forall i :: 0 <= i < |ms| ==> cuts[i] <= |ms[i]| + 4
  }

  /** The bytes that sends leave in the pipe, one after the other. */
  function Parts(ms: seq<seq<Byte>>, cuts: seq<nat>): seq<Byte>
    requires AllCuts(ms, cuts)
  {
    if ms == [] then [] else Frame(ms[0])[..cuts[0]] + Parts(ms[1..], cuts[1..])
  }

  predicate IsPartial(m: seq<Byte>, cut: nat) {
    0 < cut < |m| + 4
  }

  /** The messages before the first frame that was left unfinished; those of which no
      byte was written are passed over. */
  function Clear(ms: seq<seq<Byte>>, cuts: seq<nat>): (clear: seq<seq<Byte>>)
    requires AllCuts(ms, cuts)
    ensures AllMessages(clear)
  {
    if ms == [] || IsPartial(ms[0], cuts[0]) then []
    else if cuts[0] == 0 then Clear(ms[1..], cuts[1..])
    else [ms[0]] + Clear(ms[1..], cuts[1..])
  }

  /** A frame was left unfinished and something written after it. */
  predicate WentOn(ms: seq<seq<Byte>>, cuts: seq<nat>)
    requires AllCuts(ms, cuts)
  {
    ms != [] && (if IsPartial(ms[0], cuts[0]) then Parts(ms[1..], cuts[1..]) != [] else WentOn(ms[1..], cuts[1..]))
  }

  lemma {:induction false} PartsSnoc(ms: seq<seq<Byte>>, cuts: seq<nat>, m: seq<Byte>, cut: nat)
    requires AllCuts(ms, cuts) && IsMessage(m) && cut <= |m| + 4
    ensures AllCuts(ms + [m], cuts + [cut]) && Parts(ms + [m], cuts + [cut]) == Parts(ms, cuts) + Frame(m)[..cut]
  {
    if ms == [] {
      assert ms + [m] == [m] && cuts + [cut] == [cut] && [m][1..] == [] && [cut][1..] == [];
    } else {
      assert (ms + [m])[1..] == ms[1..] + [m] && (cuts + [cut])[1..] == cuts[1..] + [cut];
      PartsSnoc(ms[1..], cuts[1..], m, cut);
      AppendAssoc(Frame(ms[0])[..cuts[0]], Parts(ms[1..], cuts[1..]), Frame(m)[..cut]);
    }
  }

  lemma AppendAssoc(a: seq<Byte>, b: seq<Byte>, c: seq<Byte>)
    ensures a + (b + c) == a + b + c
  {
  }

  /** Messages this short have a zero for the first byte of their length. */
  const SHORT := 0x100_0000 - 4

  predicate AllShort(ms: seq<seq<Byte>>) {
    forall i :: 0 <= i < |ms| ==> |ms[i]| < SHORT
  }

  lemma FirstByteZero(m: seq<Byte>)
    requires IsMessage(m) && |m| < SHORT
    ensures Frame(m)[0] == 0
  {
  }

  /** The stretch of the pipe from `p` lies inside the part of frame `i`, from its byte
      `e` on, which is not the first. */
  predicate Inside(ms: seq<seq<Byte>>, cuts: seq<nat>, p: nat, n: nat, i: nat, e: nat)
    requires AllCuts(ms, cuts) && p + n <= |Parts(ms, cuts)|
  {
    && i < |ms| && 0 < e <= p && e + n <= cuts[i] && (if i == 0 then e == p else e + cuts[0] <= p)
    && Parts(ms, cuts)[p - e..p] == Frame(ms[i])[..e]
    && Parts(ms, cuts)[p..p + n] == Frame(ms[i])[e..e + n]
  }

  lemma SliceRight(a: seq<Byte>, b: seq<Byte>, p: nat, n: nat)
    requires |a| <= p && p + n <= |a| + |b|
    ensures (a + b)[p..p + n] == b[p - |a|..p - |a| + n]
  {
  }

  lemma SliceLeft(a: seq<Byte>, b: seq<Byte>, p: nat, n: nat)
    requires p + n <= |a|
    ensures (a + b)[p..p + n] == a[p..p + n]
  {
  }

  lemma PartsSplit(ms: seq<seq<Byte>>, cuts: seq<nat>)
    requires AllCuts(ms, cuts) && ms != []
    ensures AllCuts(ms[1..], cuts[1..]) && |Frame(ms[0])[..cuts[0]]| == cuts[0]
    ensures Parts(ms, cuts) == Frame(ms[0])[..cuts[0]] + Parts(ms[1..], cuts[1..])
  {
  }

  lemma SkipPart(ms: seq<seq<Byte>>, cuts: seq<nat>, p: nat, n: nat, i: nat, e: nat)
    requires AllCuts(ms, cuts) && ms != [] && cuts[0] <= p && p + n <= |Parts(ms, cuts)|
    requires AllCuts(ms[1..], cuts[1..]) && p - cuts[0] + n <= |Parts(ms[1..], cuts[1..])|
    requires Inside(ms[1..], cuts[1..], p - cuts[0], n, i, e)
    ensures Inside(ms, cuts, p, n, i + 1, e)
  {
    hide Parts, Frame;
    PartsSplit(ms, cuts);
    SliceRight(Frame(ms[0])[..cuts[0]], Parts(ms[1..], cuts[1..]), p, n);
    SliceRight(Frame(ms[0])[..cuts[0]], Parts(ms[1..], cuts[1..]), p - e, e);
  }

  /** Any stretch of the pipe holds a zero byte, the first of some frame, or lies inside
      the part of a single frame. */
  lemma {:induction false} StretchOfParts(ms: seq<seq<Byte>>, cuts: seq<nat>, p: nat, n: nat) returns (i: nat, e: nat)
    requires AllCuts(ms, cuts) && AllShort(ms) && 0 < n && p + n <= |Parts(ms, cuts)|
    ensures 0 in Parts(ms, cuts)[p..p + n] || Inside(ms, cuts, p, n, i, e)
  {
    hide Inside, Parts;
    PartsNotNone(ms, cuts);
    PartsSplit(ms, cuts);
    var first, rest := Frame(ms[0])[..cuts[0]], Parts(ms[1..], cuts[1..]);
    i, e := 0, p;
    if cuts[0] <= p {
      i, e := StretchOfParts(ms[1..], cuts[1..], p - cuts[0], n);
      SliceRight(first, rest, p, n);
      if 0 !in rest[p - cuts[0]..p - cuts[0] + n] {
        SkipPart(ms, cuts, p, n, i, e);
        i := i + 1;
      }
    } else if p == 0 {
      FirstByteZero(ms[0]);
      assert (first + rest)[p..p + n][0] == 0;
    } else if p + n <= cuts[0] {
      InFirstPart(ms, cuts, p, n);
    } else {
      FirstPartZero(ms[1..], cuts[1..]);
      assert (first + rest)[p..p + n][cuts[0] - p] == rest[0];
    }
  }

  lemma PartsNotNone(ms: seq<seq<Byte>>, cuts: seq<nat>)
    requires AllCuts(ms, cuts) && Parts(ms, cuts) != []
    ensures ms != []
  {
  }

  lemma InFirstPart(ms: seq<seq<Byte>>, cuts: seq<nat>, p: nat, n: nat)
    requires AllCuts(ms, cuts) && ms != [] && 0 < p && p + n <= cuts[0] && p + n <= |Parts(ms, cuts)|
    ensures Inside(ms, cuts, p, n, 0, p)
  {
    hide Parts, Frame;
    PartsSplit(ms, cuts);
    var frame, rest := Frame(ms[0]), Parts(ms[1..], cuts[1..]);
    SliceLeft(frame[..cuts[0]], rest, p, n);
    SliceLeft(frame[..cuts[0]], rest, 0, p);
    assert frame[..cuts[0]][p..p + n] == frame[p..p + n] && frame[..cuts[0]][0..p] == frame[..p];
  }

  lemma {:induction false} FirstPartZero(ms: seq<seq<Byte>>, cuts: seq<nat>)
    requires AllCuts(ms, cuts) && AllShort(ms) && Parts(ms, cuts) != []
    ensures Parts(ms, cuts)[0] == 0
  {
    FirstByteZero(ms[0]);
    if cuts[0] == 0 { FirstPartZero(ms[1..], cuts[1..]); }
  }

  /** A byte that no UTF-8 text without a null has (section 3 of RFC 3629). */
  predicate NoText(b: Byte) {
    b == 0 || b >= 0xFD
  }

  /** The tail of a message's length, from its byte `e` on, and a proper front of the
      message. */
  predicate CutShort(read: seq<Byte>, m: seq<Byte>, e: nat)
    requires IsMessage(m)
  {
    0 < e < 4 && e + |read| < |m| + 4 && read == Frame(m)[e..e + |read|]
  }

  /** What an unfinished frame and the frames after it can make a receiver read. */
  predicate Garbled(read: seq<Byte>, ms: seq<seq<Byte>>)
    requires AllMessages(ms)
  {
    (exists k :: 0 <= k < |read| && NoText(read[k])) || exists i, e :: 0 <= i < |ms| && 0 < e < 4 && CutShort(read, ms[i], e)
  }

  /** Read from the tail of its own length on, a whole message has a byte that text has
      not: the length read would not fit otherwise. */
  lemma WholeIsNoText(read: seq<Byte>, m: seq<Byte>, e: nat)
    requires IsMessage(read) && IsMessage(m) && |m| < SHORT && 0 < e < 4
    requires read == Frame(m)[e..] && Prefix(|read|)[4 - e..] == Frame(m)[..e]
    ensures exists k :: 0 <= k < |read| && NoText(read[k])
  {
    hide Prefix, Length, IsMessage;
    var p, q := Prefix(|m|), Prefix(|read|);
    LengthOfPrefix(|m|);
    LengthOfPrefix(|read|);
    assert |read| == |m| + 4 - e;
    assert forall k :: 0 <= k < e ==> Frame(m)[k] == p[k] && q[4 - e..][k] == q[4 - e + k];
    assert forall k :: e <= k < 4 ==> read[k - e] == p[k];
    LengthsApart(p, q, e);
    var at :| e <= at < 4 && NoText(p[at]);
    assert NoText(read[at - e]);
  }

  /** A length and one greater by `4 - e` that ends as the first begins. */
  lemma LengthsApart(p: seq<Byte>, q: seq<Byte>, e: nat)
    requires |p| == |q| == 4 && 0 < e < 4 && Length(p) < SHORT && Length(q) == Length(p) + 4 - e
    requires forall k :: 0 <= k < e ==> q[4 - e + k] == p[k]
    ensures exists k :: e <= k < 4 && NoText(p[k])
  {
    var x: nat, y: nat, z: nat := p[1], p[2], p[3];
    var d: nat, f: nat, g: nat, h: nat := q[0], q[1], q[2], q[3];
    assert p[0] == 0 && q[4 - e] == 0;
    assert d * 0x1000000 + f * 0x10000 + g * 0x100 + h == x * 0x10000 + y * 0x100 + z + 4 - e;
    if e == 1 {
      LowByte(d * 0x10000 + f * 0x100 + g, x * 0x100 + y, z);
      assert NoText(p[3]);
    } else if e == 2 {
      assert h == p[1];
      MiddleByte(d * 0x100 + f, x, y, z);
      assert NoText(p[2]);
    } else {
      assert g == p[1] && h == p[2];
      LaterLength(d, x, y, z);
    }
  }

  lemma LowByte(high: nat, other: nat, z: nat)
    requires z < 0x100 && high * 0x100 == other * 0x100 + z + 3
    ensures z == 0xFD
  {
  }

  lemma MiddleByte(high: nat, x: nat, y: nat, z: nat)
    requires x < 0x100 && y < 0x100 && z < 0x100 && high * 0x10000 + x == x * 0x10000 + y * 0x100 + z + 2
    ensures y == 0 || y == 0xFF
  {
    assert high <= x + 1;
    assert high >= x;
  }

  lemma LaterLength(d: nat, x: nat, y: nat, z: nat)
    requires x < 0x100 && y < 0x100 && z < 0x100
    ensures d * 0x1000000 + x * 0x100 + y != x * 0x10000 + y * 0x100 + z + 1
  {
  }

  /** THE FIRST MESSAGE READ OVER AN UNFINISHED FRAME IS GARBLED, however many sends fail
      after it, and at whatever bytes. */
  lemma OverUnfinished(ms: seq<seq<Byte>>, cuts: seq<nat>, read: seq<Byte>)
    requires AllCuts(ms, cuts) && AllShort(ms) && ms != [] && IsPartial(ms[0], cuts[0])
    requires IsMessage(read) && Frame(read) <= Parts(ms, cuts)
    ensures Garbled(read, ms) && WentOn(ms, cuts)
  {
    hide Parts, Prefix, CutShort;
    var whole, n := Parts(ms, cuts), |read|;
    assert whole[..4 + n] == Frame(read);
    assert whole[4..4 + n] == whole[..4 + n][4..] == read;
    OwnLength(ms, cuts, read);
    PartsSplit(ms, cuts);
    var i, e := StretchOfParts(ms, cuts, 4, n);
    if 0 in read {
      var k :| 0 <= k < |read| && read[k] == 0;
      assert NoText(read[k]);
    } else if e + n == |ms[i]| + 4 {
      assert whole[4 - e..4] == whole[..4 + n][4 - e..4] == Prefix(n)[4 - e..];
      assert Frame(ms[i])[e..e + n] == Frame(ms[i])[e..];
      WholeIsNoText(read, ms[i], e);
    } else {
      IsCutShort(read, ms[i], e);
    }
  }

  lemma IsCutShort(read: seq<Byte>, m: seq<Byte>, e: nat)
    requires IsMessage(m) && 0 < e < 4 && e + |read| < |m| + 4 && read == Frame(m)[e..e + |read|]
    ensures CutShort(read, m, e)
  {
  }

  /** An unfinished frame does not hold its own message. */
  lemma OwnLength(ms: seq<seq<Byte>>, cuts: seq<nat>, read: seq<Byte>)
    requires AllCuts(ms, cuts) && ms != [] && IsMessage(read) && Frame(read) <= Parts(ms, cuts)
    ensures 4 + |read| <= cuts[0] ==> cuts[0] == |ms[0]| + 4
  {
    if 4 + |read| <= cuts[0] {
      var whole := Parts(ms, cuts);
      assert whole[..4] == Prefix(|read|) && whole[..4] == Prefix(|ms[0]|);
      LengthOfPrefix(|read|);
      LengthOfPrefix(|ms[0]|);
    }
  }

  /** WHAT A RECEIVER GETS when sends may fail anywhere: the messages before the first
      unfinished frame, in order; and if something was written after that frame it may
      read one more, which is garbled. */
  lemma {:induction false} ReceivedClear(received: seq<seq<Byte>>, ms: seq<seq<Byte>>, cuts: seq<nat>)
    requires AllMessages(received) && AllCuts(ms, cuts) && AllShort(ms) && Frames(received) <= Parts(ms, cuts)
    ensures var clear := Clear(ms, cuts);
      received <= clear || (clear < received && WentOn(ms, cuts) && Garbled(received[|clear|], ms))
    decreases |ms|
  {
    hide Garbled, Frame, Frames, Parts;
    if received != [] {
      FirstReceived(received, ms, cuts);
      PartsSplit(ms, cuts);
      var clear := Clear(ms[1..], cuts[1..]);
      if IsPartial(ms[0], cuts[0]) {
        OverUnfinished(ms, cuts, received[0]);
      } else if cuts[0] == 0 {
        assert Parts(ms, cuts) == Parts(ms[1..], cuts[1..]);
        ReceivedClear(received, ms[1..], cuts[1..]);
        GarbledMore(received, ms, clear);
      } else {
        ReceivedClear(received[1..], ms[1..], cuts[1..]);
        GarbledMore(received[1..], ms, clear);
        assert received == [received[0]] + received[1..];
      }
    }
  }

  /** The first message received is the first one tried, if that was written whole. */
  lemma FirstReceived(received: seq<seq<Byte>>, ms: seq<seq<Byte>>, cuts: seq<nat>)
    requires AllMessages(received) && received != [] && AllCuts(ms, cuts) && Frames(received) <= Parts(ms, cuts)
    ensures ms != [] && IsMessage(received[0]) && Frame(received[0]) <= Parts(ms, cuts) && AllMessages(received[1..])
    ensures cuts[0] == |ms[0]| + 4 ==> received[0] == ms[0] && Frames(received[1..]) <= Parts(ms[1..], cuts[1..])
  {
    hide Frame;
    var left := Parts(ms, cuts)[|Frames(received)|..];
    assert Parts(ms, cuts) == Frames(received) + left;
    AppendAssoc(Frame(received[0]), Frames(received[1..]), left);
    if cuts[0] == |ms[0]| + 4 {
      assert Frame(ms[0])[..cuts[0]] == Frame(ms[0]);
      OneFrame(received[0], ms[0], Frames(received[1..]) + left, Parts(ms[1..], cuts[1..]));
    }
  }

  lemma GarbledMore(received: seq<seq<Byte>>, ms: seq<seq<Byte>>, clear: seq<seq<Byte>>)
    requires AllMessages(ms) && ms != []
    requires received <= clear || (clear < received && Garbled(received[|clear|], ms[1..]))
    ensures received <= clear || (clear < received && Garbled(received[|clear|], ms))
  {
    hide NoText, CutShort;
    if clear < received && !exists k :: 0 <= k < |received[|clear|]| && NoText(received[|clear|][k]) {
      var i, e :| 0 <= i < |ms[1..]| && 0 < e < 4 && CutShort(received[|clear|], ms[1..][i], e);
      assert CutShort(received[|clear|], ms[i + 1], e);
    }
  }

  /** What the system does at one read or write: fails, or moves some bytes. A failed
      write may still have moved some; one that moves none has come to a halt. */
  datatype Event = Event(fails: bool, size: nat)

  /** Something failed between two moments. */
  ghost predicate Failed(world: nat -> Event, from: nat, to: nat) {
    exists n :: from <= n < to && world(n).fails
  }

  /** A write failed or came to a halt between two moments. */
  ghost predicate Halted(world: nat -> Event, from: nat, to: nat) {
    exists n :: from <= n < to && (world(n).fails || world(n).size == 0)
  }

  /** The bytes begin with the frame of this message, of at most `max` bytes. */
  predicate Offers(b: seq<Byte>, m: seq<Byte>, max: nat) {
    IsMessage(m) && |m| <= max && Frame(m) <= b
  }

  ghost predicate HoldsMessage(b: seq<Byte>, max: nat) {
    exists m :: Offers(b, m, max)
  }

  /** The writing side of the pipe. */
  class Sink {
    const world: nat -> Event
    var moment: nat
    ghost var written: seq<Byte>

    constructor (world: nat -> Event)
      ensures written == []
    {
      this.world, moment, written := world, 0, [];
    }

    method WriteFile(data: seq<Byte>) returns (count: Option<nat>, ghost moved: nat)
      requires data != []
      modifies this
      ensures moved <= |data| && written == old(written) + data[..moved] && moment == old(moment) + 1
      ensures count == if world(old(moment)).fails then None else Some(moved)
      ensures moved == 0 <==> world(old(moment)).size == 0
    {
      var e := world(moment);
      moment := moment + 1;
      var n := if e.size == 0 then 0 else 1 + (e.size - 1) % |data|;
      moved := n;
      written := written + data[..n];
      count := if e.fails then None else Some(n);
    }
  }

  /** The reading side: bytes arrive in the order in which `total` has them. */
  class Source {
    const world: nat -> Event
    const total: seq<Byte>
    var moment: nat
    var position: nat

    ghost predicate Valid()
      reads this
    {
      position <= |total|
    }

    constructor (world: nat -> Event, total: seq<Byte>)
      ensures Valid() && position == 0 && this.total == total
    {
      this.world, this.total, moment, position := world, total, 0, 0;
    }

    /** At least one byte, at most `size`; or nothing, on a failure, a timeout or the end. */
    method ReadFile(size: nat) returns (chunk: Option<seq<Byte>>)
      requires Valid() && size > 0
      modifies this
      ensures Valid() && position >= old(position) && moment == old(moment) + 1
      ensures chunk.Some? ==> 0 < |chunk.value| <= size && chunk.value == total[old(position)..position]
      ensures chunk == None <==> world(old(moment)).fails || old(position) == |total|
    {
      var e := world(moment);
      moment := moment + 1;
      if e.fails || position == |total| {
        return None;
      }
      var most := if size < |total| - position then size else |total| - position;
      var n := 1 + e.size % most;
      chunk := Some(total[position..position + n]);
      position := position + n;
    }
  }

  class PipeConnection {
    const input: Source
    const output: Sink
    var closed: bool
    ghost var tried: seq<seq<Byte>>
    ghost var cuts: seq<nat>
    ghost var received: seq<seq<Byte>>

    /** Everything written is parts of the frames of the messages tried; everything
        received came as frames, and while the connection is open nothing else was read. */
    ghost predicate Valid()
      reads this, input, output
    {
      && input.Valid()
      && AllCuts(tried, cuts) && output.written == Parts(tried, cuts)
      && AllMessages(received) && Frames(received) <= input.total
      && (!closed ==> input.total[..input.position] == Frames(received))
    }

    /** All that was received decodes, but for what the connection was closed on. */
    ghost predicate Decoded(decodes: seq<Byte> -> bool)
      reads this
    {
      forall i :: 0 <= i < |received| && (i < |received| - 1 || !closed) ==> decodes(received[i])
    }

    constructor (input: Source, output: Sink)
      requires input.Valid() && input.position == 0 && output.written == []
      ensures Valid() && !closed && tried == [] && cuts == [] && received == []
      ensures this.input == input && this.output == output
    {
      this.input, this.output, closed := input, output, false;
      tried, cuts, received := [], [], [];
    }

    /** Writes one message, whole, or reports a failure after any part of it. The
        connection stays open. */
    method SendBytes(payload: seq<Byte>, maxBytes: nat) returns (ok: bool)
      requires Valid() && maxBytes < PREFIX_LIMIT
      modifies this`tried, this`cuts, output
      ensures Valid()
      ensures if payload == [] || |payload| > maxBytes || closed then
          !ok && tried == old(tried) && cuts == old(cuts)
        else
          && tried == old(tried) + [payload] && |cuts| == |tried| && cuts[..|cuts| - 1] == old(cuts)
          && (ok ==> cuts[|cuts| - 1] == |payload| + 4)
          && (!ok ==> Halted(output.world, old(output.moment), output.moment))
    {
      hide Frame, Parts;
      if payload == [] || |payload| > maxBytes || closed {
        return false;
      }
      var frame := Frame(payload);
      ghost var before := output.written;
      var offset := 0;
      assert before + frame[..0] == before;
      while offset < |frame|
        invariant 0 <= offset <= |frame| && output.written == before + frame[..offset]
        invariant tried == old(tried) && cuts == old(cuts) && output.moment >= old(output.moment)
        decreases |frame| - offset
      {
        var count; ghost var moved;
        count, moved := output.WriteFile(frame[offset..]);
        PartWritten(before, frame, offset, moved);
        if count == None || count.value < 1 {
          HaltedHere(output.world, old(output.moment), output.moment - 1);
          PartsSnoc(tried, cuts, payload, offset + moved);
          tried, cuts := tried + [payload], cuts + [offset + moved];
          return false;
        }
        offset := offset + count.value;
      }
      PartsSnoc(tried, cuts, payload, |frame|);
      tried, cuts := tried + [payload], cuts + [|frame|];
      ok := true;
    }

    /** The next message that decodes; on anything else the connection is closed. */
    method Receive(maxBytes: nat, decodes: seq<Byte> -> bool) returns (message: Option<seq<Byte>>)
      requires Valid() && Decoded(decodes) && maxBytes < PREFIX_LIMIT
      modifies this`closed, this`received, input
      ensures Valid() && Decoded(decodes) && (closed <==> message == None) && (old(closed) ==> closed)
      ensures message.Some? ==> 0 < |message.value| <= maxBytes && decodes(message.value)
      ensures message.Some? ==> received == old(received) + [message.value]
      ensures message == None ==>
        received == old(received) || exists bad :: !decodes(bad) && received == old(received) + [bad]
      ensures input.moment >= old(input.moment) && input.position >= old(input.position)
      ensures message.Some? ==> input.total[old(input.position)..input.position] == Frame(message.value)
      ensures !old(closed) && !Failed(input.world, old(input.moment), input.moment) ==>
        forall m :: Offers(input.total[old(input.position)..], m, maxBytes) && decodes(m) ==> message == Some(m)
    {
      ghost var rest := input.total[input.position..];
      message := ReceiveBytes(maxBytes);
      if message.Some? {
        assert rest[..input.position - old(input.position)] == Frame(message.value);
        OneOffer(rest, message.value, maxBytes);
      }
      if message.Some? && !decodes(message.value) {
        assert received == old(received) + [message.value];
        Close();
        message := None;
      }
    }

    /** The next message, or none and the connection is closed: that happens only when it
        was closed, when a read failed, or when no message of the allowed length is there. */
    method ReceiveBytes(maxBytes: nat) returns (message: Option<seq<Byte>>)
      requires Valid() && maxBytes < PREFIX_LIMIT
      modifies this`closed, this`received, input
      ensures Valid() && (closed <==> message == None) && (old(closed) ==> closed)
      ensures message.Some? ==> 0 < |message.value| <= maxBytes && received == old(received) + [message.value]
      ensures input.moment >= old(input.moment) && input.position >= old(input.position)
      ensures message.Some? ==> input.total[old(input.position)..input.position] == Frame(message.value)
      ensures message == None ==> received == old(received)
      ensures message == None ==>
        || old(closed) || Failed(input.world, old(input.moment), input.moment)
        || !HoldsMessage(input.total[old(input.position)..], maxBytes)
    {
      ghost var start := input.position;
      ghost var rest := input.total[start..];
      var prefix := ReadExact(4);
      if prefix == None {
        NoMessageIn(rest, maxBytes);
        Close();
        return None;
      }
      var length := Length(prefix.value);
      assert prefix.value == rest[..4];
      MessageLength(rest, maxBytes);
      if length < 1 || length > maxBytes {
        Close();
        return None;
      }
      ghost var middle := input.moment;
      message := ReadExact(length);
      if message == None {
        Close();
        return None;
      }
      PrefixOfLength(prefix.value);
      FramesSnoc(received, message.value);
      FrameRead(input.total, start, prefix.value, message.value, received);
      received := received + [message.value];
    }

    /** Exactly `size` bytes, gathered from as many reads as it takes; or nothing, when the
        connection is closed, a read fails, or there are not so many. */
    method ReadExact(size: nat) returns (data: Option<seq<Byte>>)
      requires input.Valid() && size > 0
      modifies input
      ensures input.Valid() && input.position >= old(input.position) && input.moment >= old(input.moment)
      ensures data.Some? ==> !closed && |data.value| == size && data.value == input.total[old(input.position)..input.position]
      ensures closed ==> data == None
      ensures data == None ==>
        closed || Failed(input.world, old(input.moment), input.moment) || old(input.position) + size > |input.total|
    {
      if closed {
        return None;
      }
      var chunks := [];
      while |chunks| < size
        invariant input.Valid() && input.position >= old(input.position) && input.moment >= old(input.moment)
        invariant |chunks| <= size && chunks == input.total[old(input.position)..input.position]
        decreases size - |chunks|
      {
        var chunk := input.ReadFile(size - |chunks|);
        if chunk == None {
          assert input.world(input.moment - 1).fails || old(input.position) + |chunks| == |input.total|;
          return None;
        }
        chunks := chunks + chunk.value;
      }
      data := Some(chunks);
    }

    /** What comes next is still to be received, unless a read failed. */
    ghost predicate Expects(from: nat, coming: seq<seq<Byte>>, max: nat, decodes: seq<Byte> -> bool)
      reads this, input
      requires input.Valid()
    {
      Failed(input.world, from, input.moment) || (!closed && AreComing(input.total[input.position..], coming, max, decodes))
    }

    /** The loop that receives one message after the other, as many as are asked for. */
    method ReceiveMessages(count: nat, maxBytes: nat, decodes: seq<Byte> -> bool, ghost coming: seq<seq<Byte>>)
      returns (messages: seq<seq<Byte>>)
      requires Valid() && Decoded(decodes) && maxBytes < PREFIX_LIMIT && |coming| == count
      modifies this`closed, this`received, input
      ensures Valid() && Decoded(decodes) && |messages| <= count && old(received) + messages <= received
      ensures !old(closed) && old(AreComing(input.total[input.position..], coming, maxBytes, decodes)) ==>
        Failed(input.world, old(input.moment), input.moment) || (messages == coming && !closed)
    {
      hide AreComing, Offers, Decoded, Frame, Frames, Parts, Failed, AllCuts;
      messages := [];
      ghost var from, left := input.moment, coming;
      ghost var expected := !closed && AreComing(input.total[input.position..], coming, maxBytes, decodes);
      while |messages| < count && !closed
        invariant Valid() && Decoded(decodes) && |messages| <= count && input.moment >= from
        invariant old(received) + messages <= received && (!closed ==> received == old(received) + messages)
        invariant expected ==> Expects(from, left, maxBytes, decodes)
        invariant expected ==> Failed(input.world, from, input.moment) || messages + left == coming
        decreases count - |messages|, !closed
      {
        ghost var start, middle := input.position, input.moment;
        var message := Receive(maxBytes, decodes);
        FailedBefore(input.world, from, middle, input.moment);
        if expected && !Failed(input.world, from, input.moment) {
          NextComing(input.total, start, left, maxBytes, decodes);
          assert message == Some(left[0]);
          left := left[1..];
        }
        if message.Some? {
          messages := messages + [message.value];
        }
      }
    }

    method Close()
      modifies this`closed
      ensures closed
    {
      closed := true;
    }
  }

  /** The bytes begin with the frames of these messages, which a receiver can take. */
  ghost predicate AreComing(b: seq<Byte>, ms: seq<seq<Byte>>, max: nat, decodes: seq<Byte> -> bool) {
    AllMessages(ms) && Frames(ms) <= b && forall i :: 0 <= i < |ms| ==> |ms[i]| <= max && decodes(ms[i])
  }

  lemma NextComing(total: seq<Byte>, start: nat, ms: seq<seq<Byte>>, max: nat, decodes: seq<Byte> -> bool)
    requires start <= |total| && AreComing(total[start..], ms, max, decodes) && ms != []
    ensures Offers(total[start..], ms[0], max) && decodes(ms[0])
    ensures forall end :: start <= end <= |total| && total[start..end] == Frame(ms[0]) ==>
      AreComing(total[end..], ms[1..], max, decodes)
  {
    hide Frame;
    var b, first, rest := total[start..], Frame(ms[0]), Frames(ms[1..]);
    assert b[..|first| + |rest|] == first + rest;
    assert b[..|first|] == first && b[|first|..][..|rest|] == rest;
    forall end | start <= end <= |total| && total[start..end] == first ensures AreComing(total[end..], ms[1..], max, decodes) {
      assert end == start + |first| && total[end..] == b[|first|..];
    }
  }

  lemma FailedBefore(world: nat -> Event, from: nat, middle: nat, to: nat)
    requires from <= middle <= to
    ensures Failed(world, from, middle) || Failed(world, middle, to) ==> Failed(world, from, to)
  {
  }

  /** Only one message can be at the front of the same bytes. */
  lemma OneOffer(b: seq<Byte>, a: seq<Byte>, max: nat)
    requires IsMessage(a) && Frame(a) <= b
    ensures forall m :: Offers(b, m, max) ==> m == a
  {
    hide Frame;
    forall m | Offers(b, m, max) ensures m == a {
      assert Frame(m) + b[|Frame(m)|..] == b && Frame(a) + b[|Frame(a)|..] == b;
      OneFrame(m, a, b[|Frame(m)|..], b[|Frame(a)|..]);
    }
  }

  /** NOTHING SENT WHOLE IS LOST. All messages before the first unfinished frame are there
      for a receiver of the bytes written; ReceiveMessages says that it gets them all. */
  lemma ClearIsComing(sender: PipeConnection, max: nat, decodes: seq<Byte> -> bool)
    requires sender.Valid()
    ensures var clear := Clear(sender.tried, sender.cuts);
      (forall i :: 0 <= i < |clear| ==> |clear[i]| <= max && decodes(clear[i])) ==>
        AreComing(sender.output.written, clear, max, decodes)
  {
    ClearFramed(sender.tried, sender.cuts);
  }

  lemma {:induction false} ClearFramed(ms: seq<seq<Byte>>, cuts: seq<nat>)
    requires AllCuts(ms, cuts)
    ensures Frames(Clear(ms, cuts)) <= Parts(ms, cuts)
  {
    hide Frame;
    if ms != [] && !IsPartial(ms[0], cuts[0]) {
      ClearFramed(ms[1..], cuts[1..]);
      var clear, rest := Clear(ms[1..], cuts[1..]), Parts(ms[1..], cuts[1..]);
      PartsSplit(ms, cuts);
      if cuts[0] == 0 {
        assert Parts(ms, cuts) == rest;
      } else {
        assert Frame(ms[0])[..cuts[0]] == Frame(ms[0]);
        assert ([ms[0]] + clear)[1..] == clear;
        PrefixUnder(Frame(ms[0]), Frames(clear), rest);
      }
    }
  }

  lemma PrefixUnder(a: seq<Byte>, b: seq<Byte>, c: seq<Byte>)
    requires b <= c
    ensures a + b <= a + c
  {
    assert (a + c)[..|a| + |b|] == a + b;
  }

  /** Without an unfinished frame, everything of which a byte was written is clear. */
  lemma {:induction false} AllClear(ms: seq<seq<Byte>>, cuts: seq<nat>)
    requires AllCuts(ms, cuts) && forall i :: 0 <= i < |ms| ==> cuts[i] == |ms[i]| + 4
    ensures Clear(ms, cuts) == ms
  {
    if ms != [] {
      AllClear(ms[1..], cuts[1..]);
      assert ms == [ms[0]] + ms[1..];
    }
  }

  lemma HaltedHere(world: nat -> Event, from: nat, n: nat)
    requires from <= n && (world(n).fails || world(n).size == 0)
    ensures Halted(world, from, n + 1)
  {
  }

  /** Where fewer bytes are than a prefix there is no message. */
  lemma NoMessageIn(b: seq<Byte>, max: nat)
    ensures |b| < 4 ==> !HoldsMessage(b, max)
  {
  }

  /** A message at the front has the length that its prefix says, and is all there. */
  lemma MessageLength(b: seq<Byte>, max: nat)
    requires |b| >= 4
    ensures HoldsMessage(b, max) ==> 1 <= Length(b[..4]) <= max && 4 + Length(b[..4]) <= |b|
  {
    hide Prefix, Length;
    if HoldsMessage(b, max) {
      var m :| Offers(b, m, max);
      assert IsMessage(m);
      LengthOfPrefix(|m|);
      assert b[..4] == Frame(m)[..4] == Prefix(|m|);
    }
  }

  lemma PartWritten(before: seq<Byte>, frame: seq<Byte>, offset: nat, moved: nat)
    requires offset + moved <= |frame|
    ensures before + frame[..offset] + frame[offset..][..moved] == before + frame[..offset + moved]
    ensures before + frame[..offset + moved] <= before + frame
  {
    assert frame[..offset] + frame[offset..][..moved] == frame[..offset + moved];
    assert before + frame == before + frame[..offset + moved] + frame[offset + moved..];
  }

  lemma FrameRead(total: seq<Byte>, start: nat, prefix: seq<Byte>, message: seq<Byte>, received: seq<seq<Byte>>)
    requires AllMessages(received) && IsMessage(message) && prefix == Prefix(|message|)
    requires start + 4 + |message| <= |total| && total[..start] == Frames(received)
    requires total[start..start + 4] == prefix && total[start + 4..start + 4 + |message|] == message
    ensures total[..start + 4 + |message|] == Frames(received) + Frame(message)
    ensures Frames(received) + Frame(message) <= total
  {
    assert total[..start + 4 + |message|] == total[..start] + total[start..start + 4] + total[start + 4..start + 4 + |message|];
  }

  /** Two ends of one pipe: what one has received are, in order, messages that the other
      sent before the first frame it left unfinished; beyond that it has read garbled
      bytes, and only if the other wrote more after that frame. */
  lemma EndToEnd(sender: PipeConnection, receiver: PipeConnection)
    requires sender.Valid() && AllShort(sender.tried) && receiver.Valid()
    requires receiver.input.total <= sender.output.written
    ensures var clear := Clear(sender.tried, sender.cuts);
      receiver.received <= clear ||
      (clear < receiver.received && WentOn(sender.tried, sender.cuts) && Garbled(receiver.received[|clear|], sender.tried))
  {
    ReceivedClear(receiver.received, sender.tried, sender.cuts);
  }

  /** A decoder of texts: it refuses null and bytes that UTF-8 has not, and what is cut
      short of one of the messages, also behind up to three other bytes. */
  ghost predicate ReadsTexts(decodes: seq<Byte> -> bool, ms: seq<seq<Byte>>) {
    && (forall t, k :: decodes(t) && 0 <= k < |t| ==> !NoText(t[k]))
    && (forall lead: seq<Byte>, i, n: nat :: 0 <= i < |ms| && 0 < |lead| < 4 && n < |ms[i]| ==> !decodes(lead + ms[i][..n]))
  }

  lemma {:induction false} GarbledNotDecoded(decodes: seq<Byte> -> bool, ms: seq<seq<Byte>>, read: seq<Byte>)
    requires AllMessages(ms) && ReadsTexts(decodes, ms) && IsMessage(read) && Garbled(read, ms)
    ensures !decodes(read)
  {
    hide NoText, Prefix;
    if !exists k :: 0 <= k < |read| && NoText(read[k]) {
      var i, e :| 0 <= i < |ms| && 0 < e < 4 && CutShort(read, ms[i], e);
      var lead := Prefix(|ms[i]|)[e..];
      if |read| <= 4 - e {
        assert read == read + ms[i][..0];
      } else {
        assert read == lead + ms[i][..|read| - (4 - e)];
      }
    }
  }

  /** The messages handed to the caller: all received, but for one that did not decode. */
  function Delivered(received: seq<seq<Byte>>, decodes: seq<Byte> -> bool): seq<seq<Byte>> {
    if received != [] && !decodes(received[|received| - 1]) then received[..|received| - 1] else received
  }

  /** NO FORGED MESSAGE. Whatever sends failed half-way on a connection that stayed open,
      a receiver of texts hands on only messages that were sent, in order. */
  lemma OnlySentDelivered(sender: PipeConnection, receiver: PipeConnection, decodes: seq<Byte> -> bool)
    requires sender.Valid() && AllShort(sender.tried) && receiver.Valid() && receiver.Decoded(decodes)
    requires receiver.input.total <= sender.output.written && ReadsTexts(decodes, sender.tried)
    ensures Delivered(receiver.received, decodes) <= Clear(sender.tried, sender.cuts)
  {
    hide Garbled, ReadsTexts;
    EndToEnd(sender, receiver);
    var clear := Clear(sender.tried, sender.cuts);
    if clear < receiver.received {
      GarbledNotDecoded(decodes, sender.tried, receiver.received[|clear|]);
    }
  }

  /** It happens, when a sender goes on after a frame left unfinished: the bytes read are
      a message that was never sent, the tail of one frame and the front of the next. */
  lemma UnclosedSenderDesynchronises() returns (first: seq<Byte>, second: seq<Byte>, cut: nat, read: seq<Byte>)
    ensures IsMessage(first) && IsMessage(second) && IsMessage(read) && cut < |Frame(first)|
    ensures Frame(read) <= Frame(first)[..cut] + Frame(second) && read != first && read != second
  {
    first, second, cut, read := [7, 7, 7], [9], 4, [0, 0, 0];
    assert Prefix(3) == [0, 0, 0, 3] && Prefix(1) == [0, 0, 0, 1];
    assert Frame(first)[..cut] == [0, 0, 0, 3] && Frame(second) == [0, 0, 0, 1, 9];
    assert Frame(read) == [0, 0, 0, 3, 0, 0, 0];
    assert Frame(first)[..cut] + Frame(second) == [0, 0, 0, 3, 0, 0, 0, 1, 9];
  }
}
