/** UTF-8 as sections 3 and 4 of RFC 3629 define it, with the two decoding
    modes the program uses: strict decoding, which reports where it stopped, and
    decoding that replaces each maximal malformed part. */
module Utf8 {
  import opened Bytes

  const REPLACEMENT := 0xFFFD as char

  function EncodeChar(c: char): (r: seq<Byte>)
    ensures 1 <= |r| <= 4
    ensures c as int < 128 <==> |r| == 1
    ensures |r| > 1 ==> forall i :: 0 <= i < |r| ==> r[i] >= 128
  {
    var n := c as int;
    if n < 0x80 then [n]
    else if n < 0x800 then [0xC0 + n / 64, 0x80 + n % 64]
    else if n < 0x10000 then [0xE0 + n / 4096, 0x80 + n / 64 % 64, 0x80 + n % 64]
    else [0xF0 + n / 262144, 0x80 + n / 4096 % 64, 0x80 + n / 64 % 64, 0x80 + n % 64]
  }

  function Encode(t: string): seq<Byte> {
    if t == "" then [] else EncodeChar(t[0]) + Encode(t[1..])
  }

  /** What the decoder finds at the front of its input: a scalar value, a
      malformed part of `width` bytes, or a sequence the input ends inside. */
  datatype Front = Scalar(c: char, width: nat) | Malformed(width: nat) | Unfinished

  predicate Continuation(b: Byte) {
    0x80 <= b < 0xC0
  }

  /** The bits a byte carries beside its length or continuation mark. */
  function Payload(b: Byte, mark: Byte): int {
    b - mark
  }

  function ScanFront(b: seq<Byte>): (f: Front)
    requires b != []
    ensures !f.Unfinished? ==> 1 <= f.width <= |b|
  {
    if b[0] < 0x80 then Scalar(b[0] as char, 1)
    else if b[0] < 0xC2 || b[0] > 0xF4 then Malformed(1)
    else if b[0] < 0xE0 then ScanTwo(b)
    else if b[0] < 0xF0 then ScanThree(b)
    else ScanFour(b)
  }

  function ScanTwo(b: seq<Byte>): (f: Front)
    requires b != [] && 0xC2 <= b[0] < 0xE0
    ensures !f.Unfinished? ==> 1 <= f.width <= |b|
  {
    if |b| < 2 then Unfinished
    else if !Continuation(b[1]) then Malformed(1)
    else Scalar((Payload(b[0], 0xC0) * 64 + Payload(b[1], 0x80)) as char, 2)
  }

  function ScanThree(b: seq<Byte>): (f: Front)
    requires b != [] && 0xE0 <= b[0] < 0xF0
    ensures !f.Unfinished? ==> 1 <= f.width <= |b|
  {
    if |b| < 2 then Unfinished
    else if !Continuation(b[1]) || (b[0] == 0xE0 && b[1] < 0xA0) || (b[0] == 0xED && b[1] >= 0xA0) then Malformed(1)
    else if |b| < 3 then Unfinished
    else if !Continuation(b[2]) then Malformed(2)
    else Scalar((Payload(b[0], 0xE0) * 4096 + Payload(b[1], 0x80) * 64 + Payload(b[2], 0x80)) as char, 3)
  }

  function ScanFour(b: seq<Byte>): (f: Front)
    requires b != [] && 0xF0 <= b[0] <= 0xF4
    ensures !f.Unfinished? ==> 1 <= f.width <= |b|
  {
    if |b| < 2 then Unfinished
    else if !Continuation(b[1]) || (b[0] == 0xF0 && b[1] < 0x90) || (b[0] == 0xF4 && b[1] >= 0x90) then Malformed(1)
    else if |b| < 3 then Unfinished
    else if !Continuation(b[2]) then Malformed(2)
    else if |b| < 4 then Unfinished
    else if !Continuation(b[3]) then Malformed(3)
    else Scalar((Payload(b[0], 0xF0) * 262144 + Payload(b[1], 0x80) * 4096 + Payload(b[2], 0x80) * 64 + Payload(b[3], 0x80)) as char, 4)
  }

  /** A strict decoding: the text, or the bounds of the first undecodable part
      and whether it is there only because the input ended. */
  datatype Decoding = Text(text: string) | Undecodable(start: nat, end: nat, atEnd: bool)

  function Decode(b: seq<Byte>): (d: Decoding)
    ensures d.Undecodable? ==> d.start < d.end <= |b|
  {
    if b == [] then Text("")
    else
      match ScanFront(b)
      case Malformed(width) => Undecodable(0, width, false)
      case Unfinished => Undecodable(0, |b|, true)
      case Scalar(c, width) =>
        match Decode(b[width..])
        case Text(rest) => Text([c] + rest)
        case Undecodable(start, end, atEnd) => Undecodable(start + width, end + width, atEnd)
  }

  function DecodeReplacing(b: seq<Byte>): string {
    if b == [] then ""
    else
      match ScanFront(b)
      case Malformed(width) => [REPLACEMENT] + DecodeReplacing(b[width..])
      case Unfinished => [REPLACEMENT]
      case Scalar(c, width) => [c] + DecodeReplacing(b[width..])
  }

  lemma SplitSixBits(n: nat)
    ensures n == n / 64 * 64 + n % 64
    ensures n / 64 == n / 4096 * 64 + n / 64 % 64
    ensures n / 4096 == n / 262144 * 64 + n / 4096 % 64
  {
  }

  lemma ScanEncoded(c: char, rest: seq<Byte>)
    ensures ScanFront(EncodeChar(c) + rest) == Scalar(c, |EncodeChar(c)|)
  {
    var n := c as int;
    var b := EncodeChar(c) + rest;
    SplitSixBits(n);
    if n < 0x80 {
      assert b[0] == n;
    } else if n < 0x800 {
      assert b[0] == 0xC0 + n / 64 && b[1] == 0x80 + n % 64;
    } else if n < 0x10000 {
      assert b[0] == 0xE0 + n / 4096 && b[1] == 0x80 + n / 64 % 64 && b[2] == 0x80 + n % 64;
    } else {
      assert b[0] == 0xF0 + n / 262144 && b[1] == 0x80 + n / 4096 % 64;
      assert b[2] == 0x80 + n / 64 % 64 && b[3] == 0x80 + n % 64;
    }
  }

  lemma ScanCutChar(c: char, k: nat)
    requires 0 < k < |EncodeChar(c)|
    ensures ScanFront(EncodeChar(c)[..k]) == Unfinished
  {
    var whole := EncodeChar(c);
    var b := whole[..k];
    assert |b| == k && b[0] == whole[0];
    assert k > 1 ==> b[1] == whole[1];
    assert k > 2 ==> b[2] == whole[2];
    if |whole| == 2 {
      hide ScanThree, ScanFour;
    } else if |whole| == 3 {
      hide ScanTwo, ScanFour;
    } else {
      hide ScanTwo, ScanThree;
    }
  }

  lemma {:induction false} EncodeAppend(s: string, t: string)
    ensures Encode(s + t) == Encode(s) + Encode(t)
  {
    if s == "" {
      assert s + t == t;
    } else {
      assert (s + t)[1..] == s[1..] + t;
      EncodeAppend(s[1..], t);
    }
  }

  /** Decoding undoes encoding, in both modes. */
  lemma {:induction false} DecodeEncoded(t: string)
    ensures Decode(Encode(t)) == Text(t)
    ensures DecodeReplacing(Encode(t)) == t
  {
    hide ScanFront, EncodeChar;
    if t != "" {
      var head, tail := EncodeChar(t[0]), Encode(t[1..]);
      ScanEncoded(t[0], tail);
      assert (head + tail)[|head|..] == tail;
      DecodeEncoded(t[1..]);
    }
  }

  /** The examples of section 7 of RFC 3629: one to four bytes. */
  lemma Examples()
    ensures Encode("A") == [0x41] && Encode("\U{2262}") == [0xE2, 0x89, 0xA2] && Encode("\U{391}") == [0xCE, 0x91]
    ensures Encode("\U{65E5}") == [0xE6, 0x97, 0xA5] && Encode("\U{233B4}") == [0xF0, 0xA3, 0x8E, 0xB4]
  {
  }

  function Rest(b: int, mark: int): int {
    b - mark
  }

  /** The bits of a character: six in every byte but the first, which tells their number
      (section 3 of RFC 3629). */
  lemma CharacterBits(c: char)
    ensures var b, n := EncodeChar(c), c as int;
      && (n < 0x80 <==> |b| == 1) && (0x80 <= n < 0x800 <==> |b| == 2) && (0x800 <= n < 0x10000 <==> |b| == 3)
      && (|b| == 1 ==> b[0] == n)
      && (|b| == 2 ==> 0xC0 <= b[0] < 0xE0 && n == Rest(b[0], 0xC0) * 0x40 + Rest(b[1], 0x80))
      && (|b| == 3 ==> 0xE0 <= b[0] < 0xF0 && n == (Rest(b[0], 0xE0) * 0x40 + Rest(b[1], 0x80)) * 0x40 + Rest(b[2], 0x80))
      && (|b| == 4 ==> 0xF0 <= b[0] < 0xF8
                       && n == ((Rest(b[0], 0xF0) * 0x40 + Rest(b[1], 0x80)) * 0x40 + Rest(b[2], 0x80)) * 0x40 + Rest(b[3], 0x80))
      && forall i :: 1 <= i < |b| ==> 0x80 <= b[i] < 0xC0
  {
    SplitSixBits(c as int);
  }

  lemma JoinSixBits(a: nat, b: nat, c: nat, d: nat)
    requires b < 64 && c < 64 && d < 64
    ensures var n := a * 262144 + b * 4096 + c * 64 + d;
            n / 262144 == a && n / 4096 % 64 == b && n / 64 % 64 == c && n % 64 == d
  {
    var n := a * 262144 + b * 4096 + c * 64 + d;
    assert n / 64 == a * 4096 + b * 64 + c;
    assert n / 4096 == a * 64 + b;
  }

  lemma EncodeScanned(b: seq<Byte>)
    requires b != [] && ScanFront(b).Scalar?
    ensures EncodeChar(ScanFront(b).c) == b[..ScanFront(b).width]
  {
    if b[0] < 0x80 {
    } else if b[0] < 0xE0 {
      JoinSixBits(0, 0, b[0] - 0xC0, b[1] - 0x80);
    } else if b[0] < 0xF0 {
      JoinSixBits(0, b[0] - 0xE0, b[1] - 0x80, b[2] - 0x80);
    } else {
      JoinSixBits(b[0] - 0xF0, b[1] - 0x80, b[2] - 0x80, b[3] - 0x80);
    }
  }

  lemma EncodeCons(c: char, t: string)
    ensures Encode([c] + t) == EncodeChar(c) + Encode(t)
  {
    assert ([c] + t)[1..] == t;
  }

  lemma DecodeCons(b: seq<Byte>, front: Front)
    requires b != [] && ScanFront(b) == front && Decode(b).Text?
    ensures front.Scalar? && 1 <= front.width <= |b| && Decode(b[front.width..]).Text?
    ensures Decode(b).text == [front.c] + Decode(b[front.width..]).text
  {
    hide ScanTwo, ScanThree, ScanFour;
  }

  lemma EncodeDecodedFront(b: seq<Byte>, front: Front)
    requires b != [] && ScanFront(b) == front && Decode(b).Text?
    ensures front.Scalar? && 1 <= front.width <= |b|
    ensures Decode(b[front.width..]).Text?
    ensures Encode(Decode(b).text) == b[..front.width] + Encode(Decode(b[front.width..]).text)
  {
    hide ScanFront, EncodeChar, Decode, Encode;
    DecodeCons(b, front);
    EncodeCons(front.c, Decode(b[front.width..]).text);
    EncodeScanned(b);
  }

  /** Only the encoding of a text decodes to it: the strict decoder accepts no
      overlong form, no surrogate and nothing above U+10FFFF. */
  lemma {:induction false} EncodeDecoded(b: seq<Byte>)
    requires Decode(b).Text?
    ensures Encode(Decode(b).text) == b
  {
    if b != [] {
      hide ScanFront, EncodeChar;
      EncodeDecodedFront(b, ScanFront(b));
      EncodeDecoded(b[ScanFront(b).width..]);
    }
  }

  /** How many characters of `t` fit whole into `k` bytes. */
  function Fitting(t: string, k: nat): (m: nat)
    ensures m <= |t|
    ensures |Encode(t[..m])| <= k
    ensures m < |t| ==> |Encode(t[..m + 1])| > k
  {
    hide EncodeChar;
    if t == "" || |EncodeChar(t[0])| > k then
      assert t != "" ==> t[..1][1..] == "";
      0
    else
      var n := Fitting(t[1..], k - |EncodeChar(t[0])|);
      assert t[..n + 1][1..] == t[1..][..n];
      assert n + 1 < |t| ==> t[..n + 2][1..] == t[1..][..n + 1];
      n + 1
  }

  /** The decoding expected of the first `k` bytes of a text. */
  function CutDecoding(t: string, k: nat): Decoding {
    var whole := t[..Fitting(t, k)];
    if |Encode(whole)| == k then Text(whole)
    else if |Encode(whole)| < k then Undecodable(|Encode(whole)|, k, true)
    else assert false; Text("")
  }

  lemma EncodeFirst(t: string)
    requires t != ""
    ensures Encode(t) == EncodeChar(t[0]) + Encode(t[1..])
  {
  }

  lemma DecodeScalar(b: seq<Byte>, front: Front)
    requires b != [] && ScanFront(b) == front && front.Scalar?
    ensures Decode(b) ==
            (match Decode(b[front.width..])
             case Text(rest) => Text([front.c] + rest)
             case Undecodable(start, end, atEnd) => Undecodable(start + front.width, end + front.width, atEnd))
  {
    hide ScanFront;
  }

  lemma CutInsideFirst(t: string, k: nat)
    requires t != "" && k < |EncodeChar(t[0])|
    ensures Decode(Encode(t)[..k]) == CutDecoding(t, k)
  {
    hide ScanFront, EncodeChar;
    assert Encode(t)[..k] == EncodeChar(t[0])[..k];
    if k > 0 { ScanCutChar(t[0], k); }
  }

  lemma CutDecodingAfterFirst(t: string, k: nat, n: nat)
    requires t != "" && n + |EncodeChar(t[0])| == k
    ensures CutDecoding(t, k) ==
            (match CutDecoding(t[1..], n)
             case Text(rest) => Text([t[0]] + rest)
             case Undecodable(start, end, atEnd) =>
               Undecodable(start + |EncodeChar(t[0])|, end + |EncodeChar(t[0])|, atEnd))
  {
    hide EncodeChar, Encode;
    var m := Fitting(t[1..], n);
    assert Fitting(t, k) == m + 1;
    assert t[..m + 1] == [t[0]] + t[1..][..m];
    EncodeCons(t[0], t[1..][..m]);
  }

  lemma CutAfterFirst(t: string, k: nat, n: nat)
    requires t != "" && |EncodeChar(t[0])| + n == k <= |Encode(t)|
    requires n <= |Encode(t[1..])| && Decode(Encode(t[1..])[..n]) == CutDecoding(t[1..], n)
    ensures Decode(Encode(t)[..k]) == CutDecoding(t, k)
  {
    hide ScanFront, EncodeChar, Encode, Decode, CutDecoding;
    var head, rest := EncodeChar(t[0]), Encode(t[1..])[..n];
    EncodeFirst(t);
    assert Encode(t)[..k] == head + rest;
    ScanEncoded(t[0], rest);
    DecodeScalar(head + rest, Scalar(t[0], |head|));
    assert (head + rest)[|head|..] == rest;
    CutDecodingAfterFirst(t, k, n);
  }

  /** Decoding a text cut at any byte: the characters that fit, exactly when the
      cut falls between characters; otherwise an error at the end of the input
      that starts right after them. */
  lemma {:induction false} DecodeCut(t: string, k: nat)
    requires k <= |Encode(t)|
    ensures Decode(Encode(t)[..k]) == CutDecoding(t, k)
  {
    hide ScanFront, EncodeChar, CutDecoding;
    if t == "" {
      assert CutDecoding(t, 0) == Text("") by { EmptyCut(); }
    } else if k < |EncodeChar(t[0])| {
      CutInsideFirst(t, k);
    } else {
      EncodeFirst(t);
      DecodeCut(t[1..], k - |EncodeChar(t[0])|);
      CutAfterFirst(t, k, k - |EncodeChar(t[0])|);
    }
  }

  lemma EmptyCut()
    ensures CutDecoding("", 0) == Text("")
  {
  }

  /** The characters that fit are a prefix of the text's bytes. */
  lemma FittingIsPrefix(t: string, m: nat)
    requires m <= |t|
    ensures Encode(t[..m]) <= Encode(t)
  {
    hide Encode;
    EncodeAppend(t[..m], t[m..]);
    assert t[..m] + t[m..] == t;
  }

  /** A text's bytes below 128 are its ASCII characters, unchanged. */
  lemma {:induction false} EncodedControls(t: string, i: nat)
    requires i < |Encode(t)| && Encode(t)[i] < 128
    ensures exists j :: 0 <= j < |t| && t[j] as int == Encode(t)[i]
  {
    var head := EncodeChar(t[0]);
    if i < |head| {
      assert t[0] as int == Encode(t)[i];
    } else {
      EncodedControls(t[1..], i - |head|);
      var j :| 0 <= j < |t[1..]| && t[1..][j] as int == Encode(t[1..])[i - |head|];
      assert t[j + 1] == t[1..][j];
    }
  }

  lemma {:induction false} DecodeAsciiPrefix(s: string, rest: seq<Byte>)
    requires IsAscii(s)
    ensures DecodeReplacing(AsciiBytes(s) + rest) == s + DecodeReplacing(rest)
    ensures Encode(s) == AsciiBytes(s)
  {
    hide ScanTwo, ScanThree, ScanFour;
    if s == "" {
      assert AsciiBytes(s) + rest == rest;
      assert s + DecodeReplacing(rest) == DecodeReplacing(rest);
    } else {
      var b := AsciiBytes(s) + rest;
      assert b[1..] == AsciiBytes(s[1..]) + rest;
      DecodeAsciiPrefix(s[1..], rest);
      assert [s[0]] + (s[1..] + DecodeReplacing(rest)) == s + DecodeReplacing(rest);
    }
  }
}
