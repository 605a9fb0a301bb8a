/** Base64 with padding, as section 4 of RFC 4648 defines it. */
module Base64 {
  import opened Common
  import opened Bytes

  type Digit = d: int | 0 <= d < 64

  /** Table 1 of RFC 4648. */
  function Letter(d: Digit): char {
    if d < 26 then ('A' as int + d) as char
    else if d < 52 then ('a' as int + (d - 26)) as char
    else if d < 62 then ('0' as int + (d - 52)) as char
    else if d == 62 then '+'
    else '/'
  }

  predicate IsLetter(c: char) {
    DigitOf(c).Some?
  }

  /** The digit that a letter stands for. */
  function DigitOf(c: char): (d: Option<Digit>)
    ensures d.Some? ==> Letter(d.value) == c
  {
    if 'A' <= c <= 'Z' then Some(c as int - 'A' as int)
    else if 'a' <= c <= 'z' then Some(c as int - 'a' as int + 26)
    else if '0' <= c <= '9' then Some(c as int - '0' as int + 52)
    else if c == '+' then Some(62)
    else if c == '/' then Some(63)
    else None
  }

  lemma LetterRead(d: Digit)
    ensures DigitOf(Letter(d)) == Some(d) && Letter(d) != '='
  {
  }

  /** The letters are those of the table, one after the other, and no other character is
      one. */
  lemma LettersOfTable(d: Digit, c: char)
    ensures Letter(0) == 'A' && Letter(26) == 'a' && Letter(52) == '0' && Letter(62) == '+' && Letter(63) == '/'
    ensures d !in {25, 51, 61, 62, 63} ==> Letter(d + 1) as int == Letter(d) as int + 1
    ensures IsLetter(c) <==> 'A' <= c <= 'Z' || 'a' <= c <= 'z' || '0' <= c <= '9' || c == '+' || c == '/'
  {
    LetterRead(d);
  }

  function First(a: Byte): Digit { a / 4 }
  function Second(a: Byte, b: Byte): Digit { a % 4 * 16 + b / 16 }
  function Third(b: Byte, c: Byte): Digit { b % 16 * 4 + c / 64 }
  function Fourth(c: Byte): Digit { c % 64 }

  function FourLetters(a: Byte, b: Byte, c: Byte): (s: string)
    ensures |s| == 4
  {
    [Letter(First(a)), Letter(Second(a, b)), Letter(Third(b, c)), Letter(Fourth(c))]
  }

  function Encode(b: seq<Byte>): (s: string) {
    if b == [] then ""
    else if |b| == 1 then [Letter(First(b[0])), Letter(Second(b[0], 0)), '=', '=']
    else if |b| == 2 then [Letter(First(b[0])), Letter(Second(b[0], b[1])), Letter(Third(b[1], 0)), '=']
    else FourLetters(b[0], b[1], b[2]) + Encode(b[3..])
  }

  function Join1(p: Digit, q: Digit): Byte { p * 4 + q / 16 }
  function Join2(q: Digit, r: Digit): Byte { q % 16 * 16 + r / 4 }
  function Join3(r: Digit, s: Digit): Byte { r % 4 * 64 + s }

  /** The bytes of one group of four; padding only in the last one. */
  function DecodeGroup(g: string, last: bool): Option<seq<Byte>>
    requires |g| == 4
  {
    var p, q, r, s := DigitOf(g[0]), DigitOf(g[1]), DigitOf(g[2]), DigitOf(g[3]);
    if p == None || q == None then None
    else if r.Some? && s.Some? then
      Some([Join1(p.value, q.value), Join2(q.value, r.value), Join3(r.value, s.value)])
    else if last && r.Some? && g[3] == '=' then Some([Join1(p.value, q.value), Join2(q.value, r.value)])
    else if last && g[2] == '=' && g[3] == '=' then Some([Join1(p.value, q.value)])
    else None
  }

  function Decode(s: string): Option<seq<Byte>> {
    if s == "" then Some([])
    else if |s| < 4 then None
    else
      match DecodeGroup(s[..4], |s| == 4)
      case None => None
      case Some(b) =>
        match Decode(s[4..])
        case None => None
        case Some(rest) => Some(b + rest)
  }

  lemma BytesRejoin(a: Byte, b: Byte, c: Byte)
    ensures Join1(First(a), Second(a, b)) == a
    ensures Join2(Second(a, b), Third(b, c)) == b
    ensures Join3(Third(b, c), Fourth(c)) == c
  {
  }

  /** The four digits of a group are its 24 bits, six at a time. */
  lemma GroupBits(a: Byte, b: Byte, c: Byte)
    ensures ((First(a) * 64 + Second(a, b)) * 64 + Third(b, c)) * 64 + Fourth(c) == (a * 256 + b) * 256 + c
  {
  }

  /** The examples of section 10 of RFC 4648. */
  lemma Examples()
    ensures Encode([102]) == "Zg==" && Encode([102, 111]) == "Zm8=" && Encode([102, 111, 111]) == "Zm9v"
    ensures Encode([102, 111, 111, 98]) == "Zm9vYg=="
  {
    assert [102, 111, 111, 98][3..] == [98] && [102, 111, 111][3..] == [];
    assert Encode([102, 111, 111]) == FourLetters(102, 111, 111) + Encode([]);
    assert Encode([102, 111, 111, 98]) == FourLetters(102, 111, 111) + Encode([98]);
  }

  /** What decodes has groups of four characters: letters of the table, and padding. */
  lemma {:induction false} DecodedShape(s: string)
    requires Decode(s).Some?
    ensures |s| % 4 == 0 && forall i :: 0 <= i < |s| ==> IsLetter(s[i]) || (s[i] == '=' && i >= |s| - 2)
  {
    hide Join1, Join2, Join3;
    if s != "" {
      DecodedShape(s[4..]);
      forall i | 0 <= i < |s| ensures IsLetter(s[i]) || (s[i] == '=' && i >= |s| - 2) {
        if i >= 4 { assert s[i] == s[4..][i - 4]; } else { assert s[..4][i] == s[i]; }
      }
    }
  }

  lemma GroupOfThree(a: Byte, b: Byte, c: Byte, last: bool)
    ensures DecodeGroup(FourLetters(a, b, c), last) == Some([a, b, c])
  {
    hide Letter, DigitOf, First, Second, Third, Fourth, Join1, Join2, Join3;
    LetterRead(First(a));
    LetterRead(Second(a, b));
    LetterRead(Third(b, c));
    LetterRead(Fourth(c));
    BytesRejoin(a, b, c);
  }

  lemma GroupOfTwo(a: Byte, b: Byte)
    ensures DecodeGroup([Letter(First(a)), Letter(Second(a, b)), Letter(Third(b, 0)), '='], true) == Some([a, b])
  {
    hide Letter, First, Second, Third, Fourth, Join1, Join2, Join3;
    LetterRead(First(a));
    LetterRead(Second(a, b));
    LetterRead(Third(b, 0));
    BytesRejoin(a, b, 0);
  }

  lemma GroupOfOne(a: Byte)
    ensures DecodeGroup([Letter(First(a)), Letter(Second(a, 0)), '=', '='], true) == Some([a])
  {
    hide Letter, First, Second, Third, Fourth, Join1, Join2, Join3;
    LetterRead(First(a));
    LetterRead(Second(a, 0));
    BytesRejoin(a, 0, 0);
  }

  /** Decoding what was encoded is the identity, on every byte string. */
  lemma {:induction false} DecodeEncoded(b: seq<Byte>)
    ensures Decode(Encode(b)) == Some(b)
  {
    hide Letter, DigitOf, First, Second, Third, Fourth, DecodeGroup;
    if b == [] {
    } else if |b| == 1 {
      GroupOfOne(b[0]);
      assert [b[0]] == b;
      LastGroup(Encode(b), b);
    } else if |b| == 2 {
      GroupOfTwo(b[0], b[1]);
      assert [b[0], b[1]] == b;
      LastGroup(Encode(b), b);
    } else {
      DecodeEncoded(b[3..]);
      DecodeOneMore(b);
    }
  }

  lemma DecodeOneMore(b: seq<Byte>)
    requires |b| >= 3 && Decode(Encode(b[3..])) == Some(b[3..])
    ensures Decode(Encode(b)) == Some(b)
  {
    hide FourLetters, DecodeGroup, Decode, Encode;
    EncodeOneMore(b);
    GroupOfThree(b[0], b[1], b[2], Encode(b[3..]) == "");
    FirstGroup(FourLetters(b[0], b[1], b[2]), Encode(b[3..]), [b[0], b[1], b[2]], b[3..]);
    assert [b[0], b[1], b[2]] + b[3..] == b;
  }

  lemma EncodeOneMore(b: seq<Byte>)
    requires |b| >= 3
    ensures Encode(b) == FourLetters(b[0], b[1], b[2]) + Encode(b[3..])
  {
    hide FourLetters;
  }

  lemma FirstGroup(group: string, more: string, first: seq<Byte>, rest: seq<Byte>)
    requires |group| == 4 && DecodeGroup(group, more == "") == Some(first) && Decode(more) == Some(rest)
    ensures Decode(group + more) == Some(first + rest)
  {
    hide DecodeGroup;
    assert (group + more)[..4] == group && (group + more)[4..] == more;
  }

  lemma LastGroup(s: string, b: seq<Byte>)
    requires |s| == 4 && DecodeGroup(s, true) == Some(b)
    ensures Decode(s) == Some(b)
  {
    hide DecodeGroup;
    assert s[..4] == s && s[4..] == "" && b + [] == b;
  }

  /** Encoded bytes are letters and padding, and nothing a line is cut at. */
  lemma {:induction false} EncodedLetters(b: seq<Byte>)
    ensures forall c <- Encode(b) :: IsLetter(c) || c == '='
  {
    hide Letter, DigitOf, First, Second, Third, Fourth;
    forall d: Digit ensures IsLetter(Letter(d)) { LetterRead(d); }
    if |b| > 2 {
      EncodedLetters(b[3..]);
    }
  }
}
