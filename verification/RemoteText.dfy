/** Text cut at arbitrary bytes: reading a truncated remote file, and shortening a
    preview to a byte limit. */
module RemoteText {
  import opened Bytes
  import Utf8

  datatype TextResult = Ok(text: string) | BinaryFile | InvalidUtf8

  /** A byte that no supported text file holds: a control other than tab, line feed
      and carriage return. */
  predicate IsControl(b: int) {
    0 <= b < 32 && b !in {9, 10, 13}
  }

  function DecodeRemoteText(content: seq<Byte>, truncated: bool): TextResult {
    if exists i :: 0 <= i < |content| && IsControl(content[i]) then BinaryFile
    else
      match Utf8.Decode(content)
      case Text(text) => Ok(text)
      case Undecodable(start, end, atEnd) =>
        if truncated && atEnd && end == |content| then
          match Utf8.Decode(content[..start])
          case Text(text) => Ok(text)
          case _ => InvalidUtf8
        else InvalidUtf8
  }

  /** Text of printable characters, tabs and line ends. */
  predicate IsPlain(t: string) {
    forall c <- t :: c >= ' ' || c in "\t\n\r"
  }

  /** A byte that text can hold. */
  predicate MayHold(b: Byte) {
    b >= 32 || b in {9, 10, 13}
  }

  lemma NoControls(t: string, k: nat)
    requires IsPlain(t) && k <= |Utf8.Encode(t)|
    ensures forall i :: 0 <= i < k ==> !IsControl(Utf8.Encode(t)[i])
  {
    forall i | 0 <= i < k ensures !IsControl(Utf8.Encode(t)[i]) {
      if Utf8.Encode(t)[i] < 128 {
        Utf8.EncodedControls(t, i);
        var j :| 0 <= j < |t| && t[j] as int == Utf8.Encode(t)[i];
        assert t[j] in t;
      }
    }
  }

  /** UTF-8 CUTS. A file of plain text cut after any number of bytes reads as the
      longest front of its characters that fits; uncut bytes that end inside a
      character are refused. */
  lemma CutRead(t: string, k: nat)
    requires IsPlain(t) && k <= |Utf8.Encode(t)|
    ensures DecodeRemoteText(Utf8.Encode(t)[..k], true) == Ok(t[..Utf8.Fitting(t, k)])
    ensures DecodeRemoteText(Utf8.Encode(t)[..k], false) ==
      if |Utf8.Encode(t[..Utf8.Fitting(t, k)])| == k then Ok(t[..Utf8.Fitting(t, k)]) else InvalidUtf8
  {
    hide Utf8.Encode, Utf8.Decode, Utf8.Fitting, IsPlain;
    var content, whole := Utf8.Encode(t)[..k], t[..Utf8.Fitting(t, k)];
    NoControls(t, k);
    Utf8.DecodeCut(t, k);
    Utf8.FittingIsPrefix(t, Utf8.Fitting(t, k));
    Utf8.DecodeEncoded(whole);
    assert content[..|Utf8.Encode(whole)|] == Utf8.Encode(whole);
  }

  /** What is read is really there: the text is the whole content, or its front
      with less than one character left over. */
  lemma ReadIsThere(content: seq<Byte>, truncated: bool)
    requires DecodeRemoteText(content, truncated).Ok?
    ensures Utf8.Encode(DecodeRemoteText(content, truncated).text) <= content
    ensures !truncated ==> Utf8.Encode(DecodeRemoteText(content, truncated).text) == content
    ensures forall i :: 0 <= i < |content| ==> MayHold(content[i])
  {
    hide Utf8.Encode, Utf8.Decode;
    forall i | 0 <= i < |content| ensures MayHold(content[i]) {
      assert !IsControl(content[i]);
    }
    match Utf8.Decode(content)
    case Text(_) => Utf8.EncodeDecoded(content);
    case Undecodable(start, _, _) => Utf8.EncodeDecoded(content[..start]);
  }

  /** A file is taken for a binary one exactly if it holds a byte that no text holds, and
      is refused as text exactly if it does not decode, but for its cut end. */
  lemma ReadIff(content: seq<Byte>, truncated: bool)
    ensures DecodeRemoteText(content, truncated) == BinaryFile <==> exists i :: 0 <= i < |content| && !MayHold(content[i])
    ensures (forall i :: 0 <= i < |content| ==> MayHold(content[i])) ==>
      (DecodeRemoteText(content, truncated).Ok? <==>
        exists n :: 0 <= n <= |content| && Utf8.Decode(content[..n]).Text? && (n == |content| || CutOff(content, truncated, n)))
  {
    hide Utf8.Decode;
    forall i | 0 <= i < |content| ensures MayHold(content[i]) <==> !IsControl(content[i]) {}
    assert content[..|content|] == content;
    if DecodeRemoteText(content, truncated).Ok? && !Utf8.Decode(content).Text? {
      assert CutOff(content, truncated, Utf8.Decode(content).start);
    }
  }

  /** Truncated content whose undecodable part begins at `n` and reaches to its end. */
  predicate CutOff(content: seq<Byte>, truncated: bool, n: nat) {
    truncated && Utf8.Decode(content) == Utf8.Undecodable(n, |content|, true)
  }

  const ELLIPSIS := "\U{2026}"

  lemma EllipsisLength()
    ensures |Utf8.Encode(ELLIPSIS)| == 3
  {
    assert ELLIPSIS[1..] == "" && ELLIPSIS == [ELLIPSIS[0]];
  }

  /** Shortens text to a byte limit: the longest front of whole characters that leaves
      room for an ellipsis. */
  method TruncateUtf8(value: string, byteLimit: nat) returns (shown: string, truncated: bool)
    requires byteLimit >= 16
    ensures truncated == (|Utf8.Encode(value)| > byteLimit)
    ensures shown == if truncated then value[..Utf8.Fitting(value, byteLimit - 3)] + "\U{2026}" else value
    ensures |Utf8.Encode(shown)| <= byteLimit
  {
    hide Utf8.Encode, Utf8.Decode, Utf8.Fitting;
    var encoded := Utf8.Encode(value);
    if |encoded| <= byteLimit {
      return value, false;
    }
    var budget := byteLimit - 3;
    ghost var whole := value[..Utf8.Fitting(value, budget)];
    var prefix := encoded[..budget];
    Utf8.DecodeCut(value, budget);
    Utf8.FittingIsPrefix(value, Utf8.Fitting(value, budget));
    Utf8.DecodeEncoded(whole);
    EllipsisLength();
    Utf8.EncodeAppend(whole, ELLIPSIS);
    EmptyText(whole);
    while prefix != []
      invariant Utf8.Encode(whole) <= prefix <= encoded && |prefix| <= budget
      invariant prefix == encoded[..budget] || prefix == Utf8.Encode(whole)
      decreases |prefix|
    {
      var decoding := Utf8.Decode(prefix);
      if decoding.Text? {
        return decoding.text + ELLIPSIS, true;
      }
      prefix := prefix[..decoding.start];
    }
    assert "" + ELLIPSIS == ELLIPSIS;
    shown, truncated := ELLIPSIS, true;
  }

  lemma EmptyText(t: string)
    ensures Utf8.Encode(t) == [] <==> t == ""
  {
  }
}
