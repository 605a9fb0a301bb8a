/** Terminal text: removal of escape sequences and the line-end clean-up that
    a completed command's output goes through. */
module Ansi {
  import opened Bytes

  function SpanWhile(t: string, i: nat, low: char, high: char): (n: nat)
    requires i <= |t|
    ensures i <= n <= |t|
    decreases |t| - i
  {
    if i < |t| && low <= t[i] <= high then SpanWhile(t, i + 1, low, high) else i
  }

  /** The length of the escape sequence at the front of `t`, 0 if there is none. */
  function EscapeLength(t: string): (n: nat)
    ensures n <= |t|
    ensures n > 0 ==> t[0] == ESCAPE
  {
    if |t| < 2 || t[0] != ESCAPE then 0
    else if '@' <= t[1] <= 'Z' || '\\' <= t[1] <= '_' then 2
    else if t[1] != '[' then 0
    else
      var final := SpanWhile(t, SpanWhile(t, 2, '0', '?'), ' ', '/');
      if final < |t| && '@' <= t[final] <= '~' then final + 1 else 0
  }

  function Strip(t: string): string {
    if t == "" then ""
    else if EscapeLength(t) > 0 then Strip(t[EscapeLength(t)..])
    else [t[0]] + Strip(t[1..])
  }

  lemma {:induction false} StripPlainPrefix(s: string, rest: string)
    requires ESCAPE !in s
    ensures Strip(s + rest) == s + Strip(rest)
  {
    if s == "" {
      assert s + rest == rest;
    } else {
      assert (s + rest)[1..] == s[1..] + rest;
      StripPlainPrefix(s[1..], rest);
    }
  }

  lemma StripPlain(s: string)
    requires ESCAPE !in s
    ensures Strip(s) == s
  {
    StripPlainPrefix(s, "");
    assert s + "" == s;
  }

  /** Every run of carriage returns before a line feed disappears. */
  function CollapseReturns(t: string): string {
    if t == "" then ""
    else if t[0] == '\r' then
      var n := SpanWhile(t, 1, '\r', '\r');
      if n < |t| && t[n] == '\n' then ['\n'] + CollapseReturns(t[n + 1..])
      else t[..n] + CollapseReturns(t[n..])
    else [t[0]] + CollapseReturns(t[1..])
  }

  function Replace(t: string, from: char, to: char): (r: string)
    ensures |r| == |t|
    ensures forall i :: 0 <= i < |t| ==> r[i] == if t[i] == from then to else t[i]
  {
    seq(|t|, i requires 0 <= i < |t| => if t[i] == from then to else t[i])
  }

  function CleanLineEnds(t: string): string {
    Replace(CollapseReturns(t), '\r', '\n')
  }
}
