/** The string operations that cron expressions are parsed with. */
module Text {
  import opened Wrappers

  predicate IsDigit(c: char) {
    '0' <= c <= '9'
  }

  predicate AllDigits(s: string) {
    forall i :: 0 <= i < |s| ==> IsDigit(s[i])
  }

  /** Nothing, or something that is not a digit. */
  predicate EndsDigits(rest: string) {
    rest == "" || !IsDigit(rest[0])
  }

  /** The length of the longest prefix of digits: what `\d+` takes at the start, if it is not 0. */
  function DigitRun(s: string): (n: nat)
    ensures n <= |s| && AllDigits(s[..n]) && EndsDigits(s[n..])
  {
    if EndsDigits(s) then 0
    else
      assert forall n :: 0 <= n <= |s| - 1 ==> s[1..][n..] == s[n + 1..];
      assert forall n :: 0 <= n <= |s| - 1 ==> s[..n + 1] == [s[0]] + s[1..][..n];
      1 + DigitRun(s[1..])
  }

  function Value(s: string): nat
    requires AllDigits(s)
  {
    if s == "" then 0 else 10 * Value(s[..|s| - 1]) + (s[|s| - 1] - '0') as nat
  }

  /** `String(n)`. */
  function Decimal(n: nat): (s: string)
    ensures s != "" && AllDigits(s)
  {
    if n < 10 then [DigitOf(n)] else Decimal(n / 10) + [DigitOf(n % 10)]
  }

  function DigitOf(d: nat): (c: char)
    requires d < 10
    ensures IsDigit(c) && (c - '0') as nat == d
  {
    '0' + d as char
  }

  lemma {:induction false} ValueOfDecimal(n: nat)
    ensures Value(Decimal(n)) == n
  {
    var s := Decimal(n);
    if n < 10 {
      assert s[..0] == "";
    } else {
      ValueOfDecimal(n / 10);
      assert s[..|s| - 1] == Decimal(n / 10);
    }
  }

  lemma {:induction false} DigitRunOf(s: string, rest: string)
    requires AllDigits(s) && EndsDigits(rest)
    ensures DigitRun(s + rest) == |s| && (s + rest)[..|s|] == s
  {
    if s == "" {
      assert s + rest == rest;
    } else {
      assert (s + rest)[0] == s[0] && (s + rest)[1..] == s[1..] + rest;
      DigitRunOf(s[1..], rest);
    }
  }

  /** `s.indexOf(c)`, None for -1. */
  function IndexOf(s: string, c: char): (i: Option<nat>)
    ensures i.None? <==> c !in s
    ensures i.Some? ==> i.value < |s| && s[i.value] == c && c !in s[..i.value]
  {
    if s == "" then None
    else if s[0] == c then Some(0)
    else
      assert s == [s[0]] + s[1..];
      match IndexOf(s[1..], c)
      case None => None
      case Some(i) => assert s[..i + 1] == [s[0]] + s[1..][..i]; Some(i + 1)
  }

  lemma {:induction false} IndexOfFirst(p: string, c: char, rest: string)
    requires c !in p
    ensures IndexOf(p + [c] + rest, c) == Some(|p|)
  {
    var s := p + [c] + rest;
    if p == "" {
      assert s[0] == c;
    } else {
      assert s[0] == p[0] && s[1..] == p[1..] + [c] + rest;
      IndexOfFirst(p[1..], c, rest);
    }
  }

  /** `s.split(c)`. */
  function Split(s: string, c: char): (parts: seq<string>)
    ensures parts != []
    decreases |s|
  {
    match IndexOf(s, c)
    case None => [s]
    case Some(i) => [s[..i]] + Split(s[i + 1..], c)
  }

  lemma SplitFirst(p: string, c: char, rest: string)
    requires c !in p
    ensures Split(p + [c] + rest, c) == [p] + Split(rest, c)
  {
    IndexOfFirst(p, c, rest);
    var s := p + [c] + rest;
    assert s[..|p|] == p && s[|p| + 1..] == rest;
  }

  /** `parseInt(s, 10)`, None for NaN: blanks, a sign, and at least one digit. */
  function ParseInt(s: string): Option<int> {
    if s == "" then None
    else if IsSpace(s[0]) then ParseInt(s[1..])
    else if s[0] == '-' then
      match ParseDigits(s[1..])
      case None => None
      case Some(v) => Some(-v)
    else ParseDigits(if s[0] == '+' then s[1..] else s)
  }

  function ParseDigits(s: string): Option<int> {
    if DigitRun(s) == 0 then None else Some(Value(s[..DigitRun(s)]))
  }

  predicate IsSpace(c: char) {
    c == ' ' || c == '\t' || c == '\n' || c == '\r' || c == '\U{000B}' || c == '\U{000C}'
  }

  lemma ParseDecimal(n: nat, rest: string)
    requires EndsDigits(rest)
    ensures ParseInt(Decimal(n) + rest) == Some(n)
  {
    DigitRunOf(Decimal(n), rest);
    ValueOfDecimal(n);
    var s := Decimal(n) + rest;
    assert s[0] == Decimal(n)[0];
  }
}
