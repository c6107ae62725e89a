/** The string primitives the other modules share: decimal printing, the C++ number readers with
    their prefix rule and their two exceptions, getline and SplitString (base/src/utils.cpp). */
module Text {
  import opened Containers

  // ---------- Printing ----------

  function Digit(d: nat): char
    requires d < 10
  {
    ['0', '1', '2', '3', '4', '5', '6', '7', '8', '9'][d]
  }

  function Dec(n: nat): (s: string)
    ensures |s| > 0 && forall c :: c in s ==> '0' <= c <= '9'
  {
    if n < 10 then [Digit(n)] else Dec(n / 10) + [Digit(n % 10)]
  }

  function DecInt(n: int): (s: string)
    ensures |s| > 0 && forall c :: c in s ==> c == '-' || '0' <= c <= '9'
  {
    if n < 0 then "-" + Dec(-n) else Dec(n)
  }

  // ---------- Reading ----------

  // std::stol and std::stoul: a number, or one of the two exceptions they throw.
  datatype Parsed = Number(n: int) | InvalidArgument | OutOfRange

  predicate IsSpace(c: char) {
    c == ' ' || '\t' <= c <= '\r'
  }

  function SkipSpace(s: string): string {
    if s != "" && IsSpace(s[0]) then SkipSpace(s[1..]) else s
  }

  function DigitValue(c: char): nat {
    if '0' <= c <= '9' then (c as int) - ('0' as int)
    else if 'a' <= c <= 'z' then (c as int) - ('a' as int) + 10
    else if 'A' <= c <= 'Z' then (c as int) - ('A' as int) + 10
    else 36
  }

  predicate StartsWithDigit(s: string, base: nat) {
    s != "" && DigitValue(s[0]) < base
  }

  // The digits at the front of s, read after those that gave acc.
  function Horner(s: string, base: nat, acc: nat): nat {
    if StartsWithDigit(s, base) then Horner(s[1..], base, acc * base + DigitValue(s[0])) else acc
  }

  function Unsigned(s: string): string {
    if s != "" && (s[0] == '-' || s[0] == '+') then s[1..] else s
  }

  function WithoutHexPrefix(s: string, base: nat): string {
    if base == 16 && |s| > 2 && s[0] == '0' && (s[1] == 'x' || s[1] == 'X') && StartsWithDigit(s[2..], 16) then s[2..] else s
  }

  function Magnitude(s: string, base: nat): Option<nat> {
    var t := WithoutHexPrefix(Unsigned(SkipSpace(s)), base);
    if StartsWithDigit(t, base) then Some(Horner(t, base, 0)) else None
  }

  predicate Negative(s: string) {
    var t := SkipSpace(s);
    t != "" && t[0] == '-'
  }

  function Stol(s: string, base: nat): Parsed {
    match Magnitude(s, base)
    case None => InvalidArgument
    case Some(m) =>
      var n: int := if Negative(s) then -(m as int) else m;
      if -0x8000_0000_0000_0000 <= n < 0x8000_0000_0000_0000 then Number(n) else OutOfRange
  }

  // A minus sign is accepted and negates modulo 2^64.
  function Stoul(s: string): Parsed {
    match Magnitude(s, 10)
    case None => InvalidArgument
    case Some(m) =>
      if m >= 0x1_0000_0000_0000_0000 then OutOfRange
      else Number(if Negative(s) then (-(m as int)) % 0x1_0000_0000_0000_0000 else m)
  }

  lemma HornerReadsDigit(d: nat, rest: string, acc: nat)
    requires d < 10
    ensures Horner([Digit(d)] + rest, 10, acc) == Horner(rest, 10, acc * 10 + d)
  {
  }

  lemma {:induction false} HornerReadsDec(n: nat, rest: string)
    ensures Horner(Dec(n) + rest, 10, 0) == Horner(rest, 10, n)
  {
    hide Horner, Digit;
    if n < 10 {
      HornerReadsDigit(n, rest, 0);
    } else {
      var d := [Digit(n % 10)];
      assert Dec(n) + rest == Dec(n / 10) + (d + rest);
      HornerReadsDec(n / 10, d + rest);
      HornerReadsDigit(n % 10, rest, n / 10);
    }
  }

  lemma MagnitudeOfDec(n: int, rest: string)
    requires !StartsWithDigit(rest, 10)
    ensures Magnitude(DecInt(n) + rest, 10) == Some(if n < 0 then -n else n)
    ensures Negative(DecInt(n) + rest) == (n < 0)
  {
    var m := if n < 0 then -n else n;
    HornerReadsDec(m, rest);
    var s := DecInt(n) + rest;
    assert s[0] == DecInt(n)[0] && SkipSpace(s) == s;
    if n < 0 {
      assert s[1..] == Dec(m) + rest;
    }
    assert (Dec(m) + rest)[0] == Dec(m)[0];
    assert Horner(rest, 10, m) == m;
  }

  lemma StolReadsDec(n: int, rest: string)
    requires !StartsWithDigit(rest, 10)
    ensures Stol(DecInt(n) + rest, 10) == if -0x8000_0000_0000_0000 <= n < 0x8000_0000_0000_0000 then Number(n) else OutOfRange
  {
    MagnitudeOfDec(n, rest);
  }

  lemma StoulReadsDec(n: int)
    ensures Stoul(DecInt(n)) ==
      if -0x1_0000_0000_0000_0000 < n < 0x1_0000_0000_0000_0000 then Number(n % 0x1_0000_0000_0000_0000) else OutOfRange
  {
    MagnitudeOfDec(n, "");
    assert DecInt(n) + "" == DecInt(n);
  }

  // A carriage return at the end changes nothing that stol reads.
  lemma {:induction false} HornerIgnoresReturn(s: string, base: nat, acc: nat)
    requires base <= 16
    ensures Horner(s + "\r", base, acc) == Horner(s, base, acc)
  {
    if StartsWithDigit(s, base) {
      assert (s + "\r")[1..] == s[1..] + "\r";
      HornerIgnoresReturn(s[1..], base, acc * base + DigitValue(s[0]));
    }
  }

  lemma {:induction false} SkipSpaceIgnoresReturn(s: string)
    ensures SkipSpace(s + "\r") == if SkipSpace(s) == "" then "" else SkipSpace(s) + "\r"
  {
    if s == "" {
      assert (s + "\r")[1..] == "";
    } else if IsSpace(s[0]) {
      assert (s + "\r")[1..] == s[1..] + "\r";
      SkipSpaceIgnoresReturn(s[1..]);
    }
  }

  lemma MagnitudeIgnoresReturn(s: string, base: nat)
    requires base <= 16
    ensures Magnitude(s + "\r", base) == Magnitude(s, base) && Negative(s + "\r") == Negative(s)
  {
    SkipSpaceIgnoresReturn(s);
    var t := SkipSpace(s);
    if t != "" {
      var u := Unsigned(t);
      assert Unsigned(t + "\r") == u + "\r";
      if |u| > 2 {
        assert (u + "\r")[2..] == u[2..] + "\r";
      }
      assert WithoutHexPrefix(u + "\r", base) == WithoutHexPrefix(u, base) + "\r";
      HornerIgnoresReturn(WithoutHexPrefix(u, base), base, 0);
    }
  }

  lemma StolIgnoresReturn(s: string, base: nat)
    requires base <= 16
    ensures Stol(s + "\r", base) == Stol(s, base)
  {
    MagnitudeIgnoresReturn(s, base);
  }

  // ---------- Lines and fields ----------

  // std::getline on what is left of a stream: the text up to the delimiter and what follows it.
  datatype Line = Line(text: string, rest: string) | EndOfStream

  function UpTo(s: string, c: char): (k: nat)
    ensures k <= |s| && c !in s[..k] && (k < |s| ==> s[k] == c)
  {
    if s == "" || s[0] == c then 0 else 1 + UpTo(s[1..], c)
  }

  function GetLine(s: string, c: char): (l: Line)
    ensures l.Line? ==> |l.rest| < |s|
  {
    if s == "" then EndOfStream
    else
      var k := UpTo(s, c);
      if k == |s| then Line(s, "") else Line(s[..k], s[k + 1..])
  }

  // All lines, empty ones included.
  function Lines(s: string, c: char): seq<string>
    decreases |s|
  {
    match GetLine(s, c)
    case EndOfStream => []
    case Line(text, rest) => [text] + Lines(rest, c)
  }

  function NonEmpty(ss: seq<string>): seq<string> {
    if ss == [] then []
    else
      var last := ss[|ss| - 1];
      NonEmpty(ss[..|ss| - 1]) + if last == "" then [] else [last]
  }

  function Split(s: string, c: char): seq<string> {
    NonEmpty(Lines(s, c))
  }

  lemma NonEmptyNext(ss: seq<string>, s: string)
    ensures NonEmpty(ss + [s]) == NonEmpty(ss) + if s == "" then [] else [s]
  {
  }

  lemma LinesNext(s: string, c: char)
    requires s != ""
    ensures var l := GetLine(s, c); Lines(s, c) == [l.text] + Lines(l.rest, c)
  {
  }

  method SplitString(s: string, c: char) returns (split: seq<string>)
    ensures split == Split(s, c)
  {
    split := [];
    var left := s;
    ghost var read := [];
    while left != ""
      invariant Lines(s, c) == read + Lines(left, c) && split == NonEmpty(read)
      decreases |left|
    {
      var line := GetLine(left, c);
      NonEmptyNext(read, line.text);
      LinesNext(left, c);
      hide Lines, NonEmpty, UpTo;
      if line.text != "" {
        split := split + [line.text];
      }
      assert read + ([line.text] + Lines(line.rest, c)) == read + [line.text] + Lines(line.rest, c);
      read, left := read + [line.text], line.rest;
    }
    assert read + [] == read;
  }

  lemma UpToAppend(a: string, b: string, c: char)
    requires c !in a
    ensures UpTo(a + [c] + b, c) == |a|
  {
    if a != "" {
      assert (a + [c] + b)[1..] == a[1..] + [c] + b;
      UpToAppend(a[1..], b, c);
    }
  }

  lemma LineThenRest(a: string, b: string, c: char)
    requires c !in a
    ensures GetLine(a + [c] + b, c) == Line(a, b)
    ensures Lines(a + [c] + b, c) == [a] + Lines(b, c)
  {
    UpToAppend(a, b, c);
    assert (a + [c] + b)[..|a|] == a && (a + [c] + b)[|a| + 1..] == b;
  }

  lemma UpToNone(a: string, c: char)
    requires c !in a
    ensures UpTo(a, c) == |a|
  {
  }

  lemma LastLine(a: string, c: char)
    requires c !in a && a != ""
    ensures GetLine(a, c) == Line(a, "") && Lines(a, c) == [a]
  {
  }
}
