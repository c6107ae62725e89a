/** TAI instants as text (base/src/utils.cpp, lines 94-104 and 359-401). An instant is a signed
    64-bit count of nanoseconds; the nanosecond field is printed without leading zeros. */
module TaiTime {
  import opened Text

  type int64 = x: int | -0x8000_0000_0000_0000 <= x < 0x8000_0000_0000_0000

  const SECOND: int := 1_000_000_000
  // LEAP_SECONDS in nanoseconds.
  const LEAP: int := 37 * SECOND

  // Two's complement wrap-around.
  function Wrap64(n: int): int64 {
    (n + 0x8000_0000_0000_0000) % 0x1_0000_0000_0000_0000 - 0x8000_0000_0000_0000
  }

  // C++ division and remainder, which truncate towards zero.
  function Quotient(a: int, b: int): int
    requires b > 0
  {
    if a < 0 then -(-a / b) else a / b
  }

  function Remainder(a: int, b: int): int
    requires b > 0
  {
    a - b * Quotient(a, b)
  }

  function ConvertTimeToString(tp: int64, nano: bool): string {
    var seconds := DecInt(Quotient(tp, SECOND));
    if nano then seconds + ":" + DecInt(Remainder(tp, SECOND)) else seconds
  }

  // An instant, nothing, or the std::out_of_range that neither reader catches.
  datatype Reading = Instant(tp: int64) | NoInstant | Thrown

  function Both(seconds: Parsed, nanos: Parsed, base: int): Reading {
    match seconds
    case InvalidArgument => NoInstant
    case OutOfRange => Thrown
    case Number(s) =>
      match nanos
      case InvalidArgument => NoInstant
      case OutOfRange => Thrown
      case Number(n) => Instant(Wrap64(base + n + s * SECOND))
  }

  function ConvertTaiStringToTimePoint(s: string): Reading {
    match GetLine(s, ':')
    case EndOfStream => NoInstant
    case Line(seconds, rest) =>
      match GetLine(rest, ':')
      case EndOfStream => NoInstant
      case Line(nanos, _) => Both(Stoul(seconds), Stoul(nanos), 0)
  }

  // The instant tp moved by the time read, less the leap seconds.
  function AddTaiStringToTimePoint(s: string, tp: int64): Reading {
    var v := Split(s, ':');
    if |v| != 2 then NoInstant else Both(Stoul(v[0]), Stoul(v[1]), tp - LEAP)
  }

  lemma TruncatedDivision(tp: int64)
    ensures -SECOND < Remainder(tp, SECOND) < SECOND
    ensures -0x8000_0000_0000_0000 <= Quotient(tp, SECOND) < 0x8000_0000_0000_0000
    ensures tp == Remainder(tp, SECOND) + Quotient(tp, SECOND) * SECOND
  {
  }

  lemma WrapUndoesModulo(r: int, q: int)
    requires -0x8000_0000_0000_0000 <= r + q * SECOND < 0x8000_0000_0000_0000
    ensures Wrap64(0 + r % 0x1_0000_0000_0000_0000 + q % 0x1_0000_0000_0000_0000 * SECOND) == r + q * SECOND
  {
  }

  // Reading back what was printed gives the same instant, for every 64-bit count.
  lemma ReadsWhatItPrints(tp: int64)
    ensures ConvertTaiStringToTimePoint(ConvertTimeToString(tp, true)) == Instant(tp)
  {
    hide Stoul, Dec, Quotient, Remainder, UpTo, Wrap64;
    var q, r := Quotient(tp, SECOND), Remainder(tp, SECOND);
    TruncatedDivision(tp);
    LineThenRest(DecInt(q), DecInt(r), ':');
    LastLine(DecInt(r), ':');
    StoulReadsDec(q);
    StoulReadsDec(r);
    WrapUndoesModulo(r, q);
  }

  // So no two instants print alike, although the nanoseconds are not zero-padded.
  lemma PrintingIsInjective(a: int64, b: int64)
    requires ConvertTimeToString(a, true) == ConvertTimeToString(b, true)
    ensures a == b
  {
    ReadsWhatItPrints(a);
    ReadsWhatItPrints(b);
  }

  // An instant is printed as its seconds, a colon and what is left in nanoseconds.
  lemma PrintsSecondsAndNanos(s: nat, n: nat)
    requires n < 1_000_000_000 && s * 1_000_000_000 + n < 0x8000_0000_0000_0000
    ensures ConvertTimeToString(s * 1_000_000_000 + n, true) == Dec(s) + ":" + Dec(n)
  {
    hide Dec, Quotient, Remainder;
    Divided(s, n);
  }

  lemma Divided(s: nat, n: nat)
    requires n < 1_000_000_000
    ensures Quotient(s * 1_000_000_000 + n, SECOND) == s && Remainder(s * 1_000_000_000 + n, SECOND) == n
  {
    var tp := s * 1_000_000_000 + n;
    var q := tp / 1_000_000_000;
    assert tp == q * 1_000_000_000 + tp % 1_000_000_000;
  }

  lemma TwoFields(a: string, b: string)
    requires a != "" && b != "" && ':' !in a && ':' !in b
    ensures Split(a + ":" + b, ':') == [a, b]
  {
    LineThenRest(a, b, ':');
    LastLine(b, ':');
    hide GetLine, UpTo, Lines;
    assert NonEmpty([a] + [b]) == [a, b] by {
      NonEmptyNext([], a);
      NonEmptyNext([a], b);
      assert [] + [a] == [a];
    }
  }

  lemma PrintedIsAField(i: int)
    ensures DecInt(i) != "" && ':' !in DecInt(i)
  {
  }

  // Two numbers are read as the instant they make, as 64 bits, and throw exactly when one of them does
  // not fit 64 bits.
  lemma NumbersAreReadExactly(s: int, n: int, tp: int64)
    ensures
      var fits := -0x1_0000_0000_0000_0000 < s < 0x1_0000_0000_0000_0000 && -0x1_0000_0000_0000_0000 < n < 0x1_0000_0000_0000_0000;
      var time := n % 0x1_0000_0000_0000_0000 + s % 0x1_0000_0000_0000_0000 * 1_000_000_000;
      && ConvertTaiStringToTimePoint(DecInt(s) + ":" + DecInt(n)) == (if fits then Instant(Wrap64(time)) else Thrown)
      && AddTaiStringToTimePoint(DecInt(s) + ":" + DecInt(n), tp) ==
           (if fits then Instant(Wrap64(tp - 37_000_000_000 + time)) else Thrown)
  {
    hide Stoul, Dec, DecInt, UpTo, Split, Wrap64;
    PrintedIsAField(s);
    PrintedIsAField(n);
    LineThenRest(DecInt(s), DecInt(n), ':');
    LastLine(DecInt(n), ':');
    TwoFields(DecInt(s), DecInt(n));
    StoulReadsDec(s);
    StoulReadsDec(n);
    var time := n % 0x1_0000_0000_0000_0000 + s % 0x1_0000_0000_0000_0000 * SECOND;
    assert tp - LEAP + n % 0x1_0000_0000_0000_0000 + s % 0x1_0000_0000_0000_0000 * SECOND == tp - LEAP + time;
  }

  // A text without a colon does not read as a time.
  lemma WithoutColonIsNoTime(s: string, tp: int64)
    requires ':' !in s
    ensures ConvertTaiStringToTimePoint(s) == NoInstant && AddTaiStringToTimePoint(s, tp) == NoInstant
  {
    if s != "" {
      LastLine(s, ':');
      NonEmptyNext([], s);
      assert [] + [s] == [s];
    }
  }

  // Neither does one whose seconds are not a number.
  lemma LettersAreNoTime(a: string, b: string, tp: int64)
    requires a != "" && b != "" && ':' !in b && forall c :: c in a ==> 'a' <= c <= 'z'
    ensures ConvertTaiStringToTimePoint(a + ":" + b) == NoInstant && AddTaiStringToTimePoint(a + ":" + b, tp) == NoInstant
  {
    LineThenRest(a, b, ':');
    LastLine(b, ':');
    TwoFields(a, b);
    hide Split, Horner, UpTo;
    assert a[0] in a && SkipSpace(a) == a && Unsigned(a) == a && !StartsWithDigit(a, 10);
  }

  // A relative time d read at tp gives an instant 37 s, the leap seconds, before tp + d. The table is
  // served another 37 s before its instants.
  lemma RelativeIsShifted(d: int64, tp: int64)
    ensures AddTaiStringToTimePoint(ConvertTimeToString(d, true), tp) == Instant(Wrap64(tp - 37_000_000_000 + d))
  {
    hide Stoul, Dec, DecInt, Quotient, Remainder, Split;
    var q, r := Quotient(d, SECOND), Remainder(d, SECOND);
    TruncatedDivision(d);
    PrintedIsAField(q);
    PrintedIsAField(r);
    TwoFields(DecInt(q), DecInt(r));
    StoulReadsDec(q);
    StoulReadsDec(r);
    ShiftUndoesModulo(r, q, tp - LEAP);
  }

  lemma ShiftUndoesModulo(r: int, q: int, base: int)
    ensures Wrap64(base + r % 0x1_0000_0000_0000_0000 + q % 0x1_0000_0000_0000_0000 * SECOND) == Wrap64(base + r + q * SECOND)
  {
  }
}
