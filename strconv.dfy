/** Go's strconv.ParseInt(s, 10, 64) and strconv.FormatInt(x, 10), with
    64-bit limits written out on unbounded integers. */
module Strconv {
  import opened Results

  const MaxInt64: int := 0x7FFF_FFFF_FFFF_FFFF
  const MinInt64: int := -0x8000_0000_0000_0000
  const MaxUint64: int := 0xFFFF_FFFF_FFFF_FFFF
  /** The smallest n for which n * 10 no longer fits in 64 unsigned bits. */
  const Cutoff: int := MaxUint64 / 10 + 1

  predicate IsInt64(x: int) {
    MinInt64 <= x <= MaxInt64
  }

  /** The two error kinds of *strconv.NumError. */
  datatype NumError = ErrSyntax | ErrRange

  predicate IsDigit(c: char) {
    '0' <= c <= '9'
  }

  function DigitValue(c: char): nat
    requires IsDigit(c)
  {
    (c as int) - ('0' as int)
  }

  function DigitChar(d: nat): char
    requires d < 10
  {
    (('0' as int) + d) as char
  }

  predicate AllDigits(s: string) {
    forall k | 0 <= k < |s| :: IsDigit(s[k])
  }

  /** The number written `acc` followed by the decimal digits `s`. */
  function Horner(acc: nat, s: string): nat
    requires AllDigits(s)
    decreases |s|
  {
    if s == [] then acc else Horner(acc * 10 + DigitValue(s[0]), s[1..])
  }

  /** A base-10 integer as ParseInt accepts it: an optional sign, then at
      least one digit (no underscores, no prefixes). */
  predicate WellFormed(s: string) {
    var digits := if |s| > 0 && (s[0] == '+' || s[0] == '-') then s[1..] else s;
    |digits| > 0 && AllDigits(digits)
  }

  /** The number a well-formed string denotes. */
  function Denotes(s: string): int
    requires WellFormed(s)
  {
    if s[0] == '-' then 0 - Horner(0, s[1..])
    else if s[0] == '+' then Horner(0, s[1..])
    else Horner(0, s)
  }

  /** The digit loop of ParseUint in base 10 for 64 bits, from accumulated
      value `n`: the first offending byte decides the error, and overflow is
      reported as soon as it happens. */
  function ScanUint(s: string, n: nat): Result<nat, NumError>
  {
    if s == [] then Success(n)
    else if !IsDigit(s[0]) then Failure(ErrSyntax)
    else if n >= Cutoff then Failure(ErrRange)
    else
      var n1 := n * 10 + DigitValue(s[0]);
      if n1 > MaxUint64 then Failure(ErrRange) else ScanUint(s[1..], n1)
  }

  /** strconv.ParseUint(s, 10, 64). */
  function ParseUint(s: string): Result<nat, NumError>
  {
    if s == "" then Failure(ErrSyntax) else ScanUint(s, 0)
  }

  /** strconv.ParseInt(s, 10, 64). */
  function ParseInt(s: string): Result<int, NumError>
  {
    if s == "" then Failure(ErrSyntax)
    else
      var neg := s[0] == '-';
      var digits := if s[0] == '+' || s[0] == '-' then s[1..] else s;
      match ParseUint(digits)
      case Failure(e) => Failure(e)
      case Success(un) =>
        if !neg && un > MaxInt64 then Failure(ErrRange)
        else if neg && un > -MinInt64 then Failure(ErrRange)
        else
          var x: int := if neg then 0 - un else un;
          Success(x)
  }

  /** Decimal digits of `n`, most significant first, without leading zeros. */
  function FormatNat(n: nat): (s: string)
    ensures |s| > 0 && AllDigits(s)
  {
    if n < 10 then [DigitChar(n)] else FormatNat(n / 10) + [DigitChar(n % 10)]
  }

  /** strconv.FormatInt(x, 10). */
  function FormatInt(x: int): string
  {
    if x < 0 then "-" + FormatNat(-x) else FormatNat(x)
  }

  lemma {:induction false} HornerAtLeast(acc: nat, s: string)
    requires AllDigits(s)
    ensures Horner(acc, s) >= acc
    ensures |s| > 0 ==> Horner(acc, s) >= acc * 10
    decreases |s|
  {
    if s != [] {
      HornerAtLeast(acc * 10 + DigitValue(s[0]), s[1..]);
    }
  }

  lemma {:induction false} HornerSnoc(acc: nat, s: string, c: char)
    requires AllDigits(s) && IsDigit(c)
    ensures AllDigits(s + [c])
    ensures Horner(acc, s + [c]) == Horner(acc, s) * 10 + DigitValue(c)
    decreases |s|
  {
    if s != [] {
      assert (s + [c])[1..] == s[1..] + [c];
      HornerSnoc(acc * 10 + DigitValue(s[0]), s[1..], c);
    }
  }

  /** The digit loop succeeds exactly on digit strings whose value fits in
      64 unsigned bits, and then yields that value. */
  lemma {:induction false} ScanUintMeaning(s: string, n: nat)
    requires n <= MaxUint64
    ensures ScanUint(s, n).Success? <==> AllDigits(s) && Horner(n, s) <= MaxUint64
    ensures ScanUint(s, n).Success? ==> ScanUint(s, n).value == Horner(n, s)
    decreases |s|
  {
    if s != [] && IsDigit(s[0]) {
      var n1 := n * 10 + DigitValue(s[0]);
      if AllDigits(s) {
        HornerAtLeast(n1, s[1..]);
      }
      if n < Cutoff && n1 <= MaxUint64 {
        ScanUintMeaning(s[1..], n1);
      }
    }
  }

  /** ParseInt accepts exactly the well-formed strings that denote a 64-bit
      integer, and returns that integer. */
  lemma ParseIntMeaning(s: string)
    ensures ParseInt(s).Success? <==> WellFormed(s) && IsInt64(Denotes(s))
    ensures ParseInt(s).Success? ==> ParseInt(s).value == Denotes(s)
  {
    if s != "" {
      var digits := if s[0] == '+' || s[0] == '-' then s[1..] else s;
      if digits != "" {
        ScanUintMeaning(digits, 0);
      }
    }
  }

  lemma {:induction false} FormatNatValue(n: nat)
    ensures Horner(0, FormatNat(n)) == n
  {
    if n >= 10 {
      FormatNatValue(n / 10);
      HornerSnoc(0, FormatNat(n / 10), DigitChar(n % 10));
    }
  }

  /** Parsing the decimal form of a 64-bit integer gives it back. */
  lemma ParseFormat(x: int)
    requires IsInt64(x)
    ensures ParseInt(FormatInt(x)) == Success(x)
  {
    var s := FormatInt(x);
    if x < 0 {
      FormatNatValue(-x);
      assert s[1..] == FormatNat(-x);
    } else {
      FormatNatValue(x);
    }
    ParseIntMeaning(s);
  }
}
