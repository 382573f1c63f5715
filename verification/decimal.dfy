/** Decimal text: strconv.Itoa and strconv.Atoi, used for session values, hash
    fields, hash values and JetStream message ids. */
module Decimal {
  import opened Base

  const MIN_INT64: int := -0x8000_0000_0000_0000
  const MAX_INT64: int := 0x7fff_ffff_ffff_ffff

  predicate IsInt64(n: int) { MIN_INT64 <= n <= MAX_INT64 }

  /** Go's int arithmetic on a 64-bit machine wraps modulo 2^64. */
  function Wrap64(n: int): int {
    (n - MIN_INT64) % 0x1_0000_0000_0000_0000 + MIN_INT64
  }

  predicate IsDigit(c: char) { '0' <= c <= '9' }

  predicate AllDigits(s: string) { forall i :: 0 <= i < |s| ==> IsDigit(s[i]) }

  function Digit(d: int): (c: char)
    requires 0 <= d < 10
    ensures IsDigit(c) && c as int - '0' as int == d
  {
    (d + '0' as int) as char
  }

  function PrintNat(n: nat): (s: string)
    ensures |s| > 0 && AllDigits(s)
  {
    if n < 10 then [Digit(n)] else PrintNat(n / 10) + [Digit(n % 10)]
  }

  function ParseNat(s: string): int
    requires AllDigits(s)
  {
    if s == "" then 0
    else ParseNat(s[..|s| - 1]) * 10 + (s[|s| - 1] as int - '0' as int)
  }

  function Itoa(n: int): string {
    if n < 0 then "-" + PrintNat(-n) else PrintNat(n)
  }

  /** An optional sign, at least one digit, nothing else, and a value in range. */
  function Atoi(s: string): Option<int> {
    var signed := s != "" && (s[0] == '-' || s[0] == '+');
    var digits := if signed then s[1..] else s;
    if digits == "" || !AllDigits(digits) then None
    else
      var n: int := if signed && s[0] == '-' then -ParseNat(digits) else ParseNat(digits);
      if IsInt64(n) then Some(n) else None
  }

  lemma {:induction false} ParsePrint(n: nat)
    ensures ParseNat(PrintNat(n)) == n
  {
    if n >= 10 {
      ParsePrint(n / 10);
      var s := PrintNat(n);
      assert s[..|s| - 1] == PrintNat(n / 10);
    } else {
      assert PrintNat(n)[..0] == "";
    }
  }

  /** What CreateSession and HSET write, GetUserIDFromSession and HGET read back. */
  lemma AtoiItoa(n: int)
    requires IsInt64(n)
    ensures Atoi(Itoa(n)) == Some(n)
  {
    if n < 0 {
      ParsePrint(-n);
      assert Itoa(n)[1..] == PrintNat(-n);
    } else {
      ParsePrint(n);
      assert IsDigit(PrintNat(n)[0]);
    }
  }

  /** The text is decimal, most significant digit first, with a sign for negatives only. */
  lemma ItoaIsDecimal(n: nat)
    ensures
      && var s := Itoa(n);
      && |s| > 0 && s[|s| - 1] as int - '0' as int == n % 10
      && (if n < 10 then |s| == 1 else s[..|s| - 1] == Itoa(n / 10))
    ensures n > 0 ==> Itoa(0 - n as int) == "-" + Itoa(n)
  {
    if n >= 10 {
      assert PrintNat(n)[..|PrintNat(n)| - 1] == PrintNat(n / 10);
    }
  }

  /** A text is a number exactly when it is digits after at most one sign, in range. */
  lemma AtoiAccepts(s: string)
    requires s != "" && AllDigits(s)
    ensures Atoi(s) == if ParseNat(s) <= MAX_INT64 then Some(ParseNat(s)) else None
    ensures Atoi("-" + s) == if ParseNat(s) <= MAX_INT64 + 1 then Some(-ParseNat(s)) else None
    ensures Atoi("") == None && Atoi("-") == None
  {
    ParseNatNonNegative(s);
    assert IsDigit(s[0]);
    assert ("-" + s)[1..] == s && "-"[1..] == "";
  }

  lemma {:induction false} ParseNatNonNegative(s: string)
    requires AllDigits(s)
    ensures ParseNat(s) >= 0
  {
    if s != "" {
      ParseNatNonNegative(s[..|s| - 1]);
    }
  }

  lemma ItoaSign(n: int)
    ensures Itoa(n) != "" && (Itoa(n)[0] == '-' <==> n < 0)
  {
    if n >= 0 {
      assert IsDigit(PrintNat(n)[0]);
    }
  }

  /** Distinct numbers print differently, so distinct transfers get distinct message ids. */
  lemma ItoaInjective(m: int, n: int)
    requires Itoa(m) == Itoa(n)
    ensures m == n
  {
    ItoaSign(m);
    ItoaSign(n);
    if m < 0 && n < 0 {
      assert Itoa(m)[1..] == PrintNat(-m) && Itoa(n)[1..] == PrintNat(-n);
      ParsePrint(-m);
      ParsePrint(-n);
    } else {
      ParsePrint(m);
      ParsePrint(n);
    }
  }

  lemma Wrap64Identity(n: int)
    requires IsInt64(n)
    ensures Wrap64(n) == n
  {
  }
}
