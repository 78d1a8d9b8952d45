/** Decimal printing and parsing of 64-bit integers, as strconv.Itoa and strconv.ParseInt do it. */
module Decimal {
  import opened Options

  const MIN_INT64: int := -0x8000_0000_0000_0000
  const MAX_INT64: int := 0x7FFF_FFFF_FFFF_FFFF

  predicate InInt64(n: int) { MIN_INT64 <= n <= MAX_INT64 }

  // The machine integers of the source.
  type GoInt = n: int | InInt64(n) witness 0

  predicate IsDigit(c: char) { '0' <= c <= '9' }

  predicate AllDigits(s: string) { forall i :: 0 <= i < |s| ==> IsDigit(s[i]) }

  function DigitChar(d: nat): char
    requires d < 10
  {
    ('0' as int + d) as char
  }

  function Digits(n: nat): string {
    if n < 10 then [DigitChar(n)] else Digits(n / 10) + [DigitChar(n % 10)]
  }

  function Itoa(n: int): string {
    if n < 0 then "-" + Digits(-n) else Digits(n)
  }

  // The number a string of digits denotes, whatever its leading zeros.
  function DigitsValue(s: string): (n: int)
    requires AllDigits(s)
    ensures n >= 0
  {
    if s == "" then 0
    else 10 * DigitsValue(s[..|s| - 1]) + (s[|s| - 1] as int - '0' as int)
  }

  // strconv.ParseInt(s, 10, 64): an optional sign, at least one digit, nothing else, in range.
  function ParseInt(s: string): Option<int> {
    var signed := s != "" && (s[0] == '-' || s[0] == '+');
    var body := if signed then s[1..] else s;
    if body == "" || !AllDigits(body) then None
    else
      var n: int := if signed && s[0] == '-' then -DigitsValue(body) else DigitsValue(body);
      if InInt64(n) then Some(n) else None
  }

  // The store's own atoi: a parse error becomes -1.
  function Atoi(s: string): int {
    match ParseInt(s)
    case None => -1
    case Some(n) => n
  }

  lemma {:induction false} DigitsRoundTrip(n: nat)
    ensures Digits(n) != "" && AllDigits(Digits(n)) && DigitsValue(Digits(n)) == n
  {
    if n < 10 {
      assert Digits(n)[..0] == "";
    } else {
      DigitsRoundTrip(n / 10);
      assert Digits(n)[..|Digits(n)| - 1] == Digits(n / 10);
    }
  }

  lemma ParseDigits(ds: string)
    requires ds != "" && AllDigits(ds)
    ensures InInt64(DigitsValue(ds)) ==> ParseInt(ds) == Some(DigitsValue(ds))
    ensures InInt64(DigitsValue(ds)) ==> ParseInt("+" + ds) == Some(DigitsValue(ds))
    ensures InInt64(-DigitsValue(ds)) ==> ParseInt("-" + ds) == Some(-DigitsValue(ds))
  {
    assert IsDigit(ds[0]);
    assert ("-" + ds)[1..] == ds && ("+" + ds)[1..] == ds;
  }

  /** Parsing undoes printing on every 64-bit integer. */
  lemma ItoaRoundTrip(n: int)
    requires InInt64(n)
    ensures ParseInt(Itoa(n)) == Some(n)
    ensures Atoi(Itoa(n)) == n
  {
    var size: nat := if n < 0 then -n else n;
    DigitsRoundTrip(size);
    ParseDigits(Digits(size));
  }

  lemma SignOfItoa(n: int)
    ensures Itoa(n) != "" && (Itoa(n)[0] == '-' <==> n < 0)
  {
    DigitsRoundTrip(if n < 0 then -n else n);
    assert n >= 0 ==> IsDigit(Digits(n)[0]);
  }

  lemma {:induction false} NoLeadingZero(n: nat)
    ensures n > 0 ==> Digits(n)[0] != '0'
    ensures n == 0 ==> Digits(n) == "0"
  {
    if n >= 10 {
      NoLeadingZero(n / 10);
      DigitsRoundTrip(n / 10);
    }
  }

  /** Printing is canonical: a sign only in front of a negative number, and no leading zero but in "0". */
  lemma ItoaIsCanonical(n: int)
    ensures n == 0 ==> Itoa(n) == "0"
    ensures n > 0 ==> Itoa(n) != "" && '1' <= Itoa(n)[0] <= '9' && AllDigits(Itoa(n))
    ensures n < 0 ==> |Itoa(n)| > 1 && Itoa(n)[0] == '-' && '1' <= Itoa(n)[1] <= '9' && AllDigits(Itoa(n)[1..])
  {
    var size: nat := if n < 0 then -n else n;
    NoLeadingZero(size);
    DigitsRoundTrip(size);
    assert IsDigit(Digits(size)[0]);
    assert n < 0 ==> Itoa(n)[1..] == Digits(size);
  }

  /** Two integers never share a key, whatever their size. */
  lemma ItoaInjective(m: int, n: int)
    requires Itoa(m) == Itoa(n)
    ensures m == n
  {
    SignOfItoa(m);
    SignOfItoa(n);
    DigitsRoundTrip(if m < 0 then -m else m);
    DigitsRoundTrip(if n < 0 then -n else n);
    if m < 0 {
      assert Itoa(m)[1..] == Digits(-m) && Itoa(n)[1..] == Digits(-n);
    }
  }
}
