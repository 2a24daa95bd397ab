/** Decimal conversions from Go's `strconv` and `fmt` (%d), and Go's 64-bit
    `int` arithmetic. */
module Strconv {
  import opened Wrappers

  const Int64Min: int := -0x8000_0000_0000_0000
  const Int64Max: int := 0x7FFF_FFFF_FFFF_FFFF
  const TwoTo64: int := 0x1_0000_0000_0000_0000

  predicate InInt64(x: int)
  {
    Int64Min <= x <= Int64Max
  }

  /** The value a Go `int` (64 bits, two's complement) holds after an
      arithmetic result `x` wraps around. */
  function Wrap64(x: int): (r: int)
    ensures InInt64(r)
    ensures (r - x) % TwoTo64 == 0
    ensures InInt64(x) ==> r == x
  {
    var m := x % TwoTo64;
    if m > Int64Max then m - TwoTo64 else m
  }

  predicate IsDigit(c: char)
  {
    '0' <= c <= '9'
  }

  predicate AllDigits(s: string)
  {
    forall i :: 0 <= i < |s| ==> IsDigit(s[i])
  }

  function DigitValue(c: char): nat
    requires IsDigit(c)
  {
    c as int - '0' as int
  }

  function DigitChar(d: nat): (c: char)
    requires d < 10
    ensures IsDigit(c) && DigitValue(c) == d
  {
    ('0' as int + d) as char
  }

  /** The number a string of decimal digits denotes. */
  function DigitsValue(s: string): nat
    requires AllDigits(s)
  {
    if s == [] then 0 else DigitsValue(s[..|s| - 1]) * 10 + DigitValue(s[|s| - 1])
  }

  /** The shortest decimal spelling of a natural number. */
  function NatDigits(n: nat): (r: string)
    ensures r != [] && AllDigits(r)
  {
    if n < 10 then [DigitChar(n)] else NatDigits(n / 10) + [DigitChar(n % 10)]
  }

  /** fmt's %d (and strconv.Itoa): an optional minus sign, then the digits. */
  function Itoa(n: int): (r: string)
  {
    if n < 0 then "-" + NatDigits(-n) else NatDigits(n)
  }

  /** strconv.Atoi: an optional sign followed by at least one decimal digit,
      whose value must fit in a Go int; anything else is an error (None). */
  function Atoi(s: string): (r: Option<int>)
    ensures r.Some? ==> InInt64(r.value)
    ensures r.Some? ==> s != [] && (IsDigit(s[0]) || s[0] == '+' || s[0] == '-')
  {
    var digits := if s != [] && (s[0] == '+' || s[0] == '-') then s[1..] else s;
    if digits == [] || !AllDigits(digits) then None
    else
      var v := if s[0] == '-' then -(DigitsValue(digits) as int) else DigitsValue(digits);
      if InInt64(v) then Some(v) else None
  }

  lemma {:induction false} DigitsRoundTrip(n: nat)
    ensures DigitsValue(NatDigits(n)) == n
  {
    if n >= 10 {
      var d := NatDigits(n);
      assert d[..|d| - 1] == NatDigits(n / 10);
      DigitsRoundTrip(n / 10);
    }
  }

  /** Parsing what %d printed gives the number back. */
  lemma AtoiItoa(n: int)
    requires InInt64(n)
    ensures Atoi(Itoa(n)) == Some(n)
  {
    if n < 0 {
      var d := NatDigits(-n);
      var s := "-" + d;
      assert Itoa(n) == s;
      assert s[0] == '-' && s[1..] == d;
      DigitsRoundTrip(-n);
      assert -(DigitsValue(d) as int) == n;
    } else {
      var d := NatDigits(n);
      assert Itoa(n) == d;
      assert IsDigit(d[0]);
      assert d[0] != '+' && d[0] != '-';
      DigitsRoundTrip(n);
      assert DigitsValue(d) == n;
    }
  }

  /** Distinct numbers print differently. */
  lemma ItoaInjective(m: int, n: int)
    requires Itoa(m) == Itoa(n)
    ensures m == n
  {
    SignOfItoa(m);
    SignOfItoa(n);
    if m < 0 {
      var a, b := NatDigits(-m), NatDigits(-n);
      assert Itoa(m) == "-" + a && Itoa(n) == "-" + b;
      assert a == ("-" + a)[1..] && b == ("-" + b)[1..];
      DigitsRoundTrip(-m);
      DigitsRoundTrip(-n);
    } else {
      assert NatDigits(m) == NatDigits(n);
      DigitsRoundTrip(m);
      DigitsRoundTrip(n);
    }
  }

  /** The printed number starts with a minus sign exactly when it is
      negative. */
  lemma SignOfItoa(n: int)
    ensures Itoa(n)[0] == '-' <==> n < 0
  {
    if n >= 0 {
      assert IsDigit(NatDigits(n)[0]);
    }
  }
}
