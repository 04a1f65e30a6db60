/** `strconv.Itoa`/`FormatInt` and `strconv.Atoi`/`ParseInt` in base ten, on 64-bit ints. */
module Decimal {
  import opened Lookout

  const MAX: int := 0x7fff_ffff_ffff_ffff

  predicate Int64(n: int) {
    -MAX - 1 <= n <= MAX
  }

  /** A Go int, and a uint16. */
  type Int = n: int | Int64(n)
  type Port = n: nat | n < 65536

  const TWO64: int := 0x1_0000_0000_0000_0000

  /** The sum of two 64-bit ints, as the machine leaves it. */
  function WrapSum(x: int): int {
    if x > MAX then x - TWO64 else if x < -MAX - 1 then x + TWO64 else x
  }

  function DigitChar(d: nat): char
    requires d < 10
  {
    (d + 48) as char
  }

  predicate IsDigit(c: char) {
    '0' <= c <= '9'
  }

  function Digits(n: nat): string {
    if n < 10 then [DigitChar(n)] else Digits(n / 10) + [DigitChar(n % 10)]
  }

  function Itoa(n: int): string {
    if n < 0 then "-" + Digits(-n) else Digits(n)
  }

  predicate AllDigits(s: string) {
    forall i :: 0 <= i < |s| ==> IsDigit(s[i])
  }

  function Number(s: string): nat
    requires AllDigits(s)
  {
    if s == [] then 0 else 10 * Number(s[..|s| - 1]) + (s[|s| - 1] as int - 48)
  }

  /** The number a text denotes, of whatever size; None for bad syntax. */
  function Value(s: string): Option<int> {
    var signed := s != [] && s[0] in {'-', '+'};
    var body := if signed then s[1..] else s;
    if body == [] || !AllDigits(body) then None
    else Some(if signed && s[0] == '-' then -(Number(body) as int) else Number(body))
  }

  /** None is the error return, for bad syntax and for values outside 64 bits alike. */
  function ParseInt(s: string): Option<int> {
    var v := Value(s);
    if v.Some? && Int64(v.value) then v else None
  }

  /** The value of `Atoi` when its error is ignored: zero for bad syntax, the nearest 64-bit
      number for a value out of range. */
  function Atoi(s: string): int {
    match Value(s)
    case None => 0
    case Some(v) => if v > MAX then MAX else if v < -MAX - 1 then -MAX - 1 else v
  }

  lemma {:induction false} DigitsRoundTrip(n: nat)
    ensures AllDigits(Digits(n)) && Digits(n) != []
    ensures Number(Digits(n)) == n
  {
    if n >= 10 {
      DigitsRoundTrip(n / 10);
      var s := Digits(n);
      assert s[..|s| - 1] == Digits(n / 10);
    } else {
      assert Digits(n)[..0] == [];
    }
  }

  lemma MinusRoundTrip(n: nat)
    requires Int64(-(n as int))
    ensures ParseInt("-" + Digits(n)) == Some(-(n as int))
  {
    DigitsRoundTrip(n);
    var s := "-" + Digits(n);
    assert s[0] == '-' && s[1..] == Digits(n);
  }

  lemma PlusRoundTrip(n: nat)
    requires Int64(n)
    ensures ParseInt(Digits(n)) == Some(n as int)
  {
    DigitsRoundTrip(n);
    assert IsDigit(Digits(n)[0]);
  }

  /** Printing and parsing are inverse on every 64-bit number. */
  lemma ItoaRoundTrip(n: int)
    requires Int64(n)
    ensures ParseInt(Itoa(n)) == Some(n) && Atoi(Itoa(n)) == n
  {
    if n < 0 {
      MinusRoundTrip(-n);
    } else {
      PlusRoundTrip(n);
    }
  }

  function Power10(k: nat): nat {
    if k == 0 then 1 else 10 * Power10(k - 1)
  }

  /** Plain decimal notation: digits only, no leading zero, short enough for 64 bits. */
  predicate Plain(s: string) {
    0 < |s| <= 18 && AllDigits(s) && s[0] != '0'
  }

  lemma {:induction false} NumberRoundTrip(s: string)
    requires s != [] && AllDigits(s) && s[0] != '0'
    ensures 0 < Number(s) < Power10(|s|) && Digits(Number(s)) == s
  {
    var init := s[..|s| - 1];
    if init != [] {
      NumberRoundTrip(init);
    }
    assert s == init + [s[|s| - 1]];
  }

  lemma {:induction false} Power10Grows(i: nat, j: nat)
    requires i <= j
    ensures Power10(i) <= Power10(j)
    decreases j
  {
    if i < j {
      Power10Grows(i, j - 1);
    }
  }

  /** Parsing and printing are inverse on every plain text. */
  lemma PlainRoundTrip(s: string)
    requires Plain(s)
    ensures ParseInt(s).Some? && Itoa(Atoi(s)) == s
  {
    NumberRoundTrip(s);
    Power10Grows(|s|, 18);
    assert Power10(6) == 1_000_000 && Power10(12) == 1_000_000_000_000;
    assert Power10(18) == 1_000_000_000_000_000_000;
    assert IsDigit(s[0]);
  }

  function Digit(s: string, i: nat): int
    requires i < |s|
  {
    s[i] as int - 48
  }

  /** Short texts, digit by digit. */
  lemma Number1(s: string)
    requires |s| == 1 && AllDigits(s)
    ensures Number(s) == Digit(s, 0)
  {
    assert s[..0] == [];
  }

  lemma Number2(s: string)
    requires |s| == 2 && AllDigits(s)
    ensures Number(s) == 10 * Digit(s, 0) + Digit(s, 1)
  {
    Number1(s[..1]);
  }

  lemma Number3(s: string)
    requires |s| == 3 && AllDigits(s)
    ensures Number(s) == 100 * Digit(s, 0) + 10 * Digit(s, 1) + Digit(s, 2)
  {
    Number2(s[..2]);
  }

  lemma Number4(s: string)
    requires |s| == 4 && AllDigits(s)
    ensures Number(s) == 1000 * Digit(s, 0) + 100 * Digit(s, 1) + 10 * Digit(s, 2) + Digit(s, 3)
  {
    Number3(s[..3]);
  }

  /** The last three digits count units; what stands before them counts thousands. */
  lemma Thousands(s: string)
    requires |s| >= 3 && AllDigits(s)
    ensures var n := |s| - 3;
            Number(s) == 1000 * Number(s[..n]) + 100 * Digit(s, n) + 10 * Digit(s, n + 1) + Digit(s, n + 2)
  {
    var n := |s| - 3;
    var a, b := s[..n + 2], s[..n + 1];
    assert Number(s) == 10 * Number(a) + Digit(s, n + 2);
    assert a[..n + 1] == b && Number(a) == 10 * Number(b) + Digit(s, n + 1);
    assert b[..n] == s[..n] && Number(b) == 10 * Number(s[..n]) + Digit(s, n);
  }

  /** What is parsed of a text that is no number, and of one that is too large. */
  lemma AtoiOtherwise(s: string, n: nat)
    ensures s == "" || (s[0] !in {'+', '-'} && !AllDigits(s)) ==> Atoi(s) == 0 && ParseInt(s).None?
    ensures n > 9223372036854775807 ==> Atoi(Digits(n)) == 9223372036854775807 && ParseInt(Digits(n)).None?
    ensures n > 9223372036854775808 ==>
              Atoi("-" + Digits(n)) == -9223372036854775808 && ParseInt("-" + Digits(n)).None?
  {
    DigitsRoundTrip(n);
    assert IsDigit(Digits(n)[0]);
    assert ("-" + Digits(n))[1..] == Digits(n);
  }
}
