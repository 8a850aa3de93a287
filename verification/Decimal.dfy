/** Decimal numerals: how the library prints them, and how `integer_builder` reads them back into
    an `int64_t` that it accumulates digit by digit.

    Signed overflow has no meaning in C++. The model does not wrap and does not exclude it: it is
    the separate verdict `Overflow`. */
module Decimal {
  const INT64_MAX := 0x7fff_ffff_ffff_ffff

  predicate IsDigit(c: char) {
    '0' <= c <= '9'
  }

  function DigitOf(c: char): (d: nat)
    requires IsDigit(c)
    ensures d < 10
  {
    c as int - '0' as int
  }

  function CharOf(d: nat): (c: char)
    requires d < 10
    ensures IsDigit(c) && DigitOf(c) == d
  {
    (d + '0' as int) as char
  }

  predicate AllDigits(s: string) {
    forall i | 0 <= i < |s| :: IsDigit(s[i])
  }

  /** The number a digit string stands for; the empty string stands for 0. */
  function Value(s: string): nat
    requires AllDigits(s)
  {
    if s == "" then 0 else 10 * Value(s[..|s| - 1]) + DigitOf(s[|s| - 1])
  }

  function Digits(n: nat): (s: string)
    ensures s != "" && AllDigits(s)
  {
    if n < 10 then [CharOf(n)] else Digits(n / 10) + [CharOf(n % 10)]
  }

  /** `std::to_string`. */
  function ToString(n: int): (s: string)
    ensures s != ""
  {
    if n < 0 then "-" + Digits(-n) else Digits(n)
  }

  datatype Number = Number(value: int) | NotANumber | Overflow

  /** One turn of the digit loop: `m_nbr *= 10; m_nbr += digit`. */
  function PushDigit(acc: nat, c: char): Number {
    if !IsDigit(c) then NotANumber
    else if 10 * acc + DigitOf(c) > INT64_MAX then Overflow
    else Number(10 * acc + DigitOf(c))
  }

  /** The rest of the digit loop, from accumulator `acc`. */
  function Accumulate(acc: nat, s: string): (r: Number)
    ensures r.Number? ==> 0 <= r.value
    decreases |s|
  {
    if s == "" then Number(acc)
    else
      var p := PushDigit(acc, s[0]);
      if p.Number? then Accumulate(p.value, s[1..]) else p
  }

  /** The digits of a numeral: what follows an optional leading '-'. */
  function Body(line: string): string {
    if line != "" && line[0] == '-' then line[1..] else line
  }

  function Sign(line: string): int {
    if line != "" && line[0] == '-' then -1 else 1
  }

  /** What `integer_builder` makes of the bytes before the first CRLF. */
  function ReadInteger(line: string): Number {
    var m := Accumulate(0, Body(line));
    if m.Number? then Number(Sign(line) * m.value) else m
  }

  lemma {:induction false} AccumulateSnoc(acc: nat, s: string, c: char)
    ensures var m := Accumulate(acc, s);
            Accumulate(acc, s + [c]) == if m.Number? then PushDigit(m.value, c) else m
    decreases |s|
  {
    if s == "" {
      assert (s + [c])[1..] == "";
    } else {
      assert (s + [c])[1..] == s[1..] + [c];
      var p := PushDigit(acc, s[0]);
      if p.Number? {
        AccumulateSnoc(p.value, s[1..], c);
      }
    }
  }

  /** On a digit string the loop computes the mathematical value, and overflows exactly when that
      value does not fit: no intermediate product or sum overflows before the result does. */
  lemma {:induction false} AccumulateIsValue(s: string)
    requires AllDigits(s)
    ensures Accumulate(0, s) == if Value(s) <= INT64_MAX then Number(Value(s)) else Overflow
    decreases |s|
  {
    if s != "" {
      var front, last := s[..|s| - 1], s[|s| - 1];
      assert s == front + [last];
      AccumulateSnoc(0, front, last);
      AccumulateIsValue(front);
    }
  }

  lemma {:induction false} AccumulateNeedsDigits(acc: nat, s: string)
    requires Accumulate(acc, s).Number?
    ensures AllDigits(s)
    decreases |s|
  {
    if s != "" {
      AccumulateNeedsDigits(PushDigit(acc, s[0]).value, s[1..]);
      assert s == [s[0]] + s[1..];
    }
  }

  /** The exact domain and result of the integer parser: an optional '-', then any digits (leading
      zeros and the empty string included) of magnitude at most 2^63 - 1. */
  lemma ReadIntegerExact(line: string, n: int)
    ensures ReadInteger(line) == Number(n) <==>
            AllDigits(Body(line)) && Value(Body(line)) <= INT64_MAX && n == Sign(line) * Value(Body(line))
  {
    if Accumulate(0, Body(line)).Number? {
      AccumulateNeedsDigits(0, Body(line));
    }
    if AllDigits(Body(line)) {
      AccumulateIsValue(Body(line));
    }
  }

  lemma {:induction false} ValueOfDigits(n: nat)
    ensures Value(Digits(n)) == n
  {
    if n >= 10 {
      ValueOfDigits(n / 10);
      assert Digits(n)[..|Digits(n)| - 1] == Digits(n / 10);
    }
  }

  /** Reading inverts printing for every magnitude up to 2^63 - 1, and for no other: -2^63 prints
      but its magnitude overflows the accumulator. */
  lemma PrintThenRead(n: int)
    ensures ReadInteger(ToString(n)) == if -INT64_MAX <= n <= INT64_MAX then Number(n) else Overflow
  {
    var magnitude := if n < 0 then -n else n;
    ValueOfDigits(magnitude);
    AccumulateIsValue(Digits(magnitude));
    assert Body(ToString(n)) == Digits(magnitude);
  }

  /** A printed number holds no CR, so it never hides the end of its header line. */
  lemma PrintedHasNoCr(n: int)
    ensures forall i | 0 <= i < |ToString(n)| :: ToString(n)[i] != '\r'
  {
    var magnitude := if n < 0 then -n else n;
    assert AllDigits(Digits(magnitude));
  }
}
