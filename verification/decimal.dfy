/**
 * Decimal text of numbers, as Rust's `format!("{}", n)` prints it and as
 * `str::parse::<i32>` reads it, together with the facts about it that the
 * compiler's fresh names rely on.
 */
module Decimal {
  import opened Chars
  import opened Wrappers

  const I32Min: int := -0x8000_0000
  const I32Max: int := 0x7fff_ffff

  /** Rust's `i32`. */
  type I32 = x: int | -0x8000_0000 <= x <= 0x7fff_ffff

  predicate AllDigits(s: string) {
    forall i | 0 <= i < |s| :: IsDigit(s[i])
  }

  function Digit(d: nat): (c: char)
    requires d < 10
    ensures IsDigit(c)
  {
    "0123456789"[d]
  }

  function DigitValue(c: char): (d: nat)
    requires IsDigit(c)
    ensures d < 10 && Digit(d) == c
  {
    c as int - '0' as int
  }

  /** `format!("{}", n)` for a non-negative `n`: no sign and no leading zeros. */
  function FromNat(n: nat): (s: string)
    ensures |s| >= 1 && AllDigits(s)
    ensures '.' !in s
    decreases n
  {
    if n < 10 then [Digit(n)] else FromNat(n / 10) + [Digit(n % 10)]
  }

  /** `format!("{}", i)`: a minus sign before the magnitude of a negative number. */
  function FromInt(i: int): (s: string)
    ensures |s| >= 1
    ensures i >= 0 <==> s[0] != '-'
  {
    if i < 0 then "-" + FromNat(-i) else FromNat(i)
  }

  /** The number a string of decimal digits denotes (the empty string denotes 0). */
  function Value(s: string): nat
    requires AllDigits(s)
    decreases |s|
  {
    if s == [] then 0 else 10 * Value(s[..|s| - 1]) + DigitValue(s[|s| - 1])
  }

  lemma {:induction false} ValueOfFromNat(n: nat)
    ensures Value(FromNat(n)) == n
    decreases n
  {
    if n >= 10 {
      ValueOfFromNat(n / 10);
      var s := FromNat(n);
      assert s[..|s| - 1] == FromNat(n / 10);
    }
  }

  lemma FromNatInjective(m: nat, n: nat)
    ensures FromNat(m) == FromNat(n) ==> m == n
  {
    ValueOfFromNat(m);
    ValueOfFromNat(n);
  }

  lemma FromIntInjective(i: int, j: int)
    ensures FromInt(i) == FromInt(j) ==> i == j
  {
    if FromInt(i) == FromInt(j) {
      if i < 0 && j < 0 {
        assert FromInt(i)[1..] == FromNat(-i) && FromInt(j)[1..] == FromNat(-j);
        FromNatInjective(-i, -j);
      } else if i >= 0 && j >= 0 {
        FromNatInjective(i, j);
      }
    }
  }

  /**
   * `str::parse::<i32>`: an optional `+` or `-`, then at least one decimal digit,
   * and a value that fits in 32 bits; anything else is an error (`None`).
   */
  function ParseI32(s: string): Option<I32> {
    if |s| > 0 && s[0] == '-' then Magnitude(true, s[1..])
    else if |s| > 0 && s[0] == '+' then Magnitude(false, s[1..])
    else Magnitude(false, s)
  }

  /** The digits after the optional sign. */
  function Magnitude(negative: bool, digits: string): Option<I32> {
    if digits == [] || !AllDigits(digits) then None
    else
      var v: int := if negative then 0 - Value(digits) else Value(digits);
      if I32Min <= v <= I32Max then Some(v as I32) else None
  }

  /** Printing a 32-bit integer and parsing it back gives the integer. */
  lemma ParseI32OfFromInt(n: I32)
    ensures ParseI32(FromInt(n)) == Some(n)
  {
    var m: nat := if n < 0 then -(n as int) else n;
    var d := FromNat(m);
    ValueOfFromNat(m);
    if n < 0 {
      assert FromInt(n) == "-" + d;
      ParseI32OfNegative(d);
      assert Magnitude(true, d) == Some(n);
    } else {
      assert FromInt(n) == d;
      ParseI32OfDigits(d);
    }
  }

  /** A `-` sign is taken off and the digits after it read as a negative magnitude. */
  lemma ParseI32OfNegative(d: string)
    ensures ParseI32("-" + d) == Magnitude(true, d)
  {
    var s := "-" + d;
    assert s[0] == '-' && s[1..] == d;
  }

  /** A number outside the 32-bit range, printed in decimal, is rejected (e.g. `2147483648`). */
  lemma ParseI32OutOfRange(n: int)
    requires n < I32Min || n > I32Max
    ensures ParseI32(FromInt(n)) == None
  {
    if n < 0 {
      assert FromInt(n)[1..] == FromNat(-n);
      ValueOfFromNat(-n);
    } else {
      ValueOfFromNat(n);
    }
  }

  /** A bare run of digits (what the lexer calls a constant) parses iff its value fits in `i32`. */
  lemma ParseI32OfDigits(d: string)
    requires |d| >= 1 && AllDigits(d)
    ensures ParseI32(d) == if Value(d) <= I32Max then Some(Value(d) as I32) else None
  {
  }

  /**
   * Everything after the last `.` is determined by the string: if two names end in
   * a dot-free suffix after a `.`, equal names have equal suffixes and equal prefixes.
   */
  lemma DotSuffixInjective(a: string, p: string, b: string, q: string)
    requires '.' !in p && '.' !in q
    requires a + "." + p == b + "." + q
    ensures a == b && p == q
  {
    var s := a + "." + p;
    LastDotBefore(a, p);
    LastDotBefore(b, q);
    assert p == s[|s| - |p|..] == q;
    assert a == s[..|a|] == b;
  }

  /** Index of the last `.` in `s`, or -1 when there is none. */
  function LastDot(s: string): (k: int)
    ensures -1 <= k < |s|
    decreases |s|
  {
    if s == [] then -1
    else if s[|s| - 1] == '.' then |s| - 1
    else LastDot(s[..|s| - 1])
  }

  lemma {:induction false} LastDotBefore(a: string, p: string)
    requires '.' !in p
    ensures LastDot(a + "." + p) == |a|
    decreases |p|
  {
    if p != [] {
      var s := a + "." + p;
      assert s[..|s| - 1] == a + "." + p[..|p| - 1];
      LastDotBefore(a, p[..|p| - 1]);
    }
  }
}
