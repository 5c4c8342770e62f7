/** Decimal text of natural numbers: what `String(n)`, `padStart` and `Number.parseInt` do. */
module Decimal {
  predicate IsDigit(c: char) {
    '0' <= c <= '9'
  }

  predicate AllDigits(s: string) {
    forall i :: 0 <= i < |s| ==> IsDigit(s[i])
  }

  function DigitOf(c: char): nat
    requires IsDigit(c)
  {
    c as int - '0' as int
  }

  function DigitChar(d: nat): char
    requires d < 10
  {
    ('0' as int + d) as char
  }

  /** Canonical decimal text: no leading zero except for 0 itself. */
  function Digits(n: nat): (s: string)
    ensures s != [] && AllDigits(s)
  {
    if n < 10 then [DigitChar(n)] else Digits(n / 10) + [DigitChar(n % 10)]
  }

  /** The number a digit string denotes. */
  function Value(s: string): nat
    requires AllDigits(s)
  {
    if s == [] then 0 else Value(s[..|s| - 1]) * 10 + DigitOf(s[|s| - 1])
  }

  /** Left padding with zeros up to `width`; longer text is left alone. */
  function PadStart(s: string, width: nat): (r: string)
    ensures AllDigits(s) ==> AllDigits(r)
  {
    if |s| >= width then s else seq(width - |s|, i => '0') + s
  }

  lemma {:induction false} ValueOfDigits(n: nat)
    ensures Value(Digits(n)) == n
  {
    if n < 10 {
      assert Digits(n)[..0] == [];
    } else {
      ValueOfDigits(n / 10);
      assert Digits(n)[..|Digits(n)| - 1] == Digits(n / 10);
    }
  }

  lemma {:induction false} LeadingZeros(k: nat, s: string)
    requires AllDigits(s)
    ensures AllDigits(seq(k, i => '0') + s) && Value(seq(k, i => '0') + s) == Value(s)
  {
    var z := seq(k, i => '0');
    if s == [] {
      assert z + s == z;
      ZerosAreZero(k);
    } else {
      LeadingZeros(k, s[..|s| - 1]);
      assert (z + s)[..|z + s| - 1] == z + s[..|s| - 1];
    }
  }

  lemma {:induction false} ZerosAreZero(k: nat)
    ensures Value(seq(k, i => '0')) == 0
  {
    if k > 0 {
      ZerosAreZero(k - 1);
      assert seq(k, i => '0')[..k - 1] == seq(k - 1, i => '0');
    }
  }

  /** Padding never hides a digit: the padded text still denotes the number. */
  lemma ValueOfPadded(n: nat, width: nat)
    ensures Value(PadStart(Digits(n), width)) == n
  {
    ValueOfDigits(n);
    if |Digits(n)| < width {
      LeadingZeros(width - |Digits(n)|, Digits(n));
    }
  }

  /** A digit string is what its number prints as, padded to its length. */
  lemma {:induction false} DigitsOfValue(s: string)
    requires s != [] && AllDigits(s)
    ensures PadStart(Digits(Value(s)), |s|) == s
  {
    var front, d := s[..|s| - 1], DigitOf(s[|s| - 1]);
    assert s == front + [DigitChar(d)];
    if front == [] {
      assert Value(s) == d;
    } else {
      DigitsOfValue(front);
      var n := Value(front);
      if n > 0 {
        assert Digits(Value(s)) == Digits(n) + [DigitChar(d)];
      } else {
        assert Digits(0) == "0" && Value(s) == d;
        assert front == PadStart("0", |front|);
      }
    }
  }

  /** Position of the first `sep`, or the length if there is none. */
  function Find(s: string, sep: char): nat {
    if s == [] || s[0] == sep then 0 else 1 + Find(s[1..], sep)
  }

  lemma {:induction false} FindAfter(a: string, b: string, sep: char)
    requires sep !in a
    ensures Find(a + [sep] + b, sep) == |a|
  {
    if a != [] {
      FindAfter(a[1..], b, sep);
      assert (a + [sep] + b)[1..] == a[1..] + [sep] + b;
    }
  }

  /** Two texts split by the same separator agree piecewise when the first pieces avoid it. */
  lemma SplitAtSeparator(a: string, b: string, x: string, y: string, sep: char)
    requires sep !in a && sep !in x
    requires a + [sep] + b == x + [sep] + y
    ensures a == x && b == y
  {
    FindAfter(a, b, sep);
    FindAfter(x, y, sep);
    var whole := a + [sep] + b;
    assert a == whole[..|a|] && b == whole[|a| + 1..];
    assert x == (x + [sep] + y)[..|x|] && y == (x + [sep] + y)[|x| + 1..];
  }
}
