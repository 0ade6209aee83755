/** Options, results, and the few facts about strings that the other modules share. */
module Outcomes {

  datatype Option<+T> = None | Some(value: T)

  /** A returned value, or the code of the error that was raised. */
  datatype Result<+T> = Ok(value: T) | Err(error: string)
}

module Text {

  // ------------------------------------------------------------- white space

  /** The white space that Python's `str.strip` removes. */
  predicate IsSpace(c: char) {
    || '\t' <= c <= '\r' || '\U{001C}' <= c <= ' ' || c == '\U{0085}' || c == '\U{00A0}'
    || c == '\U{1680}' || '\U{2000}' <= c <= '\U{200A}' || c == '\U{2028}' || c == '\U{2029}'
    || c == '\U{202F}' || c == '\U{205F}' || c == '\U{3000}'
  }

  function StripLeft(s: string): (r: string)
    ensures |r| <= |s|
    ensures r == [] || !IsSpace(r[0])
    ensures s != [] && !IsSpace(s[0]) ==> r == s
  {
    if s != [] && IsSpace(s[0]) then StripLeft(s[1..]) else s
  }

  function StripRight(s: string): (r: string)
    ensures |r| <= |s|
    ensures r == s[..|r|]
    ensures r == [] || !IsSpace(r[|r| - 1])
    ensures s != [] && !IsSpace(s[|s| - 1]) ==> r == s
  {
    if s != [] && IsSpace(s[|s| - 1]) then StripRight(s[..|s| - 1]) else s
  }

  function Strip(s: string): (r: string)
    ensures Stripped(r)
    ensures Stripped(s) ==> r == s
  {
    StripRight(StripLeft(s))
  }

  /** No white space at either end. */
  predicate Stripped(s: string) {
    s == [] || (!IsSpace(s[0]) && !IsSpace(s[|s| - 1]))
  }

  /** Lower case, for the letters of ASCII. */
  function Lower(s: string): string {
    seq(|s|, i requires 0 <= i < |s| => if 'A' <= s[i] <= 'Z' then s[i] - 'A' + 'a' else s[i])
  }

  // --------------------------------------------------------- decimal numerals

  predicate IsDigit(c: char) {
    '0' <= c <= '9'
  }

  function Digit(n: nat): (c: char)
    requires n < 10
    ensures IsDigit(c)
  {
    '0' + (n as char)
  }

  function Decimal(n: nat): (r: string)
    ensures |r| >= 1
    ensures n >= 10 ==> |r| >= 2
    ensures forall i | 0 <= i < |r| :: IsDigit(r[i])
  {
    if n < 10 then [Digit(n)] else Decimal(n / 10) + [Digit(n % 10)]
  }

  lemma DigitInjective(m: nat, n: nat)
    requires m < 10 && n < 10 && Digit(m) == Digit(n)
    ensures m == n
  {
    assert Digit(m) as int == '0' as int + m && Digit(n) as int == '0' as int + n;
  }

  /** A numeral without its last digit, and that digit. */
  lemma LastDigit(n: nat)
    ensures var r := Decimal(n);
            r[|r| - 1] == Digit(n % 10) && r[..|r| - 1] == if n < 10 then [] else Decimal(n / 10)
  {
  }

  lemma {:induction false} DecimalInjective(m: nat, n: nat)
    requires Decimal(m) == Decimal(n)
    ensures m == n
  {
    hide *;
    LastDigit(m);
    LastDigit(n);
    DigitInjective(m % 10, n % 10);
    if m >= 10 && n >= 10 {
      DecimalInjective(m / 10, n / 10);
    }
    SameQuotient(m, n);
  }

  lemma SameQuotient(m: nat, n: nat)
    requires m % 10 == n % 10
    requires m < 10 <==> n < 10
    requires m >= 10 ==> m / 10 == n / 10
    ensures m == n
  {
  }

  // ---------------------------------------------------------------- splitting

  /** When two splits of one text differ, the separator of the earlier one lies in the
      first half of the later one, and that of the later one in the other's second half. */
  lemma SplitsCross(a: string, b: string, sep: char, x: string, y: string)
    requires a + ([sep] + x) == b + ([sep] + y)
    requires |a| < |b|
    ensures sep in b && sep in x
  {
    var s, t := a + ([sep] + x), b + ([sep] + y);
    assert t[|a|] == b[|a|] && s[|a|] == sep;
    assert s[|b|] == x[|b| - |a| - 1] && t[|b|] == sep;
  }

  lemma SplitAtFirst(a: string, b: string, sep: char, x: string, y: string)
    requires sep !in a && sep !in b
    requires a + ([sep] + x) == b + ([sep] + y)
    ensures a == b && x == y
  {
    if |a| < |b| {
      SplitsCross(a, b, sep, x, y);
    } else if |b| < |a| {
      SplitsCross(b, a, sep, y, x);
    }
    SameLengthSplit(a, b, [sep] + x, [sep] + y);
    assert ([sep] + x)[1..] == x && ([sep] + y)[1..] == y;
  }

  lemma SplitAtLast(a: string, b: string, sep: char, x: string, y: string)
    requires sep !in x && sep !in y
    requires a + ([sep] + x) == b + ([sep] + y)
    ensures a == b && x == y
  {
    if |a| < |b| {
      SplitsCross(a, b, sep, x, y);
    } else if |b| < |a| {
      SplitsCross(b, a, sep, y, x);
    }
    SameLengthSplit(a, b, [sep] + x, [sep] + y);
    assert ([sep] + x)[1..] == x && ([sep] + y)[1..] == y;
  }

  lemma SameLengthSplit(a: string, b: string, x: string, y: string)
    requires |a| == |b| && a + x == b + y
    ensures a == b && x == y
  {
    assert a == (a + x)[..|a|] && b == (b + y)[..|b|];
    assert x == (a + x)[|a|..] && y == (b + y)[|b|..];
  }

  /** A text that occurs on both sides of a fixed middle is determined by the whole. */
  lemma SplitRepeated(a: string, b: string, middle: string)
    requires a + (middle + a) == b + (middle + b)
    ensures a == b
  {
    assert |a + (middle + a)| == 2 * |a| + |middle|;
    assert |b + (middle + b)| == 2 * |b| + |middle|;
    SameLengthSplit(a, b, middle + a, middle + b);
  }
}
