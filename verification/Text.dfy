/** C strings: decimal and hexadecimal digits, strcmp and cutting at a character. */
module Text {
  function Pow10(w: nat): (p: nat)
    ensures p > 0
  {
    if w == 0 then 1 else 10 * Pow10(w - 1)
  }

  predicate IsDigit(c: char) {
    '0' <= c <= '9'
  }

  function Digit(d: nat): (c: char)
    requires d < 10
    ensures IsDigit(c) && c as int - '0' as int == d
  {
    (d + '0' as int) as char
  }

  /** The last `w` decimal digits of `n`, leading zeros included. */
  function Pad(n: nat, w: nat): (s: string)
    ensures |s| == w
    ensures forall i | 0 <= i < w :: IsDigit(s[i])
  {
    if w == 0 then "" else Pad(n / 10, w - 1) + [Digit(n % 10)]
  }

  function Value(s: string): nat
    requires forall i | 0 <= i < |s| :: IsDigit(s[i])
  {
    if s == "" then 0
    else
      assert IsDigit(s[|s| - 1]);
      10 * Value(s[..|s| - 1]) + (s[|s| - 1] as int - '0' as int)
  }

  predicate AllDigits(s: string) {
    forall i | 0 <= i < |s| :: IsDigit(s[i])
  }

  /** Decimal notation without leading zeros. */
  function Digits(n: nat): (s: string)
    ensures |s| > 0 && AllDigits(s)
  {
    if n < 10 then [Digit(n)] else Digits(n / 10) + [Digit(n % 10)]
  }

  function Decimal(n: int): string {
    if n < 0 then "-" + Digits(-n) else Digits(n)
  }

  lemma {:induction false} ValueOfDigits(n: nat)
    ensures Value(Digits(n)) == n
  {
    if n < 10 {
      assert Digits(n)[..0] == "";
    } else {
      ValueOfDigits(n / 10);
      assert Digits(n)[..|Digits(n)| - 1] == Digits(n / 10);
    }
  }

  /** Printing and reading a field are inverse to each other. */
  lemma {:induction false} ValueOfPad(n: nat, w: nat)
    requires n < Pow10(w)
    ensures Value(Pad(n, w)) == n
  {
    if w > 0 {
      ValueOfPad(n / 10, w - 1);
      assert Pad(n, w)[..w - 1] == Pad(n / 10, w - 1);
    }
  }

  // ---- hexadecimal digits ----

  function HexDigit(d: nat): char
    requires d < 16
  {
    if d < 10 then ('0' as int + d) as char else ('a' as int + d - 10) as char
  }

  /** The value of a digit in either case, or -1. */
  function HexValue(c: char): int {
    if '0' <= c <= '9' then c as int - '0' as int
    else if 'A' <= c <= 'F' then c as int - 'A' as int + 10
    else if 'a' <= c <= 'f' then c as int - 'a' as int + 10
    else -1
  }

  lemma HexDigitRoundTrip(d: nat)
    requires d < 16
    ensures HexValue(HexDigit(d)) == d
  {}

  // ---- strcmp ----

  /** strcmp as a three-way comparison; the end of a string sorts first. */
  function Strcmp(a: string, b: string): (r: int)
    ensures -1 <= r <= 1
  {
    if a == "" && b == "" then 0
    else if a == "" then -1
    else if b == "" then 1
    else if a[0] < b[0] then -1
    else if a[0] > b[0] then 1
    else Strcmp(a[1..], b[1..])
  }

  lemma {:induction false} StrcmpPrefix(p: string, a: string, b: string)
    ensures Strcmp(p + a, p + b) == Strcmp(a, b)
  {
    if p == "" {
      assert p + a == a && p + b == b;
    } else {
      assert (p + a)[1..] == p[1..] + a && (p + b)[1..] == p[1..] + b;
      StrcmpPrefix(p[1..], a, b);
    }
  }

  /** The first difference decides, whatever follows it. */
  lemma {:induction false} StrcmpExtend(a: string, b: string, x: char, y: char)
    requires |a| == |b|
    ensures Strcmp(a + [x], b + [y]) == if Strcmp(a, b) != 0 then Strcmp(a, b) else Strcmp([x], [y])
  {
    if a == "" {
      assert a + [x] == [x] && b + [y] == [y];
    } else {
      assert (a + [x])[1..] == a[1..] + [x] && (b + [y])[1..] == b[1..] + [y];
      StrcmpExtend(a[1..], b[1..], x, y);
    }
  }

  function Sign(n: int): int { if n < 0 then -1 else if n > 0 then 1 else 0 }

  /** Among equally long fields, dictionary order is numeric order. */
  lemma {:induction false} PadOrder(m: nat, n: nat, w: nat)
    requires m < Pow10(w) && n < Pow10(w)
    ensures Strcmp(Pad(m, w), Pad(n, w)) == Sign(m - n)
  {
    if w > 0 {
      PadOrder(m / 10, n / 10, w - 1);
      StrcmpExtend(Pad(m / 10, w - 1), Pad(n / 10, w - 1), Digit(m % 10), Digit(n % 10));
      LastDigitOrder(m % 10, n % 10);
    }
  }

  lemma LastDigitOrder(d: nat, e: nat)
    requires d < 10 && e < 10
    ensures Strcmp([Digit(d)], [Digit(e)]) == Sign(d - e)
  {
    assert [Digit(d)][1..] == "" && [Digit(e)][1..] == "";
  }

  /** The part of `s` in front of the first `c`. */
  function UpTo(s: string, c: char): (t: string)
    ensures |t| <= |s| && t == s[..|t|]
    ensures |t| < |s| ==> s[|t|] == c
    ensures c !in t
  {
    if s == "" || s[0] == c then "" else [s[0]] + UpTo(s[1..], c)
  }

  lemma {:induction false} UpToConcat(a: string, c: char, b: string)
    requires c !in a
    ensures UpTo(a + b, c) == a + UpTo(b, c)
  {
    if a == "" {
      assert a + b == b;
    } else {
      assert (a + b)[1..] == a[1..] + b;
      UpToConcat(a[1..], c, b);
    }
  }
}
