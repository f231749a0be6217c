/** Strings compared the way SQLite's BINARY collation compares them, and
    fixed-width decimal numerals. Shared by the timestamp printer and by the
    sorted identities of the evidence fabric. */
module TextOrder {
  predicate Less(a: string, b: string) {
    |b| > 0 && (|a| == 0 || a[0] < b[0] || (a[0] == b[0] && Less(a[1..], b[1..])))
  }

  lemma {:induction false} LessIsTotal(a: string, b: string)
    ensures a == b || Less(a, b) || Less(b, a)
    ensures !(Less(a, b) && Less(b, a)) && !Less(a, a)
  {
    if a != [] && b != [] && a[0] == b[0] {
      LessIsTotal(a[1..], b[1..]);
      assert a == [a[0]] + a[1..] && b == [b[0]] + b[1..];
      LessIsTotal(a[1..], a[1..]);
    } else if a != [] {
      LessIsTotal(a[1..], a[1..]);
    }
  }

  lemma {:induction false} LessIsTransitive(a: string, b: string, c: string)
    requires Less(a, b) && Less(b, c)
    ensures Less(a, c)
  {
    if a != [] && a[0] == b[0] && b[0] == c[0] {
      LessIsTransitive(a[1..], b[1..], c[1..]);
    }
  }

  /** Equal-width prefixes decide first. */
  lemma {:induction false} LessByPrefix(a: string, b: string, c: string, d: string)
    requires |a| == |c|
    ensures Less(a + b, c + d) <==> Less(a, c) || (a == c && Less(b, d))
  {
    if a == [] {
      assert a + b == b && c + d == d;
    } else {
      LessByPrefix(a[1..], b, c[1..], d);
      assert (a + b)[1..] == a[1..] + b && (c + d)[1..] == c[1..] + d;
      assert a == [a[0]] + a[1..] && c == [c[0]] + c[1..];
    }
  }

  function DigitChar(d: nat): (c: char)
    requires d < 10
  {
    ('0' as int + d) as char
  }

  function CharDigit(c: char): (d: nat)
    requires '0' <= c <= '9'
    ensures d < 10
  {
    c as int - '0' as int
  }

  predicate AllDigits(s: string) {
    forall i :: 0 <= i < |s| ==> '0' <= s[i] <= '9'
  }

  function Pow10(w: nat): (p: nat)
    ensures p >= 1
  {
    if w == 0 then 1 else 10 * Pow10(w - 1)
  }

  /** `n` zero-padded to `w` digits. */
  function Digits(n: nat, w: nat): (s: string)
    requires n < Pow10(w)
    ensures |s| == w && AllDigits(s)
  {
    if w == 0 then "" else Digits(n / 10, w - 1) + [DigitChar(n % 10)]
  }

  function DigitsValue(s: string): (n: nat)
    requires AllDigits(s)
    ensures n < Pow10(|s|)
  {
    if s == "" then 0 else 10 * DigitsValue(s[..|s| - 1]) + CharDigit(s[|s| - 1])
  }

  lemma {:induction false} DigitsRoundTrip(n: nat, w: nat)
    requires n < Pow10(w)
    ensures DigitsValue(Digits(n, w)) == n
  {
    if w > 0 {
      var front := Digits(n / 10, w - 1);
      DigitsRoundTrip(n / 10, w - 1);
      assert Digits(n, w)[..w - 1] == front;
    }
  }

  /** Zero padding makes the text order the number order. */
  lemma {:induction false} DigitsKeepOrder(n: nat, m: nat, w: nat)
    requires n < Pow10(w) && m < Pow10(w)
    ensures n < m <==> Less(Digits(n, w), Digits(m, w))
  {
    if w > 0 {
      LastDigit(n / 10, n % 10, m / 10, m % 10, w);
      DigitsKeepOrder(n / 10, m / 10, w - 1);
    }
  }

  lemma LastDigit(hn: nat, a: nat, hm: nat, b: nat, w: nat)
    requires w > 0 && a < 10 && b < 10 && hn < Pow10(w - 1) && hm < Pow10(w - 1)
    ensures Less(Digits(hn, w - 1) + [DigitChar(a)], Digits(hm, w - 1) + [DigitChar(b)])
       <==> Less(Digits(hn, w - 1), Digits(hm, w - 1)) || (hn == hm && a < b)
  {
    hide Pow10, Digits, DigitsValue;
    DigitsRoundTrip(hn, w - 1);
    DigitsRoundTrip(hm, w - 1);
    LessByPrefix(Digits(hn, w - 1), [DigitChar(a)], Digits(hm, w - 1), [DigitChar(b)]);
    assert Less([DigitChar(a)], [DigitChar(b)]) <==> a < b;
  }
}
