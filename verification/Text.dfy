/** Strings the program builds keys from: decimal numerals, joined fields, lower
    case, and the order in which strings compare. */
module Text {
  /** A wallet or session address, as the text it travels in. */
  type Address = string

  /** A natural number as JavaScript prints it. */
  function Decimal(n: nat): string {
    if n < 10 then ["0123456789"[n]] else Decimal(n / 10) + ["0123456789"[n % 10]]
  }

  predicate IsDigit(c: char) {
    '0' <= c <= '9'
  }

  lemma {:induction false} DecimalIsDigits(n: nat)
    ensures |Decimal(n)| >= 1
    ensures forall k :: 0 <= k < |Decimal(n)| ==> IsDigit(Decimal(n)[k])
  {
    if n >= 10 { DecimalIsDigits(n / 10); }
  }

  lemma {:induction false} DecimalInjective(a: nat, b: nat)
    requires Decimal(a) == Decimal(b)
    ensures a == b
  {
    var x, y := Decimal(a), Decimal(b);
    assert x[|x| - 1] == "0123456789"[a % 10] && y[|y| - 1] == "0123456789"[b % 10];
    assert a % 10 == b % 10;
    if a >= 10 && b >= 10 {
      assert x[..|x| - 1] == Decimal(a / 10) && y[..|y| - 1] == Decimal(b / 10);
      DecimalInjective(a / 10, b / 10);
    } else {
      DecimalIsDigits(a / 10);
      DecimalIsDigits(b / 10);
    }
  }

  /** A field that does not contain the separator is recovered from the text. */
  lemma FirstField(x: string, y: string, sep: char, xs: string, ys: string)
    requires sep !in x && sep !in y
    requires x + [sep] + xs == y + [sep] + ys
    ensures x == y && xs == ys
  {
    var s := x + [sep] + xs;
    assert s == y + [sep] + ys;
    assert s[|x|] == sep && s[|y|] == sep;
    assert forall k :: 0 <= k < |x| ==> s[k] == x[k];
    assert forall k :: 0 <= k < |y| ==> s[k] == y[k];
    assert x == s[..|x|] && y == s[..|y|];
    assert xs == s[|x| + 1..] && ys == s[|y| + 1..];
  }

  function ToLower(c: char): char {
    if 'A' <= c <= 'Z' then c + 32 as char else c
  }

  /** Lower case, for the ASCII text addresses and signatures are made of. */
  function Lower(s: string): (r: string)
    ensures |r| == |s|
  {
    seq(|s|, i requires 0 <= i < |s| => ToLower(s[i]))
  }

  /** String order, character by character; a proper prefix comes first. */
  predicate Before(a: string, b: string) {
    if b == [] then false
    else if a == [] then true
    else a[0] < b[0] || (a[0] == b[0] && Before(a[1..], b[1..]))
  }

  lemma {:induction false} BeforeIsStrict(a: string, b: string)
    ensures !(Before(a, b) && Before(b, a))
    ensures a == b <==> !Before(a, b) && !Before(b, a)
  {
    if a != [] && b != [] {
      BeforeIsStrict(a[1..], b[1..]);
      assert a == [a[0]] + a[1..] && b == [b[0]] + b[1..];
    }
  }

  lemma {:induction false} BeforeIsTransitive(a: string, b: string, c: string)
    requires Before(a, b) && Before(b, c)
    ensures Before(a, c)
  {
    if a != [] && a[0] == b[0] == c[0] {
      BeforeIsTransitive(a[1..], b[1..], c[1..]);
    }
  }

  lemma BeforeSplits(a: string, b: string, c: string)
    requires Before(a, c)
    ensures Before(a, b) || Before(b, c)
  {
    BeforeIsStrict(a, b);
    if Before(b, a) { BeforeIsTransitive(b, a, c); }
  }

  lemma {:induction false} CommonPrefix(p: string, x: string, y: string)
    ensures Before(p + x, p + y) == Before(x, y)
  {
    if p == [] {
      assert p + x == x && p + y == y;
    } else {
      assert (p + x)[1..] == p[1..] + x && (p + y)[1..] == p[1..] + y;
      CommonPrefix(p[1..], x, y);
    }
  }

  function Digit(n: nat): char
    requires n < 10
  {
    "0123456789"[n]
  }

  lemma DigitsInOrder(c: nat, d: nat, x: string, y: string)
    requires c < d < 10
    ensures Before([Digit(c)] + x, [Digit(d)] + y)
  {
  }

  lemma DecimalUnfolds(n: nat)
    ensures Decimal(n) == (if n < 10 then [] else Decimal(n / 10)) + [Digit(n % 10)]
  {
  }

  lemma LastDigit(n: nat, x: string)
    ensures |Decimal(n)| == if n < 10 then 1 else |Decimal(n / 10)| + 1
    ensures Decimal(n) + x == (if n < 10 then [] else Decimal(n / 10)) + ([Digit(n % 10)] + x)
  {
    DecimalUnfolds(n);
    hide Decimal, Digit;
  }

  /** Numerals of one length compare as their numbers do, whatever follows them. */
  lemma {:induction false} DecimalsInOrder(m: nat, n: nat, x: string, y: string)
    requires m < n && |Decimal(m)| == |Decimal(n)|
    ensures Before(Decimal(m) + x, Decimal(n) + y)
  {
    LastDigit(m, x);
    LastDigit(n, y);
    DecimalIsDigits(m / 10);
    DecimalIsDigits(n / 10);
    hide Decimal, Before, Digit;
    if n < 10 {
      DigitsInOrder(m, n, x, y);
      assert [] + ([Digit(m)] + x) == [Digit(m)] + x && [] + ([Digit(n)] + y) == [Digit(n)] + y;
    } else if m / 10 < n / 10 {
      DecimalsInOrder(m / 10, n / 10, [Digit(m % 10)] + x, [Digit(n % 10)] + y);
    } else {
      CommonPrefix(Decimal(m / 10), [Digit(m % 10)] + x, [Digit(n % 10)] + y);
      DigitsInOrder(m % 10, n % 10, x, y);
    }
  }
}
