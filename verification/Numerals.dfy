/** Decimal numerals as `std::to_string` writes them. They name directories, work files
    and numbered candidates, so two different numbers must never render alike. */
module Numerals {

  function Digit(d: nat): char
    requires d < 10
  {
    ('0' as int + d) as char
  }

  function Decimal(n: nat): string {
    if n < 10 then [Digit(n)] else Decimal(n / 10) + [Digit(n % 10)]
  }

  predicate IsDigit(c: char) {
    '0' <= c <= '9'
  }

  /** The number a string of digits denotes. */
  function Denoted(s: string): int
    requires forall c <- s :: IsDigit(c)
  {
    if s == [] then 0
    else Denoted(s[..|s| - 1]) * 10 + (s[|s| - 1] as int - '0' as int)
  }

  lemma {:induction false} DecimalDenotes(n: nat)
    ensures Decimal(n) != [] && forall c <- Decimal(n) :: IsDigit(c)
    ensures Denoted(Decimal(n)) == n
    ensures |Decimal(n)| > 1 ==> Decimal(n)[0] != '0'
  {
    if n >= 10 {
      DecimalDenotes(n / 10);
      assert Decimal(n)[..|Decimal(n)| - 1] == Decimal(n / 10);
    } else {
      assert Decimal(n)[..0] == [];
    }
  }

  lemma DecimalInjective(a: nat, b: nat)
    requires Decimal(a) == Decimal(b)
    ensures a == b
  {
    DecimalDenotes(a);
    DecimalDenotes(b);
  }

  function FirstIndex(s: string, c: char): nat {
    if s == [] || s[0] == c then 0 else 1 + FirstIndex(s[1..], c)
  }

  lemma {:induction false} FirstIndexAfter(p: string, x: string, sep: char)
    requires sep !in p
    ensures FirstIndex(p + [sep] + x, sep) == |p|
  {
    if p == [] {
      assert (p + [sep] + x)[0] == sep;
    } else {
      FirstIndexAfter(p[1..], x, sep);
      assert (p + [sep] + x)[1..] == p[1..] + [sep] + x;
    }
  }

  /** A separator that occurs in neither left part splits a string in one way only. */
  lemma SplitUnique(p: string, x: string, q: string, y: string, sep: char)
    requires sep !in p && sep !in q
    requires p + [sep] + x == q + [sep] + y
    ensures p == q && x == y
  {
    FirstIndexAfter(p, x, sep);
    FirstIndexAfter(q, y, sep);
    assert (p + [sep] + x)[..|p|] == p && (q + [sep] + y)[..|q|] == q;
    assert (p + [sep] + x)[|p| + 1..] == x && (q + [sep] + y)[|q| + 1..] == y;
  }
}
