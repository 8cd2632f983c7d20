/**
 * Decimal text of natural numbers, as `strconv.Itoa`, `strconv.FormatInt`
 * and the `%d` verb print it, and as `strconv.Atoi` reads a string made of
 * digits only.
 */
module Decimal {
  import opened Wrappers

  predicate IsDigit(c: char) {
    '0' <= c <= '9'
  }

  predicate AllDigits(s: string) {
    forall i :: 0 <= i < |s| ==> IsDigit(s[i])
  }

  function DigitChar(d: nat): (c: char)
    requires d < 10
    ensures IsDigit(c)
  {
    ('0' as int + d) as char
  }

  function DigitValue(c: char): (d: nat)
    requires IsDigit(c)
    ensures d < 10 && DigitChar(d) == c
  {
    c as int - '0' as int
  }

  /** The shortest decimal text of `n`. */
  function Show(n: nat): (r: string)
    ensures |r| >= 1 && AllDigits(r)
    ensures |r| > 1 ==> r[0] != '0'
    ensures n < 10 <==> |r| == 1
  {
    if n < 10 then [DigitChar(n)] else Show(n / 10) + [DigitChar(n % 10)]
  }

  /** The number a non-empty string of digits denotes. */
  function Value(s: string): nat
    requires AllDigits(s)
  {
    if s == [] then 0 else Value(s[..|s| - 1]) * 10 + DigitValue(s[|s| - 1])
  }

  /** `strconv.Atoi` on text that can only hold digits: fails on the empty string. */
  function Parse(s: string): Option<nat> {
    if s != [] && AllDigits(s) then Some(Value(s)) else None
  }

  /** Reading back what `Show` printed gives the number. */
  lemma {:induction false} ParseShow(n: nat)
    ensures Parse(Show(n)) == Some(n)
  {
    var r := Show(n);
    if n >= 10 {
      ParseShow(n / 10);
      assert r[..|r| - 1] == Show(n / 10);
      assert DigitValue(r[|r| - 1]) == n % 10;
      assert Value(r) == (n / 10) * 10 + n % 10;
    }
  }

  /** `Show` is one-to-one. */
  lemma ShowInjective(m: nat, n: nat)
    requires Show(m) == Show(n)
    ensures m == n
  {
    ParseShow(m);
    ParseShow(n);
  }

  /** A single digit reads as its own value. */
  lemma ParseDigit(c: char)
    requires IsDigit(c)
    ensures Parse([c]) == Some(DigitValue(c))
  {
    assert AllDigits([c]);
    assert [c][..|[c]| - 1] == [];
    assert Value([c]) == Value([]) * 10 + DigitValue(c);
  }
}
