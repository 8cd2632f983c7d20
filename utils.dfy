/** The string helpers of the logger: `divCeil` and `padStart`. */
module Utils {

  /** Go's `/` on `int`: the quotient truncated toward zero. */
  function Quo(a: int, b: int): int
    requires b != 0
  {
    var q := (if a < 0 then -a else a) / (if b < 0 then -b else b);
    if (a < 0) != (b < 0) then -q else q
  }

  /** `divCeil(x, y)`, written `(x + y - 1) / y`; Go panics when `y` is 0. */
  function DivCeil(x: int, y: int): int
    requires y != 0
  {
    Quo(x + y - 1, y)
  }

  /** For a non-negative `x` and a positive `y`, `divCeil` is the ceiling of x / y. */
  lemma DivCeilIsCeiling(x: int, y: int)
    requires x >= 0 && y > 0
    ensures DivCeil(x, y) >= 0
    ensures (DivCeil(x, y) - 1) * y < x <= DivCeil(x, y) * y
  {
    var q, r := (x + y - 1) / y, (x + y - 1) % y;
    assert x + y - 1 == q * y + r && 0 <= r < y;
    assert DivCeil(x, y) == q;
    assert q * y == x + y - 1 - r;
    assert (q - 1) * y == q * y - y;
  }

  /** `strings.Repeat(s, n)`: `n` copies of `s`. */
  function Repeat(s: string, n: nat): string {
    if n == 0 then "" else s + Repeat(s, n - 1)
  }

  lemma {:induction false} RepeatLength(s: string, n: nat)
    ensures |Repeat(s, n)| == n * |s|
  {
    if n > 0 {
      RepeatLength(s, n - 1);
    }
  }

  lemma ProductAtLeast(m: int, d: int)
    requires m > 0 && d > 0
    ensures m * d >= m
  {
  }

  lemma Distribute(x: int, y: int, z: int, b: int)
    ensures (x * y + z) * b == x * (y * b) + z * b
  {
  }

  lemma MulBound(r: int, c: int, b: int)
    requires 0 <= r < c && b > 0
    ensures 0 <= r * b <= c * b - b
  {
    if r > 0 {
      ProductAtLeast(b, c - r);
      assert (c - r) * b == c * b - r * b;
      ProductAtLeast(b, r);
    }
  }

  /** The quotient is the only `q` that leaves a remainder in `0..m-1`. */
  lemma DivUnique(a: int, m: int, q: int, r: int)
    requires m > 0 && a == q * m + r && 0 <= r < m
    ensures a / m == q
  {
    var q2, r2 := a / m, a % m;
    assert a == q2 * m + r2;
    var d := q - q2;
    assert d * m == r2 - r;
    if d > 0 {
      ProductAtLeast(m, d);
    } else if d < 0 {
      ProductAtLeast(m, -d);
    }
  }

  /** Dividing a non-negative number twice is dividing it once by the product. */
  lemma DivDiv(a: int, b: int, c: int)
    requires a >= 0 && b > 0 && c > 0
    ensures (a / b) / c == a / (b * c)
  {
    var q, r := a / b, a % b;
    var q2, r2 := q / c, q % c;
    Distribute(q2, c, r2, b);
    MulBound(r2, c, b);
    assert c * b == b * c;
    DivUnique(a, b * c, q2, r2 * b + r);
  }

  /** Taking one period off an index leaves its remainder unchanged. */
  lemma ModSub(i: int, m: int)
    requires i >= m > 0
    ensures (i - m) % m == i % m
  {
    var q, r := (i - m) / m, (i - m) % m;
    var q2, r2 := i / m, i % m;
    assert i - m == q * m + r;
    assert i == q2 * m + r2;
    var d := q + 1 - q2;
    assert d * m == r2 - r;
    if d > 0 {
      ProductAtLeast(m, d);
    } else if d < 0 {
      ProductAtLeast(m, -d);
    }
  }

  /** The copies line up: position `i` of the repetition holds `s[i % |s|]`. */
  lemma {:induction false} RepeatAt(s: string, n: nat, i: int)
    requires s != "" && 0 <= i < |Repeat(s, n)|
    ensures Repeat(s, n)[i] == s[i % |s|]
  {
    if i >= |s| {
      RepeatAt(s, n - 1, i - |s|);
      ModSub(i, |s|);
    }
  }

  /**
   * `padStart(s, l, fill)`: `s` unchanged when it is already `l` bytes long
   * or `fill` is empty, and otherwise `s` preceded by as much of `fill`,
   * repeated, as makes the result exactly `l` bytes long.
   */
  function PadStart(s: string, l: int, fill: string): (r: string)
    ensures l <= |s| || fill == "" ==> r == s
    ensures !(l <= |s| || fill == "") ==> |r| == l
    ensures |r| >= |s| && r[|r| - |s|..] == s
    ensures forall i :: 0 <= i < |r| - |s| ==> r[i] == fill[i % |fill|]
  {
    if l <= |s| || fill == "" then s
    else
      var fillLen := l - |s|;
      DivCeilIsCeiling(fillLen, |fill|);
      var count := DivCeil(fillLen, |fill|);
      RepeatLength(fill, count);
      var filler := Repeat(fill, count);
      var cut := if |filler| > fillLen then filler[..fillLen] else filler;
      assert forall i :: 0 <= i < |cut| ==> cut[i] == fill[i % |fill|] by {
        forall i | 0 <= i < |cut| ensures cut[i] == fill[i % |fill|] {
          RepeatAt(fill, count, i);
        }
      }
      cut + s
  }
}
