/**
 * The pieces of Go's `strings` and `sort` packages that the logging code
 * relies on: `strings.TrimSpace` and the byte-wise order of `sort.Strings`.
 * A Go string is a sequence of bytes; here every `char` stands for one byte,
 * so only the ASCII white-space bytes count as space.
 */
module Strings {

  /** The ASCII white space removed by `strings.TrimSpace`. */
  predicate IsSpace(c: char) {
    c == ' ' || c == '\t' || c == '\n' || c == '\r' || c == '\U{0B}' || c == '\U{0C}'
  }

  /** The index of the first non-space byte at or after `i`, or `|s|`. */
  function SkipSpace(s: string, i: nat): (r: nat)
    requires i <= |s|
    ensures i <= r <= |s|
    ensures forall k :: i <= k < r ==> IsSpace(s[k])
    ensures r == |s| || !IsSpace(s[r])
    decreases |s| - i
  {
    if i < |s| && IsSpace(s[i]) then SkipSpace(s, i + 1) else i
  }

  /** The index just past the last non-space byte before `j`, or 0. */
  function SkipSpaceBack(s: string, j: nat): (r: nat)
    requires j <= |s|
    ensures r <= j
    ensures forall k :: r <= k < j ==> IsSpace(s[k])
    ensures r == 0 || !IsSpace(s[r - 1])
  {
    if j > 0 && IsSpace(s[j - 1]) then SkipSpaceBack(s, j - 1) else j
  }

  /** The number of bytes `TrimSpace` removes at the front. */
  function LeadingSpace(s: string): nat
    ensures LeadingSpace(s) <= |s|
  {
    SkipSpace(s, 0)
  }

  /** `strings.TrimSpace`: drops the leading and the trailing white space. */
  function TrimSpace(s: string): string {
    var a := SkipSpace(s, 0);
    if a == |s| then [] else s[a..SkipSpaceBack(s, |s|)]
  }

  /**
   * `TrimSpace(s)` is the slice of `s` that starts at the first and ends at
   * the last non-space byte: everything around it is space.
   */
  lemma TrimSpaceSlice(s: string)
    ensures LeadingSpace(s) + |TrimSpace(s)| <= |s|
    ensures TrimSpace(s) == s[LeadingSpace(s)..LeadingSpace(s) + |TrimSpace(s)|]
    ensures forall i :: 0 <= i < LeadingSpace(s) ==> IsSpace(s[i])
    ensures forall i :: LeadingSpace(s) + |TrimSpace(s)| <= i < |s| ==> IsSpace(s[i])
    ensures TrimSpace(s) == [] || (!IsSpace(TrimSpace(s)[0]) && !IsSpace(TrimSpace(s)[|TrimSpace(s)| - 1]))
  {
    var a := SkipSpace(s, 0);
    if a < |s| {
      var b := SkipSpaceBack(s, |s|);
      assert TrimSpace(s) == s[a..b];
      assert s[a..b][0] == s[a] && s[a..b][b - a - 1] == s[b - 1];
    }
  }

  /** Trimming twice is trimming once. */
  lemma TrimSpaceIdempotent(s: string)
    ensures TrimSpace(TrimSpace(s)) == TrimSpace(s)
  {
    TrimSpaceSlice(s);
    var r := TrimSpace(s);
    if r != [] {
      assert SkipSpace(r, 0) == 0 && SkipSpaceBack(r, |r|) == |r|;
      assert r[0..|r|] == r;
    }
  }

  /**
   * Appending text that holds at least one non-space byte makes the trimmed
   * string strictly longer.
   */
  lemma TrimGrows(x: string, w: string, j: nat)
    requires j < |w| && !IsSpace(w[j])
    ensures |TrimSpace(x + w)| > |TrimSpace(x)|
  {
    var s := x + w;
    TrimSpaceSlice(s);
    TrimSpaceSlice(x);
    var a, r := LeadingSpace(s), TrimSpace(s);
    var a0, r0 := LeadingSpace(x), TrimSpace(x);
    assert s[|x| + j] == w[j];
    assert a <= |x| + j < a + |r|;
    if r0 != [] {
      assert x[a0] == r0[0];
      assert s[a0] == x[a0];
      assert a <= a0;
      assert a0 + |r0| <= |x|;
    }
  }

  /** Putting text in front never makes the trimmed string shorter. */
  lemma TrimKeepsSuffix(u: string, v: string)
    ensures |TrimSpace(u + v)| >= |TrimSpace(v)|
  {
    var s := u + v;
    TrimSpaceSlice(s);
    TrimSpaceSlice(v);
    var a, r := LeadingSpace(s), TrimSpace(s);
    var a0, r0 := LeadingSpace(v), TrimSpace(v);
    if r0 != [] {
      assert v[a0] == r0[0] && s[|u| + a0] == v[a0];
      assert v[a0 + |r0| - 1] == r0[|r0| - 1] && s[|u| + a0 + |r0| - 1] == v[a0 + |r0| - 1];
      assert a <= |u| + a0;
      assert |u| + a0 + |r0| - 1 < a + |r|;
    }
  }

  // ---------------------------------------------------------------------
  // Byte-wise order, as Go's `<` on strings and `sort.Strings` use it.

  /** `a < b` on Go strings: a proper prefix, or smaller at the first difference. */
  predicate Less(a: string, b: string) {
    if |a| == 0 then |b| > 0
    else if |b| == 0 then false
    else if a[0] != b[0] then a[0] < b[0]
    else Less(a[1..], b[1..])
  }

  lemma {:induction false} LessIrreflexive(a: string)
    ensures !Less(a, a)
  {
    if |a| > 0 {
      LessIrreflexive(a[1..]);
    }
  }

  lemma {:induction false} LessTransitive(a: string, b: string, c: string)
    requires Less(a, b) && Less(b, c)
    ensures Less(a, c)
  {
    if |a| > 0 && |b| > 0 && |c| > 0 && a[0] == b[0] && b[0] == c[0] {
      LessTransitive(a[1..], b[1..], c[1..]);
    }
  }

  lemma {:induction false} LessTotal(a: string, b: string)
    requires a != b
    ensures Less(a, b) || Less(b, a)
  {
    if |a| > 0 && |b| > 0 && a[0] == b[0] {
      assert a == [a[0]] + a[1..] && b == [b[0]] + b[1..];
      LessTotal(a[1..], b[1..]);
    }
  }

  lemma LessAsymmetric(a: string, b: string)
    requires Less(a, b)
    ensures !Less(b, a)
  {
    if Less(b, a) {
      LessTransitive(a, b, a);
      LessIrreflexive(a);
    }
  }

  predicate StrictlySorted(s: seq<string>) {
    forall i, j :: 0 <= i < j < |s| ==> Less(s[i], s[j])
  }

  /** Inserts `k` at its place in a strictly sorted sequence. */
  function Insert(s: seq<string>, k: string): (r: seq<string>)
    requires StrictlySorted(s) && k !in s
    ensures StrictlySorted(r)
    ensures |r| == |s| + 1
    ensures forall x :: x in r <==> x in s || x == k
  {
    if s == [] then [k]
    else if Less(k, s[0]) then
      assert forall j :: 0 < j < |s| ==> Less(k, s[j]) by {
        forall j | 0 < j < |s| ensures Less(k, s[j]) { LessTransitive(k, s[0], s[j]); }
      }
      [k] + s
    else
      LessTotal(k, s[0]);
      var t := Insert(s[1..], k);
      assert forall x :: x in t ==> Less(s[0], x);
      [s[0]] + t
  }

  /** `m` is in `s` and below every other element of `s`. */
  predicate IsLeast(m: string, s: set<string>) {
    m in s && forall x :: x in s && x != m ==> Less(m, x)
  }

  /** The least element of a non-empty finite set of strings. */
  ghost function Least(s: set<string>): (m: string)
    requires s != {}
    ensures m in s && forall x :: x in s && x != m ==> Less(m, x)
  {
    LeastExists(s);
    var m :| IsLeast(m, s);
    m
  }

  lemma {:induction false} LeastExists(s: set<string>)
    requires s != {}
    ensures exists m :: IsLeast(m, s)
    decreases |s|
  {
    var y :| y in s;
    if s == {y} {
      assert IsLeast(y, s);
    } else {
      LeastExists(s - {y});
      var m :| IsLeast(m, s - {y});
      LeastStep(s, y, m);
    }
  }

  /** Adding `y` back to a set whose least element is `m`. */
  lemma LeastStep(s: set<string>, y: string, m: string)
    requires y in s && IsLeast(m, s - {y})
    ensures IsLeast(y, s) || IsLeast(m, s)
  {
    if Less(y, m) {
      forall x | x in s && x != y ensures Less(y, x) {
        if x != m { LessTransitive(y, m, x); }
      }
      assert IsLeast(y, s);
    } else {
      LessTotal(y, m);
      assert IsLeast(m, s);
    }
  }

  /** The elements of `s` in ascending order: what `sort.Strings` makes of them. */
  ghost function SortedOf(s: set<string>): (r: seq<string>)
    ensures StrictlySorted(r) && |r| == |s|
    ensures forall x :: x in r <==> x in s
    decreases |s|
  {
    if s == {} then []
    else
      var m := Least(s);
      var t := SortedOf(s - {m});
      assert forall j :: 0 <= j < |t| ==> t[j] in s - {m};
      assert forall j :: 0 < j < |t| + 1 ==> ([m] + t)[j] == t[j - 1];
      [m] + t
  }

  /** Two strictly sorted sequences with the same elements start alike. */
  lemma SortedHeads(a: seq<string>, b: seq<string>)
    requires StrictlySorted(a) && StrictlySorted(b) && a != [] && b != []
    requires forall x :: x in a <==> x in b
    ensures a[0] == b[0]
  {
    if a[0] != b[0] {
      assert a[0] in b && b[0] in a;
      var i :| 0 <= i < |b| && b[i] == a[0];
      var j :| 0 <= j < |a| && a[j] == b[0];
      assert Less(b[0], a[0]) by { assert i > 0; }
      assert Less(a[0], b[0]) by { assert j > 0; }
      LessAsymmetric(a[0], b[0]);
    }
  }

  /** Dropping the common first element leaves the same elements. */
  lemma SortedTails(a: seq<string>, b: seq<string>, x: string)
    requires StrictlySorted(a) && StrictlySorted(b) && a != [] && b != [] && a[0] == b[0]
    requires forall y :: y in a <==> y in b
    requires x in a[1..]
    ensures x in b[1..]
  {
    LessIrreflexive(x);
    var i :| 1 <= i < |a| && a[i] == x;
    assert Less(a[0], x);
    assert x in b && x != b[0];
    var k :| 0 <= k < |b| && b[k] == x;
    assert b[1..][k - 1] == x;
  }

  /** Two strictly sorted sequences with the same elements are equal. */
  lemma {:induction false} SortedUnique(a: seq<string>, b: seq<string>)
    requires StrictlySorted(a) && StrictlySorted(b)
    requires forall x :: x in a <==> x in b
    ensures a == b
  {
    if a != [] { assert a[0] in b; }
    if b != [] { assert b[0] in a; }
    if a != [] && b != [] {
      SortedHeads(a, b);
      forall x ensures x in a[1..] <==> x in b[1..] {
        if x in a[1..] {
          SortedTails(a, b, x);
        }
        if x in b[1..] {
          SortedTails(b, a, x);
        }
      }
      SortedUnique(a[1..], b[1..]);
      assert a == [a[0]] + a[1..] && b == [b[0]] + b[1..];
    }
  }

  /**
   * Collects the keys of a map one by one, as `for k := range m` does, and
   * sorts them, as `sort.Strings` does.
   */
  method SortedKeys<V>(m: map<string, V>) returns (keys: seq<string>)
    ensures keys == SortedOf(m.Keys)
  {
    keys := [];
    var rest := m.Keys;
    while rest != {}
      invariant StrictlySorted(keys)
      invariant rest <= m.Keys
      invariant forall x :: x in keys <==> x in m.Keys - rest
      decreases |rest|
    {
      var k :| k in rest;
      keys := Insert(keys, k);
      rest := rest - {k};
    }
    SortedUnique(keys, SortedOf(m.Keys));
  }
}
