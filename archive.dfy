/**
 * Archive names of the file transporter. `regexName` is `(.+).(\d+).gz`:
 * unanchored, with unescaped dots that match any byte but a line break,
 * and a greedy first group. `FindStringSubmatch` reports the leftmost
 * match and, among the matches that start there, the one a backtracking
 * matcher finds first: the longest first group, then the longest second
 * group.
 */
module Archives {
  import opened Wrappers
  import opened Strings
  import Decimal

  /**
   * The pattern matches `s[start..end + 3]` with group 1 = `s[start..split]`
   * and group 2 = `s[split + 1..end]`: every byte up to `end` is not a
   * line break, the bytes between `split` and `end` are digits, and "gz"
   * follows the byte at `end`.
   */
  predicate Matches(s: string, start: int, split: int, end: int) {
    && 0 <= start < split && split + 1 < end && end + 3 <= |s|
    && (forall k :: start <= k <= end ==> s[k] != '\n')
    && (forall k :: split < k < end ==> Decimal.IsDigit(s[k]))
    && s[end + 1] == 'g' && s[end + 2] == 'z'
  }

  /** A match whose second group is the single digit at `split + 1`. */
  predicate SplitAt(s: string, start: int, split: int) {
    Matches(s, start, split, split + 2)
  }

  /** The match leftmost-first semantics selects. */
  ghost predicate LeftmostFirst(s: string, start: int, split: int, end: int) {
    && Matches(s, start, split, end)
    && (forall st, a, b :: 0 <= st < start ==> !Matches(s, st, a, b))
    && (forall a, b :: split < a ==> !Matches(s, start, a, b))
    && (forall b :: end < b ==> !Matches(s, start, split, b))
  }

  /** A match can always give its second group away to the first but for the last digit. */
  lemma ShiftSplit(s: string, start: int, split: int, end: int)
    requires Matches(s, start, split, end)
    ensures SplitAt(s, start, end - 2)
  {
  }

  /**
   * The greedy first group leaves the second group one digit: `\d+`
   * captures only the digit just before the byte that precedes "gz".
   */
  lemma OneDigitIndex(s: string, start: int, split: int, end: int)
    requires LeftmostFirst(s, start, split, end)
    ensures end == split + 2
  {
    if end > split + 2 {
      assert Matches(s, start, split + 1, end);
    }
  }

  /** At most one match is the leftmost-first one. */
  lemma LeftmostFirstUnique(s: string, st1: int, a1: int, b1: int, st2: int, a2: int, b2: int)
    requires LeftmostFirst(s, st1, a1, b1) && LeftmostFirst(s, st2, a2, b2)
    ensures st1 == st2 && a1 == a2 && b1 == b2
  {
  }

  datatype Span = Span(start: nat, split: nat, end: nat)

  /** The largest `split` in `start + 1..a` at which a match with a one-digit second group ends. */
  function SearchSplit(s: string, start: nat, a: int): Option<nat>
    decreases a - start
  {
    if a <= start then None
    else if SplitAt(s, start, a) then Some(a)
    else SearchSplit(s, start, a - 1)
  }

  /** `SearchSplit` finds the largest such `split`, or reports that there is none. */
  lemma {:induction false} SearchSplitCorrect(s: string, start: nat, a: int)
    decreases a - start
    ensures var r := SearchSplit(s, start, a);
      && (r.Some? ==> start < r.value <= a && SplitAt(s, start, r.value))
      && (r.Some? ==> forall x :: r.value < x <= a ==> !SplitAt(s, start, x))
      && (r.None? ==> forall x :: start < x <= a ==> !SplitAt(s, start, x))
  {
    if a > start && !SplitAt(s, start, a) {
      SearchSplitCorrect(s, start, a - 1);
    }
  }

  /** The leftmost-first match at or after `start`. */
  function FindFrom(s: string, start: nat): Option<Span>
    decreases |s| - start
  {
    if start >= |s| then None
    else
      match SearchSplit(s, start, |s|)
      case Some(a) => Some(Span(start, a, a + 2))
      case None => FindFrom(s, start + 1)
  }

  /** `FindFrom` returns the leftmost-first match among those starting at `start` or later. */
  lemma {:induction false} FindFromCorrect(s: string, start: nat)
    decreases |s| - start
    ensures var r := FindFrom(s, start);
      && (r.Some? ==> start <= r.value.start && Matches(s, r.value.start, r.value.split, r.value.end))
      && (r.Some? ==> forall st, a, b :: start <= st < r.value.start ==> !Matches(s, st, a, b))
      && (r.Some? ==> forall a, b :: r.value.split < a ==> !Matches(s, r.value.start, a, b))
      && (r.Some? ==> forall b :: r.value.end < b ==> !Matches(s, r.value.start, r.value.split, b))
      && (r.None? ==> forall st, a, b :: start <= st ==> !Matches(s, st, a, b))
  {
    if start < |s| {
      SearchSplitCorrect(s, start, |s|);
      match SearchSplit(s, start, |s|)
      case Some(a) =>
        forall a', b | a < a' && Matches(s, start, a', b) ensures false {
          ShiftSplit(s, start, a', b);
        }
        forall b | a + 2 < b && Matches(s, start, a, b) ensures false {
          ShiftSplit(s, start, a, b);
        }
      case None =>
        forall a, b | Matches(s, start, a, b) ensures false {
          ShiftSplit(s, start, a, b);
        }
        FindFromCorrect(s, start + 1);
    }
  }

  /** `regexName.FindStringSubmatch`: the leftmost-first match, if any. */
  function FindMatch(s: string): Option<Span> {
    FindFrom(s, 0)
  }

  /** `FindMatch` returns the match leftmost-first semantics selects, and none only when nothing matches. */
  lemma FindMatchCorrect(s: string)
    ensures FindMatch(s).Some? ==> LeftmostFirst(s, FindMatch(s).value.start, FindMatch(s).value.split, FindMatch(s).value.end)
    ensures FindMatch(s).None? ==> forall st, a, b :: !Matches(s, st, a, b)
  {
    FindFromCorrect(s, 0);
  }

  /** The two groups of the match, when there is one; the second is a single digit. */
  function Groups(s: string): (r: Option<(string, string)>)
    ensures r.Some? ==> |r.value.1| == 1 && Decimal.IsDigit(r.value.1[0])
  {
    match FindMatch(s)
    case None => None
    case Some(sp) =>
      FindMatchCorrect(s);
      OneDigitIndex(s, sp.start, sp.split, sp.end);
      Some((s[sp.start..sp.split], s[sp.split + 1..sp.end]))
  }

  /**
   * The archive index `rotateArchives` reads from a directory entry: none
   * when the name does not match, when the trimmed first group is not
   * `prefix`, or when the second group is not a number.
   */
  function ArchiveIndex(name: string, prefix: string): (r: Option<nat>)
    ensures r.Some? ==> r.value <= 9
  {
    match Groups(name)
    case None => None
    case Some(g) =>
      if TrimSpace(g.0) != prefix then None
      else
        Decimal.ParseDigit(g.1[0]);
        assert g.1 == [g.1[0]];
        Decimal.Parse(g.1)
  }

  /** The text after the prefix in an archive name: ".", the index in decimal, ".gz". */
  function Extension(index: nat): string {
    "." + Decimal.Show(index) + ".gz"
  }

  /** `fmt.Sprintf("%s.%d.gz", prefix, index)`. */
  function ArchiveName(prefix: string, index: nat): string {
    prefix + Extension(index)
  }

  /** Different indexes give different names. */
  lemma ArchiveNameInjective(prefix: string, j: nat, k: nat)
    requires ArchiveName(prefix, j) == ArchiveName(prefix, k)
    ensures j == k
  {
    var x, y := ArchiveName(prefix, j), ArchiveName(prefix, k);
    assert |Decimal.Show(j)| == |Decimal.Show(k)|;
    assert Decimal.Show(j) == x[|prefix| + 1..|x| - 3];
    assert Decimal.Show(k) == y[|prefix| + 1..|y| - 3];
    Decimal.ShowInjective(j, k);
  }

  /** A live-file prefix the rotation can work with. */
  predicate PlainPrefix(p: string) {
    p != "" && '\n' !in p && TrimSpace(p) == p
  }

  /** A name whose last five bytes can close a match starting at 0 gets the match ending there. */
  lemma MatchAtEnd(s: string)
    requires Matches(s, 0, |s| - 5, |s| - 3)
    ensures FindMatch(s) == Some(Span(0, |s| - 5, |s| - 3))
  {
    var r := FindMatch(s);
    FindMatchCorrect(s);
    assert LeftmostFirst(s, 0, |s| - 5, |s| - 3);
    LeftmostFirstUnique(s, r.value.start, r.value.split, r.value.end, 0, |s| - 5, |s| - 3);
  }

  lemma ArchiveNameMatches(prefix: string, index: nat)
    requires PlainPrefix(prefix)
    ensures var s := ArchiveName(prefix, index);
      FindMatch(s) == Some(Span(0, |s| - 5, |s| - 3))
  {
    var d := Decimal.Show(index);
    var s := ArchiveName(prefix, index);
    assert s[|s| - 4] == d[|d| - 1];
    forall k | 0 <= k <= |s| - 3 ensures s[k] != '\n' {
      if k < |prefix| {
        assert s[k] == prefix[k];
      } else if k == |prefix| {
        assert s[k] == '.';
      } else if k < |prefix| + 1 + |d| {
        assert s[k] == d[k - |prefix| - 1];
      }
    }
    MatchAtEnd(s);
  }

  /** The names the rotation writes are read back with their index, for one-digit indexes. */
  lemma ArchiveIndexOfName(prefix: string, index: nat)
    requires PlainPrefix(prefix) && index <= 9
    ensures ArchiveIndex(ArchiveName(prefix, index), prefix) == Some(index)
  {
    var s := ArchiveName(prefix, index);
    ArchiveNameMatches(prefix, index);
    assert s[..|s| - 5] == prefix;
    assert s[|s| - 4..|s| - 3] == Decimal.Show(index);
    Decimal.ParseShow(index);
  }

  /**
   * From index 10 on, the first group takes all digits but the last two,
   * the unescaped dot the one before the last, and the second group the
   * last digit, so the name no longer counts as an archive of `prefix`:
   * for example "test.log.10.gz" has first group "test.log." and index 0.
   */
  lemma LongIndexIgnored(prefix: string, index: nat)
    requires PlainPrefix(prefix) && index >= 10
    ensures ArchiveIndex(ArchiveName(prefix, index), prefix) == None
  {
    var s := ArchiveName(prefix, index);
    var d := Decimal.Show(index);
    ArchiveNameMatches(prefix, index);
    var w := "." + d[..|d| - 2];
    var v := d[|d| - 2..] + ".gz";
    assert d == d[..|d| - 2] + d[|d| - 2..];
    assert s == (prefix + w) + v;
    assert s[..|s| - 5] == prefix + w;
    TrimGrows(prefix, w, 0);
  }

  /** The empty prefix never matches ".1.gz": nothing ever moves it away. */
  lemma EmptyPrefixArchiveStays()
    ensures ArchiveName("", 1) == ".1.gz"
    ensures FindMatch(".1.gz") == None
  {
    FindMatchCorrect(".1.gz");
  }

  /**
   * A directory entry is an archive of `prefix` only when it is at least
   * five bytes longer than the trimmed first group.
   */
  lemma ArchiveRoom(name: string, prefix: string)
    requires ArchiveIndex(name, prefix).Some?
    ensures exists st, a, b :: LeftmostFirst(name, st, a, b) && TrimSpace(name[st..a]) == prefix && a + 5 <= |name|
  {
    var sp := FindMatch(name).value;
    FindMatchCorrect(name);
    OneDigitIndex(name, sp.start, sp.split, sp.end);
  }

  /**
   * A first group that ends at least five bytes before the end of `s`,
   * with a non-space byte after it, trims to something shorter than `s`
   * does.
   */
  lemma GroupTrimsShorter(s: string, start: nat, split: nat)
    requires start <= split && split + 5 <= |s| && !IsSpace(s[split + 4])
    ensures |TrimSpace(s[start..split])| < |TrimSpace(s)|
  {
    var g, tail := s[start..split], s[split..];
    var u, v := s[..start], s[start..];
    assert tail[4] == s[split + 4];
    TrimGrows(g, tail, 4);
    SplitJoin(s, start);
    SplitJoin(v, split - start);
    TrimKeepsSuffix(u, v);
  }

  lemma SplitJoin(s: string, i: nat)
    requires i <= |s|
    ensures s[..i] + s[i..] == s
  {
  }

  /** The live file is never taken for one of its own archives. */
  lemma LiveNotArchive(base: string)
    ensures ArchiveIndex(base, TrimSpace(base)) == None
  {
    match FindMatch(base)
    case None =>
    case Some(sp) =>
      FindMatchCorrect(base);
      OneDigitIndex(base, sp.start, sp.split, sp.end);
      GroupTrimsShorter(base, sp.start, sp.split);
  }

  /** A trimmed name followed by text with a non-space byte is never the untrimmed name. */
  lemma TrimmedNotExtended(base: string, w: string, j: nat)
    requires j < |w| && !IsSpace(w[j])
    ensures TrimSpace(base) + w != base
  {
    var p := TrimSpace(base);
    if p + w == base {
      TrimGrows(p, w, j);
      TrimSpaceIdempotent(base);
    }
  }

  /** No archive name is the live file's own name. */
  lemma ArchiveNameNotLive(base: string, index: nat)
    ensures ArchiveName(TrimSpace(base), index) != base
  {
    var p := TrimSpace(base);
    TrimmedNotExtended(base, Extension(index), 0);
  }
}
