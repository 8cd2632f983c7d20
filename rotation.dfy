/**
 * Archive rotation of the file transporter, on values. A directory is a
 * map from file name to the lines the file holds; gzip is the identity.
 * `Classify` is what `rotateArchives` decides for one directory entry,
 * `Doomed` and `Plan` what it decides for a whole listing, and
 * `RenamedAtOnce` the contract of `renameAll`, which applies the whole
 * rename map at once. The second half follows a directory in the layout
 * the transporter keeps (the live file and its archives `.1.gz`,
 * `.2.gz`, ...) through writes and rotations.
 */
module Rotation {
  import opened Wrappers
  import opened Strings
  import opened Archives

  type Files = map<string, seq<string>>

  /** What `rotateArchives` does with one directory entry. */
  datatype Action = Keep | Delete | Move(target: string)

  function Classify(name: string, prefix: string, rotations: int): Action {
    match ArchiveIndex(name, prefix)
    case None => Keep
    case Some(index) =>
      if rotations > 0 && index + 1 >= rotations then Delete
      else Move(ArchiveName(prefix, index + 1))
  }

  /** The entries `rotateArchives` removes. */
  function Doomed(names: set<string>, prefix: string, rotations: int): set<string> {
    set n | n in names && Classify(n, prefix, rotations).Delete?
  }

  /** The rename map `rotateArchives` hands to `renameAll`. */
  function Plan(names: set<string>, prefix: string, rotations: int): map<string, string> {
    map n | n in names && Classify(n, prefix, rotations).Move? :: Classify(n, prefix, rotations).target
  }

  /**
   * `renameAll(renames)` succeeded: every source is gone unless it is also
   * a target, every target holds what one of its sources held, and every
   * other file is as it was. When several sources share a target, one of
   * them wins; which one is not fixed.
   */
  ghost predicate RenamedAtOnce(before: Files, renames: map<string, string>, after: Files) {
    && renames.Keys <= before.Keys
    && after.Keys == (before.Keys - renames.Keys) + renames.Values
    && (forall n :: n in after && n !in renames.Values ==> after[n] == before[n])
    && (forall n :: n in after && n in renames.Values ==>
          exists src :: src in renames && renames[src] == n && after[n] == before[src])
  }

  /** Total byte length of a file's lines. */
  function Bytes(lines: seq<string>): nat {
    if lines == [] then 0 else Bytes(lines[..|lines| - 1]) + |lines[|lines| - 1]|
  }

  // ---------------------------------------------------------------------
  // What one pass decides.

  /** With no rotation limit nothing is deleted: every archive of the prefix is shifted. */
  lemma UnlimitedKeepsAll(names: set<string>, prefix: string, rotations: int)
    requires rotations <= 0
    ensures Doomed(names, prefix, rotations) == {}
    ensures forall n :: n in names ==> (n in Plan(names, prefix, rotations) <==> ArchiveIndex(n, prefix).Some?)
  {
  }

  /**
   * Every entry is deleted, shifted or left alone according to its archive
   * index: an archive with index `i` is deleted exactly when the limit is
   * set and `i + 1` reaches it, and otherwise moves to index `i + 1`; an
   * entry that is no archive of the prefix is neither.
   */
  lemma PlanByIndex(names: set<string>, prefix: string, rotations: int, n: string)
    requires n in names
    ensures ArchiveIndex(n, prefix).None? ==>
      n !in Doomed(names, prefix, rotations) && n !in Plan(names, prefix, rotations)
    ensures ArchiveIndex(n, prefix).Some? ==>
      var i := ArchiveIndex(n, prefix).value;
      && (n in Doomed(names, prefix, rotations) <==> rotations > 0 && i + 1 >= rotations)
      && (n in Plan(names, prefix, rotations) <==> !(rotations > 0 && i + 1 >= rotations))
      && (n in Plan(names, prefix, rotations) ==> Plan(names, prefix, rotations)[n] == ArchiveName(prefix, i + 1))
  {
  }

  /** The live file is never deleted, moved or overwritten by a pass. */
  lemma LiveUntouched(names: set<string>, base: string, rotations: int)
    ensures var p := TrimSpace(base);
      && base !in Doomed(names, p, rotations)
      && base !in Plan(names, p, rotations)
      && base !in Plan(names, p, rotations).Values
  {
    var p := TrimSpace(base);
    LiveNotArchive(base);
    forall n | n in Plan(names, p, rotations) ensures Plan(names, p, rotations)[n] != base {
      ArchiveNameNotLive(base, ArchiveIndex(n, p).value + 1);
    }
  }

  /**
   * How much work is left for the loop in `rotate`: 2 if an archive with
   * index 0 exists, plus 1 if `<prefix>.1.gz` exists.
   */
  ghost function Measure(files: Files, prefix: string): nat {
    (if exists n :: n in files && ArchiveIndex(n, prefix) == Some(0) then 2 else 0)
    + (if ArchiveName(prefix, 1) in files then 1 else 0)
  }

  /** An entry a pass neither deletes nor moves is no archive of the prefix. */
  lemma KeptIsNoArchive(names: set<string>, prefix: string, rotations: int, n: string)
    requires n in names && n !in Doomed(names, prefix, rotations) && n !in Plan(names, prefix, rotations)
    ensures ArchiveIndex(n, prefix).None?
  {
    PlanByIndex(names, prefix, rotations, n);
  }

  /** Where a file found after a pass comes from. */
  lemma AfterPass(before: Files, prefix: string, rotations: int, after: Files, n: string)
    requires RenamedAtOnce(before - Doomed(before.Keys, prefix, rotations), Plan(before.Keys, prefix, rotations), after)
    requires n in after
    ensures n in Plan(before.Keys, prefix, rotations).Values || ArchiveIndex(n, prefix).None?
    ensures n !in Plan(before.Keys, prefix, rotations).Values ==> n in before && after[n] == before[n]
  {
    var doomed, plan := Doomed(before.Keys, prefix, rotations), Plan(before.Keys, prefix, rotations);
    if n !in plan.Values {
      assert n in (before - doomed).Keys - plan.Keys;
      KeptIsNoArchive(before.Keys, prefix, rotations, n);
    }
  }

  /** A target of a pass is an archive name with index 1 to 10. */
  lemma TargetIndex(names: set<string>, prefix: string, rotations: int, t: string)
    requires t in Plan(names, prefix, rotations).Values
    ensures exists k :: 1 <= k <= 10 && t == ArchiveName(prefix, k)
  {
    var plan := Plan(names, prefix, rotations);
    var src :| src in plan && plan[src] == t;
    PlanByIndex(names, prefix, rotations, src);
  }

  /** No archive with index 0 survives a pass. */
  lemma NoIndexZeroAfter(before: Files, prefix: string, rotations: int, after: Files, n: string)
    requires PlainPrefix(prefix)
    requires RenamedAtOnce(before - Doomed(before.Keys, prefix, rotations), Plan(before.Keys, prefix, rotations), after)
    requires n in after
    ensures ArchiveIndex(n, prefix) != Some(0)
  {
    AfterPass(before, prefix, rotations, after, n);
    if n in Plan(before.Keys, prefix, rotations).Values {
      TargetIndex(before.Keys, prefix, rotations, n);
      var k :| 1 <= k <= 10 && n == ArchiveName(prefix, k);
      if k <= 9 {
        ArchiveIndexOfName(prefix, k);
      } else {
        LongIndexIgnored(prefix, k);
      }
    }
  }

  /**
   * After a pass, `<prefix>.1.gz` exists only if it was the target of an
   * archive with index 0.
   */
  lemma FirstArchiveAfter(before: Files, prefix: string, rotations: int, after: Files)
    requires PlainPrefix(prefix)
    requires RenamedAtOnce(before - Doomed(before.Keys, prefix, rotations), Plan(before.Keys, prefix, rotations), after)
    requires ArchiveName(prefix, 1) in after
    ensures exists n :: n in before && ArchiveIndex(n, prefix) == Some(0)
  {
    var first := ArchiveName(prefix, 1);
    var plan := Plan(before.Keys, prefix, rotations);
    ArchiveIndexOfName(prefix, 1);
    AfterPass(before, prefix, rotations, after, first);
    var src :| src in plan && plan[src] == first;
    PlanByIndex(before.Keys, prefix, rotations, src);
    ArchiveNameInjective(prefix, ArchiveIndex(src, prefix).value + 1, 1);
  }

  /**
   * A successful pass started because `<prefix>.1.gz` exists leaves less
   * work: the loop of `rotate` ends for a plain prefix.
   */
  lemma PassShrinks(before: Files, prefix: string, rotations: int, after: Files)
    requires PlainPrefix(prefix) && ArchiveName(prefix, 1) in before
    requires RenamedAtOnce(before - Doomed(before.Keys, prefix, rotations), Plan(before.Keys, prefix, rotations), after)
    ensures Measure(after, prefix) < Measure(before, prefix)
  {
    forall n | n in after ensures ArchiveIndex(n, prefix) != Some(0) {
      NoIndexZeroAfter(before, prefix, rotations, after, n);
    }
    if ArchiveName(prefix, 1) in after {
      FirstArchiveAfter(before, prefix, rotations, after);
    }
  }

  /**
   * As written, a pass with no rotation limit renames `.9.gz` onto
   * `.10.gz`, which no longer reads as an archive: whatever `.10.gz` held
   * is gone, and the tenth archive is overwritten on every later pass.
   */
  lemma TenthArchiveOverwritten(prefix: string, x: seq<string>, y: seq<string>, after: Files)
    requires PlainPrefix(prefix)
    requires var names := {ArchiveName(prefix, 9), ArchiveName(prefix, 10)};
      var before := map[ArchiveName(prefix, 9) := x, ArchiveName(prefix, 10) := y];
      RenamedAtOnce(before - Doomed(names, prefix, 0), Plan(names, prefix, 0), after)
    ensures after == map[ArchiveName(prefix, 10) := x]
  {
    NineOntoTen(prefix);
    PassOnto(prefix, ArchiveName(prefix, 9), ArchiveName(prefix, 10), x, y, after);
  }

  /** A pass that renames `a` onto `b` leaves `b` alone, holding what `a` held. */
  lemma PassOnto(prefix: string, a: string, b: string, x: seq<string>, y: seq<string>, after: Files)
    requires a != b && Plan({a, b}, prefix, 0) == map[a := b]
    requires RenamedAtOnce(map[a := x, b := y] - Doomed({a, b}, prefix, 0), Plan({a, b}, prefix, 0), after)
    ensures after == map[b := x]
  {
    UnlimitedKeepsAll({a, b}, prefix, 0);
    assert map[a := x, b := y] - {} == map[a := x, b := y];
    RenameOnto(a, b, x, y, after);
  }

  /** Renaming `a` onto `b` leaves `b` alone, holding what `a` held. */
  lemma RenameOnto(a: string, b: string, x: seq<string>, y: seq<string>, after: Files)
    requires a != b && RenamedAtOnce(map[a := x, b := y], map[a := b], after)
    ensures after == map[b := x]
  {
    assert after.Keys == {b};
    var src :| src in map[a := b] && map[a := b][src] == b && after[b] == map[a := x, b := y][src];
    assert src == a;
  }

  /** Without a limit, a pass over `.9.gz` and `.10.gz` renames the first onto the second. */
  lemma NineOntoTen(prefix: string)
    requires PlainPrefix(prefix)
    ensures ArchiveName(prefix, 9) != ArchiveName(prefix, 10)
    ensures Plan({ArchiveName(prefix, 9), ArchiveName(prefix, 10)}, prefix, 0) == map[ArchiveName(prefix, 9) := ArchiveName(prefix, 10)]
  {
    ArchiveIndexOfName(prefix, 9);
    LongIndexIgnored(prefix, 10);
    OntoUnread(prefix, ArchiveName(prefix, 9), ArchiveName(prefix, 10));
  }

  lemma OntoUnread(prefix: string, a: string, b: string)
    requires ArchiveIndex(a, prefix) == Some(9) && ArchiveIndex(b, prefix).None? && b == ArchiveName(prefix, 10)
    ensures Plan({a, b}, prefix, 0) == map[a := b]
  {
    var plan := Plan({a, b}, prefix, 0);
    assert Classify(a, prefix, 0) == Move(b);
    assert Classify(b, prefix, 0) == Keep;
    assert plan.Keys == {a};
  }

  /**
   * As written, a pass never moves `.1.gz` of the empty prefix, which is
   * what a path of blanks trims to: the loop of `rotate` finds it again
   * after every pass and never ends.
   */
  lemma BlankPrefixFirstArchiveStays(before: Files, rotations: int, after: Files)
    requires ArchiveName("", 1) in before
    requires RenamedAtOnce(before - Doomed(before.Keys, "", rotations), Plan(before.Keys, "", rotations), after)
    ensures TrimSpace(" ") == ""
    ensures ArchiveName("", 1) in after
  {
    EmptyPrefixArchiveStays();
    PlanByIndex(before.Keys, "", rotations, ".1.gz");
  }

  /**
   * Files that are no archive of the prefix, and not the one target that
   * no longer reads as one (index 10), come out of a pass as they were.
   */
  lemma OthersUntouched(before: Files, prefix: string, rotations: int, after: Files, n: string)
    requires PlainPrefix(prefix)
    requires RenamedAtOnce(before - Doomed(before.Keys, prefix, rotations), Plan(before.Keys, prefix, rotations), after)
    requires n in before && ArchiveIndex(n, prefix).None? && n != ArchiveName(prefix, 10)
    ensures n in after && after[n] == before[n]
  {
    var doomed, plan := Doomed(before.Keys, prefix, rotations), Plan(before.Keys, prefix, rotations);
    var rest := before - doomed;
    PlanByIndex(before.Keys, prefix, rotations, n);
    NotATarget(before.Keys, prefix, rotations, n);
    assert n in rest.Keys - plan.Keys;
    assert after[n] == rest[n];
  }

  /** A name that is no archive, and not the index-10 name, is no target. */
  lemma NotATarget(names: set<string>, prefix: string, rotations: int, n: string)
    requires PlainPrefix(prefix) && ArchiveIndex(n, prefix).None? && n != ArchiveName(prefix, 10)
    ensures n !in Plan(names, prefix, rotations).Values
  {
    if n in Plan(names, prefix, rotations).Values {
      TargetIndex(names, prefix, rotations, n);
      var k :| 1 <= k <= 10 && n == ArchiveName(prefix, k);
      NamedIsArchive(prefix, n, k);
    }
  }

  /** Every name of indexes 1 to 9 reads as an archive. */
  lemma NamedIsArchive(prefix: string, n: string, k: nat)
    requires PlainPrefix(prefix) && 1 <= k <= 10 && n == ArchiveName(prefix, k)
    ensures ArchiveIndex(n, prefix).Some? || n == ArchiveName(prefix, 10)
  {
    if k <= 9 {
      ArchiveIndexOfName(prefix, k);
    }
  }

  // ---------------------------------------------------------------------
  // The layout the transporter keeps: the live file `base` and the
  // archives of its trimmed name, numbered from `first` on.

  /** Archive number `first + i` holds `archives[i]`. */
  function ArchiveMap(prefix: string, archives: seq<seq<string>>, first: nat): Files
    decreases |archives|
  {
    if archives == [] then map[]
    else ArchiveMap(prefix, archives[1..], first + 1)[ArchiveName(prefix, first) := archives[0]]
  }

  function Layout(base: string, live: seq<string>, archives: seq<seq<string>>, first: nat): Files {
    ArchiveMap(TrimSpace(base), archives, first)[base := live]
  }

  /** The names of an archive map are the archive names of its numbers. */
  lemma {:induction false} ArchiveMapKeys(prefix: string, archives: seq<seq<string>>, first: nat, x: string)
    requires x in ArchiveMap(prefix, archives, first)
    ensures exists k: nat :: first <= k < first + |archives| && x == ArchiveName(prefix, k)
    decreases |archives|
  {
    if x != ArchiveName(prefix, first) {
      ArchiveMapKeys(prefix, archives[1..], first + 1, x);
    }
  }

  /** The files of a layout: the live file and one archive per number. */
  lemma LayoutKeys(base: string, live: seq<string>, archives: seq<seq<string>>, first: nat, x: string)
    requires x in Layout(base, live, archives, first) && x != base
    ensures exists k: nat :: first <= k < first + |archives| && x == ArchiveName(TrimSpace(base), k)
  {
    ArchiveMapKeys(TrimSpace(base), archives, first, x);
  }

  /** Archive number `k` of a layout holds `archives[k - first]`. */
  lemma LayoutAt(base: string, live: seq<string>, archives: seq<seq<string>>, first: nat, k: nat)
    requires first <= k < first + |archives|
    ensures ArchiveName(TrimSpace(base), k) in Layout(base, live, archives, first)
    ensures Layout(base, live, archives, first)[ArchiveName(TrimSpace(base), k)] == archives[k - first]
  {
    ArchiveMapAt(TrimSpace(base), archives, first, k);
    ArchiveNameNotLive(base, k);
  }

  lemma {:induction false} ArchiveMapAt(prefix: string, archives: seq<seq<string>>, first: nat, k: nat)
    requires first <= k < first + |archives|
    ensures ArchiveName(prefix, k) in ArchiveMap(prefix, archives, first)
    ensures ArchiveMap(prefix, archives, first)[ArchiveName(prefix, k)] == archives[k - first]
    decreases |archives|
  {
    if k > first {
      ArchiveMapAt(prefix, archives[1..], first + 1, k);
      if ArchiveName(prefix, first) == ArchiveName(prefix, k) {
        ArchiveNameInjective(prefix, first, k);
      }
    }
  }

  /** How many of the archives `.1` to `.m` a pass shifts rather than deletes. */
  function Survivors(rotations: int, m: nat): (n: nat)
    ensures n <= m
  {
    if rotations <= 0 then m
    else if rotations <= 2 then 0
    else if m < rotations - 2 then m
    else rotations - 2
  }

  /** Archive `k` survives a pass exactly when the limit is unset or `k + 1` stays below it. */
  lemma SurvivorsAre(rotations: int, m: nat, k: int)
    requires 1 <= k <= m
    ensures k <= Survivors(rotations, m) <==> !(rotations > 0 && k + 1 >= rotations)
  {
  }

  /** How a pass sees archive `k` of a plain prefix, for a one-digit `k`. */
  lemma ArchiveClassified(names: set<string>, prefix: string, rotations: int, k: nat)
    requires PlainPrefix(prefix) && 1 <= k <= 9 && ArchiveName(prefix, k) in names
    ensures var a := ArchiveName(prefix, k);
      && (a in Plan(names, prefix, rotations) <==> !(rotations > 0 && k + 1 >= rotations))
      && (a in Plan(names, prefix, rotations) ==> Plan(names, prefix, rotations)[a] == ArchiveName(prefix, k + 1))
      && (a !in Plan(names, prefix, rotations) ==> a in Doomed(names, prefix, rotations))
  {
    ArchiveIndexOfName(prefix, k);
    PlanByIndex(names, prefix, rotations, ArchiveName(prefix, k));
  }

  /** How a pass sees a layout: the first `Survivors` archives are shifted, the others deleted. */
  lemma LayoutClassified(base: string, live: seq<string>, archives: seq<seq<string>>, rotations: int, k: nat)
    requires PlainPrefix(TrimSpace(base)) && |archives| <= 9 && 1 <= k <= |archives|
    ensures var names := Layout(base, live, archives, 1).Keys;
      var p := TrimSpace(base);
      var a := ArchiveName(p, k);
      && (a in Plan(names, p, rotations) <==> k <= Survivors(rotations, |archives|))
      && (a in Plan(names, p, rotations) ==> Plan(names, p, rotations)[a] == ArchiveName(p, k + 1))
      && (a !in Plan(names, p, rotations) ==> a in Doomed(names, p, rotations))
  {
    LayoutAt(base, live, archives, 1, k);
    ArchiveClassified(Layout(base, live, archives, 1).Keys, TrimSpace(base), rotations, k);
    SurvivorsAre(rotations, |archives|, k);
  }

  /** Besides the live file, everything found after a pass over a layout is a target. */
  lemma LayoutPassTarget(base: string, live: seq<string>, archives: seq<seq<string>>, rotations: int, after: Files, x: string)
    requires PlainPrefix(TrimSpace(base)) && |archives| <= 9
    requires var before := Layout(base, live, archives, 1); var p := TrimSpace(base);
      RenamedAtOnce(before - Doomed(before.Keys, p, rotations), Plan(before.Keys, p, rotations), after)
    requires x in after && x != base
    ensures x in Plan(Layout(base, live, archives, 1).Keys, TrimSpace(base), rotations).Values
  {
    var p := TrimSpace(base);
    var before := Layout(base, live, archives, 1);
    AfterPass(before, p, rotations, after, x);
    if x !in Plan(before.Keys, p, rotations).Values {
      LayoutKeys(base, live, archives, 1, x);
      var k: nat :| 1 <= k < 1 + |archives| && x == ArchiveName(p, k);
      ArchiveIndexOfName(p, k);
    }
  }

  /** Every source of a pass over a layout is a surviving archive, moved one number up. */
  lemma LayoutPassFrom(base: string, live: seq<string>, archives: seq<seq<string>>, rotations: int, src: string) returns (k: nat)
    requires PlainPrefix(TrimSpace(base)) && |archives| <= 9
    requires src in Plan(Layout(base, live, archives, 1).Keys, TrimSpace(base), rotations)
    ensures 1 <= k <= Survivors(rotations, |archives|) && src == ArchiveName(TrimSpace(base), k)
    ensures Plan(Layout(base, live, archives, 1).Keys, TrimSpace(base), rotations)[src] == ArchiveName(TrimSpace(base), k + 1)
  {
    var p := TrimSpace(base);
    var before := Layout(base, live, archives, 1);
    LiveUntouched(before.Keys, base, rotations);
    LayoutKeys(base, live, archives, 1, src);
    k :| 1 <= k < 1 + |archives| && src == ArchiveName(p, k);
    LayoutClassified(base, live, archives, rotations, k);
  }

  /** A file found after a pass over a layout is the live file or a shifted archive. */
  lemma LayoutPassSource(base: string, live: seq<string>, archives: seq<seq<string>>, rotations: int, after: Files, x: string)
    requires PlainPrefix(TrimSpace(base)) && |archives| <= 9
    requires var before := Layout(base, live, archives, 1); var p := TrimSpace(base);
      RenamedAtOnce(before - Doomed(before.Keys, p, rotations), Plan(before.Keys, p, rotations), after)
    requires x in after && x != base
    ensures exists j: nat :: 2 <= j <= Survivors(rotations, |archives|) + 1 && x == ArchiveName(TrimSpace(base), j)
                           && after[x] == archives[j - 2]
  {
    var p := TrimSpace(base);
    var before := Layout(base, live, archives, 1);
    var plan := Plan(before.Keys, p, rotations);
    LayoutPassTarget(base, live, archives, rotations, after, x);
    var src :| src in plan && plan[src] == x && after[x] == (before - Doomed(before.Keys, p, rotations))[src];
    var k := LayoutPassFrom(base, live, archives, rotations, src);
    LayoutAt(base, live, archives, 1, k);
    assert x == ArchiveName(p, k + 1);
  }

  /**
   * A pass over a layout with at most nine archives shifts archive `k` to
   * `k + 1` for the first `Survivors` of them and deletes the rest; the
   * result no longer has a `.1.gz`. Whichever way `renameAll` resolves
   * collisions, there are none here, so the outcome is fixed.
   */
  lemma LayoutPass(base: string, live: seq<string>, archives: seq<seq<string>>, rotations: int, after: Files)
    requires PlainPrefix(TrimSpace(base)) && |archives| <= 9
    requires var before := Layout(base, live, archives, 1); var p := TrimSpace(base);
      RenamedAtOnce(before - Doomed(before.Keys, p, rotations), Plan(before.Keys, p, rotations), after)
    ensures after == Layout(base, live, archives[..Survivors(rotations, |archives|)], 2)
  {
    var expected := Layout(base, live, archives[..Survivors(rotations, |archives|)], 2);
    forall x | x in after
      ensures x in expected && after[x] == expected[x]
    {
      LayoutPassSub(base, live, archives, rotations, after, x);
    }
    forall x | x in expected ensures x in after {
      LayoutPassSup(base, live, archives, rotations, after, x);
    }
  }

  /** A pass over a layout leaves the live file alone. */
  lemma LayoutPassLive(base: string, live: seq<string>, archives: seq<seq<string>>, rotations: int, after: Files)
    requires var before := Layout(base, live, archives, 1); var p := TrimSpace(base);
      RenamedAtOnce(before - Doomed(before.Keys, p, rotations), Plan(before.Keys, p, rotations), after)
    ensures base in after && after[base] == live
  {
    var p := TrimSpace(base);
    var before := Layout(base, live, archives, 1);
    var doomed, plan := Doomed(before.Keys, p, rotations), Plan(before.Keys, p, rotations);
    LiveUntouched(before.Keys, base, rotations);
    assert base in (before - doomed).Keys - plan.Keys;
  }

  /** The live file of a layout. */
  lemma LayoutAtLive(base: string, live: seq<string>, archives: seq<seq<string>>, first: nat)
    ensures base in Layout(base, live, archives, first) && Layout(base, live, archives, first)[base] == live
  {
  }

  /** What a pass over a layout leaves is in the shifted layout. */
  lemma LayoutPassSub(base: string, live: seq<string>, archives: seq<seq<string>>, rotations: int, after: Files, x: string)
    requires PlainPrefix(TrimSpace(base)) && |archives| <= 9
    requires var before := Layout(base, live, archives, 1); var p := TrimSpace(base);
      RenamedAtOnce(before - Doomed(before.Keys, p, rotations), Plan(before.Keys, p, rotations), after)
    requires x in after
    ensures var expected := Layout(base, live, archives[..Survivors(rotations, |archives|)], 2);
      x in expected && after[x] == expected[x]
  {
    var p := TrimSpace(base);
    var n := Survivors(rotations, |archives|);
    var kept := archives[..n];
    if x == base {
      LayoutPassLive(base, live, archives, rotations, after);
      LayoutAtLive(base, live, kept, 2);
    } else {
      LayoutPassSource(base, live, archives, rotations, after, x);
      var j: nat :| 2 <= j <= n + 1 && x == ArchiveName(p, j) && after[x] == archives[j - 2];
      assert kept[j - 2] == archives[j - 2];
      LayoutAt(base, live, kept, 2, j);
    }
  }

  /** Everything in the shifted layout is left by a pass over a layout. */
  lemma LayoutPassSup(base: string, live: seq<string>, archives: seq<seq<string>>, rotations: int, after: Files, x: string)
    requires PlainPrefix(TrimSpace(base)) && |archives| <= 9
    requires var before := Layout(base, live, archives, 1); var p := TrimSpace(base);
      RenamedAtOnce(before - Doomed(before.Keys, p, rotations), Plan(before.Keys, p, rotations), after)
    requires x in Layout(base, live, archives[..Survivors(rotations, |archives|)], 2)
    ensures x in after
  {
    var p := TrimSpace(base);
    var before := Layout(base, live, archives, 1);
    var doomed, plan := Doomed(before.Keys, p, rotations), Plan(before.Keys, p, rotations);
    var n := Survivors(rotations, |archives|);
    if x == base {
      LayoutPassLive(base, live, archives, rotations, after);
    } else {
      LayoutKeys(base, live, archives[..n], 2, x);
      var j: nat :| 2 <= j < 2 + n && x == ArchiveName(p, j);
      LayoutClassified(base, live, archives, rotations, j - 1);
      assert x in plan.Values;
    }
  }

  /** A layout numbered from 2 has no `.1.gz`. */
  lemma NoFirstArchive(base: string, live: seq<string>, archives: seq<seq<string>>)
    ensures ArchiveName(TrimSpace(base), 1) !in Layout(base, live, archives, 2)
  {
    var p := TrimSpace(base);
    ArchiveNameNotLive(base, 1);
    if ArchiveName(p, 1) in ArchiveMap(p, archives, 2) {
      ArchiveMapKeys(p, archives, 2, ArchiveName(p, 1));
      var k: nat :| 2 <= k < 2 + |archives| && ArchiveName(p, 1) == ArchiveName(p, k);
      ArchiveNameInjective(p, 1, k);
    }
  }

  /** The files after `.1.gz` is created from the live file and the live file is truncated. */
  function Pushed(files: Files, base: string): Files
    requires base in files
  {
    files[ArchiveName(TrimSpace(base), 1) := files[base]][base := []]
  }

  lemma PushedSub(base: string, live: seq<string>, archives: seq<seq<string>>, x: string)
    requires x in Pushed(Layout(base, live, archives, 2), base)
    ensures x in Layout(base, [], [live] + archives, 1)
    ensures Pushed(Layout(base, live, archives, 2), base)[x] == Layout(base, [], [live] + archives, 1)[x]
  {
    var p := TrimSpace(base);
    if x == ArchiveName(p, 1) {
      LayoutAt(base, [], [live] + archives, 1, 1);
    } else if x != base {
      LayoutKeys(base, live, archives, 2, x);
      var j: nat :| 2 <= j < 2 + |archives| && x == ArchiveName(p, j);
      LayoutAt(base, live, archives, 2, j);
      LayoutAt(base, [], [live] + archives, 1, j);
    }
  }

  lemma PushedSup(base: string, live: seq<string>, archives: seq<seq<string>>, x: string)
    requires x in Layout(base, [], [live] + archives, 1)
    ensures x in Pushed(Layout(base, live, archives, 2), base)
  {
    var p := TrimSpace(base);
    if x != base && x != ArchiveName(p, 1) {
      LayoutKeys(base, [], [live] + archives, 1, x);
      var j: nat :| 1 <= j < 2 + |archives| && x == ArchiveName(p, j);
      LayoutAt(base, live, archives, 2, j);
    }
  }

  /**
   * Creating `.1.gz` with the live lines and truncating the live file
   * turns a layout numbered from 2 into one numbered from 1.
   */
  lemma LayoutPush(base: string, live: seq<string>, archives: seq<seq<string>>)
    ensures Pushed(Layout(base, live, archives, 2), base) == Layout(base, [], [live] + archives, 1)
  {
    forall x | x in Pushed(Layout(base, live, archives, 2), base)
      ensures x in Layout(base, [], [live] + archives, 1)
      ensures Pushed(Layout(base, live, archives, 2), base)[x] == Layout(base, [], [live] + archives, 1)[x]
    {
      PushedSub(base, live, archives, x);
    }
    forall x | x in Layout(base, [], [live] + archives, 1)
      ensures x in Pushed(Layout(base, live, archives, 2), base)
    {
      PushedSup(base, live, archives, x);
    }
  }

  /** Without archives the numbering does not matter. */
  lemma EmptyLayout(base: string, live: seq<string>, a: nat, b: nat)
    ensures Layout(base, live, [], a) == Layout(base, live, [], b)
  {
  }

  // ---------------------------------------------------------------------
  // The live file and its archives through a run of writes.

  /** The live file's lines and the archives' contents, `.1.gz` first. */
  datatype Sink = Sink(live: seq<string>, archives: seq<seq<string>>)

  /** The trigger checked after every write, byte limit first. */
  predicate RotateDue(rotateBytes: int, rotateLines: int, fsize: int, flines: int) {
    (rotateBytes > 0 && fsize >= rotateBytes) || (rotateLines > 0 && flines >= rotateLines)
  }

  /** How many archives a rotation leaves when the limit is set: `Rotations - 1`, but at least the new one. */
  function KeepCount(rotations: int): nat
    requires rotations > 0
  {
    if rotations <= 2 then 1 else rotations - 1
  }

  function Retain(rotations: int, archives: seq<seq<string>>): seq<seq<string>> {
    if rotations > 0 && |archives| > KeepCount(rotations) then archives[..KeepCount(rotations)] else archives
  }

  /** `rotate` when nothing fails: nothing to do for an empty live file. */
  function RotateSink(s: Sink, rotations: int): Sink {
    if Bytes(s.live) == 0 || |s.live| == 0 then s
    else Sink([], Retain(rotations, [s.live] + s.archives))
  }

  /** The queue handler for one line: append it, then rotate once if due. */
  function WriteLine(s: Sink, line: string, rotateBytes: int, rotateLines: int, rotations: int): Sink {
    var w := Sink(s.live + [line], s.archives);
    if RotateDue(rotateBytes, rotateLines, Bytes(w.live), |w.live|) then RotateSink(w, rotations) else w
  }

  function Feed(s: Sink, lines: seq<string>, rotateBytes: int, rotateLines: int, rotations: int): Sink
    decreases |lines|
  {
    if lines == [] then s
    else Feed(WriteLine(s, lines[0], rotateBytes, rotateLines, rotations), lines[1..], rotateBytes, rotateLines, rotations)
  }

  /** A pass followed by the push is the rotation of the live file into the archives. */
  lemma SurvivorsRetain(rotations: int, live: seq<string>, archives: seq<seq<string>>)
    ensures [live] + archives[..Survivors(rotations, |archives|)] == Retain(rotations, [live] + archives)
  {
  }

  lemma BytesAppend(lines: seq<string>, line: string)
    ensures Bytes(lines + [line]) == Bytes(lines) + |line|
  {
    assert (lines + [line])[..|lines|] == lines;
  }

  /** All lines, oldest first: the archives from the last to `.1.gz`, then the live file. */
  function History(s: Sink): seq<string> {
    Oldest(s.archives) + s.live
  }

  function Oldest(archives: seq<seq<string>>): seq<string> {
    if archives == [] then [] else Oldest(archives[1..]) + archives[0]
  }

  predicate IsSuffix(a: seq<string>, b: seq<string>) {
    |a| <= |b| && b[|b| - |a|..] == a
  }

  lemma {:induction false} OldestPrefix(archives: seq<seq<string>>, k: nat)
    requires k <= |archives|
    ensures IsSuffix(Oldest(archives[..k]), Oldest(archives))
    decreases |archives|
  {
    if k > 0 {
      OldestPrefix(archives[1..], k - 1);
      assert archives[..k][1..] == archives[1..][..k - 1];
      var a, b := Oldest(archives[1..][..k - 1]), Oldest(archives[1..]);
      assert Oldest(archives[..k]) == a + archives[0];
      assert Oldest(archives) == b + archives[0];
      assert (b + archives[0])[|b + archives[0]| - |a + archives[0]|..] == b[|b| - |a|..] + archives[0];
    }
  }

  /** One write keeps the history, or forgets its oldest part when archives are deleted. */
  lemma WriteLineHistory(s: Sink, line: string, rotateBytes: int, rotateLines: int, rotations: int)
    ensures var t := WriteLine(s, line, rotateBytes, rotateLines, rotations);
      && IsSuffix(History(t), History(s) + [line])
      && (rotations <= 0 ==> History(t) == History(s) + [line])
  {
    var w := Sink(s.live + [line], s.archives);
    assert History(w) == History(s) + [line];
    if Bytes(w.live) != 0 && |w.live| != 0 {
      var all := [w.live] + w.archives;
      assert all[1..] == w.archives;
      assert Oldest(all) == Oldest(w.archives) + w.live;
      var kept := Retain(rotations, all);
      if kept != all {
        OldestPrefix(all, |kept|);
      }
    }
  }

  lemma SuffixTrans(a: seq<string>, b: seq<string>, c: seq<string>, d: seq<string>)
    requires IsSuffix(a, b + d) && IsSuffix(b, c)
    ensures IsSuffix(a, c + d)
  {
    assert (c + d)[|c + d| - |b + d|..] == b + d;
    assert (c + d)[|c + d| - |a|..] == (b + d)[|b + d| - |a|..];
  }

  /**
   * What the live file and the archives hold is always the most recent part
   * of everything written, in order.
   */
  lemma {:induction false} KeepsRecentHistory(s: Sink, lines: seq<string>, rotateBytes: int, rotateLines: int, rotations: int)
    ensures IsSuffix(History(Feed(s, lines, rotateBytes, rotateLines, rotations)), History(s) + lines)
    decreases |lines|
  {
    if lines != [] {
      var t := WriteLine(s, lines[0], rotateBytes, rotateLines, rotations);
      var u := Feed(t, lines[1..], rotateBytes, rotateLines, rotations);
      WriteLineHistory(s, lines[0], rotateBytes, rotateLines, rotations);
      KeepsRecentHistory(t, lines[1..], rotateBytes, rotateLines, rotations);
      SplitFirst(History(s), lines);
      SuffixTrans(History(u), History(t), History(s) + [lines[0]], lines[1..]);
    } else {
      SplitFirst(History(s), lines);
    }
  }

  /**
   * With no rotation limit, no line is ever lost. This is the evidently
   * intended behaviour; the program keeps to it only while at most nine
   * archives exist (see `TenthArchiveOverwritten`), and the transporter's
   * contracts tie it to this sink only under that bound.
   */
  lemma {:induction false} NothingLostWithoutLimit(s: Sink, lines: seq<string>, rotateBytes: int, rotateLines: int, rotations: int)
    requires rotations <= 0
    ensures History(Feed(s, lines, rotateBytes, rotateLines, rotations)) == History(s) + lines
    decreases |lines|
  {
    if lines != [] {
      var t := WriteLine(s, lines[0], rotateBytes, rotateLines, rotations);
      WriteLineHistory(s, lines[0], rotateBytes, rotateLines, rotations);
      NothingLostWithoutLimit(t, lines[1..], rotateBytes, rotateLines, rotations);
      SplitFirst(History(s), lines);
    } else {
      SplitFirst(History(s), lines);
    }
  }

  lemma SplitFirst(h: seq<string>, lines: seq<string>)
    ensures lines == [] ==> h + lines == h
    ensures lines != [] ==> h + lines == (h + [lines[0]]) + lines[1..]
  {
    if lines != [] {
      assert lines == [lines[0]] + lines[1..];
    }
  }

  /** With a rotation limit, never more than `KeepCount` archives exist. */
  lemma {:induction false} RetentionBound(s: Sink, lines: seq<string>, rotateBytes: int, rotateLines: int, rotations: int)
    requires rotations > 0 && |s.archives| <= KeepCount(rotations)
    ensures |Feed(s, lines, rotateBytes, rotateLines, rotations).archives| <= KeepCount(rotations)
    decreases |lines|
  {
    if lines != [] {
      RetentionBound(WriteLine(s, lines[0], rotateBytes, rotateLines, rotations), lines[1..], rotateBytes, rotateLines, rotations);
    }
  }

  /** Writes that stay below the line limit only grow the live file. */
  lemma {:induction false} FeedBelowLimit(s: Sink, part: seq<string>, rest: seq<string>, rotateLines: int, rotations: int)
    requires |s.live| + |part| < rotateLines
    ensures Feed(s, part + rest, 0, rotateLines, rotations) == Feed(Sink(s.live + part, s.archives), rest, 0, rotateLines, rotations)
    decreases |part|
  {
    if part != [] {
      var t := Sink(s.live + [part[0]], s.archives);
      assert WriteLine(s, part[0], 0, rotateLines, rotations) == t;
      assert (part + rest)[0] == part[0] && (part + rest)[1..] == part[1..] + rest;
      assert Feed(s, part + rest, 0, rotateLines, rotations) == Feed(t, part[1..] + rest, 0, rotateLines, rotations);
      FeedBelowLimit(t, part[1..], rest, rotateLines, rotations);
      assert s.live + [part[0]] + part[1..] == s.live + part;
    } else {
      assert part + rest == rest && s.live + part == s.live;
    }
  }

  /**
   * With only a line limit `k`, `k` non-empty lines written to an empty
   * live file end in exactly one rotation, which archives them.
   */
  lemma FeedChunk(archives: seq<seq<string>>, chunk: seq<string>, rest: seq<string>, rotations: int)
    requires |chunk| > 0 && chunk[|chunk| - 1] != ""
    ensures Feed(Sink([], archives), chunk + rest, 0, |chunk|, rotations)
         == Feed(Sink([], Retain(rotations, [chunk] + archives)), rest, 0, |chunk|, rotations)
  {
    var k := |chunk|;
    var last := chunk[k - 1];
    assert chunk + rest == chunk[..k - 1] + ([last] + rest);
    FeedBelowLimit(Sink([], archives), chunk[..k - 1], [last] + rest, k, rotations);
    assert [] + chunk[..k - 1] + [last] == chunk;
    BytesAppend(chunk[..k - 1], last);
  }

  /**
   * The rotation test of the repository: a line limit of 4, a rotation
   * limit of 4 and 19 non-empty lines leave lines 17-19 in the live file,
   * 13-16 in `.1.gz`, 9-12 in `.2.gz` and 5-8 in `.3.gz`; lines 1-4 are
   * gone.
   */
  lemma RotationScenario(lines: seq<string>)
    requires |lines| == 19 && forall i :: 0 <= i < |lines| ==> lines[i] != ""
    ensures Feed(Sink([], []), lines, 0, 4, 4) == Sink(lines[16..], [lines[12..16], lines[8..12], lines[4..8]])
  {
    assert lines[3] != "" && lines[7] != "" && lines[11] != "" && lines[15] != "";
    ScenarioFirstHalf(lines);
    ScenarioSecondHalf(lines);
  }

  /** The first two rotations of the scenario: lines 1-8 are archived, newest first. */
  lemma ScenarioFirstHalf(lines: seq<string>)
    requires |lines| == 19 && lines[3] != "" && lines[7] != ""
    ensures Feed(Sink([], []), lines, 0, 4, 4) == Feed(Sink([], [lines[4..8], lines[0..4]]), lines[8..], 0, 4, 4)
  {
    var c1, c2 := lines[0..4], lines[4..8];
    assert lines[0..] == lines;
    ScenarioChunk(lines, 0, []);
    RetainBelow([c1] + []);
    assert [c1] + [] == [c1];
    ScenarioChunk(lines, 4, [c1]);
    RetainBelow([c2] + [c1]);
    assert [c2] + [c1] == [c2, c1];
  }

  /** The last two rotations of the scenario push lines 1-4 out, and lines 17-19 stay live. */
  lemma ScenarioSecondHalf(lines: seq<string>)
    requires |lines| == 19 && lines[11] != "" && lines[15] != ""
    ensures Feed(Sink([], [lines[4..8], lines[0..4]]), lines[8..], 0, 4, 4)
         == Sink(lines[16..], [lines[12..16], lines[8..12], lines[4..8]])
  {
    var c1, c2, c3, c4, tail := lines[0..4], lines[4..8], lines[8..12], lines[12..16], lines[16..];
    ScenarioChunk(lines, 8, [c2, c1]);
    RetainBelow([c3] + [c2, c1]);
    assert [c3] + [c2, c1] == [c3, c2, c1];
    ScenarioChunk(lines, 12, [c3, c2, c1]);
    assert Retain(4, [c4] + [c3, c2, c1]) == [c4, c3, c2];
    assert tail + [] == tail && [] + tail == tail;
    FeedBelowLimit(Sink([], [c4, c3, c2]), tail, [], 4, 4);
    assert Feed(Sink(tail, [c4, c3, c2]), [], 0, 4, 4) == Sink(tail, [c4, c3, c2]);
  }

  /** With a rotation limit of 4, up to three archives are all kept. */
  lemma RetainBelow(archives: seq<seq<string>>)
    requires |archives| <= 3
    ensures Retain(4, archives) == archives
  {
  }

  /** One line-limit rotation of the scenario: lines `j..j + 3` fill the live file and are archived. */
  lemma ScenarioChunk(lines: seq<string>, j: nat, archives: seq<seq<string>>)
    requires j + 4 <= |lines| && lines[j + 3] != ""
    ensures Feed(Sink([], archives), lines[j..], 0, 4, 4)
         == Feed(Sink([], Retain(4, [lines[j..j + 4]] + archives)), lines[j + 4..], 0, 4, 4)
  {
    var chunk := lines[j..j + 4];
    assert chunk[3] == lines[j + 3];
    assert lines[j..] == chunk + lines[j + 4..];
    FeedChunk(archives, chunk, lines[j + 4..], 4);
  }
}
