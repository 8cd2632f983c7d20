/**
 * `formatDiff`: the human-readable time since the previous log message.
 * The nanosecond count is divided step by step (by 1000, 1000, 1000, 60
 * and 60) until it fits the unit it is shown in.
 */
module TimeFormat {
  import Decimal
  import opened Utils

  const Micro: int := 1000
  const Milli: int := 1000 * Micro
  const Second: int := 1000 * Milli
  const Minute: int := 60 * Second
  const Hour: int := 60 * Minute

  /**
   * What `formatDiff` prints. `Fraction` is a count of microseconds shown
   * as milliseconds with `precision` decimals through
   * `strconv.FormatFloat`, followed by " ms".
   */
  datatype DiffText =
    | Zero
    | Fraction(micros: int, precision: nat)
    | Whole(value: int, unit: string)

  /** `formatDiff(time)`, as the source computes it: one truncating division per unit. */
  function FormatDiff(time: int): (d: DiffText)
    ensures d.Fraction? ==> 10 <= d.micros < 1000 && (d.precision == 2 <==> d.micros < 100)
    ensures d.Fraction? ==> d.precision == 1 || d.precision == 2
    ensures d.Whole? ==> d.value >= 1 && d.unit in {"ms", "s", "m", "h"}
    ensures d.Whole? && d.unit == "ms" ==> d.value < 1000
    ensures d.Whole? && (d.unit == "s" || d.unit == "m") ==> d.value < 60
  {
    if time < 1000 then Zero
    else
      var us := time / 1000;
      if us < 1000 then
        if us < 10 then Zero
        else Fraction(us, if us < 100 then 2 else 1)
      else
        var ms := us / 1000;
        if ms < 1000 then Whole(ms, "ms")
        else
          var s := ms / 1000;
          if s < 60 then Whole(s, "s")
          else
            var m := s / 60;
            if m < 60 then Whole(m, "m")
            else Whole(m / 60, "h")
  }

  /**
   * The unit of each range, stated with a single division of the
   * nanosecond count: below 10 µs the difference reads "0", up to a
   * millisecond it is a fraction of a millisecond, and from there on it
   * is whole milliseconds, seconds, minutes or hours, each truncated.
   */
  lemma FormatDiffRanges(time: int)
    ensures time < 10 * Micro ==> FormatDiff(time) == Zero
    ensures 10 * Micro <= time < Milli ==>
      FormatDiff(time) == Fraction(time / Micro, if time < 100 * Micro then 2 else 1)
    ensures Milli <= time < Second ==> FormatDiff(time) == Whole(time / Milli, "ms")
    ensures Second <= time < Minute ==> FormatDiff(time) == Whole(time / Second, "s")
    ensures Minute <= time < Hour ==> FormatDiff(time) == Whole(time / Minute, "m")
    ensures Hour <= time ==> FormatDiff(time) == Whole(time / Hour, "h")
  {
    if time >= Micro {
      var us := time / 1000;
      DivDiv(time, 1000, 1000);
      DivDiv(time, Milli, 1000);
      DivDiv(time, Second, 60);
      DivDiv(time, Minute, 60);
      var ms := us / 1000;
      var s := ms / 1000;
      var m := s / 60;
      assert ms == time / Milli;
      assert s == time / Second;
      assert m == time / Minute;
      assert m / 60 == time / Hour;
    }
  }

  /** The units in increasing size. */
  function UnitRank(d: DiffText): nat {
    match d
    case Zero => 0
    case Fraction(_, _) => 1
    case Whole(_, u) => if u == "ms" then 2 else if u == "s" then 3 else if u == "m" then 4 else 5
  }

  /** A longer pause never gets a smaller unit. */
  lemma UnitMonotone(t: int, u: int)
    requires t <= u
    ensures UnitRank(FormatDiff(t)) <= UnitRank(FormatDiff(u))
  {
    FormatDiffRanges(t);
    FormatDiffRanges(u);
  }

  /**
   * The text itself. The fractional form goes through the floating-point
   * formatter, which is a parameter here: `fraction(micros, precision)`
   * stands for `strconv.FormatFloat(float64(micros)/1000, 'f', precision, 64)`.
   */
  function Render(d: DiffText, fraction: (int, nat) -> string): (r: string)
    ensures d.Zero? ==> r == "0"
    ensures d.Fraction? ==> r == fraction(d.micros, d.precision) + " ms"
    ensures d.Whole? && d.value >= 0 ==> r == Decimal.Show(d.value) + " " + d.unit
  {
    match d
    case Zero => "0"
    case Fraction(us, p) => fraction(us, p) + " ms"
    case Whole(v, u) => (if v >= 0 then Decimal.Show(v) else "-" + Decimal.Show(-v)) + " " + u
  }

  /** The length in nanoseconds of a whole unit. */
  function UnitSize(u: string): int {
    if u == "ms" then Milli else if u == "s" then Second else if u == "m" then Minute else Hour
  }

  /**
   * The printed text range by range, in terms of the nanosecond count:
   * "0" below 10 µs, a fraction of a millisecond up to 1 ms, and then
   * the truncated count of milliseconds, seconds, minutes or hours.
   */
  lemma RenderRanges(time: int, fraction: (int, nat) -> string)
    ensures time < 10 * Micro ==> Render(FormatDiff(time), fraction) == "0"
    ensures 10 * Micro <= time < Milli ==>
      Render(FormatDiff(time), fraction) == fraction(time / Micro, if time < 100 * Micro then 2 else 1) + " ms"
    ensures Milli <= time < Second ==> Render(FormatDiff(time), fraction) == Decimal.Show(time / Milli) + " ms"
    ensures Second <= time < Minute ==> Render(FormatDiff(time), fraction) == Decimal.Show(time / Second) + " s"
    ensures Minute <= time < Hour ==> Render(FormatDiff(time), fraction) == Decimal.Show(time / Minute) + " m"
    ensures Hour <= time ==> Render(FormatDiff(time), fraction) == Decimal.Show(time / Hour) + " h"
  {
    FormatDiffRanges(time);
  }

  /**
   * From a millisecond on, the text reads back: the digits before the
   * space parse to a number `n`, the rest is a unit, and `n` whole units
   * fit into the pause while `n + 1` do not.
   */
  lemma RenderReadBack(time: int, fraction: (int, nat) -> string) returns (k: nat)
    requires time >= Milli
    ensures var r := Render(FormatDiff(time), fraction);
      && k < |r| && r[k] == ' ' && Decimal.Parse(r[..k]).Some?
      && r[k + 1..] in {"ms", "s", "m", "h"}
      && Decimal.Parse(r[..k]).value * UnitSize(r[k + 1..]) <= time
      && time < (Decimal.Parse(r[..k]).value + 1) * UnitSize(r[k + 1..])
  {
    WholeUnits(time);
    var d := FormatDiff(time);
    var size := UnitSize(d.unit);
    var digits := Decimal.Show(d.value);
    var r := digits + " " + d.unit;
    assert Render(d, fraction) == r;
    k := |digits|;
    assert r[..k] == digits && r[k + 1..] == d.unit;
    Decimal.ParseShow(d.value);
    TruncatedBounds(time, size);
  }

  /** From a millisecond on, the text is a truncated count of one whole unit. */
  lemma WholeUnits(time: int)
    requires time >= Milli
    ensures FormatDiff(time).Whole? && FormatDiff(time).unit in {"ms", "s", "m", "h"}
    ensures FormatDiff(time).value == time / UnitSize(FormatDiff(time).unit)
  {
    FormatDiffRanges(time);
  }

  lemma TruncatedBounds(a: int, m: int)
    requires a >= 0 && m > 0
    ensures a / m * m <= a < (a / m + 1) * m
  {
  }
}
