/**
 * What the transporters rely on but the repository does not define here:
 * the string-typed level with its `GreaterEquals` order and `color`
 * method, `color.WhiteString`, the floating-point formatter, the two date
 * renderings, an `io.Writer`, and the ten-minute error throttle shared by
 * the server transporters.
 */
module Collaborators {

  /**
   * Opaque functions, passed in so that every statement about them holds
   * whatever they do.
   *   rank       the position of a level name in the level order
   *              (`Level.Index`); `GreaterEquals` compares positions
   *   paint      `level.color(s)`: `s` in the colour of `level`
   *   white      `color.WhiteString`
   *   fraction   `strconv.FormatFloat(float64(micros)/1000, 'f', prec, 64)`
   *   errorLevel the value of `levelError`
   */
  datatype Externals = Externals(
    rank: string -> int,
    paint: (string, string) -> string,
    white: string -> string,
    fraction: (int, nat) -> string,
    errorLevel: string)

  /** `level.GreaterEquals(min)`: a total preorder given by `rank`. */
  predicate GreaterEquals(ext: Externals, level: string, min: string) {
    ext.rank(level) >= ext.rank(min)
  }

  /**
   * One instant as the transporters print it: `formatDate(date)` for the
   * console and file lines, `date.Format(time.RFC3339)` for server entries.
   */
  datatype Date = Date(local: string, rfc3339: string)

  /** An `io.Writer` (standard output or a file): the chunks written, in order. */
  class Writer {
    var written: seq<string>

    constructor()
      ensures written == []
    {
      written := [];
    }

    method Write(s: string)
      modifies this
      ensures written == old(written) + [s]
    {
      written := written + [s];
    }
  }

  /** `10 * int64(time.Minute)`, in nanoseconds. */
  const ErrorWindow: int := 10 * 60 * 1_000_000_000

  /** An error is shown only when the previous one is more than ten minutes old. */
  predicate ErrorDue(lastShown: int, now: int) {
    lastShown + ErrorWindow < now
  }

  /**
   * The clock readings, among the failures at `times`, at which an error
   * is shown, starting from the previous showing at `lastShown`.
   */
  function Surfaced(lastShown: int, times: seq<int>): seq<int>
    decreases |times|
  {
    if times == [] then []
    else if ErrorDue(lastShown, times[0]) then [times[0]] + Surfaced(times[0], times[1..])
    else Surfaced(lastShown, times[1..])
  }

  /**
   * However often failures happen, shown errors are more than ten minutes
   * apart, each after the previous, and every one is a failure time.
   */
  lemma {:induction false} SurfacedSpaced(lastShown: int, times: seq<int>)
    ensures var r := Surfaced(lastShown, times);
      && (r != [] ==> lastShown + ErrorWindow < r[0])
      && (forall i :: 0 < i < |r| ==> r[i - 1] + ErrorWindow < r[i])
      && (forall x :: x in r ==> x in times)
    decreases |times|
  {
    if times != [] {
      SurfacedSpaced(if ErrorDue(lastShown, times[0]) then times[0] else lastShown, times[1..]);
      var r := Surfaced(lastShown, times);
      if ErrorDue(lastShown, times[0]) {
        var t := Surfaced(times[0], times[1..]);
        assert r == [times[0]] + t;
        forall i | 0 < i < |r| ensures r[i - 1] + ErrorWindow < r[i] {
          if i > 1 {
            assert r[i - 1] == t[i - 2] && r[i] == t[i - 1];
          }
        }
      }
    }
  }
}
