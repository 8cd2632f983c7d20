/**
 * The integer log levels of the logger (`type Level int`), their names and
 * the colour table indexed by them.
 */
module Levels {
  import opened Wrappers

  type Level = int

  const Trace: Level := 1
  const Debug: Level := 2
  const Info: Level := 3
  const Warn: Level := 4
  const Error: Level := 5
  const Fatal: Level := 6

  /** The names in level order: `Names[l - 1]` belongs to level `l`. */
  const Names: seq<string> := ["trace", "debug", "info", "warn", "error", "fatal"]

  predicate IsKnown(l: Level) {
    Trace <= l <= Fatal
  }

  /** `Level.String`: the lower-case name, or "" for any other value. */
  function Name(l: Level): (r: string)
    ensures r == "" <==> !IsKnown(l)
    ensures IsKnown(l) ==> r == Names[l - 1]
  {
    if l == Trace then "trace"
    else if l == Debug then "debug"
    else if l == Info then "info"
    else if l == Warn then "warn"
    else if l == Error then "error"
    else if l == Fatal then "fatal"
    else ""
  }

  /** The level a name belongs to: the inverse of `Name` on the six levels. */
  function FromName(s: string): (r: Option<Level>)
    ensures r.Some? ==> IsKnown(r.value)
  {
    if s == "trace" then Some(Trace)
    else if s == "debug" then Some(Debug)
    else if s == "info" then Some(Info)
    else if s == "warn" then Some(Warn)
    else if s == "error" then Some(Error)
    else if s == "fatal" then Some(Fatal)
    else None
  }

  /** Names and levels correspond one to one, in both directions. */
  lemma NameRoundTrip(l: Level, s: string)
    ensures IsKnown(l) ==> FromName(Name(l)) == Some(l)
    ensures FromName(s) == Some(l) ==> Name(l) == s
  {
  }

  /** Different levels have different names. */
  lemma NameInjective(l: Level, m: Level)
    requires IsKnown(l) && IsKnown(m) && Name(l) == Name(m)
    ensures l == m
  {
    NameRoundTrip(l, Name(l));
    NameRoundTrip(m, Name(m));
  }

  // The SGR attribute codes of the colour table: none, blue, cyan, green,
  // yellow, red, red + bold.
  const FgBlue: nat := 34
  const FgCyan: nat := 36
  const FgGreen: nat := 32
  const FgYellow: nat := 33
  const FgRed: nat := 31
  const Bold: nat := 1

  const Colors: seq<seq<nat>> := [[], [FgBlue], [FgCyan], [FgGreen], [FgYellow], [FgRed], [FgRed, Bold]]

  /**
   * `Level.color`: the attributes of `colors[l]`. The table has seven
   * entries, so the index must lie in 0..6; Go panics otherwise.
   */
  function ColorOf(l: Level): (attrs: seq<nat>)
    requires 0 <= l < |Colors|
    ensures IsKnown(l) <==> attrs != []
    ensures l == Fatal ==> attrs == ColorOf(Error) + [Bold]
  {
    Colors[l]
  }

  /** The six levels get six different colourings. */
  lemma ColorsDistinct(l: Level, m: Level)
    requires IsKnown(l) && IsKnown(m) && l != m
    ensures ColorOf(l) != ColorOf(m)
  {
  }
}
