/**
 * The console line of `transporter.go` (`logToString`) and its
 * `ConsoleTransporter`. The file transporter of `transporters.go` formats
 * its lines with the same `logToString`.
 */
module Transporter {
  import opened Utils
  import opened Collaborators
  import TimeFormat

  /** Room for the longest level name, "debug", and its brackets. */
  const PrefixLength: int := 5 + 2

  /** "[level]" padded with spaces on the left to `PrefixLength`, coloured on request. */
  function Prefix(level: string, colors: bool, ext: Externals): string {
    var p := PadStart("[" + level + "]", PrefixLength, " ");
    if colors then ext.paint(level, p) else p
  }

  function Tint(s: string, colors: bool, ext: Externals): string {
    if colors then ext.white(s) else s
  }

  /** `formatDiff(now - lastMessage)` as text. */
  function DiffText(lastMessage: int, now: int, ext: Externals): string {
    TimeFormat.Render(TimeFormat.FormatDiff(now - lastMessage), ext.fraction)
  }

  function DateSegment(withDate: bool, withColors: bool, date: Date, ext: Externals): string {
    if withDate then " [" + Tint(date.local, withColors, ext) + "]" else ""
  }

  function MessageSegment(msg: string): string {
    if |msg| > 0 then " " + msg else ""
  }

  function DiffSegment(withColors: bool, lastMessage: int, now: int, ext: Externals): string {
    if lastMessage != 0 then " " + Tint(DiffText(lastMessage, now, ext), withColors, ext) else ""
  }

  /**
   * `logToString`: the prefix, " [date]" when dates are on, " msg" when the
   * message is not empty, " diff" once a previous message exists, and a
   * line break. `now` is the clock reading of this call.
   */
  function LogToString(withDate: bool, withColors: bool, lastMessage: int,
                       level: string, msg: string, date: Date, now: int, ext: Externals): (line: string)
    ensures |line| >= |Prefix(level, withColors, ext)| + 1
    ensures line[..|Prefix(level, withColors, ext)|] == Prefix(level, withColors, ext)
    ensures line[|line| - 1] == '\n'
  {
    var p, d, m, f := Prefix(level, withColors, ext), DateSegment(withDate, withColors, date, ext),
                      MessageSegment(msg), DiffSegment(withColors, lastMessage, now, ext);
    Framed(p, d, m, f);
    p + d + m + f + "\n"
  }

  lemma Framed(p: string, d: string, m: string, f: string)
    ensures var line := p + d + m + f + "\n";
      |line| >= |p| + 1 && line[..|p|] == p && line[|line| - 1] == '\n'
  {
  }

  /**
   * Without colours the prefix is at least seven bytes: "[level]" at the
   * end, spaces before it, whatever the collaborators do.
   */
  lemma PlainPrefixOf(level: string, ext: Externals)
    ensures Prefix(level, false, ext) == PadStart("[" + level + "]", PrefixLength, " ")
    ensures |Prefix(level, false, ext)| == (if |level| + 2 < PrefixLength then PrefixLength else |level| + 2)
    ensures Prefix(level, false, ext)[|Prefix(level, false, ext)| - |level| - 2..] == "[" + level + "]"
    ensures forall i :: 0 <= i < |Prefix(level, false, ext)| - |level| - 2 ==> Prefix(level, false, ext)[i] == ' '
  {
  }

  predicate NoBreak(s: string) {
    '\n' !in s
  }

  /**
   * One entry is one line: when none of the printed parts holds a line
   * break, the only one in the result is the final one. This is what lets
   * the file transporter count one line per entry.
   */
  lemma OneLinePerEntry(withDate: bool, withColors: bool, lastMessage: int,
                        level: string, msg: string, date: Date, now: int, ext: Externals)
    requires NoBreak(Prefix(level, withColors, ext)) && NoBreak(msg)
    requires withDate ==> NoBreak(Tint(date.local, withColors, ext))
    requires lastMessage != 0 ==> NoBreak(Tint(DiffText(lastMessage, now, ext), withColors, ext))
    ensures var line := LogToString(withDate, withColors, lastMessage, level, msg, date, now, ext);
      forall i :: 0 <= i < |line| ==> (line[i] == '\n' <==> i == |line| - 1)
  {
    var p := Prefix(level, withColors, ext);
    var d := DateSegment(withDate, withColors, date, ext);
    var m := MessageSegment(msg);
    var f := DiffSegment(withColors, lastMessage, now, ext);
    assert NoBreak(d) && NoBreak(m) && NoBreak(f);
    var body := p + d + m + f;
    assert NoBreak(body) by {
      assert forall c :: c in body ==> c in p || c in d || c in m || c in f;
    }
    var line := LogToString(withDate, withColors, lastMessage, level, msg, date, now, ext);
    assert line == body + "\n";
    forall i | 0 <= i < |line| - 1 ensures line[i] != '\n' {
      assert line[i] == body[i];
    }
  }

  /**
   * The byte length of a line: the prefix, three bytes around the date,
   * one space before the message and the diff when they are printed, and
   * the line break.
   */
  lemma LineLength(withDate: bool, withColors: bool, lastMessage: int,
                   level: string, msg: string, date: Date, now: int, ext: Externals)
    ensures |LogToString(withDate, withColors, lastMessage, level, msg, date, now, ext)| ==
      |Prefix(level, withColors, ext)|
      + (if withDate then |Tint(date.local, withColors, ext)| + 3 else 0)
      + (if msg == "" then 0 else |msg| + 1)
      + (if lastMessage == 0 then 0 else |Tint(DiffText(lastMessage, now, ext), withColors, ext)| + 1)
      + 1
  {
  }

  /** `ConsoleTransporter` of `transporter.go`. */
  class ConsoleTransporter {
    var Date: bool
    var Colors: bool
    var MinLevel: string
    var Output: Writer?
    var lastMsg: int

    constructor(date: bool, colors: bool, minLevel: string, output: Writer?)
      ensures Date == date && Colors == colors && MinLevel == minLevel && Output == output
      ensures lastMsg == 0
    {
      Date, Colors, MinLevel, Output := date, colors, minLevel, output;
      lastMsg := 0;
    }

    /**
     * `Transport`: entries below `MinLevel` are dropped without a trace;
     * the others are formatted and written to `Output`, which becomes
     * standard output when unset, and their clock reading becomes the
     * previous-message time.
     */
    method Transport(level: string, msg: string, date: Collaborators.Date, now: int, ext: Externals, stdout: Writer)
      modifies this, Output, stdout
      ensures !GreaterEquals(ext, level, old(MinLevel)) ==>
        unchanged(this) && unchanged(stdout) && (old(Output) != null ==> unchanged(old(Output)))
      ensures GreaterEquals(ext, level, old(MinLevel)) ==>
        var target := if old(Output) == null then stdout else old(Output);
        && Output == target
        && target.written == old(target.written) + [LogToString(Date, Colors, old(lastMsg), level, msg, date, now, ext)]
        && lastMsg == now
        && Date == old(Date) && Colors == old(Colors) && MinLevel == old(MinLevel)
      ensures GreaterEquals(ext, level, old(MinLevel)) && old(Output) != null && old(Output) != stdout ==> unchanged(stdout)
    {
      if !GreaterEquals(ext, level, MinLevel) {
        return;
      }
      if Output == null {
        Output := stdout;
      }
      var result := LogToString(Date, Colors, lastMsg, level, msg, date, now, ext);
      lastMsg := now;
      Output.Write(result);
    }
  }

  /** The lines a fresh `ConsoleTransporter{Colors: true}` prints for an error text. */
  function ErrorLines(text: string, ext: Externals): (r: seq<string>)
    ensures |r| <= 1
    ensures r != [] ==> r[0] == LogToString(false, true, 0, ext.errorLevel, text, Collaborators.Date("", ""), 0, ext)
  {
    if GreaterEquals(ext, ext.errorLevel, "") then
      [LogToString(false, true, 0, ext.errorLevel, text, Collaborators.Date("", ""), 0, ext)]
    else []
  }

  /**
   * The `showError` idiom: print `text` at the error level through a fresh
   * colour console transporter on standard output.
   */
  method ShowOnConsole(text: string, ext: Externals, stdout: Writer)
    modifies stdout
    ensures stdout.written == old(stdout.written) + ErrorLines(text, ext)
  {
    var console := new ConsoleTransporter(false, true, "", null);
    console.Transport(ext.errorLevel, text, Collaborators.Date("", ""), 0, ext, stdout);
  }
}
