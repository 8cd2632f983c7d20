/**
 * The console line of `transport.go`, the other revision of the console
 * transporter: the prefix is always followed by a space, the date is
 * printed as "[date] " before the message, and the message is printed
 * even when empty. Prefix, colours and time difference are computed as in
 * `transporter.go`.
 */
module Transport {
  import opened Collaborators
  import Transporter

  function DateSegment(withDate: bool, withColors: bool, date: Date, ext: Externals): string {
    if withDate then "[" + Transporter.Tint(date.local, withColors, ext) + "] " else ""
  }

  /** The line `ConsoleTransporter.Transport` of `transport.go` writes. */
  function FormatLine(withDate: bool, withColors: bool, lastMessage: int,
                      level: string, msg: string, date: Date, now: int, ext: Externals): (line: string)
    ensures |line| >= |Transporter.Prefix(level, withColors, ext)| + 2
    ensures line[..|Transporter.Prefix(level, withColors, ext)|] == Transporter.Prefix(level, withColors, ext)
    ensures line[|Transporter.Prefix(level, withColors, ext)|] == ' '
    ensures line[|line| - 1] == '\n'
  {
    var tail := " " + DateSegment(withDate, withColors, date, ext) + msg
      + Transporter.DiffSegment(withColors, lastMessage, now, ext) + "\n";
    Transporter.Prefix(level, withColors, ext) + tail
  }

  /**
   * The two revisions print the same line exactly when the message is not
   * empty; for an empty message this one prints one more space.
   */
  lemma RevisionsAgree(withDate: bool, withColors: bool, lastMessage: int,
                       level: string, msg: string, date: Date, now: int, ext: Externals)
    ensures FormatLine(withDate, withColors, lastMessage, level, msg, date, now, ext)
            == Transporter.LogToString(withDate, withColors, lastMessage, level, msg, date, now, ext)
            <==> msg != ""
    ensures msg == "" ==>
      |FormatLine(withDate, withColors, lastMessage, level, msg, date, now, ext)|
      == |Transporter.LogToString(withDate, withColors, lastMessage, level, msg, date, now, ext)| + 1
  {
    var p := Transporter.Prefix(level, withColors, ext);
    var t := Transporter.Tint(date.local, withColors, ext);
    var f := Transporter.DiffSegment(withColors, lastMessage, now, ext) + "\n";
    var x := " " + DateSegment(withDate, withColors, date, ext) + msg;
    var y := Transporter.DateSegment(withDate, withColors, date, ext) + Transporter.MessageSegment(msg);
    FormatLineParts(withDate, withColors, lastMessage, level, msg, date, now, ext);
    LogToStringParts(withDate, withColors, lastMessage, level, msg, date, now, ext);
    Sandwich(p, x, y, f);
    Middle(withDate, t, msg);
  }

  lemma FormatLineParts(withDate: bool, withColors: bool, lastMessage: int,
                        level: string, msg: string, date: Date, now: int, ext: Externals)
    ensures FormatLine(withDate, withColors, lastMessage, level, msg, date, now, ext)
      == Transporter.Prefix(level, withColors, ext)
         + (" " + DateSegment(withDate, withColors, date, ext) + msg)
         + (Transporter.DiffSegment(withColors, lastMessage, now, ext) + "\n")
  {
    var p := Transporter.Prefix(level, withColors, ext);
    var d := DateSegment(withDate, withColors, date, ext);
    var f := Transporter.DiffSegment(withColors, lastMessage, now, ext);
    Associate(p, " " + d, msg, f);
  }

  /** Regrouping a four-part line around its middle. */
  lemma Associate(p: string, a: string, b: string, f: string)
    ensures p + a + b + f + "\n" == p + (a + b) + (f + "\n")
  {
  }

  lemma LogToStringParts(withDate: bool, withColors: bool, lastMessage: int,
                         level: string, msg: string, date: Date, now: int, ext: Externals)
    ensures Transporter.LogToString(withDate, withColors, lastMessage, level, msg, date, now, ext)
      == Transporter.Prefix(level, withColors, ext)
         + (Transporter.DateSegment(withDate, withColors, date, ext) + Transporter.MessageSegment(msg))
         + (Transporter.DiffSegment(withColors, lastMessage, now, ext) + "\n")
  {
    Associate(Transporter.Prefix(level, withColors, ext), Transporter.DateSegment(withDate, withColors, date, ext),
              Transporter.MessageSegment(msg), Transporter.DiffSegment(withColors, lastMessage, now, ext));
  }

  /** The part between prefix and time difference, in the two layouts. */
  lemma Middle(withDate: bool, t: string, msg: string)
    ensures var x := " " + (if withDate then "[" + t + "] " else "") + msg;
            var y := (if withDate then " [" + t + "]" else "") + (if |msg| > 0 then " " + msg else "");
            (x == y <==> msg != "") && (msg == "" ==> |x| == |y| + 1)
  {
    if msg != "" && withDate {
      assert " " + ("[" + t + "] ") + msg == " [" + t + "]" + (" " + msg);
    }
  }

  /** Equal outer parts cancel. */
  lemma Sandwich(p: string, x: string, y: string, f: string)
    ensures p + x + f == p + y + f <==> x == y
  {
    if p + x + f == p + y + f {
      assert |x| == |y|;
      forall i | 0 <= i < |x| ensures x[i] == y[i] {
        assert (p + x + f)[|p| + i] == x[i];
        assert (p + y + f)[|p| + i] == y[i];
      }
    }
  }

  /** `ConsoleTransporter` of `transport.go`: it always writes to standard output. */
  class ConsoleTransporter {
    var Date: bool
    var Colors: bool
    var MinLevel: string
    var lastMessage: int

    constructor(date: bool, colors: bool, minLevel: string)
      ensures Date == date && Colors == colors && MinLevel == minLevel && lastMessage == 0
    {
      Date, Colors, MinLevel := date, colors, minLevel;
      lastMessage := 0;
    }

    /**
     * `Transport`: entries below `MinLevel` print nothing and leave the
     * previous-message time alone; every printed entry records its clock
     * reading as the previous-message time.
     */
    method Transport(level: string, msg: string, date: Collaborators.Date, now: int, ext: Externals, stdout: Writer)
      modifies this, stdout
      ensures !GreaterEquals(ext, level, old(MinLevel)) ==> unchanged(this) && unchanged(stdout)
      ensures GreaterEquals(ext, level, old(MinLevel)) ==>
        && stdout.written == old(stdout.written) + [FormatLine(Date, Colors, old(lastMessage), level, msg, date, now, ext)]
        && lastMessage == now
        && Date == old(Date) && Colors == old(Colors) && MinLevel == old(MinLevel)
    {
      if !GreaterEquals(ext, level, MinLevel) {
        return;
      }
      var result := FormatLine(Date, Colors, lastMessage, level, msg, date, now, ext);
      lastMessage := now;
      stdout.Write(result);
    }
  }

  /** The lines a fresh `ConsoleTransporter{Colors: true}` of this revision prints for an error text. */
  function ErrorLines(text: string, ext: Externals): (r: seq<string>)
    ensures |r| <= 1
  {
    if GreaterEquals(ext, ext.errorLevel, "") then
      [FormatLine(false, true, 0, ext.errorLevel, text, Collaborators.Date("", ""), 0, ext)]
    else []
  }

  /** Print `text` at the error level through a fresh colour console transporter. */
  method ShowOnConsole(text: string, ext: Externals, stdout: Writer)
    modifies stdout
    ensures stdout.written == old(stdout.written) + ErrorLines(text, ext)
  {
    var console := new ConsoleTransporter(false, true, "");
    console.Transport(ext.errorLevel, text, Collaborators.Date("", ""), 0, ext, stdout);
  }
}
