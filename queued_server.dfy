/**
 * `ServerTransporter` of `transporters.go`. Unlike the other revisions it
 * starts its queue in `Init`, which also drops a minimum level outside the
 * level order, and its `showError` is silenced by `SuppressErrors` as well
 * as throttled to one message every ten minutes. The queue is a
 * single-worker FIFO: `pending` holds the entries handed to it, `sent` the
 * ones the worker has delivered (or tried to), in order. Delivery itself is
 * outside the model: a finished delivery is an event carrying its error.
 */
module QueuedServer {
  import opened Wrappers
  import opened Collaborators
  import Transporter
  import ServerSink

  const SendFailure: string := "Failed to send log to server: "

  /**
   * What one `showError` call for a delivery outcome `result` at `now`
   * prints, and when an error was last shown afterwards: nothing when the
   * delivery succeeded, errors are suppressed or the last one shown is
   * less than ten minutes old.
   */
  function Report(suppress: bool, last: int, result: Option<string>, now: int, ext: Externals): (r: (seq<string>, int))
    ensures |r.0| <= 1 && (r.0 != [] ==> result.Some?)
    ensures r.1 == last || (r.1 == now && result.Some? && !suppress && ErrorDue(last, now))
  {
    if result.Some? && !suppress && ErrorDue(last, now) then
      (Transporter.ErrorLines(SendFailure + result.value, ext), now)
    else ([], last)
  }

  /** What the worker prints for the outcomes `results` at clock readings `times`, in order. */
  function Reports(suppress: bool, last: int, results: seq<Option<string>>, times: seq<int>, ext: Externals): (r: (seq<string>, int))
    requires |results| == |times|
    decreases |results|
  {
    if results == [] then ([], last)
    else
      var head := Report(suppress, last, results[0], times[0], ext);
      var rest := Reports(suppress, head.1, results[1..], times[1..], ext);
      (head.0 + rest.0, rest.1)
  }

  /** The number of failed deliveries among `results`. */
  function Failures(results: seq<Option<string>>): nat {
    if results == [] then 0 else (if results[0].Some? then 1 else 0) + Failures(results[1..])
  }

  /** At most one console line per failed delivery, and none without failures. */
  lemma {:induction false} ReportsBounded(suppress: bool, last: int, results: seq<Option<string>>, times: seq<int>, ext: Externals)
    requires |results| == |times|
    ensures |Reports(suppress, last, results, times, ext).0| <= Failures(results)
    decreases |results|
  {
    if results != [] {
      ReportsBounded(suppress, Report(suppress, last, results[0], times[0], ext).1, results[1..], times[1..], ext);
    }
  }

  /** With `SuppressErrors` set, failed deliveries print nothing and leave the last showing alone. */
  lemma {:induction false} SuppressedReportsNothing(last: int, results: seq<Option<string>>, times: seq<int>, ext: Externals)
    requires |results| == |times|
    ensures Reports(true, last, results, times, ext) == ([], last)
    decreases |results|
  {
    if results != [] {
      var head := Report(true, last, results[0], times[0], ext);
      assert head == ([], last);
      var rest := Reports(true, last, results[1..], times[1..], ext);
      SuppressedReportsNothing(last, results[1..], times[1..], ext);
      assert rest == ([], last);
      assert Reports(true, last, results, times, ext) == (head.0 + rest.0, rest.1);
      assert head.0 + rest.0 == [];
    }
  }

  /** Afterwards the last showing is the one before or the clock reading of a delivery. */
  lemma {:induction false} ReportsKeepLast(suppress: bool, last: int, results: seq<Option<string>>, times: seq<int>, ext: Externals)
    requires |results| == |times|
    ensures var r := Reports(suppress, last, results, times, ext);
      r.1 == last || r.1 in times
    decreases |results|
  {
    if results != [] {
      var head := Report(suppress, last, results[0], times[0], ext);
      ReportsKeepLast(suppress, head.1, results[1..], times[1..], ext);
      assert times == [times[0]] + times[1..];
    }
  }

  /**
   * Output so far followed by the reports of the outcomes from `i` on,
   * after delivering entry `i`.
   */
  lemma ReportsStep(suppress: bool, last: int, results: seq<Option<string>>, times: seq<int>, i: nat, ext: Externals, out: seq<string>)
    requires |results| == |times| && i < |results|
    ensures var head := Report(suppress, last, results[i], times[i], ext);
      var rest := Reports(suppress, head.1, results[i + 1..], times[i + 1..], ext);
      var all := Reports(suppress, last, results[i..], times[i..], ext);
      out + all.0 == (out + head.0) + rest.0 && all.1 == rest.1
  {
    var head := Report(suppress, last, results[i], times[i], ext);
    assert results[i..][1..] == results[i + 1..] && times[i..][1..] == times[i + 1..];
    var rest := Reports(suppress, head.1, results[i + 1..], times[i + 1..], ext);
    assert Reports(suppress, last, results[i..], times[i..], ext) == (head.0 + rest.0, rest.1);
    assert out + (head.0 + rest.0) == (out + head.0) + rest.0;
  }

  class ServerTransporter {
    const Type: string
    const URL: string
    const Secret: string
    var MinLevel: string
    const SuppressErrors: bool
    /** The queue exists (`queue != nil`). */
    var running: bool
    var pending: seq<ServerSink.LogEntry>
    var sent: seq<ServerSink.LogEntry>
    var lastErrorShown: int

    constructor(kind: string, url: string, secret: string, minLevel: string, suppressErrors: bool)
      ensures Type == kind && URL == url && Secret == secret && MinLevel == minLevel && SuppressErrors == suppressErrors
      ensures !running && pending == [] && sent == [] && lastErrorShown == 0
    {
      Type, URL, Secret, MinLevel, SuppressErrors := kind, url, secret, minLevel, suppressErrors;
      running, pending, sent, lastErrorShown := false, [], [], 0;
    }

    /**
     * `Init`: a minimum level outside the level order is dropped, and a
     * new, empty queue starts. It never fails.
     */
    method Init(ext: Externals) returns (err: Option<string>)
      modifies this
      ensures err == None && running && pending == []
      ensures MinLevel == if old(MinLevel) != "" && ext.rank(old(MinLevel)) == 0 then "" else old(MinLevel)
      ensures sent == old(sent) && lastErrorShown == old(lastErrorShown)
    {
      if MinLevel != "" && ext.rank(MinLevel) == 0 {
        MinLevel := "";
      }
      running := true;
      pending := [];
      return None;
    }

    /**
     * `Transport`: entries below `MinLevel` are dropped; the others, with
     * the secret when it is set, join the queue. The queue must exist.
     */
    method Transport(level: string, msg: string, date: Date, ext: Externals)
      requires running
      modifies this
      ensures running && sent == old(sent) && lastErrorShown == old(lastErrorShown) && MinLevel == old(MinLevel)
      ensures pending == if GreaterEquals(ext, level, MinLevel)
                         then old(pending) + [ServerSink.MakeEntry(Type, level, msg, date, Secret)]
                         else old(pending)
    {
      if !GreaterEquals(ext, level, MinLevel) {
        return;
      }
      var e := ServerSink.MakeEntry(Type, level, msg, date, Secret);
      pending := pending + [e];
    }

    /**
     * `showError`: unless errors are suppressed, print the error through a
     * colour console transporter if the last one shown is more than ten
     * minutes old, and remember `now`.
     */
    method ShowError(err: string, now: int, ext: Externals, stdout: Writer)
      modifies this, stdout
      ensures running == old(running) && pending == old(pending) && sent == old(sent) && MinLevel == old(MinLevel)
      ensures !SuppressErrors && ErrorDue(old(lastErrorShown), now) ==>
        lastErrorShown == now && stdout.written == old(stdout.written) + Transporter.ErrorLines(SendFailure + err, ext)
      ensures SuppressErrors || !ErrorDue(old(lastErrorShown), now) ==>
        lastErrorShown == old(lastErrorShown) && stdout.written == old(stdout.written)
    {
      if !SuppressErrors && ErrorDue(lastErrorShown, now) {
        Transporter.ShowOnConsole(SendFailure + err, ext, stdout);
        lastErrorShown := now;
      }
    }

    /**
     * The worker delivered the oldest entry at `now`; its error, if any,
     * goes through `showError`.
     */
    method Deliver(result: Option<string>, now: int, ext: Externals, stdout: Writer)
      requires running && pending != []
      modifies this, stdout
      ensures running && MinLevel == old(MinLevel)
      ensures sent == old(sent) + [old(pending[0])] && pending == old(pending[1..])
      ensures var r := Report(SuppressErrors, old(lastErrorShown), result, now, ext);
        stdout.written == old(stdout.written) + r.0 && lastErrorShown == r.1
    {
      sent := sent + [pending[0]];
      pending := pending[1..];
      if result.Some? {
        ShowError(result.value, now, ext, stdout);
      }
    }

    /**
     * Inside `Close`, after `i` rounds: the first `i` of the entries
     * `queued` have been sent, and the reports of the outcomes from `i`
     * on are still to be printed to reach `final`.
     */
    ghost predicate Remaining(results: seq<Option<string>>, times: seq<int>, i: nat, ext: Externals, stdout: Writer,
                              queued: seq<ServerSink.LogEntry>, before: seq<ServerSink.LogEntry>, final: seq<string>, last: int)
      reads this, stdout
    {
      && |results| == |times| == |queued| && i <= |results|
      && pending == queued[i..] && sent == before + queued[..i]
      && var rest := Reports(SuppressErrors, lastErrorShown, results[i..], times[i..], ext);
        stdout.written + rest.0 == final && rest.1 == last
    }

    /** One round of the worker inside `Close`: entry `i` is delivered. */
    method DeliverAt(results: seq<Option<string>>, times: seq<int>, i: nat, ext: Externals, stdout: Writer,
                     ghost queued: seq<ServerSink.LogEntry>, ghost before: seq<ServerSink.LogEntry>, ghost final: seq<string>, ghost last: int)
      requires running && i < |results| && Remaining(results, times, i, ext, stdout, queued, before, final, last)
      modifies this, stdout
      ensures running && MinLevel == old(MinLevel)
      ensures Remaining(results, times, i + 1, ext, stdout, queued, before, final, last)
    {
      ReportsStep(SuppressErrors, lastErrorShown, results, times, i, ext, stdout.written);
      assert queued[..i + 1] == queued[..i] + [queued[i]] && queued[i..][1..] == queued[i + 1..];
      Deliver(results[i], times[i], ext, stdout);
    }

    /**
     * `Close`: the worker delivers every queued entry, in order, with the
     * outcomes `results` at clock readings `times`, and the queue stops.
     */
    method Close(results: seq<Option<string>>, times: seq<int>, ext: Externals, stdout: Writer)
      requires running && |results| == |times| == |pending|
      modifies this, stdout
      ensures !running && pending == [] && sent == old(sent) + old(pending) && MinLevel == old(MinLevel)
      ensures var r := Reports(SuppressErrors, old(lastErrorShown), results, times, ext);
        stdout.written == old(stdout.written) + r.0 && lastErrorShown == r.1
    {
      ghost var total := Reports(SuppressErrors, lastErrorShown, results, times, ext);
      ghost var final := stdout.written + total.0;
      ghost var queued := pending;
      assert results[0..] == results && times[0..] == times && queued[..0] == [];
      var i := 0;
      while i < |results|
        invariant i <= |results| && running && MinLevel == old(MinLevel)
        invariant Remaining(results, times, i, ext, stdout, queued, old(sent), final, total.1)
        decreases |results| - i
      {
        DeliverAt(results, times, i, ext, stdout, queued, old(sent), final, total.1);
        i := i + 1;
      }
      assert results[i..] == [] && times[i..] == [] && queued[..i] == queued;
      running := false;
    }
  }
}
