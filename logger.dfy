/**
 * The `Logger` of `log.go`: a list of transporters that every log call
 * fans out to. A transporter is reached through the `Transporter`
 * interface and, when it implements them, the optional `Init` and `Close`
 * methods; what it does with a call is its own business, so the model
 * records the calls the logger makes, in order, and takes the outcome of
 * each transporter's `Init` as part of the transporter.
 */
module Logging {
  import opened Wrappers
  import opened Collaborators

  /**
   * A transporter as the logger sees it: whether it implements
   * `initTransporter` and what its `Init` returns, and whether it
   * implements `closeTransporter`.
   */
  datatype Transporter = Transporter(id: nat, initable: bool, initError: Option<string>, closable: bool)

  /** A call the logger makes into a transporter. */
  datatype Call =
    | InitCall(t: Transporter)
    | TransportCall(t: Transporter, level: string, msg: string, date: Date)
    | CloseCall(t: Transporter)

  /** `t` implements `initTransporter` and its `Init` fails. */
  predicate InitFails(t: Transporter) {
    t.initable && t.initError.Some?
  }

  /** The error `init` stops at: the first initialisable transporter whose `Init` fails. */
  function FirstInitError(ts: seq<Transporter>): (r: Option<string>)
    ensures r.Some? <==> exists i :: 0 <= i < |ts| && InitFails(ts[i])
  {
    if ts == [] then None
    else if InitFails(ts[0]) then ts[0].initError
    else
      var r := FirstInitError(ts[1..]);
      assert forall i :: 1 <= i < |ts| ==> ts[1..][i - 1] == ts[i];
      r
  }

  /** No transporter before position `k` is initialisable with a failing `Init`. */
  predicate NoFailureBefore(ts: seq<Transporter>, k: nat)
    requires k <= |ts|
  {
    forall j :: 0 <= j < k ==> !InitFails(ts[j])
  }

  /**
   * The error `init` returns is that of the first failing transporter:
   * `k` is its position, and no transporter before it fails.
   */
  lemma {:induction false} FirstInitErrorIsFirst(ts: seq<Transporter>) returns (k: nat)
    requires FirstInitError(ts).Some?
    ensures k < |ts| && InitFails(ts[k]) && FirstInitError(ts) == ts[k].initError && NoFailureBefore(ts, k)
    decreases |ts|
  {
    if InitFails(ts[0]) {
      k := 0;
    } else {
      var rest := FirstInitErrorIsFirst(ts[1..]);
      k := rest + 1;
      assert ts[k] == ts[1..][rest];
      assert forall j :: 1 <= j < k ==> ts[j] == ts[1..][j - 1];
    }
  }

  /** The `Init` calls `init` makes: one per initialisable transporter, up to the first failure. */
  function InitCalls(ts: seq<Transporter>): seq<Call> {
    if ts == [] then []
    else if !ts[0].initable then InitCalls(ts[1..])
    else if ts[0].initError.Some? then [InitCall(ts[0])]
    else [InitCall(ts[0])] + InitCalls(ts[1..])
  }

  /** The `Transport` calls of one log call: the same entry for every transporter, in list order. */
  function Fanout(ts: seq<Transporter>, level: string, msg: string, date: Date): (r: seq<Call>)
    ensures |r| == |ts|
    ensures forall i :: 0 <= i < |ts| ==> r[i] == TransportCall(ts[i], level, msg, date)
  {
    if ts == [] then []
    else [TransportCall(ts[0], level, msg, date)] + Fanout(ts[1..], level, msg, date)
  }

  /** The `Close` calls of `Close`: one per closable transporter, in list order. */
  function CloseCalls(ts: seq<Transporter>): seq<Call> {
    if ts == [] then []
    else (if ts[0].closable then [CloseCall(ts[0])] else []) + CloseCalls(ts[1..])
  }

  /** The arguments of a log call joined by single spaces, with no separator at either end. */
  function Join(args: seq<string>): string {
    if args == [] then ""
    else if |args| == 1 then args[0]
    else args[0] + " " + Join(args[1..])
  }

  /** Appending an argument adds one space and the argument. */
  lemma {:induction false} JoinSnoc(args: seq<string>, a: string)
    requires args != []
    ensures Join(args + [a]) == Join(args) + " " + a
    decreases |args|
  {
    if |args| > 1 {
      JoinSnoc(args[1..], a);
      assert (args + [a])[1..] == args[1..] + [a];
    } else {
      assert (args + [a])[1..] == [a];
    }
  }

  /** The position of the first space in `s`, or `|s|`. */
  function SpaceAt(s: string): (i: nat)
    ensures i <= |s| && (i < |s| ==> s[i] == ' ')
    ensures forall k :: 0 <= k < i ==> s[k] != ' '
  {
    if s == [] || s[0] == ' ' then 0
    else
      var i := SpaceAt(s[1..]);
      assert forall k :: 1 <= k < i + 1 ==> s[k] == s[1..][k - 1];
      i + 1
  }

  /** Cuts `s` at every space: `strings.Split(s, " ")`. */
  function Split(s: string): (r: seq<string>)
    ensures r != []
    decreases |s|
  {
    var i := SpaceAt(s);
    if i == |s| then [s] else [s[..i]] + Split(s[i + 1..])
  }

  /** Arguments without spaces can be read back from the message. */
  lemma {:induction false} SplitJoin(args: seq<string>)
    requires args != []
    requires forall i :: 0 <= i < |args| ==> ' ' !in args[i]
    ensures Split(Join(args)) == args
    decreases |args|
  {
    var a := args[0];
    if |args| == 1 {
      NoSpaceAt(a);
    } else {
      var s := Join(args);
      assert s == a + " " + Join(args[1..]);
      NoSpaceAt(a);
      assert SpaceAt(s) == |a| by {
        SpaceAfter(a, Join(args[1..]));
      }
      assert s[..|a|] == a && s[|a| + 1..] == Join(args[1..]);
      SplitJoin(args[1..]);
    }
  }

  lemma NoSpaceAt(a: string)
    requires ' ' !in a
    ensures SpaceAt(a) == |a|
  {
  }

  lemma SpaceAfter(a: string, b: string)
    requires ' ' !in a
    ensures SpaceAt(a + " " + b) == |a|
  {
    var s := a + " " + b;
    assert s[|a|] == ' ';
    assert forall k :: 0 <= k < |a| ==> s[k] == a[k];
  }

  /** A logger: its transporters and the calls it has made into them. */
  class Logger {
    var ts: seq<Transporter>
    var calls: seq<Call>

    /** `&Logger{mu: new(sync.Mutex)}`: no transporters yet. */
    constructor()
      ensures ts == [] && calls == []
    {
      ts := [];
      calls := [];
    }

    /**
     * `init`: call `Init` on each initialisable transporter in turn; the
     * first error is returned and leaves the list as it was, otherwise the
     * list becomes `given`.
     */
    method Init(given: seq<Transporter>) returns (err: Option<string>)
      modifies this
      ensures err == FirstInitError(given)
      ensures calls == old(calls) + InitCalls(given)
      ensures err.Some? ==> ts == old(ts)
      ensures err.None? ==> ts == given
    {
      var i := 0;
      while i < |given|
        invariant 0 <= i <= |given|
        invariant FirstInitError(given) == FirstInitError(given[i..])
        invariant calls + InitCalls(given[i..]) == old(calls) + InitCalls(given)
        invariant ts == old(ts)
      {
        var t := given[i];
        assert given[i..][1..] == given[i + 1..];
        if t.initable {
          calls := calls + [InitCall(t)];
          if t.initError.Some? {
            return t.initError;
          }
        }
        i := i + 1;
      }
      ts := given;
      return None;
    }

    /** The message loop of `Log`: each argument, then a space unless it is the last. */
    static method JoinArgs(args: seq<string>) returns (msg: string)
      ensures msg == Join(args)
    {
      msg := "";
      var i := 0;
      while i < |args|
        invariant 0 <= i <= |args|
        invariant msg == if 0 < i < |args| then Join(args[..i]) + " " else Join(args[..i])
      {
        if i > 0 {
          JoinSnoc(args[..i], args[i]);
        }
        assert args[..i + 1] == args[..i] + [args[i]];
        msg := msg + args[i];
        if i < |args| - 1 {
          msg := msg + " ";
        }
        i := i + 1;
      }
      assert args[..i] == args;
    }

    /**
     * `Log`: join the already formatted arguments and hand the entry,
     * stamped with `date`, to every transporter in list order.
     */
    method Log(level: string, args: seq<string>, date: Date)
      modifies this
      ensures ts == old(ts)
      ensures calls == old(calls) + Fanout(ts, level, Join(args), date)
    {
      var msg := JoinArgs(args);
      var i := 0;
      while i < |ts|
        invariant 0 <= i <= |ts| && ts == old(ts)
        invariant calls == old(calls) + Fanout(ts[..i], level, msg, date)
      {
        FanoutSnoc(ts[..i], ts[i], level, msg, date);
        assert ts[..i + 1] == ts[..i] + [ts[i]];
        calls := calls + [TransportCall(ts[i], level, msg, date)];
        i := i + 1;
      }
      assert ts[..i] == ts;
    }

    /** `Close`: close every closable transporter in list order, then forget them all. */
    method Close()
      modifies this
      ensures ts == []
      ensures calls == old(calls) + CloseCalls(old(ts))
    {
      var i := 0;
      while i < |ts|
        invariant 0 <= i <= |ts| && ts == old(ts)
        invariant calls == old(calls) + CloseCalls(ts[..i])
      {
        CloseCallsSnoc(ts[..i], ts[i]);
        assert ts[..i + 1] == ts[..i] + [ts[i]];
        if ts[i].closable {
          calls := calls + [CloseCall(ts[i])];
        }
        i := i + 1;
      }
      assert ts[..i] == ts;
      ts := [];
    }

    /**
     * A log call after `Close` reaches no transporter: the calls made are
     * the closes and nothing more.
     */
    method CloseThenLog(level: string, args: seq<string>, date: Date)
      modifies this
      ensures ts == []
      ensures calls == old(calls) + CloseCalls(old(ts))
    {
      Close();
      Log(level, args, date);
    }
  }

  lemma {:induction false} FanoutSnoc(ts: seq<Transporter>, t: Transporter, level: string, msg: string, date: Date)
    ensures Fanout(ts + [t], level, msg, date) == Fanout(ts, level, msg, date) + [TransportCall(t, level, msg, date)]
  {
    var r := Fanout(ts + [t], level, msg, date);
    assert r == Fanout(ts, level, msg, date) + [TransportCall(t, level, msg, date)];
  }

  lemma {:induction false} CloseCallsSnoc(ts: seq<Transporter>, t: Transporter)
    ensures CloseCalls(ts + [t]) == CloseCalls(ts) + (if t.closable then [CloseCall(t)] else [])
    decreases |ts|
  {
    if ts == [] {
      assert [t][1..] == [];
    } else {
      var u := ts + [t];
      var head: seq<Call> := if ts[0].closable then [CloseCall(ts[0])] else [];
      var last: seq<Call> := if t.closable then [CloseCall(t)] else [];
      assert u[0] == ts[0] && u[1..] == ts[1..] + [t];
      assert CloseCalls(u) == head + CloseCalls(ts[1..] + [t]);
      CloseCallsSnoc(ts[1..], t);
      assert CloseCalls(ts) == head + CloseCalls(ts[1..]);
      assert head + (CloseCalls(ts[1..]) + last) == (head + CloseCalls(ts[1..])) + last;
    }
  }

  /**
   * `CreateLogger`: a new logger initialised with `given`; when `init`
   * fails there is no logger, only the error.
   */
  method CreateLogger(given: seq<Transporter>) returns (l: Logger?, err: Option<string>)
    ensures err == FirstInitError(given)
    ensures err.Some? ==> l == null
    ensures err.None? ==> l != null && fresh(l) && l.ts == given && l.calls == InitCalls(given)
  {
    var logger := new Logger();
    err := logger.Init(given);
    if err.Some? {
      return null, err;
    }
    return logger, None;
  }

  /**
   * The `Init` calls stop at the first failure: every call is to an
   * initialisable transporter, in list order, and only the last can have
   * failed.
   */
  lemma {:induction false} InitCallsStop(ts: seq<Transporter>)
    ensures var c := InitCalls(ts);
      && (forall i :: 0 <= i < |c| ==> c[i].InitCall? && c[i].t in ts && c[i].t.initable)
      && (forall i :: 0 <= i < |c| - 1 ==> c[i].t.initError.None?)
      && (FirstInitError(ts).Some? <==> c != [] && c[|c| - 1].t.initError.Some?)
    decreases |ts|
  {
    if ts != [] {
      InitCallsStop(ts[1..]);
      var c, d := InitCalls(ts), InitCalls(ts[1..]);
      if ts[0].initable && ts[0].initError.None? {
        assert c == [InitCall(ts[0])] + d;
        assert forall i :: 1 <= i < |c| ==> c[i] == d[i - 1];
      }
    }
  }

  /** The `i`-th `Init` call goes to the transporter at position `idx[i]`, an initialisable one. */
  predicate CalledAt(ts: seq<Transporter>, c: seq<Call>, idx: seq<nat>) {
    |idx| == |c| && forall i :: 0 <= i < |idx| ==> idx[i] < |ts| && c[i] == InitCall(ts[idx[i]]) && ts[idx[i]].initable
  }

  predicate Ascending(idx: seq<nat>) {
    forall i, j :: 0 <= i < j < |idx| ==> idx[i] < idx[j]
  }

  /**
   * The `Init` calls follow the list: the `i`-th call goes to the
   * transporter at position `idx[i]`, the positions increase, and every
   * initialisable transporter before the first failure is called.
   */
  lemma {:induction false} InitCallsOrdered(ts: seq<Transporter>) returns (idx: seq<nat>)
    ensures CalledAt(ts, InitCalls(ts), idx) && Ascending(idx)
    ensures forall k :: 0 <= k < |ts| && ts[k].initable && NoFailureBefore(ts, k) ==> k in idx
    decreases |ts|
  {
    if ts == [] {
      return [];
    }
    var rest := InitCallsOrdered(ts[1..]);
    var shifted := Shifted(ts, rest);
    if !ts[0].initable {
      idx := shifted;
      CoveredWithoutFirst(ts, shifted);
    } else if ts[0].initError.Some? {
      idx := [0];
    } else {
      idx := [0] + shifted;
      CalledFirst(ts, shifted);
      AscendingAfterZero(shifted);
      CoveredWithFirst(ts, shifted);
    }
  }

  /** A first transporter whose `Init` succeeds gets the first call, ahead of the calls `shifted` of the rest. */
  lemma {:induction false} CalledFirst(ts: seq<Transporter>, shifted: seq<nat>)
    requires ts != [] && ts[0].initable && ts[0].initError.None?
    requires CalledAt(ts, InitCalls(ts[1..]), shifted)
    ensures CalledAt(ts, InitCalls(ts), [0] + shifted)
  {
    var c, d, idx := InitCalls(ts), InitCalls(ts[1..]), [0] + shifted;
    assert c == [InitCall(ts[0])] + d;
    forall i | 0 <= i < |idx| ensures idx[i] < |ts| && c[i] == InitCall(ts[idx[i]]) && ts[idx[i]].initable {
      if i > 0 {
        assert idx[i] == shifted[i - 1] && c[i] == d[i - 1];
      }
    }
  }

  lemma {:induction false} AscendingAfterZero(shifted: seq<nat>)
    requires Ascending(shifted) && forall i :: 0 <= i < |shifted| ==> shifted[i] > 0
    ensures Ascending([0] + shifted)
  {
    var idx := [0] + shifted;
    forall i, j | 0 <= i < j < |idx| ensures idx[i] < idx[j] {
      assert idx[j] == shifted[j - 1];
      if i > 0 {
        assert idx[i] == shifted[i - 1];
      }
    }
  }

  lemma {:induction false} CoveredWithoutFirst(ts: seq<Transporter>, shifted: seq<nat>)
    requires ts != [] && !ts[0].initable
    requires forall k :: 1 <= k < |ts| && ts[k].initable && NoFailureBefore(ts[1..], k - 1) ==> k in shifted
    ensures forall k :: 0 <= k < |ts| && ts[k].initable && NoFailureBefore(ts, k) ==> k in shifted
  {
    forall k | 0 <= k < |ts| && ts[k].initable && NoFailureBefore(ts, k) ensures k in shifted {
      assert k != 0 && NoFailureBefore(ts[1..], k - 1);
    }
  }

  lemma {:induction false} CoveredWithFirst(ts: seq<Transporter>, shifted: seq<nat>)
    requires ts != [] && !InitFails(ts[0])
    requires forall k :: 1 <= k < |ts| && ts[k].initable && NoFailureBefore(ts[1..], k - 1) ==> k in shifted
    ensures forall k :: 1 <= k < |ts| && ts[k].initable && NoFailureBefore(ts, k) ==> k in [0] + shifted
  {
    forall k | 1 <= k < |ts| && ts[k].initable && NoFailureBefore(ts, k) ensures k in [0] + shifted {
      assert NoFailureBefore(ts[1..], k - 1) by {
        assert forall j :: 0 <= j < k - 1 ==> ts[1..][j] == ts[j + 1];
      }
    }
  }

  /** The positions `rest` of `ts[1..]`, moved up by one to be positions of `ts`. */
  lemma Shifted(ts: seq<Transporter>, rest: seq<nat>) returns (shifted: seq<nat>)
    requires ts != [] && CalledAt(ts[1..], InitCalls(ts[1..]), rest) && Ascending(rest)
    requires forall k :: 0 <= k < |ts| - 1 && ts[1..][k].initable && NoFailureBefore(ts[1..], k) ==> k in rest
    ensures CalledAt(ts, InitCalls(ts[1..]), shifted) && Ascending(shifted)
    ensures forall i :: 0 <= i < |shifted| ==> shifted[i] > 0
    ensures forall k :: 1 <= k < |ts| && ts[k].initable && NoFailureBefore(ts[1..], k - 1) ==> k in shifted
  {
    shifted := seq(|rest|, i requires 0 <= i < |rest| => rest[i] + 1);
    forall k | 1 <= k < |ts| && ts[k].initable && NoFailureBefore(ts[1..], k - 1) ensures k in shifted {
      assert ts[1..][k - 1] == ts[k];
      var i :| 0 <= i < |rest| && rest[i] == k - 1;
      assert shifted[i] == k;
    }
  }
}
