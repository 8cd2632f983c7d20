/**
 * `ServerTransporter` of `transporter.go` and of `transport.go`: accepted
 * entries are pushed, in order, onto a job queue with a concurrency limit
 * of 1 that is created on the first accepted entry; delivery errors are
 * printed at most once every ten minutes; `Close` stops the queue, waits
 * for it and forgets it. The two files agree on all of this and differ
 * only in how the console prints the error, so one class serves both,
 * told apart by `revision`. The HTTP delivery itself is outside the model:
 * a finished delivery is an event carrying its error, if any.
 */
module ServerSink {
  import opened Wrappers
  import opened Collaborators
  import opened JobQueue
  import Transporter
  import TransportConsole = Transport

  datatype Revision = TransporterFile | TransportFile

  /** `logEntry`: what is sent to the log server. */
  datatype LogEntry = LogEntry(kind: string, level: string, date: string, message: string, secret: string)

  /**
   * The entry `Transport` builds. The secret is copied only when it is not
   * empty, which leaves the field equal to the transporter's secret either
   * way.
   */
  function MakeEntry(kind: string, level: string, msg: string, date: Date, secret: string): (e: LogEntry)
    ensures e.kind == kind && e.level == level && e.message == msg && e.date == date.rfc3339
    ensures e.secret == secret
  {
    var e := LogEntry(kind, level, date.rfc3339, msg, "");
    if secret != "" then e.(secret := secret) else e
  }

  const SendFailure: string := "Failed to send log to server: "

  /** What the console of each revision prints for a delivery error. */
  function ErrorLines(revision: Revision, err: string, ext: Externals): seq<string> {
    match revision
    case TransporterFile => Transporter.ErrorLines(SendFailure + err, ext)
    case TransportFile => TransportConsole.ErrorLines(SendFailure + err, ext)
  }

  class ServerTransporter {
    const revision: Revision
    const Type: string
    const URL: string
    const Secret: string
    const MinLevel: string
    var queue: Queue?<LogEntry>
    var lastErrorShown: int

    /** A queue, when there is one, is running, single-worker and not suspended. */
    ghost predicate Valid()
      reads this, queue
    {
      queue != null ==> queue.Valid() && queue.limit == 1 && !queue.stopped && !queue.suspended
    }

    constructor(revision: Revision, kind: string, url: string, secret: string, minLevel: string)
      ensures Valid() && queue == null && lastErrorShown == 0
      ensures this.revision == revision && Type == kind && URL == url && Secret == secret && MinLevel == minLevel
    {
      this.revision := revision;
      Type, URL, Secret, MinLevel := kind, url, secret, minLevel;
      queue := null;
      lastErrorShown := 0;
    }

    /**
     * `Transport`: entries below `MinLevel` are dropped; the others are
     * pushed onto the queue, which is created first if there is none.
     */
    method Transport(level: string, msg: string, date: Date, ext: Externals)
      requires Valid()
      modifies this, queue
      ensures Valid()
      ensures lastErrorShown == old(lastErrorShown)
      ensures !GreaterEquals(ext, level, MinLevel) ==>
        queue == old(queue) && (queue != null ==> unchanged(queue))
      ensures GreaterEquals(ext, level, MinLevel) && old(queue) == null ==>
        queue != null && fresh(queue) &&
        queue.State() == Step(Init(1), Push(MakeEntry(Type, level, msg, date, Secret)))
      ensures GreaterEquals(ext, level, MinLevel) && old(queue) != null ==>
        queue == old(queue) &&
        queue.State() == Step(old(queue.State()), Push(MakeEntry(Type, level, msg, date, Secret)))
    {
      if !GreaterEquals(ext, level, MinLevel) {
        return;
      }
      if queue == null {
        queue := new Queue<LogEntry>(1);
      }
      var e := MakeEntry(Type, level, msg, date, Secret);
      ghost var s := queue.State();
      queue.PushJob(e);
      StepPreservesInv(s, Push(e));
    }

    /**
     * `showError`: print the error only if the previous one was shown more
     * than ten minutes before `now`, and then remember `now`.
     */
    method ShowError(err: string, now: int, ext: Externals, stdout: Writer)
      modifies this, stdout
      ensures queue == old(queue)
      ensures ErrorDue(old(lastErrorShown), now) ==>
        lastErrorShown == now && stdout.written == old(stdout.written) + ErrorLines(revision, err, ext)
      ensures !ErrorDue(old(lastErrorShown), now) ==> unchanged(this) && unchanged(stdout)
    {
      if ErrorDue(lastErrorShown, now) {
        match revision {
          case TransporterFile => Transporter.ShowOnConsole(SendFailure + err, ext, stdout);
          case TransportFile => TransportConsole.ShowOnConsole(SendFailure + err, ext, stdout);
        }
        lastErrorShown := now;
      }
    }

    /**
     * A delivery finished: its error, if any, goes through `showError`,
     * then the job leaves the queue.
     */
    method Delivered(result: Option<string>, now: int, ext: Externals, stdout: Writer)
      requires Valid() && queue != null && queue.count > 0
      modifies this, queue, stdout
      ensures Valid() && queue == old(queue)
      ensures queue.State() == Step(old(queue.State()), Complete)
      ensures result.Some? && ErrorDue(old(lastErrorShown), now) ==>
        lastErrorShown == now && stdout.written == old(stdout.written) + ErrorLines(revision, result.value, ext)
      ensures result.None? || !ErrorDue(old(lastErrorShown), now) ==>
        lastErrorShown == old(lastErrorShown) && stdout.written == old(stdout.written)
    {
      if result.Some? {
        ShowError(result.value, now, ext, stdout);
      }
      ghost var s := queue.State();
      queue.CompleteJob();
      StepPreservesInv(s, Complete);
    }

    /**
     * `Close`: with a queue, stop it, wait for it and forget it; without
     * one, do nothing. Entries still buffered when the queue stops are
     * dropped, not sent.
     */
    method Close()
      requires Valid()
      modifies this, queue
      ensures Valid() && queue == null && lastErrorShown == old(lastErrorShown)
      ensures old(queue) == null ==> unchanged(this)
      ensures old(queue) != null ==>
        var q := old(queue);
        && q.exited && q.waitGroup == 0
        && q.started == old(q.started)
        && q.discarded == old(q.discarded) + old(q.buffer)
    {
      if queue != null {
        queue.StopQueue();
        NoDispatchWhileBlocked(old(queue.State()), Stop);
        queue.Wait();
        queue := null;
      }
    }
  }

  /** With a concurrency limit of 1, at most one delivery runs at a time. */
  lemma OneDeliveryAtATime(t: ServerTransporter)
    requires t.Valid() && t.queue != null
    ensures 0 <= t.queue.count <= 1
  {
  }
}
