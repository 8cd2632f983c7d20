/**
 * The job queue of `queue.go`: a run loop that receives push, pop (a job
 * finished), suspend and stop events one at a time, and after each event
 * either exits or starts buffered jobs, oldest first, while the
 * concurrency limit allows. The goroutines that run the jobs are outside
 * the model: a started job is recorded in `started`, and its completion is
 * the `Complete` event. The `sync.WaitGroup` is a ghost counter.
 */
module JobQueue {

  datatype Event<J> =
    | Push(job: J)          // pushJob: the value arrives on the push channel
    | Complete              // a started job finished: pop, then wg.Done
    | Suspend(flag: bool)   // a value on the suspend channel
    | Stop                  // stopQueue

  /**
   * The variables of `run` and the wait group. `started` and `discarded`
   * record, in order, the jobs handed to a goroutine and the jobs dropped
   * when the loop exited; `exited` says that `run` has returned.
   */
  datatype QueueState<J> = QueueState(
    limit: int,
    buffer: seq<J>,
    count: int,
    suspended: bool,
    stopped: bool,
    waitGroup: int,
    exited: bool,
    started: seq<J>,
    discarded: seq<J>)

  /** `newQueue(handler, limit)`: an empty queue whose loop is running. */
  function Init<J>(limit: int): QueueState<J> {
    QueueState(limit, [], 0, false, false, 0, false, [], [])
  }

  /** The condition of the dispatch loop. */
  predicate CanDispatch<J>(s: QueueState<J>) {
    (s.count < s.limit || s.limit == 0) && |s.buffer| > 0 && !(s.suspended || s.stopped)
  }

  /** The dispatch loop: start `buffer[0]` while the condition holds. */
  function Dispatch<J>(s: QueueState<J>): QueueState<J>
    decreases |s.buffer|
  {
    if CanDispatch(s) then
      Dispatch(s.(buffer := s.buffer[1..], count := s.count + 1, started := s.started + [s.buffer[0]]))
    else s
  }

  /** The deferred clean-up of `run`: buffered jobs are dropped from the wait group. */
  function Exit<J>(s: QueueState<J>): QueueState<J> {
    s.(waitGroup := s.waitGroup - |s.buffer|, discarded := s.discarded + s.buffer, buffer := [], exited := true)
  }

  /** What `run` does after every event: return when stopped and idle, else dispatch. */
  function Settle<J>(s: QueueState<J>): QueueState<J> {
    if s.stopped && s.count == 0 then Exit(s) else Dispatch(s)
  }

  /** The `select` arm for one event. */
  function Apply<J>(s: QueueState<J>, e: Event<J>): QueueState<J> {
    match e
    case Push(v) => s.(buffer := s.buffer + [v], waitGroup := s.waitGroup + 1)
    case Complete => s.(count := s.count - 1, waitGroup := s.waitGroup - 1)
    case Suspend(b) =>
      if b == s.suspended then s
      else s.(suspended := b, waitGroup := if b then s.waitGroup + 1 else s.waitGroup - 1)
    case Stop => s.(stopped := true)
  }

  /**
   * The events that can reach the loop: none once it has returned (a send
   * would then block forever), and a completion only for a running job.
   */
  predicate Accepts<J>(s: QueueState<J>, e: Event<J>) {
    !s.exited && (e.Complete? ==> s.count > 0)
  }

  function Step<J>(s: QueueState<J>, e: Event<J>): QueueState<J> {
    Settle(Apply(s, e))
  }

  /** The number of jobs one pass of the dispatch loop starts. */
  function DispatchCount<J>(s: QueueState<J>): nat {
    if s.suspended || s.stopped || |s.buffer| == 0 then 0
    else if s.limit == 0 then |s.buffer|
    else if s.count >= s.limit then 0
    else if s.limit - s.count < |s.buffer| then s.limit - s.count
    else |s.buffer|
  }

  /**
   * The dispatch loop takes the first `DispatchCount(s)` buffered jobs, in
   * order, and nothing else changes.
   */
  lemma {:induction false} DispatchTakesPrefix<J>(s: QueueState<J>)
    ensures DispatchCount(s) <= |s.buffer|
    ensures Dispatch(s) == s.(buffer := s.buffer[DispatchCount(s)..],
                              count := s.count + DispatchCount(s),
                              started := s.started + s.buffer[..DispatchCount(s)])
    decreases |s.buffer|
  {
    if CanDispatch(s) {
      var t := s.(buffer := s.buffer[1..], count := s.count + 1, started := s.started + [s.buffer[0]]);
      DispatchTakesPrefix(t);
      var k := DispatchCount(s);
      assert DispatchCount(t) == k - 1;
      assert t.buffer[k - 1..] == s.buffer[k..];
      assert t.started + t.buffer[..k - 1] == s.started + s.buffer[..k];
    }
  }

  /** The state after every event: the loop has either returned or cannot dispatch. */
  ghost predicate Inv<J>(s: QueueState<J>) {
    && s.count >= 0
    && s.waitGroup == |s.buffer| + s.count + (if s.suspended then 1 else 0)
    && (s.limit > 0 ==> s.count <= s.limit)
    && (s.exited ==> s.stopped && s.buffer == [] && s.count == 0)
    && (!s.exited ==> !CanDispatch(s) && !(s.stopped && s.count == 0) && s.discarded == [])
  }

  lemma InitInv<J>(limit: int)
    ensures Inv(Init<J>(limit))
  {
  }

  /**
   * Every accepted event keeps the wait-group accounting, the concurrency
   * bound and the settled shape of the state.
   */
  lemma StepPreservesInv<J>(s: QueueState<J>, e: Event<J>)
    requires Inv(s) && Accepts(s, e)
    ensures Inv(Step(s, e)) && Step(s, e).limit == s.limit
    ensures Step(s, e).stopped == (s.stopped || e.Stop?)
    ensures Step(s, e).suspended == (if e.Suspend? then e.flag else s.suspended)
  {
    var a := Apply(s, e);
    assert a.count >= 0;
    assert a.waitGroup == |a.buffer| + a.count + (if a.suspended then 1 else 0);
    assert a.limit > 0 ==> a.count <= a.limit;
    DispatchTakesPrefix(a);
  }

  /** Every job the queue has received: started, dropped, then still buffered. */
  function Received<J>(s: QueueState<J>): seq<J> {
    s.started + s.discarded + s.buffer
  }

  /**
   * FIFO: an event appends its pushed job, if any, to the received jobs,
   * and dispatching or exiting only moves jobs along that sequence.
   */
  lemma StepKeepsOrder<J>(s: QueueState<J>, e: Event<J>)
    requires Accepts(s, e) && s.discarded == []
    ensures Received(Step(s, e)) == Received(s) + (if e.Push? then [e.job] else [])
  {
    var a := Apply(s, e);
    if e.Push? {
      assert a.buffer == s.buffer + [e.job];
    } else {
      assert a.started == s.started && a.buffer == s.buffer;
    }
    SettleKeepsOrder(a);
  }

  lemma SettleKeepsOrder<J>(a: QueueState<J>)
    requires a.discarded == []
    ensures Received(Settle(a)) == Received(a)
  {
    var t := Settle(a);
    if a.stopped && a.count == 0 {
      assert t.started == a.started && t.discarded == a.buffer && t.buffer == [];
    } else {
      DispatchTakesPrefix(a);
      var k := DispatchCount(a);
      assert t.started == a.started + a.buffer[..k] && t.discarded == [] && t.buffer == a.buffer[k..];
      assert a.buffer == a.buffer[..k] + a.buffer[k..];
    }
  }

  /** An event the loop cannot block on while it is suspended or stopped starts no job. */
  lemma NoDispatchWhileBlocked<J>(s: QueueState<J>, e: Event<J>)
    requires Accepts(s, e)
    requires Apply(s, e).suspended || Apply(s, e).stopped
    ensures Step(s, e).started == s.started
    ensures !Step(s, e).exited ==> Step(s, e).buffer == Apply(s, e).buffer
  {
    DispatchTakesPrefix(Apply(s, e));
  }

  /**
   * A suspend event moves the wait group only when it flips the flag: up
   * by one when set, down by one when cleared; repeating the current
   * value changes nothing at all.
   */
  lemma SuspendAccounting<J>(s: QueueState<J>, b: bool)
    requires Inv(s) && !s.exited
    ensures b == s.suspended ==> Step(s, Suspend(b)) == s
    ensures b != s.suspended ==> Step(s, Suspend(b)).waitGroup == s.waitGroup + (if b then 1 else -1)
  {
    var a := Apply(s, Suspend(b));
    DispatchTakesPrefix(a);
  }

  /**
   * The loop returns only when it is stopped and no job is running; it then
   * drops every buffered job from the buffer and the wait group.
   */
  lemma ExitOnlyWhenIdle<J>(s: QueueState<J>, e: Event<J>)
    requires Accepts(s, e)
    ensures Step(s, e).exited <==> Apply(s, e).stopped && Apply(s, e).count == 0
    ensures Step(s, e).exited ==>
      Step(s, e).discarded == s.discarded + Apply(s, e).buffer && Step(s, e).buffer == [] &&
      Step(s, e).waitGroup == Apply(s, e).waitGroup - |Apply(s, e).buffer|
  {
    DispatchTakesPrefix(Apply(s, e));
  }

  /** `wg.Wait()` returns exactly when nothing is buffered, running or suspended. */
  lemma WaitReleases<J>(s: QueueState<J>)
    requires Inv(s)
    ensures s.waitGroup == 0 <==> s.buffer == [] && s.count == 0 && !s.suspended
  {
  }

  // ---------------------------------------------------------------------
  // Runs of events.

  ghost predicate Feasible<J>(s: QueueState<J>, es: seq<Event<J>>)
    decreases |es|
  {
    es == [] || (Accepts(s, es[0]) && Feasible(Step(s, es[0]), es[1..]))
  }

  function Run<J>(s: QueueState<J>, es: seq<Event<J>>): QueueState<J>
    requires Feasible(s, es)
    decreases |es|
  {
    if es == [] then s else Run(Step(s, es[0]), es[1..])
  }

  /** The jobs of the push events, in order. */
  function Pushed<J>(es: seq<Event<J>>): seq<J> {
    if es == [] then [] else (if es[0].Push? then [es[0].job] else []) + Pushed(es[1..])
  }

  /**
   * Over any run: the invariant holds, and the pushed jobs are appended to
   * the started, dropped and buffered ones, in push order.
   */
  lemma {:induction false} RunKeepsInvAndOrder<J>(s: QueueState<J>, es: seq<Event<J>>)
    requires Inv(s) && Feasible(s, es)
    ensures Inv(Run(s, es)) && Run(s, es).limit == s.limit
    ensures Received(Run(s, es)) == Received(s) + Pushed(es)
    decreases |es|
  {
    if es != [] {
      var t := Step(s, es[0]);
      StepPreservesInv(s, es[0]);
      StepKeepsOrder(s, es[0]);
      RunKeepsInvAndOrder(t, es[1..]);
      assert Run(s, es) == Run(t, es[1..]);
      assert Pushed(es) == (if es[0].Push? then [es[0].job] else []) + Pushed(es[1..]);
    }
  }

  /**
   * From a fresh queue, whatever the events: the jobs are started in push
   * order, never more than `limit` run at once, and the wait group counts
   * exactly the buffered, running and suspended work.
   */
  lemma RunFromInit<J>(limit: int, es: seq<Event<J>>)
    requires Feasible(Init(limit), es)
    ensures var t := Run(Init(limit), es);
      && Received(t) == Pushed(es)
      && (limit > 0 ==> 0 <= t.count <= limit)
      && t.waitGroup == |t.buffer| + t.count + (if t.suspended then 1 else 0)
  {
    InitInv<J>(limit);
    RunKeepsInvAndOrder(Init(limit), es);
    assert Received(Init<J>(limit)) == [];
  }

  function Completions<J>(n: nat): seq<Event<J>> {
    if n == 0 then [] else [Complete] + Completions(n - 1)
  }

  /**
   * After a stop, the loop returns once the running jobs finish: `count`
   * completions end it, and the wait group is then zero unless the queue
   * is suspended. This is what lets `stopQueue` followed by `wait` return.
   */
  lemma {:induction false} StopThenDrain<J>(s: QueueState<J>)
    requires Inv(s) && s.stopped && !s.exited
    ensures Feasible(s, Completions(s.count))
    ensures Run(s, Completions(s.count)).exited
    ensures Run(s, Completions(s.count)).waitGroup == (if s.suspended then 1 else 0)
    decreases s.count
  {
    var t := Step(s, Complete);
    StepPreservesInv(s, Complete);
    assert Completions<J>(s.count)[1..] == Completions(s.count - 1);
    if !t.exited {
      StopThenDrain(t);
    } else {
      assert t.count == 0;
      assert Completions<J>(t.count) == [];
    }
  }

  // ---------------------------------------------------------------------
  // The queue object.

  class Queue<J> {
    const limit: int
    var buffer: seq<J>
    var count: int
    var suspended: bool
    var stopped: bool
    ghost var waitGroup: int
    ghost var exited: bool
    ghost var started: seq<J>
    ghost var discarded: seq<J>

    ghost function State(): QueueState<J>
      reads this
    {
      QueueState(limit, buffer, count, suspended, stopped, waitGroup, exited, started, discarded)
    }

    /** The queue is in a state its loop can reach. */
    ghost predicate Valid()
      reads this
    {
      Inv(State())
    }

    /** `newQueue`: the handler runs outside the model. */
    constructor(concurrencyLimit: int)
      ensures State() == Init(concurrencyLimit) && Valid()
    {
      limit := concurrencyLimit;
      buffer := [];
      count := 0;
      suspended := false;
      stopped := false;
      waitGroup := 0;
      exited := false;
      started := [];
      discarded := [];
      InitInv<J>(concurrencyLimit);
    }

    /** The tail of every `select` round: return, or run the dispatch loop. */
    method AfterEvent()
      modifies this
      ensures State() == Settle(old(State()))
    {
      if stopped && count == 0 {
        waitGroup := waitGroup - |buffer|;
        discarded := discarded + buffer;
        buffer := [];
        exited := true;
      } else {
        while (count < limit || limit == 0) && |buffer| > 0 && !(suspended || stopped)
          invariant Dispatch(State()) == Dispatch(old(State()))
          decreases |buffer|
        {
          started := started + [buffer[0]];
          buffer := buffer[1..];
          count := count + 1;
        }
      }
    }

    /** `pushJob` and the push arm of `run`. */
    method PushJob(val: J)
      requires Valid() && !exited
      modifies this
      ensures State() == Step(old(State()), Push(val)) && Valid()
    {
      ghost var s := State();
      buffer := buffer + [val];
      waitGroup := waitGroup + 1;
      AfterEvent();
      StepPreservesInv(s, Push(val));
    }

    /** A running job finished: the pop arm of `run`, then `wg.Done`. */
    method CompleteJob()
      requires Valid() && !exited && count > 0
      modifies this
      ensures State() == Step(old(State()), Complete) && Valid()
    {
      ghost var s := State();
      count := count - 1;
      waitGroup := waitGroup - 1;
      AfterEvent();
      StepPreservesInv(s, Complete);
    }

    /** The suspend arm of `run`. */
    method SetSuspended(flag: bool)
      requires Valid() && !exited
      modifies this
      ensures State() == Step(old(State()), Suspend(flag)) && Valid()
    {
      ghost var s := State();
      if flag != suspended {
        if flag {
          waitGroup := waitGroup + 1;
        } else {
          waitGroup := waitGroup - 1;
        }
        suspended := flag;
      }
      AfterEvent();
      StepPreservesInv(s, Suspend(flag));
    }

    /** `stopQueue` and the stop arm of `run`. */
    method StopQueue()
      requires Valid() && !exited
      modifies this
      ensures State() == Step(old(State()), Stop) && Valid()
    {
      ghost var s := State();
      stopped := true;
      AfterEvent();
      StepPreservesInv(s, Stop);
    }

    /**
     * `wait` after `stopQueue`: `wg.Wait()` blocks while the running jobs
     * finish, which is modelled as their completions arriving one by one.
     * No job starts any more; the loop returns and drops what was still
     * buffered, and the wait group reaches zero.
     */
    method Wait()
      requires Valid() && stopped && !suspended
      modifies this
      ensures Valid() && exited && waitGroup == 0 && count == 0 && buffer == []
      ensures started == old(started) && discarded == old(discarded) + old(buffer)
    {
      while count > 0
        invariant Valid() && stopped && !suspended
        invariant exited <==> count == 0
        invariant started == old(started)
        invariant exited ==> discarded == old(discarded) + old(buffer)
        invariant !exited ==> buffer == old(buffer) && discarded == old(discarded)
        decreases count
      {
        ghost var s := State();
        CompleteJob();
        ExitOnlyWhenIdle(s, Complete);
        NoDispatchWhileBlocked(s, Complete);
      }
    }

    /** `len`: the running and the buffered jobs. */
    method Len() returns (running: int, buffered: int)
      ensures running == count && buffered == |buffer|
    {
      running, buffered := count, |buffer|;
    }
  }
}
