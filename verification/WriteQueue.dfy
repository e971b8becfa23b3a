/**
 The asynchronous write queue of a request handler.  Every lock section is one
 atomic step; writers, completions and a stop interleave in any order.
 */
module WriteQueue {
  import opened Basics

  /** The state guarded by writeLock_. */
  datatype Queue<W> = Queue(msgs: seq<W>, isWriting: bool) {
    function Pushed(msg: W): Queue<W> {
      Queue(msgs + [msg], isWriting)
    }

    /** attemptWrite: hands the front to the stream unless a write is under way or there is nothing to write. */
    function Attempted(): (Queue<W>, Option<W>) {
      if msgs == [] || isWriting then (this, None)
      else (Queue(msgs, true), Some(msgs[0]))
    }

    /** finishWrite: pops the front after a successful write and allows the next one. */
    function Finished(ok: bool): Queue<W> {
      Queue(if ok && msgs != [] then msgs[1..] else msgs, false)
    }
  }

  class RequestHandler<W> {
    var msgQueue: seq<W>
    var isWriting: bool

    constructor ()
      ensures State() == Queue([], false)
    {
      msgQueue, isWriting := [], false;
    }

    function State(): Queue<W>
      reads this
    {
      Queue(msgQueue, isWriting)
    }

    method AddToWriteQueue(msg: W)
      modifies this
      ensures State() == old(State()).Pushed(msg)
      ensures msgQueue == old(msgQueue) + [msg] && isWriting == old(isWriting)
    {
      msgQueue := msgQueue + [msg];
    }

    /** Returns the message passed to writeToStream, if any. */
    method AttemptWrite() returns (sent: Option<W>)
      modifies this
      ensures (State(), sent) == old(State()).Attempted()
      ensures msgQueue == old(msgQueue) && isWriting == (old(isWriting) || msgQueue != [])
      ensures sent == if msgQueue == [] || old(isWriting) then None else Some(msgQueue[0])
    {
      if |msgQueue| == 0 || isWriting {
        return None;
      }
      isWriting := true;
      sent := Some(msgQueue[0]);
    }

    /** write when no other thread interferes between its two lock sections. */
    method Write(msg: W) returns (sent: Option<W>)
      modifies this
      ensures (State(), sent) == old(State()).Pushed(msg).Attempted()
    {
      AddToWriteQueue(msg);
      sent := AttemptWrite();
    }

    method FinishWrite(ok: bool)
      modifies this
      ensures State() == old(State()).Finished(ok) && !isWriting
      ensures msgQueue == if ok && old(msgQueue) != [] then old(msgQueue)[1..] else old(msgQueue)
    {
      if ok && |msgQueue| != 0 {
        msgQueue := msgQueue[1..];
      }
      isWriting := false;
    }

    /** The WRITE case of process when no other thread interferes. */
    method ProcessWrite(ok: bool, hasStopped: bool) returns (sent: Option<W>)
      modifies this
      ensures !ok ==> State() == old(State()) && sent == None
      ensures ok && hasStopped ==> State() == old(State()).Finished(true) && sent == None
      ensures ok && !hasStopped ==> (State(), sent) == old(State()).Finished(true).Attempted()
    {
      sent := None;
      if ok {
        FinishWrite(ok);
      }
      var shouldAttemptNext := HandleWrite(ok, hasStopped);
      if shouldAttemptNext {
        sent := AttemptWrite();
      }
    }

    static method HandleWrite(ok: bool, hasStopped: bool) returns (shouldAttemptNext: bool)
      ensures shouldAttemptNext <==> ok && !hasStopped
    {
      shouldAttemptNext := false;
      if !ok || hasStopped {
        return;
      }
      shouldAttemptNext := true;
    }
  }

  // ----- The protocol -----

  /**
   The queue, the threads between two lock sections, and the writes that the
   stream has taken.  `history` lists all enqueued messages, `acked` the ones
   whose successful completion was processed.
   */
  datatype Protocol<W> = Protocol(
    queue: Queue<W>,
    attempting: nat,       // threads about to call attemptWrite
    outstanding: seq<W>,   // writes without a completion
    finishing: seq<W>,     // successful completions before finishWrite
    handling: nat,         // threads between finishWrite and handleWrite
    failed: seq<W>,        // writes that completed with an error
    stopped: bool,
    history: seq<W>,
    acked: seq<W>)

  datatype Event<W> = Enqueue(msg: W) | Attempt | Complete(k: nat, ok: bool) | Finish(k: nat) | Handle | Stop

  function Without<W>(xs: seq<W>, k: nat): seq<W>
    requires k < |xs|
  {
    xs[..k] + xs[k + 1..]
  }

  /** One atomic step; an event that is not possible in the state changes nothing. */
  function Step<W>(p: Protocol<W>, e: Event<W>): Protocol<W> {
    match e
    case Enqueue(msg) =>
      p.(queue := p.queue.Pushed(msg), history := p.history + [msg], attempting := p.attempting + 1)
    case Attempt =>
      if p.attempting == 0 then p
      else
        var (queue, sent) := p.queue.Attempted();
        p.(queue := queue, attempting := p.attempting - 1,
           outstanding := if sent.Some? then p.outstanding + [sent.value] else p.outstanding)
    case Complete(k, ok) =>
      if k >= |p.outstanding| then p
      else if ok then p.(outstanding := Without(p.outstanding, k), finishing := p.finishing + [p.outstanding[k]])
      else p.(outstanding := Without(p.outstanding, k), failed := p.failed + [p.outstanding[k]])
    case Finish(k) =>
      if k >= |p.finishing| then p
      else p.(queue := p.queue.Finished(true), finishing := Without(p.finishing, k),
              handling := p.handling + 1, acked := p.acked + [p.finishing[k]])
    case Handle =>
      if p.handling == 0 then p
      else p.(handling := p.handling - 1, attempting := if p.stopped then p.attempting else p.attempting + 1)
    case Stop =>
      p.(stopped := true)
  }

  function Run<W>(p: Protocol<W>, events: seq<Event<W>>): Protocol<W> {
    if events == [] then p else Step(Run(p, events[..|events| - 1]), events[|events| - 1])
  }

  /** A new handler whose isWriting_ flag happens to hold the given value. */
  function Initial<W>(isWriting: bool): Protocol<W> {
    Protocol(Queue([], isWriting), 0, [], [], 0, [], false, [], [])
  }

  /**
   A successful completion that no other thread interrupts is finishWrite,
   handleWrite and, unless the handler has stopped, one more attempt.
   */
  lemma CompletionSteps<W>(p: Protocol<W>, k: nat)
    requires k < |p.finishing|
    ensures var popped := p.queue.Finished(true);
            var q := Run(p, if p.stopped then [Finish(k), Handle] else [Finish(k), Handle, Attempt]);
            && q.queue == (if p.stopped then popped else popped.Attempted().0)
            && q.outstanding == p.outstanding + (if p.stopped then [] else Sent(popped.Attempted().1))
            && q.acked == p.acked + [p.finishing[k]] && q.finishing == Without(p.finishing, k)
            && q.attempting == p.attempting && q.handling == p.handling
  {
    var none: seq<Event<W>> := [];
    var finish := none + [Finish(k)];
    var handle := finish + [Handle];
    assert finish[..0] == none && Run(p, none) == p && handle[..1] == finish;
    var finished := Run(p, finish);
    assert finished == Step(p, Finish(k));
    assert Run(p, handle) == Step(finished, Handle);
    if !p.stopped {
      var all := handle + [Attempt];
      assert all[..2] == handle && all == [Finish(k), Handle, Attempt];
      assert Run(p, all) == Step(Run(p, handle), Attempt);
    } else {
      assert handle == [Finish(k), Handle];
    }
  }

  /** write, when no other thread interferes, enqueues the message and makes one attempt. */
  lemma WriteSteps<W>(p: Protocol<W>, msg: W)
    ensures var pushed := Queue(p.queue.msgs + [msg], p.queue.isWriting);
            var q := Run(p, [Enqueue(msg), Attempt]);
            && q.queue == Queue(pushed.msgs, true)
            && q.outstanding == p.outstanding + (if p.queue.isWriting then [] else [pushed.msgs[0]])
            && q.history == p.history + [msg] && q.attempting == p.attempting
            && q.acked == p.acked && q.finishing == p.finishing && q.failed == p.failed && q.stopped == p.stopped
  {
    var none: seq<Event<W>> := [];
    var enqueue := none + [Enqueue(msg)];
    var both := enqueue + [Attempt];
    assert enqueue[..0] == none && Run(p, none) == p && both[..1] == enqueue;
    assert Run(p, both) == Step(Run(p, enqueue), Attempt);
    assert both == [Enqueue(msg), Attempt];
  }

  // ----- What was enqueued, and what has completed -----

  ghost function Messages<W>(events: seq<Event<W>>): seq<W> {
    if events == [] then []
    else
      Messages(events[..|events| - 1])
      + if events[|events| - 1].Enqueue? then [events[|events| - 1].msg] else []
  }

  ghost function Completions<W>(events: seq<Event<W>>, ok: bool): nat {
    if events == [] then 0
    else
      Completions(events[..|events| - 1], ok)
      + if events[|events| - 1].Complete? && events[|events| - 1].ok == ok then 1 else 0
  }

  /**
   Over every interleaving, the history is what was enqueued; a message is
   acknowledged or about to be only after a successful completion of its own,
   and has failed only after an unsuccessful one.  Each call of write and each
   successful completion leads to at most one attempt.
   */
  lemma {:induction false} OnlyCompletedAcked<W>(events: seq<Event<W>>)
    ensures var p := Run(Initial(false), events);
            && p.history == Messages(events)
            && (p.stopped <==> Stop in events)
            && |p.acked| + |p.finishing| <= Completions(events, true)
            && |p.failed| <= Completions(events, false)
            && p.attempting + p.handling + |p.finishing| <= |Messages(events)| + Completions(events, true)
  {
    if events != [] {
      var front, last := events[..|events| - 1], events[|events| - 1];
      assert events == front + [last];
      OnlyCompletedAcked(front);
      Tally(Run(Initial(false), front), last);
    }
  }

  lemma Tally<W>(p: Protocol<W>, e: Event<W>)
    ensures var q := Step(p, e);
            && q.history == p.history + (if e.Enqueue? then [e.msg] else [])
            && (q.stopped <==> p.stopped || e == Stop)
            && |q.acked| + |q.finishing| <= |p.acked| + |p.finishing| + (if e.Complete? && e.ok then 1 else 0)
            && |q.failed| <= |p.failed| + (if e.Complete? && !e.ok then 1 else 0)
            && q.attempting + q.handling + |q.finishing| <= p.attempting + p.handling + |p.finishing|
                 + (if e.Enqueue? then 1 else 0) + if e.Complete? && e.ok then 1 else 0
  {
    hide Queue.Attempted, Queue.Finished, Queue.Pushed;
    match e {
      case Enqueue(msg) =>
      case Attempt =>
      case Complete(k, ok) =>
      case Finish(k) =>
      case Handle =>
      case Stop =>
    }
  }

  /** Completing the outstanding write successfully and finishing it acknowledges the front and removes it. */
  lemma SuccessIsAcked<W>(p: Protocol<W>)
    requires Inv(p) && p.outstanding != []
    ensures var q := Run(p, [Complete(0, true), Finish(0)]);
            && p.queue.msgs != [] && q.acked == p.acked + [p.queue.msgs[0]]
                && q.queue == Queue(p.queue.msgs[1..], false)
            && q.outstanding == [] && q.finishing == [] && q.failed == []
            && q.handling == p.handling + 1 && q.attempting == p.attempting && q.stopped == p.stopped
  {
    FrontIsOutstanding(p);
    hide Inv, InFlight;
    var none: seq<Event<W>> := [];
    var complete := none + [Complete(0, true)];
    var both := complete + [Finish(0)];
    assert complete[..0] == none && Run(p, none) == p && both[..1] == complete;
    var done := Step(p, Complete(0, true));
    assert done.finishing == [p.queue.msgs[0]] && done.outstanding == [];
    assert Run(p, complete) == done;
    hide Step, Run;
    FinishOnly(done);
    RunLast(p, complete, Finish(0));
    assert both == [Complete(0, true), Finish(0)];
  }

  lemma FrontIsOutstanding<W>(p: Protocol<W>)
    requires Inv(p) && p.outstanding != []
    ensures p.queue.msgs != [] && p.outstanding == [p.queue.msgs[0]] && p.finishing == [] && p.failed == []
  {
    assert p.queue.isWriting && |InFlight(p)| == 1;
    assert InFlight(p)[0] == p.outstanding[0];
  }

  lemma RunLast<W>(p: Protocol<W>, events: seq<Event<W>>, e: Event<W>)
    ensures Run(p, events + [e]) == Step(Run(p, events), e)
  {
    assert (events + [e])[..|events|] == events;
  }

  lemma FinishOnly<W>(p: Protocol<W>)
    requires |p.finishing| == 1 && p.queue.msgs != []
    ensures var q := Step(p, Finish(0));
            && q == p.(queue := Queue(p.queue.msgs[1..], false), finishing := [], handling := p.handling + 1,
                       acked := p.acked + p.finishing)
  {
    assert Without(p.finishing, 0) == [];
    assert [p.finishing[0]] == p.finishing;
  }

  /** Completing it with an error keeps it at the front of the queue, unacknowledged, whatever happens next. */
  lemma FailureIsKept<W>(p: Protocol<W>, events: seq<Event<W>>)
    requires Inv(p) && p.outstanding != []
    ensures var q := Run(Step(p, Complete(0, false)), events);
            && q.acked == p.acked && q.outstanding == [] && q.finishing == []
            && p.queue.msgs != [] && q.failed == [p.queue.msgs[0]]
            && q.queue.msgs != [] && q.queue.msgs[0] == p.queue.msgs[0]
  {
    FrontIsOutstanding(p);
    StepKeepsInv(p, Complete(0, false));
    FailedWriteStalls(Step(p, Complete(0, false)), events);
  }

  function Sent<W>(sent: Option<W>): seq<W> {
    if sent.Some? then [sent.value] else []
  }

  ghost function InFlight<W>(p: Protocol<W>): seq<W> {
    p.outstanding + p.finishing + p.failed
  }

  ghost predicate Inv<W>(p: Protocol<W>) {
    && (p.queue.isWriting ==> p.queue.msgs != [] && InFlight(p) == [p.queue.msgs[0]])
    && (!p.queue.isWriting ==> InFlight(p) == [])
    && p.history == p.acked + p.queue.msgs
    && (!p.stopped && p.queue.msgs != [] && !p.queue.isWriting ==> p.attempting + p.handling > 0)
  }

  lemma OneElement<W>(a: seq<W>, b: seq<W>, c: seq<W>, x: W)
    requires a + b + c == [x]
    ensures |a| + |b| + |c| == 1
    ensures forall y :: y in a || y in b || y in c ==> y == x
  {
    assert |a + b + c| == 1;
    forall y | y in a || y in b || y in c
      ensures y == x
    {
      assert y in a + b + c;
    }
  }

  lemma AttemptKeepsInv<W>(p: Protocol<W>)
    requires Inv(p)
    ensures Inv(Step(p, Attempt))
  {
    if p.attempting > 0 && p.queue.msgs != [] && !p.queue.isWriting {
      assert |InFlight(p)| == 0;
      assert p.outstanding == [] && p.finishing == [] && p.failed == [];
    }
  }

  lemma CompleteKeepsInv<W>(p: Protocol<W>, k: nat, ok: bool)
    requires Inv(p)
    ensures Inv(Step(p, Complete(k, ok)))
  {
    if k < |p.outstanding| {
      assert p.queue.isWriting && |InFlight(p)| == 1;
      assert InFlight(p)[0] == p.outstanding[0];
      assert p.outstanding == [p.queue.msgs[0]] && p.finishing == [] && p.failed == [];
      assert Without(p.outstanding, k) == [];
    }
  }

  lemma FinishKeepsInv<W>(p: Protocol<W>, k: nat)
    requires Inv(p)
    ensures Inv(Step(p, Finish(k)))
  {
    if k < |p.finishing| {
      assert p.queue.isWriting && |InFlight(p)| == 1;
      assert p.outstanding == [] && p.failed == [];
      assert InFlight(p)[0] == p.finishing[0];
      assert p.finishing == [p.queue.msgs[0]];
      assert Without(p.finishing, k) == [];
      assert p.queue.msgs == [p.queue.msgs[0]] + p.queue.msgs[1..];
      assert p.acked + p.queue.msgs == (p.acked + [p.queue.msgs[0]]) + p.queue.msgs[1..];
    }
  }

  lemma EnqueueKeepsInv<W>(p: Protocol<W>, msg: W)
    requires Inv(p)
    ensures Inv(Step(p, Enqueue(msg)))
  {
    assert (p.acked + p.queue.msgs) + [msg] == p.acked + (p.queue.msgs + [msg]);
  }

  lemma StepKeepsInv<W>(p: Protocol<W>, e: Event<W>)
    requires Inv(p)
    ensures Inv(Step(p, e))
  {
    match e {
      case Enqueue(msg) =>
        EnqueueKeepsInv(p, msg);
      case Attempt =>
        AttemptKeepsInv(p);
      case Complete(k, ok) =>
        CompleteKeepsInv(p, k, ok);
      case Finish(k) =>
        FinishKeepsInv(p, k);
      case Handle =>
      case Stop =>
    }
  }

  /**
   Over every interleaving: at most one write is with the stream and it is the
   front of the queue; acknowledged messages followed by the queue are exactly
   the enqueued ones, in order; and without a failed write or a stop, a
   non-empty queue always has a write in flight or a thread about to attempt one.
   */
  lemma {:induction false} QueueIsFifo<W>(events: seq<Event<W>>)
    ensures var p := Run(Initial(false), events);
            && Inv(p)
            && |InFlight(p)| <= 1 && (InFlight(p) != [] ==> p.queue.msgs != [] && InFlight(p)[0] == p.queue.msgs[0])
            && p.history == p.acked + p.queue.msgs
            && (p.failed == [] && !p.stopped && p.queue.msgs != [] ==>
                  p.outstanding != [] || p.finishing != [] || p.attempting + p.handling > 0)
  {
    if events != [] {
      QueueIsFifo(events[..|events| - 1]);
      StepKeepsInv(Run(Initial(false), events[..|events| - 1]), events[|events| - 1]);
    }
    var p := Run(Initial<W>(false), events);
    if p.queue.isWriting {
      OneElement(p.outstanding, p.finishing, p.failed, p.queue.msgs[0]);
    }
  }

  /** After a failed write nothing is ever written or acknowledged again. */
  lemma {:induction false} FailedWriteStalls<W>(p: Protocol<W>, events: seq<Event<W>>)
    requires Inv(p) && p.failed != []
    ensures var q := Run(p, events);
            Inv(q) && q.failed == p.failed && q.acked == p.acked && q.outstanding == [] && q.finishing == []
  {
    if events == [] {
      OneElement(p.outstanding, p.finishing, p.failed, p.queue.msgs[0]);
    } else {
      var q := Run(p, events[..|events| - 1]);
      FailedWriteStalls(p, events[..|events| - 1]);
      StepKeepsInv(q, events[|events| - 1]);
    }
  }

  /** The flag has no initializer; if it happens to start true, no message is ever written. */
  lemma {:induction false} StuckFlagStalls<W>(events: seq<Event<W>>)
    ensures var p := Run(Initial(true), events);
            p.queue.isWriting && InFlight(p) == [] && p.acked == [] && p.queue.msgs == p.history
  {
    if events != [] {
      StuckFlagStalls(events[..|events| - 1]);
    }
  }
}
