/**
  The in-memory job queue: a bounded channel guarded by a read-write lock. Enqueuing holds the read lock from the closed
  check until its send is over, so it may wait inside; closing needs the write lock.
 */
module JobQueue {
  datatype JobConfig = JobConfig(
    taskID: string, contextID: string, incomingMessageID: string, acceptedOutputModes: seq<string>,
        httpHeaders: map<string, seq<string>>)

  datatype Job = Job(
    taskID: string, contextID: string, acceptedOutputModes: seq<string>, incomingMessageID: string,
        httpHeaders: map<string, seq<string>>)

  function NewJob(c: JobConfig): Job {
    Job(c.taskID, c.contextID, c.acceptedOutputModes, c.incomingMessageID, c.httpHeaders)
  }

  /** The job tells what its configuration says, field by field. */
  ghost predicate MadeFrom(job: Job, config: JobConfig) {
    && job.taskID == config.taskID && job.contextID == config.contextID
    && job.incomingMessageID == config.incomingMessageID
    && job.acceptedOutputModes == config.acceptedOutputModes && job.httpHeaders == config.httpHeaders
  }

  // ------------------------------------------------------------------------------ the steps

  /**
    `inside` holds the enqueuers between their closed check and the end of their send. `sent` and `received` record the
    completed sends and receives; `panicked` records a send on the closed channel.
   */
  datatype State = State(
    capacity: nat,
    buffer: seq<Job>,
    channelClosed: bool,
    closed: bool,
    inside: map<nat, Job>,
    sent: seq<Job>,
    received: seq<Job>,
    panicked: bool)

  function New(capacity: nat): State {
    State(capacity, [], false, false, map[], [], [], false)
  }

  datatype Action =
    | Enter(p: nat, config: JobConfig)  // takes the read lock and looks at `closed`
    | Send(p: nat)                      // into the buffer
    | Handoff(p: nat)                   // straight to a waiting receiver
    | Abort(p: nat)                     // the enqueuer's context is done
    | Receive
    | Close                             // waits while anybody is inside

  function Leave(s: State, p: nat): State {
    s.(inside := s.inside - {p})
  }

  function Step(s: State, a: Action): State {
    match a
    case Enter(p, config) =>
      if p in s.inside || s.closed then s else s.(inside := s.inside[p := NewJob(config)])
    case Send(p) =>
      if p !in s.inside then s
      else if s.channelClosed then Leave(s, p).(panicked := true)
      else if |s.buffer| < s.capacity then
        Leave(s, p).(buffer := s.buffer + [s.inside[p]], sent := s.sent + [s.inside[p]])
      else s
    case Handoff(p) =>
      if p !in s.inside then s
      else if s.channelClosed then Leave(s, p).(panicked := true)
      else if s.buffer == [] then
        Leave(s, p).(sent := s.sent + [s.inside[p]], received := s.received + [s.inside[p]])
      else s
    case Abort(p) => Leave(s, p)
    case Receive =>
      if s.buffer == [] then s
      else s.(buffer := s.buffer[1..], received := s.received + [s.buffer[0]])
    case Close =>
      if s.inside != map[] then s else s.(channelClosed := true, closed := true)
  }

  function Exec(s: State, acts: seq<Action>): State {
    if acts == [] then s else Step(Exec(s, acts[..|acts| - 1]), acts[|acts| - 1])
  }

  /** What a receive finds: a job, the closed signal, or nothing yet. */
  datatype Offer = Next(job: Job) | ClosedSignal | Nothing

  function OfferOf(s: State): Offer {
    if s.buffer != [] then Next(s.buffer[0]) else if s.channelClosed then ClosedSignal else Nothing
  }

  // ------------------------------------------------------------------------------ the object

  datatype EnqueueResult = Enqueued | QueueClosed | ContextDone | Blocked

  datatype DequeueResult = Got(job: Job) | Drained | DequeueCanceled | Waits

  class InMemoryJobQueue {
    const capacity: nat
    var jobs: seq<Job>
    var jobsClosed: bool
    var closed: bool
    var waiting: map<nat, Job>
    ghost var sent: seq<Job>
    ghost var received: seq<Job>
    ghost var panicked: bool

    ghost function View(): State
      reads this
    {
      State(capacity, jobs, jobsClosed, closed, waiting, sent, received, panicked)
    }

    constructor (size: nat)
      ensures View() == New(size)
    {
      capacity, jobs, jobsClosed, closed, waiting := size, [], false, false, map[];
      sent, received, panicked := [], [], false;
    }

    /**
      The call of enqueuer `p`; `receiver` tells whether a dequeuer waits on the empty queue. `Blocked` means the
      enqueuer still waits inside, read lock in hand.
     */
    method Enqueue(p: nat, config: JobConfig, contextDone: bool, receiver: bool) returns (r: EnqueueResult)
      requires p !in waiting && (closed == jobsClosed)
      modifies this
      ensures r.QueueClosed? <==> old(closed)
      ensures r.ContextDone? ==> contextDone
      ensures match r
              case QueueClosed => View() == old(View())
              case Enqueued =>
                && View() == Step(Step(old(View()), Enter(p, config)),
                                  if receiver && old(jobs) == [] then Handoff(p) else Send(p))
                && |sent| == |old(sent)| + 1 && sent[..|old(sent)|] == old(sent) && MadeFrom(sent[|old(sent)|], config)
                && jobs == old(jobs) + (if receiver && old(jobs) == [] then [] else [sent[|old(sent)|]])
                && waiting == old(waiting)
              case ContextDone =>
                View() == Step(Step(old(View()), Enter(p, config)), Abort(p)) && waiting == old(waiting)
              case Blocked =>
                && View() == Step(old(View()), Enter(p, config)) && !contextDone
                && |jobs| >= capacity && !(receiver && jobs == [])
                && waiting.Keys == old(waiting).Keys + {p} && MadeFrom(waiting[p], config)
      ensures forall q :: q in old(waiting) && q != p ==> q in waiting && waiting[q] == old(waiting)[q]
    {
      if closed {
        return QueueClosed;
      }
      waiting := waiting[p := NewJob(config)];
      r := Select(p, contextDone, receiver);
    }

    /** Neither room in the buffer nor anybody to take the job. */
    predicate CannotSend(receiver: bool)
      reads this
    {
      |jobs| >= capacity && !(receiver && jobs == [])
    }

    /** The select of an enqueuer inside: sends if it can, gives up if the context is done, either if both. */
    method Select(p: nat, contextDone: bool, receiver: bool) returns (r: EnqueueResult)
      requires p in waiting && !closed && !jobsClosed
      modifies this
      ensures r.ContextDone? ==> contextDone
      ensures match r
              case QueueClosed => false
              case Enqueued =>
                && View() == Step(old(View()), if receiver && old(jobs) == [] then Handoff(p) else Send(p))
                && sent == old(sent) + [old(waiting)[p]]
              case ContextDone => View() == Step(old(View()), Abort(p))
              case Blocked => View() == old(View()) && !contextDone && |jobs| >= capacity && !(receiver && jobs == [])
    {
      var preferSend: bool := *;
      if !CannotSend(receiver) && (preferSend || !contextDone) {
        sent := sent + [waiting[p]];
        if receiver && |jobs| == 0 {
          received := received + [waiting[p]];
        } else {
          jobs := jobs + [waiting[p]];
        }
        waiting := waiting - {p};
        return Enqueued;
      }
      if contextDone {
        waiting := waiting - {p};
        return ContextDone;
      }
      return Blocked;
    }

    method Dequeue(contextDone: bool) returns (r: DequeueResult)
      modifies this
      ensures r.DequeueCanceled? ==> contextDone
      ensures match r
              case Got(job) =>
                && OfferOf(old(View())) == Next(job) && View() == Step(old(View()), Receive)
                && old(jobs) == [job] + jobs && received == old(received) + [job] && waiting == old(waiting)
              case Drained =>
                OfferOf(old(View())) == ClosedSignal && View() == old(View()) && jobs == [] && jobsClosed
              case DequeueCanceled => View() == old(View())
              case Waits =>
                && OfferOf(old(View())) == Nothing && View() == old(View()) && !contextDone
                && jobs == [] && !jobsClosed
    {
      var preferReceive: bool := *;
      if (|jobs| > 0 || jobsClosed) && (preferReceive || !contextDone) {
        if |jobs| == 0 {
          return Drained;
        }
        var job := jobs[0];
        received := received + [job];
        jobs := jobs[1..];
        return Got(job);
      }
      if contextDone {
        return DequeueCanceled;
      }
      return Waits;
    }

    /** Returns whether it got the write lock; it has to wait while enqueuers are inside. */
    method Close() returns (done: bool)
      requires closed == jobsClosed
      modifies this
      ensures View() == Step(old(View()), Action.Close)
      ensures done <==> old(waiting) == map[]
      ensures closed <==> done || old(closed)
      ensures jobsClosed == closed && jobs == old(jobs)
    {
      if waiting != map[] {
        return false;
      }
      if !closed {
        jobsClosed := true;
        closed := true;
      }
      return true;
    }
  }

  // ---------------------------------------------------------------------------- the theorems

  /** Every job sent is received or still buffered, in order; nobody is inside a closed queue. */
  ghost predicate Inv(s: State) {
    && s.received + s.buffer == s.sent
    && |s.buffer| <= s.capacity
    && s.closed == s.channelClosed
    && (s.closed ==> s.inside == map[])
    && !s.panicked
  }

  lemma StepKeepsInv(s: State, a: Action)
    requires Inv(s)
    ensures Inv(Step(s, a))
  {
    var s' := Step(s, a);
    if a.Send? && s' != s {
      assert s.received + (s.buffer + [s.inside[a.p]]) == s.sent + [s.inside[a.p]];
    }
  }

  /** An enqueuer inside with its job stays there until its own send, handoff or abort. */
  lemma InsideUntilOwnStep(s: State, a: Action, p: nat)
    requires p in s.inside && !((a.Send? || a.Handoff? || a.Abort?) && a.p == p)
    ensures p in Step(s, a).inside && Step(s, a).inside[p] == s.inside[p]
  {
  }

  /** Conservation, first in first out, bounded, never a send on the closed channel: in every interleaving. */
  lemma {:induction false} Conservation(capacity: nat, acts: seq<Action>)
    ensures var s := Exec(New(capacity), acts);
            && s.received + s.buffer == s.sent
            && |s.buffer| <= capacity
            && !s.panicked
            && Inv(s) && s.capacity == capacity
  {
    if acts == [] {
    } else {
      Conservation(capacity, acts[..|acts| - 1]);
      StepKeepsInv(Exec(New(capacity), acts[..|acts| - 1]), acts[|acts| - 1]);
    }
  }

  /** After closing nothing more is sent, and what was buffered comes out in order before the closed signal. */
  lemma {:induction false} DrainsAfterClose(s: State, later: seq<Action>)
    requires Inv(s) && s.closed
    ensures var s' := Exec(s, later);
            && Inv(s') && s'.closed && s'.sent == s.sent
            && s.received <= s'.received <= s.sent
            && (OfferOf(s').ClosedSignal? <==> s'.received == s.sent)
            && (OfferOf(s').Next? ==> |s'.received| < |s.sent| && OfferOf(s').job == s.sent[|s'.received|])
            && !OfferOf(s').Nothing?
  {
    if later == [] {
    } else {
      var init := later[..|later| - 1];
      DrainsAfterClose(s, init);
      StepKeepsInv(Exec(s, init), later[|later| - 1]);
    }
    var s' := Exec(s, later);
    assert s'.received + s'.buffer == s.sent;
  }

  /** Each receive after closing hands out the next job, so as many receives as jobs were left empty the queue. */
  lemma {:induction false} ReceivesEmptyTheQueue(s: State, n: nat)
    requires n <= |s.buffer|
    ensures Exec(s, seq(n, _ => Receive)).received == s.received + s.buffer[..n]
    ensures Exec(s, seq(n, _ => Receive)).buffer == s.buffer[n..]
  {
    hide Exec;
    if n == 0 {
      NothingReceived(s);
    } else {
      ReceivesEmptyTheQueue(s, n - 1);
      LastReceive(s, n);
      OneMoreReceived(s.buffer, n);
    }
  }

  lemma NothingReceived(s: State)
    ensures Exec(s, seq(0, _ => Receive)) == s
  {
  }

  lemma LastReceive(s: State, n: nat)
    requires n > 0
    ensures Exec(s, seq(n, _ => Receive)) == Step(Exec(s, seq(n - 1, _ => Receive)), Receive)
  {
    hide Step;
    var all := seq(n, _ => Receive);
    assert all[..n - 1] == seq(n - 1, _ => Receive) && all[n - 1] == Receive;
  }

  lemma OneMoreReceived(buffer: seq<Job>, n: nat)
    requires 0 < n <= |buffer|
    ensures buffer[n - 1..] != [] && buffer[n - 1..][0] == buffer[n - 1] && buffer[n - 1..][1..] == buffer[n..]
    ensures buffer[..n] == buffer[..n - 1] + [buffer[n - 1]]
  {
  }
}
