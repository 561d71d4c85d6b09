/** A tool session: callers put requests on a queue, one worker answers them in turn,
    and closing the session cancels whatever is still queued. Requests are numbered in
    the order they are admitted. */
module McpSession {

  datatype Reply = Result | Failure | Cancelled

  /** The worker is not running (not connected yet, or stopped), waits for a request, or
      is busy with one. */
  datatype Worker = Gone | Idle | Busy(id: nat)

  /** What a caller sees. A cancellation is not an exception in the caller's eyes, so it is
      handed back as if it were a result. */
  datatype Caller = Waiting | Returned(reply: Reply) | Raised(reply: Reply) | TimedOut

  /** `broken`: the worker has no connection and answers every request with an error. */
  datatype State = State(
    next: nat, queue: seq<nat>, worker: Worker, broken: bool, closed: bool,
    replies: seq<(nat, Reply)>, lost: seq<nat>, callers: map<nat, Caller>)

  const INITIAL := State(0, [], Gone, false, false, [], [], map[])

  datatype Step =
    | Submit
    | Start(broken: bool)
    | Take
    | Answer(reply: Reply)
    | StopWorker
    | Receive(id: nat)
    | TimeOut(id: nat)
    | Close

  function Ids(replies: seq<(nat, Reply)>): (r: seq<nat>)
    ensures |r| == |replies|
  {
    seq(|replies|, i requires 0 <= i < |replies| => replies[i].0)
  }

  function Cancellations(ids: seq<nat>): (r: seq<(nat, Reply)>)
    ensures |r| == |ids|
  {
    seq(|ids|, i requires 0 <= i < |ids| => (ids[i], Cancelled))
  }

  function ReplyTo(replies: seq<(nat, Reply)>, id: nat): (r: Reply)
    requires id in Ids(replies)
    ensures (id, r) in replies
  {
    assert Ids(replies)[1..] == Ids(replies[1..]);
    if replies[0].0 == id then replies[0].1 else ReplyTo(replies[1..], id)
  }

  function Seen(r: Reply): Caller {
    if r.Failure? then Raised(r) else Returned(r)
  }

  /** One atomic step of the session's event loop; a step that cannot happen changes nothing. */
  function Apply(s: State, step: Step): State {
    match step
    case Submit =>
      if s.closed then s
      else s.(next := s.next + 1, queue := s.queue + [s.next], callers := s.callers[s.next := Waiting])
    case Start(broken) =>
      if s.worker.Gone? && !s.closed then s.(worker := Idle, broken := broken) else s
    case Take =>
      if !s.worker.Idle? || s.queue == [] then s
      else if s.broken then s.(queue := s.queue[1..], replies := s.replies + [(s.queue[0], Failure)])
      else s.(queue := s.queue[1..], worker := Busy(s.queue[0]))
    case Answer(reply) =>
      if !s.worker.Busy? || reply.Cancelled? then s
      else s.(worker := Idle, replies := s.replies + [(s.worker.id, reply)])
    case StopWorker =>
      if s.worker.Busy? then s.(worker := Gone, lost := s.lost + [s.worker.id])
      else s.(worker := Gone)
    case Receive(id) =>
      if id in s.callers && s.callers[id].Waiting? && id in Ids(s.replies)
      then s.(callers := s.callers[id := Seen(ReplyTo(s.replies, id))]) else s
    case TimeOut(id) =>
      if id in s.callers && s.callers[id].Waiting? then s.(callers := s.callers[id := TimedOut]) else s
    case Close =>
      if s.closed then s
      else s.(closed := true, queue := [], replies := s.replies + Cancellations(s.queue))
  }

  function ApplyAll(s: State, steps: seq<Step>): State
    decreases |steps|
  {
    if steps == [] then s else ApplyAll(Apply(s, steps[0]), steps[1..])
  }

  // ---------- Conservation and order ----------

  function InFlight(w: Worker): seq<nat> {
    if w.Busy? then [w.id] else []
  }

  function UpTo(n: nat): seq<nat> { seq(n, i => i) }

  /** Every admitted request is in exactly one place, exactly once. */
  predicate Conserved(s: State) {
    multiset(s.queue) + multiset(InFlight(s.worker)) + multiset(Ids(s.replies)) + multiset(s.lost)
    == multiset(UpTo(s.next))
  }

  function WorkerReplies(replies: seq<(nat, Reply)>): seq<nat> {
    if replies == [] then []
    else
      var rest := WorkerReplies(replies[..|replies| - 1]);
      var (id, r) := replies[|replies| - 1];
      if r.Cancelled? then rest else rest + [id]
  }

  predicate Increasing(ids: seq<nat>) {
    forall i, j | 0 <= i < j < |ids| :: ids[i] < ids[j]
  }

  /** What the worker has answered, what it is busy with and what is queued, in this order,
      is in submission order. */
  predicate InOrder(s: State) {
    Increasing(Line(s)) && forall id <- Line(s) :: id < s.next
  }

  function Line(s: State): seq<nat> { WorkerReplies(s.replies) + InFlight(s.worker) + s.queue }

  ghost predicate CallersInformed(s: State) {
    && (forall id: nat :: id in s.callers <==> id < s.next)
    && (forall id <- s.callers :: Informed(s.callers[id], id, s.replies))
  }

  predicate Informed(c: Caller, id: nat, replies: seq<(nat, Reply)>) {
    (c.Returned? || c.Raised?) ==> c == Seen(c.reply) && (id, c.reply) in replies
  }

  ghost predicate Invariant(s: State) {
    Conserved(s) && InOrder(s) && CallersInformed(s) && (s.closed ==> s.queue == [])
  }

  lemma IdsOfAppend(a: seq<(nat, Reply)>, b: seq<(nat, Reply)>)
    ensures Ids(a + b) == Ids(a) + Ids(b)
  {
  }

  lemma {:induction false} CancellationsAreNotTheWorkers(replies: seq<(nat, Reply)>, ids: seq<nat>)
    ensures WorkerReplies(replies + Cancellations(ids)) == WorkerReplies(replies)
    decreases |ids|
  {
    var all := replies + Cancellations(ids);
    if ids == [] {
      assert all == replies;
    } else {
      var front := ids[..|ids| - 1];
      assert all[..|all| - 1] == replies + Cancellations(front);
      CancellationsAreNotTheWorkers(replies, front);
    }
  }

  lemma SnocReply(replies: seq<(nat, Reply)>, id: nat, r: Reply)
    ensures Ids(replies + [(id, r)]) == Ids(replies) + [id]
    ensures !r.Cancelled? ==> WorkerReplies(replies + [(id, r)]) == WorkerReplies(replies) + [id]
  {
    assert (replies + [(id, r)])[..|replies|] == replies;
  }

  lemma StepConserves(s: State, step: Step)
    requires Conserved(s)
    ensures Conserved(Apply(s, step))
  {
    hide Apply, Conserved;
    match step
    case Submit => SubmitConserves(s);
    case Take => TakeConserves(s);
    case Answer(r) => AnswerConserves(s, r);
    case StopWorker => StopConserves(s);
    case Close => CloseConserves(s);
    case _ => OthersConserve(s, step);
  }

  lemma SubmitConserves(s: State)
    requires Conserved(s)
    ensures Conserved(Apply(s, Submit))
  {
    assert UpTo(s.next + 1) == UpTo(s.next) + [s.next];
  }

  lemma AnswerConserves(s: State, r: Reply)
    requires Conserved(s)
    ensures Conserved(Apply(s, Answer(r)))
  {
    if s.worker.Busy? {
      SnocReply(s.replies, s.worker.id, r);
    }
  }

  lemma StopConserves(s: State)
    requires Conserved(s)
    ensures Conserved(Apply(s, StopWorker))
  {
  }

  lemma OthersConserve(s: State, step: Step)
    requires Conserved(s) && (step.Start? || step.Receive? || step.TimeOut?)
    ensures Conserved(Apply(s, step))
  {
    hide Ids, UpTo;
    var t := Apply(s, step);
    assert t.queue == s.queue && t.replies == s.replies && t.lost == s.lost && t.next == s.next;
    assert InFlight(t.worker) == InFlight(s.worker);
  }

  lemma TakeConserves(s: State)
    requires Conserved(s)
    ensures Conserved(Apply(s, Take))
  {
    hide UpTo, Ids;
    if s.worker.Idle? && s.queue != [] {
      SnocReply(s.replies, s.queue[0], Failure);
      FirstAndRest(s.queue);
    }
  }

  lemma FirstAndRest(queue: seq<nat>)
    requires queue != []
    ensures multiset(queue) == multiset([queue[0]]) + multiset(queue[1..])
  {
    assert queue == [queue[0]] + queue[1..];
  }

  lemma CloseConserves(s: State)
    requires Conserved(s)
    ensures Conserved(Apply(s, Close))
  {
    hide UpTo;
    IdsOfAppend(s.replies, Cancellations(s.queue));
    assert Ids(Cancellations(s.queue)) == s.queue;
    hide Ids, Cancellations;
  }

  lemma StepKeepsOrder(s: State, step: Step)
    requires InOrder(s)
    ensures InOrder(Apply(s, step))
  {
    hide Apply, InOrder;
    match step
    case Submit => SubmitKeepsOrder(s);
    case Take => TakeKeepsOrder(s);
    case Answer(r) => AnswerKeepsOrder(s, r);
    case StopWorker => StopKeepsOrder(s);
    case Close => CloseKeepsOrder(s);
    case _ => OthersKeepOrder(s, step);
  }

  lemma SubmitKeepsOrder(s: State)
    requires InOrder(s)
    ensures InOrder(Apply(s, Submit))
  {
    assert s.closed || Line(Apply(s, Submit)) == Line(s) + [s.next];
    assert forall i | 0 <= i < |Line(s)| :: Line(s)[i] in Line(s);
  }

  lemma TakeKeepsOrder(s: State)
    requires InOrder(s)
    ensures InOrder(Apply(s, Take))
  {
    hide WorkerReplies, Ids, Increasing;
    if s.worker.Idle? && s.queue != [] {
      SnocReply(s.replies, s.queue[0], Failure);
      MovesAlong(WorkerReplies(s.replies), s.queue);
    }
  }

  lemma MovesAlong(done: seq<nat>, queue: seq<nat>)
    requires queue != []
    ensures done + [] + queue == done + [queue[0]] + queue[1..]
    ensures done + [queue[0]] + [] + queue[1..] == done + [] + queue
  {
  }

  lemma AnswerKeepsOrder(s: State, r: Reply)
    requires InOrder(s)
    ensures InOrder(Apply(s, Answer(r)))
  {
    if s.worker.Busy? && !r.Cancelled? {
      SnocReply(s.replies, s.worker.id, r);
      hide WorkerReplies;
      assert Line(Apply(s, Answer(r))) == Line(s);
    }
  }

  lemma StopKeepsOrder(s: State)
    requires InOrder(s)
    ensures InOrder(Apply(s, StopWorker))
  {
    hide WorkerReplies;
    var a, b := WorkerReplies(s.replies), InFlight(s.worker);
    var before, after := Line(s), Line(Apply(s, StopWorker));
    assert after == a + s.queue;
    forall i, j | 0 <= i < j < |after| ensures after[i] < after[j] {
      assert after[i] == before[if i < |a| then i else i + |b|];
      assert after[j] == before[if j < |a| then j else j + |b|];
    }
    assert forall id <- after :: id in before;
  }

  lemma CloseKeepsOrder(s: State)
    requires InOrder(s)
    ensures InOrder(Apply(s, Close))
  {
    if !s.closed {
      CancellationsAreNotTheWorkers(s.replies, s.queue);
      hide WorkerReplies;
      var after := Line(Apply(s, Close));
      assert after == Line(s)[..|after|];
      assert forall id <- after :: id in Line(s);
    }
  }

  lemma OthersKeepOrder(s: State, step: Step)
    requires InOrder(s) && (step.Start? || step.Receive? || step.TimeOut?)
    ensures InOrder(Apply(s, step))
  {
    hide WorkerReplies;
    assert Line(Apply(s, step)) == Line(s);
  }

  lemma StepInformsCallers(s: State, step: Step)
    requires CallersInformed(s)
    ensures CallersInformed(Apply(s, step))
  {
    var t := Apply(s, step);
    assert forall x <- s.replies :: x in t.replies;
  }

  lemma StepIsSound(s: State, step: Step)
    requires Invariant(s)
    ensures Invariant(Apply(s, step))
  {
    hide Conserved, InOrder, CallersInformed;
    StepConserves(s, step);
    StepKeepsOrder(s, step);
    StepInformsCallers(s, step);
  }

  /** In every reachable state each admitted request is queued, in flight, answered exactly
      once, or lost with a worker that was stopped; and answers follow submission order. */
  lemma {:induction false} EveryStateIsSound(s: State, steps: seq<Step>)
    requires Invariant(s)
    ensures Invariant(ApplyAll(s, steps))
    decreases |steps|
  {
    if steps != [] {
      StepIsSound(s, steps[0]);
      EveryStateIsSound(Apply(s, steps[0]), steps[1..]);
    }
  }

  lemma InitialIsSound()
    ensures Invariant(INITIAL)
  {
  }

  /** All of it, in every state a session can get into. */
  lemma ReachableStatesAreSound(steps: seq<Step>)
    ensures Invariant(ApplyAll(INITIAL, steps))
  {
    InitialIsSound();
    EveryStateIsSound(INITIAL, steps);
  }

  /** Conservation, said request by request. */
  lemma ExactlyOnePlace(s: State, id: nat)
    requires Invariant(s) && id < s.next
    ensures multiset(s.queue)[id] + multiset(InFlight(s.worker))[id]
            + multiset(Ids(s.replies))[id] + multiset(s.lost)[id] == 1
  {
    OnceUpTo(s.next, id);
    var all := multiset(s.queue) + multiset(InFlight(s.worker)) + multiset(Ids(s.replies)) + multiset(s.lost);
    assert all[id] == multiset(UpTo(s.next))[id];
  }

  lemma {:induction false} OnceUpTo(n: nat, id: nat)
    ensures multiset(UpTo(n))[id] == if id < n then 1 else 0
  {
    if n > 0 {
      OnceUpTo(n - 1, id);
      assert UpTo(n) == UpTo(n - 1) + [n - 1];
    }
  }

  // ---------- Closing ----------

  /** Once closed, a session admits nothing and its queue stays empty; replies only add up. */
  lemma {:induction false} ClosedForGood(s: State, steps: seq<Step>)
    requires s.closed && s.queue == []
    ensures var t := ApplyAll(s, steps);
            t.closed && t.queue == [] && t.next == s.next && s.replies <= t.replies
    decreases |steps|
  {
    if steps != [] {
      var s1 := Apply(s, steps[0]);
      assert s1.closed && s1.queue == [] && s1.next == s.next && s.replies <= s1.replies;
      ClosedForGood(s1, steps[1..]);
    }
  }

  /** Every request queued when the session is closed gets exactly one reply, the
      cancellation, whatever happens afterwards. */
  lemma CloseCancelsTheQueue(s: State, steps: seq<Step>, id: nat)
    requires Invariant(s) && !s.closed && id in s.queue
    ensures var t := ApplyAll(Apply(s, Close), steps);
            (id, Cancelled) in t.replies && multiset(Ids(t.replies))[id] == 1 && id !in t.lost && t.worker != Busy(id)
  {
    var s1 := Apply(s, Close);
    var k :| 0 <= k < |s.queue| && s.queue[k] == id;
    assert s1.replies[|s.replies| + k] == (id, Cancelled);
    StepIsSound(s, Close);
    EveryStateIsSound(s1, steps);
    ClosedForGood(s1, steps);
    var t := ApplyAll(s1, steps);
    assert t.replies[|s.replies| + k] == (id, Cancelled);
    assert Ids(t.replies)[|s.replies| + k] == id;
    assert id < s.next by { assert id in Line(s); }
    ExactlyOnePlace(t, id);
  }

  // ---------- What is answered ----------

  predicate NoFailures(replies: seq<(nat, Reply)>) { forall p <- replies :: p.1 != Failure }

  /** The server does not fail, and no connection breaks. */
  predicate GoesWell(step: Step) { step != Start(true) && step != Answer(Failure) }

  /** A session with a connection fails no request of its own accord. */
  lemma {:induction false} HealthySessionsDoNotFail(s: State, steps: seq<Step>)
    requires !s.broken && NoFailures(s.replies) && forall step <- steps :: GoesWell(step)
    ensures var t := ApplyAll(s, steps); !t.broken && NoFailures(t.replies)
    decreases |steps|
  {
    if steps != [] {
      var t := Apply(s, steps[0]);
      assert GoesWell(steps[0]);
      CancellationsAreNoFailures(s.replies, s.queue);
      assert !t.broken && NoFailures(t.replies);
      HealthySessionsDoNotFail(t, steps[1..]);
    }
  }

  lemma CancellationsAreNoFailures(replies: seq<(nat, Reply)>, ids: seq<nat>)
    requires NoFailures(replies)
    ensures NoFailures(replies + Cancellations(ids))
  {
  }

  predicate Idles(s: State) { s.broken ==> !s.worker.Busy? }

  /** A session without a connection never calls the server. */
  lemma {:induction false} BrokenSessionsDoNotCall(s: State, steps: seq<Step>)
    requires Idles(s)
    ensures Idles(ApplyAll(s, steps))
    decreases |steps|
  {
    if steps != [] {
      assert Idles(Apply(s, steps[0]));
      BrokenSessionsDoNotCall(Apply(s, steps[0]), steps[1..]);
    }
  }

  /** What the worker says to a request: not one of the cancellations sent on closing. */
  predicate OnlyFailuresFrom(replies: seq<(nat, Reply)>, n: nat) {
    forall k | n <= k < |replies| :: replies[k].1 == Failure || replies[k].1 == Cancelled
  }

  predicate FindsNoServer(step: Step) { step != Start(false) }

  /** It fails every request it takes, as long as no new worker finds a connection. */
  lemma {:induction false} BrokenSessionsFail(s: State, steps: seq<Step>, n: nat)
    requires s.broken && Idles(s) && n <= |s.replies| && OnlyFailuresFrom(s.replies, n)
    requires forall step <- steps :: FindsNoServer(step)
    ensures var t := ApplyAll(s, steps);
            t.broken && s.replies <= t.replies && OnlyFailuresFrom(t.replies, n)
    decreases |steps|
  {
    if steps != [] {
      var t := Apply(s, steps[0]);
      assert FindsNoServer(steps[0]);
      assert t.broken && Idles(t) && s.replies <= t.replies && OnlyFailuresFrom(t.replies, n);
      BrokenSessionsFail(t, steps[1..], n);
    }
  }

  /** An idle worker takes the oldest request, and nothing but that. */
  lemma OldestIsTaken(s: State)
    requires s.worker == Idle && s.queue != []
    ensures var t := Apply(s, Take);
            && t.queue == s.queue[1..]
            && (!s.broken ==> t.worker == Busy(s.queue[0]) && t.replies == s.replies)
            && (s.broken ==> t.worker == Idle && t.replies == s.replies + [(s.queue[0], Failure)])
  {
  }

  function CallSteps(id: nat, r: Reply): seq<Step> { [Submit, Take, Answer(r), Receive(id)] }

  /** A call on an open session with an idle worker and nothing queued gives its caller what the
      server answered: returned, or raised if it is a failure. */
  lemma CallsAreAnswered(s: State, r: Reply)
    requires Invariant(s) && !s.closed && !s.broken && s.worker == Idle && s.queue == [] && r != Cancelled
    ensures var t := ApplyAll(s, CallSteps(s.next, r));
            && s.next in t.callers
            && t.callers[s.next] == (if r == Failure then Raised(r) else Returned(r))
            && t.worker == Idle && t.queue == [] && t.replies == s.replies + [(s.next, r)]
  {
    hide Invariant, Ids, ReplyTo, ApplyAll, Conserved, InOrder, CallersInformed;
    var s1 := Apply(s, Submit);
    var s2 := Apply(s1, Take);
    var s3 := Apply(s2, Answer(r));
    assert s3.replies == s.replies + [(s.next, r)];
    NewIdIsUnanswered(s);
    LastReplyTo(s.replies, s.next, r);
    FourSteps(s, Submit, Take, Answer(r), Receive(s.next));
  }

  lemma FourSteps(s: State, a: Step, b: Step, c: Step, d: Step)
    ensures ApplyAll(s, [a, b, c, d]) == Apply(Apply(Apply(Apply(s, a), b), c), d)
  {
    hide Apply;
    var s1 := Apply(s, a);
    var s2 := Apply(s1, b);
    var s3 := Apply(s2, c);
    assert [a, b, c, d][1..] == [b, c, d] && [b, c, d][1..] == [c, d] && [c, d][1..] == [d] && [d][1..] == [];
    assert ApplyAll(s3, [d]) == Apply(s3, d);
    assert ApplyAll(s2, [c, d]) == ApplyAll(s3, [d]);
    assert ApplyAll(s1, [b, c, d]) == ApplyAll(s2, [c, d]);
  }

  lemma NewIdIsUnanswered(s: State)
    requires Invariant(s)
    ensures s.next !in Ids(s.replies)
  {
    hide InOrder, CallersInformed;
    OnceUpTo(s.next, s.next);
    var all := multiset(s.queue) + multiset(InFlight(s.worker)) + multiset(Ids(s.replies)) + multiset(s.lost);
    assert all[s.next] == multiset(UpTo(s.next))[s.next];
    assert multiset(Ids(s.replies))[s.next] == 0;
  }

  lemma {:induction false} LastReplyTo(replies: seq<(nat, Reply)>, id: nat, r: Reply)
    requires id !in Ids(replies)
    ensures id in Ids(replies + [(id, r)]) && ReplyTo(replies + [(id, r)], id) == r
    decreases |replies|
  {
    var all := replies + [(id, r)];
    assert Ids(all)[|replies|] == id;
    if replies != [] {
      assert Ids(replies)[0] == replies[0].0 && all[1..] == replies[1..] + [(id, r)];
      assert forall x <- Ids(replies[1..]) :: x in Ids(replies) by {
        assert Ids(replies[1..]) == Ids(replies)[1..];
      }
      LastReplyTo(replies[1..], id, r);
    }
  }

  /** A worker starts on an open session that has none. One that is stopped loses the request it
      is busy with, and no other; a caller that gives up has timed out, if it was still waiting. */
  lemma StartsStopsAndTimeOuts(s: State, id: nat, broken: bool)
    ensures s.worker == Gone && !s.closed ==>
              Apply(s, Start(broken)).worker == Idle && Apply(s, Start(broken)).broken == broken
    ensures s.closed ==> Apply(s, Start(broken)) == s
    ensures Apply(s, StopWorker).worker == Gone
    ensures Apply(s, StopWorker).lost == if s.worker.Busy? then s.lost + [s.worker.id] else s.lost
    ensures id in s.callers ==>
              var t := Apply(s, TimeOut(id));
              id in t.callers && t.callers[id] == if s.callers[id] == Waiting then TimedOut else s.callers[id]
  {
  }

  // ---------- The object ----------

  class Session {
    var next: nat
    var queue: seq<nat>
    var worker: Worker
    var broken: bool
    var closed: bool
    var replies: seq<(nat, Reply)>
    var lost: seq<nat>
    var callers: map<nat, Caller>

    constructor ()
      ensures Now() == INITIAL
    {
      next, queue, worker, broken, closed, replies, lost, callers := 0, [], Gone, false, false, [], [], map[];
    }

    ghost function Now(): State
      reads this
    {
      State(next, queue, worker, broken, closed, replies, lost, callers)
    }

    method CallServer() returns (id: nat, refused: bool)
      modifies this
      ensures old(Invariant(Now())) ==> Invariant(Now())
      ensures Now() == Apply(old(Now()), Submit) && refused == old(closed) && id == old(next)
    {
      hide Invariant;
      ghost var was := Now();
      if Invariant(was) {
        StepIsSound(was, Submit);
      }
      id := next;
      if closed {
        return id, true;
      }
      callers := callers[id := Waiting];
      next := next + 1;
      queue := queue + [id];
      refused := false;
    }

    /** The part of the worker's loop up to the remote call. */
    method TakeTask()
      modifies this
      ensures old(Invariant(Now())) ==> Invariant(Now())
      ensures Now() == Apply(old(Now()), Take)
      ensures old(worker) == Idle && old(queue) != [] ==>
                && queue == old(queue)[1..]
                && (broken ==> worker == Idle && replies == old(replies) + [(old(queue)[0], Failure)])
                && (!broken ==> worker == Busy(old(queue)[0]) && replies == old(replies))
      ensures next == old(next) && callers == old(callers) && lost == old(lost)
      ensures closed == old(closed) && broken == old(broken)
    {
      hide Invariant;
      ghost var was := Now();
      if Invariant(was) {
        StepIsSound(was, Take);
      }
      if worker.Idle? && queue != [] {
        var id := queue[0];
        queue := queue[1..];
        if broken {
          replies := replies + [(id, Failure)];
        } else {
          worker := Busy(id);
        }
      }
    }

    /** The rest of it, unless the worker was cancelled during the call. */
    method FinishTask(reply: Reply, cancelled: bool)
      requires worker.Busy? && !reply.Cancelled?
      modifies this
      ensures old(Invariant(Now())) ==> Invariant(Now())
      ensures Now() == Apply(old(Now()), if cancelled then StopWorker else Answer(reply))
    {
      hide Invariant;
      ghost var was := Now();
      if Invariant(was) {
        StepIsSound(was, if cancelled then StopWorker else Answer(reply));
      }
      if cancelled {
        lost := lost + [worker.id];
        worker := Gone;
      } else {
        replies := replies + [(worker.id, reply)];
        worker := Idle;
      }
    }

    method CloseSession()
      modifies this
      ensures old(Invariant(Now())) ==> Invariant(Now())
      ensures Now() == Apply(old(Now()), Close)
    {
      hide Invariant;
      ghost var was := Now();
      if Invariant(was) {
        StepIsSound(was, Close);
      }
      if closed {
        return;
      }
      closed := true;
      ghost var done := 0;
      while queue != []
        invariant closed && 0 <= done <= |old(queue)| && queue == old(queue)[done..]
        invariant replies == old(replies) + Cancellations(old(queue)[..done])
        invariant next == old(next) && worker == old(worker) && broken == old(broken)
        invariant lost == old(lost) && callers == old(callers)
        decreases |queue|
      {
        var id := queue[0];
        queue := queue[1..];
        replies := replies + [(id, Cancelled)];
        assert Cancellations(old(queue)[..done]) + [(id, Cancelled)] == Cancellations(old(queue)[..done + 1]);
        done := done + 1;
      }
      assert old(queue)[..done] == old(queue);
    }
  }
}
