/** What becomes of each request over a run of the server: who answers it, in which order the workers take the requests,
    when the main thread stops to read, and when the workers come to rest. */
module RuntimeServerRuns {
  import opened RuntimeServer

  /** A run with the steps that it took. */
  ghost predicate TakesAll(run: seq<World>, steps: seq<Step>) {
    && |run| == |steps| + 1 && Initial(run[0])
    && forall i | 0 <= i < |steps| :: Enabled(run[i], steps[i]) && run[i + 1] == Next(run[i], steps[i])
  }

  lemma IsARun(run: seq<World>, steps: seq<Step>)
    requires TakesAll(run, steps)
    ensures IsRun(run)
  {
    hide Next, Enabled;
    forall i | 0 <= i < |run| - 1
      ensures Follows(run[i], run[i + 1])
    {
      assert Enabled(run[i], steps[i]) && run[i + 1] == Next(run[i], steps[i]);
    }
  }

  // ----- who answers a request

  /** The step reads a request, as a control request or as another one. */
  predicate Reads(step: Step) {
    step.ReadControl? || step.ReadRequest?
  }

  /** Before the j-th step so many requests had been read; with it, this one. */
  ghost predicate ReadAt(run: seq<World>, steps: seq<Step>, j: nat, id: RequestId)
    requires TakesAll(run, steps)
  {
    j < |steps| && Reads(steps[j]) && run[j].parsed == id
  }

  lemma OneMoreIsRead(w: World, step: Step)
    requires Enabled(w, step)
    ensures Next(w, step).parsed == w.parsed + if Reads(step) then 1 else 0
  {
  }

  lemma HistoryGrows(w: World, step: Step)
    requires Enabled(w, step)
    ensures w.accepted <= Next(w, step).accepted && w.mainReplies <= Next(w, step).mainReplies
  {
  }

  lemma {:induction false} HistoryStays(run: seq<World>, steps: seq<Step>, j: nat, i: nat)
    requires TakesAll(run, steps) && j <= i < |run|
    ensures run[j].accepted <= run[i].accepted && run[j].mainReplies <= run[i].mainReplies
    decreases i
  {
    hide Next, Enabled;
    if j < i {
      HistoryStays(run, steps, j, i - 1);
      HistoryGrows(run[i - 1], steps[i - 1]);
    }
  }

  lemma {:induction false} ReadOnce(run: seq<World>, steps: seq<Step>, i: nat, id: RequestId) returns (j: nat)
    requires TakesAll(run, steps) && i < |run| && id < run[i].parsed
    ensures j < i && ReadAt(run, steps, j, id)
    decreases i
  {
    hide Next, Enabled;
    OneMoreIsRead(run[i - 1], steps[i - 1]);
    if id < run[i - 1].parsed {
      j := ReadOnce(run, steps, i - 1, id);
    } else {
      j := i - 1;
    }
  }

  lemma RequestIsFiled(w: World)
    requires Enabled(w, ReadRequest)
    ensures var w' := Next(w, ReadRequest);
            if |w.queue| < 64 then w.parsed in w'.accepted else w.parsed in w'.mainReplies
  {
  }

  lemma ControlIsNoted(w: World, step: Step)
    requires Enabled(w, step)
    ensures w.control <= Next(w, step).control
    ensures step.ReadControl? ==> w.parsed in Next(w, step).control
  {
  }

  lemma {:induction false} ControlStays(run: seq<World>, steps: seq<Step>, j: nat, i: nat)
    requires TakesAll(run, steps) && j <= i < |run|
    ensures run[j].control <= run[i].control
    decreases i
  {
    hide Next, Enabled;
    if j < i {
      ControlStays(run, steps, j, i - 1);
      ControlIsNoted(run[i - 1], steps[i - 1]);
    }
  }

  /** Every request was read at some step. A control request never enters the queue, and the main thread has answered it
      as soon as it is done with it. Any other request is turned away by the main thread exactly if 64 requests were
      waiting when it was read, and is accepted otherwise. */
  lemma TurnedAwayExactly(run: seq<World>, steps: seq<Step>, i: nat, id: RequestId)
    requires TakesAll(run, steps) && i < |run| && id < run[i].parsed
    ensures exists j :: 0 <= j < i && ReadAt(run, steps, j, id)
              && (if steps[j].ReadControl? then
                    && id !in run[i].accepted
                    && (id in run[i].mainReplies <==> !(run[i].main.Controlling? && run[i].main.id == id))
                  else
                    && (id in run[i].mainReplies <==> |run[j].queue| == 64)
                    && (id in run[i].accepted <==> |run[j].queue| < 64))
  {
    hide Next, Enabled, Held;
    IsARun(run, steps);
    InvHolds(run, i);
    assert Conserved(run[i], id);
    var j := ReadOnce(run, steps, i, id);
    InvHolds(run, j);
    HistoryStays(run, steps, j + 1, i);
    ControlStays(run, steps, j + 1, i);
    ControlIsNoted(run[j], steps[j]);
    if steps[j].ReadRequest? {
      RequestIsFiled(run[j]);
    }
  }

  // ----- the order in which the workers take the requests

  /** The requests that entered the queue, in the order of the steps that read them. */
  ghost function AcceptedOrder(run: seq<World>, steps: seq<Step>, i: nat): seq<RequestId>
    requires TakesAll(run, steps) && i < |run|
  {
    if i == 0 then []
    else
      var before := AcceptedOrder(run, steps, i - 1);
      if steps[i - 1].ReadRequest? && run[i - 1].parsed in run[i].accepted then before + [run[i - 1].parsed] else before
  }

  /** The requests that workers have taken out of the channel, in the order of these steps. */
  ghost function TakenOrder(run: seq<World>, steps: seq<Step>, i: nat): seq<RequestId>
    requires TakesAll(run, steps) && i < |run|
  {
    if i == 0 then []
    else
      var before := TakenOrder(run, steps, i - 1);
      if steps[i - 1].Receive? && Has(run[i], steps[i - 1].worker)
      then before + [run[i].workers[steps[i - 1].worker].id]
      else before
  }

  predicate Has(w: World, worker: nat) {
    worker < |w.workers| && (w.workers[worker].Received? || w.workers[worker].Dispatching?)
  }

  lemma ReadingIsNew(w: World)
    requires QueueInv(w) && Enabled(w, ReadRequest)
    ensures var w' := Next(w, ReadRequest);
            && (w.parsed in w'.accepted <==> |w.queue| < 64)
            && w'.accepted == w.accepted + (if |w.queue| < 64 then multiset{w.parsed} else multiset{})
            && w'.queue == w.queue + (if |w.queue| < 64 then [w.parsed] else [])
            && w'.main == w.main
  {
    assert w.parsed !in w.accepted;
  }

  lemma OthersKeepQueue(w: World, step: Step)
    requires Enabled(w, step) && !step.ReadRequest?
    ensures var w' := Next(w, step);
            && w'.accepted == w.accepted
            && (step.Receive? ==> Has(w', step.worker) && w.queue == [w'.workers[step.worker].id] + w'.queue)
            && (!step.Receive? && w'.main != Returned ==> w'.queue == w.queue)
  {
  }

  lemma ReturnedIsTheEnd(w: World, step: Step)
    requires ShutdownInv(w) && w.main == Returned
    ensures !Enabled(w, step)
  {
  }

  /** The order contains what was accepted, each request once. */
  lemma {:induction false} AcceptedOrderIsAll(run: seq<World>, steps: seq<Step>, i: nat)
    requires TakesAll(run, steps) && i < |run|
    ensures multiset(AcceptedOrder(run, steps, i)) == run[i].accepted
    decreases i
  {
    hide Next, Enabled, QueueInv, ShutdownInv, Conserved, Initial;
    IsARun(run, steps);
    if i == 0 {
      NothingAtFirst(run[0]);
    } else {
      AcceptedOrderIsAll(run, steps, i - 1);
      InvHolds(run, i - 1);
      if steps[i - 1].ReadRequest? {
        ReadingIsNew(run[i - 1]);
      } else {
        OthersKeepQueue(run[i - 1], steps[i - 1]);
      }
    }
  }

  lemma TakenAtRead(run: seq<World>, steps: seq<Step>, i: nat)
    requires TakesAll(run, steps) && 0 < i < |run| && steps[i - 1].ReadRequest? && QueueInv(run[i - 1])
    requires AcceptedOrder(run, steps, i - 1) == TakenOrder(run, steps, i - 1) + run[i - 1].queue
    ensures AcceptedOrder(run, steps, i) == TakenOrder(run, steps, i) + run[i].queue
  {
    hide Next, Enabled, QueueInv, Initial;
    ReadingIsNew(run[i - 1]);
  }

  lemma TakenAtOther(run: seq<World>, steps: seq<Step>, i: nat)
    requires TakesAll(run, steps) && 0 < i < |run| && !steps[i - 1].ReadRequest?
    requires AcceptedOrder(run, steps, i - 1) == TakenOrder(run, steps, i - 1) + run[i - 1].queue
    ensures TakenOrder(run, steps, i) <= AcceptedOrder(run, steps, i)
    ensures run[i].main != Returned ==>
              AcceptedOrder(run, steps, i) == TakenOrder(run, steps, i) + run[i].queue
  {
    hide Next, Enabled, Initial;
    OthersKeepQueue(run[i - 1], steps[i - 1]);
  }

  /** Workers take the requests in the order in which they were accepted: what was taken, followed by what is queued, is
      what was accepted, until serve returns and drops the rest of the queue. */
  lemma {:induction false} TakenInOrder(run: seq<World>, steps: seq<Step>, i: nat)
    requires TakesAll(run, steps) && i < |run|
    ensures TakenOrder(run, steps, i) <= AcceptedOrder(run, steps, i)
    ensures run[i].main != Returned ==>
              AcceptedOrder(run, steps, i) == TakenOrder(run, steps, i) + run[i].queue
    decreases i
  {
    hide Next, Enabled, QueueInv, ShutdownInv, Conserved, Initial;
    IsARun(run, steps);
    if i == 0 {
      NothingAtFirst(run[0]);
    } else {
      TakenInOrder(run, steps, i - 1);
      InvHolds(run, i - 1);
      if run[i - 1].main == Returned {
        ReturnedIsTheEnd(run[i - 1], steps[i - 1]);
      } else if steps[i - 1].ReadRequest? {
        TakenAtRead(run, steps, i);
      } else {
        TakenAtOther(run, steps, i);
      }
    }
  }

  lemma NothingAtFirst(w: World)
    requires Initial(w)
    ensures w.queue == [] && w.accepted == multiset{} && w.parsed == 0 && w.main == Reading && Exited !in w.workers
  {
  }

  predicate IncreasesBelow(order: seq<RequestId>, bound: nat) {
    && (forall k | 0 <= k < |order| :: order[k] < bound)
    && (forall k, l | 0 <= k < l < |order| :: order[k] < order[l])
  }

  /** Requests are accepted in the order in which they were read. */
  lemma {:induction false} AcceptedAsRead(run: seq<World>, steps: seq<Step>, i: nat)
    requires TakesAll(run, steps) && i < |run|
    ensures IncreasesBelow(AcceptedOrder(run, steps, i), run[i].parsed)
    decreases i
  {
    hide Next, Enabled;
    if i > 0 {
      AcceptedAsRead(run, steps, i - 1);
      OneMoreIsRead(run[i - 1], steps[i - 1]);
    }
  }

  // ----- the end of the main loop

  predicate LoopIsLeft(w: World) {
    w.main == LoopLeft || w.main == FlagStored || w.main == Joining || w.main == Returned
  }

  /** The step answers a control request that asks for the shutdown. */
  ghost predicate AnswersShutdown(run: seq<World>, steps: seq<Step>, j: nat)
    requires TakesAll(run, steps) && j < |steps|
  {
    && steps[j].ReplyControl?
    && exists k :: 0 <= k < j && steps[k] == ReadControl(true) && run[k].parsed in run[j + 1].mainReplies
         && run[k].parsed !in run[j].mainReplies
  }

  /** The control request that the main thread is at was read this way. */
  ghost predicate ControlIsRead(run: seq<World>, steps: seq<Step>, i: nat)
    requires TakesAll(run, steps) && i < |run|
  {
    run[i].main.Controlling? ==>
      exists k :: 0 <= k < i && steps[k] == ReadControl(run[i].main.shutdown) && run[k].parsed == run[i].main.id
  }

  lemma MainMoves(w: World, step: Step)
    requires Enabled(w, step)
    ensures var w' := Next(w, step);
            && (w'.main.Controlling? ==>
                  if step.ReadControl? then w'.main == Controlling(w.parsed, step.shutdown) else w'.main == w.main)
            && (LoopIsLeft(w') <==> LoopIsLeft(w) || step.LeaveLoop? || (step.ReplyControl? && w.main.shutdown))
            && (step.ReplyControl? ==> w'.mainReplies == w.mainReplies + multiset{w.main.id})
  {
  }

  lemma {:induction false} ControlWasRead(run: seq<World>, steps: seq<Step>, i: nat)
    requires TakesAll(run, steps) && i < |run|
    ensures ControlIsRead(run, steps, i)
    decreases i
  {
    hide Next, Enabled;
    if i > 0 {
      ControlWasRead(run, steps, i - 1);
      MainMoves(run[i - 1], steps[i - 1]);
    }
  }

  lemma {:induction false} ParsedGrows(run: seq<World>, steps: seq<Step>, j: nat, i: nat)
    requires TakesAll(run, steps) && j < i < |run| && Reads(steps[j])
    ensures run[j].parsed < run[i].parsed
    decreases i
  {
    hide Next, Enabled;
    OneMoreIsRead(run[i - 1], steps[i - 1]);
    if j < i - 1 {
      ParsedGrows(run, steps, j, i - 1);
    }
  }

  /** A reply to a control request answers a shutdown exactly if the main thread is at such a request. */
  lemma AnswersShutdownExactly(run: seq<World>, steps: seq<Step>, j: nat)
    requires TakesAll(run, steps) && j < |steps| && steps[j].ReplyControl?
    ensures AnswersShutdown(run, steps, j) <==> run[j].main.Controlling? && run[j].main.shutdown
  {
    hide Next, Held;
    IsARun(run, steps);
    InvHolds(run, j);
    MainMoves(run[j], steps[j]);
    ControlWasRead(run, steps, j);
    var id := run[j].main.id;
    assert Conserved(run[j], id);
    if AnswersShutdown(run, steps, j) {
      var k :| 0 <= k < j && steps[k] == ReadControl(true) && run[k].parsed in run[j + 1].mainReplies
               && run[k].parsed !in run[j].mainReplies;
      var l :| 0 <= l < j && steps[l] == ReadControl(run[j].main.shutdown) && run[l].parsed == id;
      if k < l {
        ParsedGrows(run, steps, k, l);
      } else if l < k {
        ParsedGrows(run, steps, l, k);
      }
    }
  }

  /** The main thread has left its loop exactly if it has come to the end of the input or has answered a request for the
      shutdown. */
  lemma {:induction false} LoopIsLeftExactly(run: seq<World>, steps: seq<Step>, i: nat)
    requires TakesAll(run, steps) && i < |run|
    ensures LoopIsLeft(run[i]) <==> exists j :: 0 <= j < i && (steps[j] == LeaveLoop || AnswersShutdown(run, steps, j))
    decreases i
  {
    hide Next, Enabled, AnswersShutdown, Initial;
    if i == 0 {
      NothingAtFirst(run[0]);
    } else {
      LoopIsLeftExactly(run, steps, i - 1);
      MainMoves(run[i - 1], steps[i - 1]);
      if steps[i - 1].ReplyControl? {
        AnswersShutdownExactly(run, steps, i - 1);
        AtControl(run[i - 1]);
      } else {
        NoAnswer(run, steps, i - 1);
      }
    }
  }

  lemma AtControl(w: World)
    requires Enabled(w, ReplyControl)
    ensures w.main.Controlling?
  {
  }

  lemma NoAnswer(run: seq<World>, steps: seq<Step>, j: nat)
    requires TakesAll(run, steps) && j < |steps| && !steps[j].ReplyControl?
    ensures !AnswersShutdown(run, steps, j)
  {
  }

  /** Behind the loop nothing is read. */
  lemma NothingIsReadBehind(w: World, step: Step)
    requires Enabled(w, step) && LoopIsLeft(w)
    ensures LoopIsLeft(Next(w, step)) && Next(w, step).parsed == w.parsed
  {
  }

  // ----- the workers before the shutdown

  /** How much work is left with a worker. */
  function WorkOf(worker: WorkerPc): nat {
    match worker
    case Received(_) => 3
    case Dispatching(_) => 2
    case Locking => 1
    case _ => 0
  }

  function WorkOfAll(workers: seq<WorkerPc>): nat {
    if workers == [] then 0 else WorkOf(workers[0]) + WorkOfAll(workers[1..])
  }

  function Work(w: World): nat {
    5 * |w.queue| + WorkOfAll(w.workers)
  }

  lemma {:induction false} WorkUpdate(workers: seq<WorkerPc>, i: nat, worker: WorkerPc)
    requires i < |workers|
    ensures WorkOfAll(workers[i := worker]) + WorkOf(workers[i]) == WorkOfAll(workers) + WorkOf(worker)
  {
    if i == 0 {
      assert workers[0 := worker][1..] == workers[1..];
    } else {
      assert workers[i := worker][1..] == workers[1..][i - 1 := worker];
      WorkUpdate(workers[1..], i - 1, worker);
    }
  }

  lemma {:induction false} WorkBound(workers: seq<WorkerPc>)
    ensures WorkOfAll(workers) <= 3 * |workers|
  {
    if workers != [] {
      WorkBound(workers[1..]);
    }
  }

  /** Before the shutdown no worker has exited, and at most one waits at the channel. */
  ghost predicate WorkersInv(w: World) {
    && (Exited in w.workers ==> w.shuttingDown)
    && forall j, k | 0 <= j < k < |w.workers| :: !(w.workers[j] == w.workers[k] == Receiving)
  }

  lemma WorkersInvLock(w: World, i: nat)
    requires WorkersInv(w) && Enabled(w, TakeLock(i))
    ensures WorkersInv(Next(w, TakeLock(i)))
  {
  }

  /** A worker that does not come to wait at the channel, and exits in the shutdown only. */
  lemma WorkersInvLeave(w: World, w': World, i: nat)
    requires WorkersInv(w) && i < |w.workers| == |w'.workers| && w'.workers == w.workers[i := w'.workers[i]]
    requires w'.workers[i] != Receiving && (w'.workers[i] == Exited ==> w.shuttingDown)
    requires w'.shuttingDown == w.shuttingDown
    ensures WorkersInv(w')
  {
  }

  lemma WorkerMoves(w: World, step: Step)
    requires ShutdownInv(w) && Enabled(w, step) && IsWorkerStep(step) && !step.TakeLock?
    ensures var w' := Next(w, step);
            && step.worker < |w.workers| == |w'.workers|
            && w'.workers == w.workers[step.worker := w'.workers[step.worker]]
            && w'.workers[step.worker] != Receiving && (w'.workers[step.worker] == Exited ==> w.shuttingDown)
            && w'.shuttingDown == w.shuttingDown
  {
  }

  lemma WorkersInvWorkerStep(w: World, step: Step)
    requires WorkersInv(w) && ShutdownInv(w) && Enabled(w, step) && IsWorkerStep(step)
    ensures WorkersInv(Next(w, step))
  {
    hide Next, Enabled, WorkersInv, ShutdownInv;
    if step.TakeLock? {
      WorkersInvLock(w, step.worker);
    } else {
      WorkerMoves(w, step);
      WorkersInvLeave(w, Next(w, step), step.worker);
    }
  }

  lemma WorkersInvMainStep(w: World, step: Step)
    requires WorkersInv(w) && Enabled(w, step) && !IsWorkerStep(step)
    ensures WorkersInv(Next(w, step))
  {
  }

  lemma {:induction false} WorkersHold(run: seq<World>, steps: seq<Step>, i: nat)
    requires TakesAll(run, steps) && i < |run|
    ensures WorkersInv(run[i])
    decreases i
  {
    hide Next, Enabled, Conserved, QueueInv, ShutdownInv;
    IsARun(run, steps);
    if i > 0 {
      WorkersHold(run, steps, i - 1);
      InvHolds(run, i - 1);
      if IsWorkerStep(steps[i - 1]) {
        WorkersInvWorkerStep(run[i - 1], steps[i - 1]);
      } else {
        WorkersInvMainStep(run[i - 1], steps[i - 1]);
      }
    }
  }

  /** Before the flag is set, every step of a worker takes work away, of which there is at most 332; a step of the main
      thread adds at most 5. */
  lemma WorkersMakeProgress(run: seq<World>, steps: seq<Step>, i: nat, step: Step)
    requires TakesAll(run, steps) && i < |run| && !run[i].shuttingDown && Enabled(run[i], step)
    ensures Work(run[i]) <= 332
    ensures if IsWorkerStep(step) then Work(Next(run[i], step)) < Work(run[i])
            else Work(Next(run[i], step)) <= Work(run[i]) + 5
  {
    hide WorkOfAll, Conserved, TakesAll;
    IsARun(run, steps);
    InvHolds(run, i);
    var w := run[i];
    WorkBound(w.workers);
    if IsWorkerStep(step) {
      WorkUpdate(w.workers, step.worker, Next(w, step).workers[step.worker]);
    }
  }

  lemma SomeoneReceives(w: World)
    requires w.workers != [] && !Enabled(w, TakeLock(0))
    requires forall k | 0 <= k < |w.workers| :: w.workers[k] == Locking || w.workers[k] == Receiving
    ensures Receiving in w.workers
  {
    assert w.workers[0] in w.workers;
  }

  /** Before the flag is set, the workers rest only if the queue is empty and every accepted request is answered. */
  lemma RestMeansAnswered(run: seq<World>, steps: seq<Step>, i: nat, id: RequestId)
    requires TakesAll(run, steps) && i < |run| && !run[i].shuttingDown
    requires forall step | IsWorkerStep(step) :: !Enabled(run[i], step)
    ensures run[i].queue == [] && (id in run[i].accepted ==> run[i].workerReplies[id] == 1)
  {
    hide Next, Held, TakesAll;
    IsARun(run, steps);
    InvHolds(run, i);
    WorkersHold(run, steps, i);
    var w := run[i];
    assert Conserved(w, id);
    forall k | 0 <= k < |w.workers|
      ensures w.workers[k] == Locking || w.workers[k] == Receiving
    {
      assert !Enabled(w, CheckFlag(k)) && !Enabled(w, ReplyRequest(k));
      assert w.workers[k] in w.workers;
    }
    HeldByNobody(w.workers, id);
    SomeoneReceives(w);
    var k :| 0 <= k < |w.workers| && w.workers[k] == Receiving;
    assert !Enabled(w, Receive(k));
  }
}
