/** The request loop of serve and its pool of worker threads, with a writer that never fails and a handler that always
    returns.

    Parsed requests are numbered in the order in which they are read; the numbers stand for the requests, because
    clients may repeat their JSON-RPC ids. Each step is atomic; locks, the channel and the flag take effect at once. */
module RuntimeServer {
  type RequestId = nat

  const REQUEST_QUEUE_CAPACITY: nat := 64
  const REQUEST_WORKER_COUNT: nat := 4

  /** The main thread: it reads, dispatches a control request itself, or shuts the pool down. */
  datatype MainPc =
    | Reading
    | Controlling(id: RequestId, shutdown: bool)
    | LoopLeft
    | FlagStored
    | Joining
    | Returned

  datatype WorkerPc =
    | Locking                     // waits for the lock on the receiver
    | Receiving                   // holds the lock and waits in recv
    | Received(id: RequestId)     // has a request, has not looked at the flag yet
    | Dispatching(id: RequestId)
    | Exited

  datatype World = World(
    main: MainPc,
    workers: seq<WorkerPc>,
    queue: seq<RequestId>,
    senderOpen: bool,
    shuttingDown: bool,
    parsed: nat,
    control: set<RequestId>,
    // history
    accepted: multiset<RequestId>,        // requests that entered the queue
    mainReplies: multiset<RequestId>,     // replies to control requests and to requests turned away
    workerReplies: multiset<RequestId>,
    dropped: multiset<RequestId>
  )

  datatype Step =
    | ReadInvalid                    // too large, not UTF-8, or not a request: a reply without an id
    | ReadControl(shutdown: bool)
    | ReplyControl
    | ReadRequest
    | LeaveLoop                      // end of input, or the input fails
    | StoreFlag
    | DropSender
    | JoinWorkers
    | TakeLock(worker: nat)
    | Receive(worker: nat)
    | ReceiveClosed(worker: nat)
    | CheckFlag(worker: nat)
    | ReplyRequest(worker: nat)

  predicate IsWorkerStep(step: Step) {
    step.TakeLock? || step.Receive? || step.ReceiveClosed? || step.CheckFlag? || step.ReplyRequest?
  }

  predicate Enabled(w: World, step: Step) {
    match step
    case ReadInvalid => w.main == Reading
    case ReadControl(_) => w.main == Reading
    case ReplyControl => w.main.Controlling?
    case ReadRequest => w.main == Reading
    case LeaveLoop => w.main == Reading
    case StoreFlag => w.main == LoopLeft
    case DropSender => w.main == FlagStored
    case JoinWorkers => w.main == Joining && forall i | 0 <= i < |w.workers| :: w.workers[i] == Exited
    case TakeLock(i) => i < |w.workers| && w.workers[i] == Locking && Receiving !in w.workers
    case Receive(i) => i < |w.workers| && w.workers[i] == Receiving && w.queue != []
    case ReceiveClosed(i) => i < |w.workers| && w.workers[i] == Receiving && w.queue == [] && !w.senderOpen
    case CheckFlag(i) => i < |w.workers| && w.workers[i].Received?
    case ReplyRequest(i) => i < |w.workers| && w.workers[i].Dispatching?
  }

  function Next(w: World, step: Step): World
    requires Enabled(w, step)
  {
    match step
    case ReadInvalid => w
    case ReadControl(shutdown) =>
      w.(main := Controlling(w.parsed, shutdown), parsed := w.parsed + 1, control := w.control + {w.parsed})
    case ReplyControl =>
      w.(main := if w.main.shutdown then LoopLeft else Reading, mainReplies := w.mainReplies + multiset{w.main.id})
    case ReadRequest =>
      var read := w.(parsed := w.parsed + 1);
      if |w.queue| < REQUEST_QUEUE_CAPACITY then
        read.(queue := w.queue + [w.parsed], accepted := w.accepted + multiset{w.parsed})
      else
        read.(mainReplies := w.mainReplies + multiset{w.parsed})
    case LeaveLoop => w.(main := LoopLeft)
    case StoreFlag => w.(main := FlagStored, shuttingDown := true)
    case DropSender => w.(main := Joining, senderOpen := false)
    case JoinWorkers => w.(main := Returned, queue := [], dropped := w.dropped + multiset(w.queue))
    case TakeLock(i) => w.(workers := w.workers[i := Receiving])
    case Receive(i) => w.(workers := w.workers[i := Received(w.queue[0])], queue := w.queue[1..])
    case ReceiveClosed(i) => w.(workers := w.workers[i := Exited])
    case CheckFlag(i) =>
      var id := w.workers[i].id;
      if w.shuttingDown then
        w.(workers := w.workers[i := Exited], dropped := w.dropped + multiset{id})
      else
        w.(workers := w.workers[i := Dispatching(id)])
    case ReplyRequest(i) =>
      w.(workers := w.workers[i := Locking], workerReplies := w.workerReplies + multiset{w.workers[i].id})
  }

  predicate Initial(w: World) {
    && w.main == Reading
    && w.workers == [Locking, Locking, Locking, Locking]
    && w.queue == []
    && w.senderOpen && !w.shuttingDown
    && w.parsed == 0 && w.control == {}
    && w.accepted == w.mainReplies == w.workerReplies == w.dropped == multiset{}
  }

  ghost predicate Follows(w: World, w': World) {
    exists step :: Enabled(w, step) && w' == Next(w, step)
  }

  ghost predicate IsRun(run: seq<World>) {
    run != [] && Initial(run[0]) && forall i | 0 <= i < |run| - 1 :: Follows(run[i], run[i + 1])
  }

  lemma StepTaken(run: seq<World>, i: nat) returns (step: Step)
    requires IsRun(run) && i < |run| - 1
    ensures Enabled(run[i], step) && run[i + 1] == Next(run[i], step)
  {
    assert Follows(run[i], run[i + 1]);
    step :| Enabled(run[i], step) && run[i + 1] == Next(run[i], step);
  }

  // ----- where a request can be

  function HeldBy(worker: WorkerPc, id: RequestId): nat {
    if (worker.Received? || worker.Dispatching?) && worker.id == id then 1 else 0
  }

  /** How many workers have the request. */
  function Held(workers: seq<WorkerPc>, id: RequestId): nat {
    if workers == [] then 0 else HeldBy(workers[0], id) + Held(workers[1..], id)
  }

  lemma {:induction false} HeldUpdate(workers: seq<WorkerPc>, i: nat, worker: WorkerPc, id: RequestId)
    requires i < |workers|
    ensures Held(workers[i := worker], id) + HeldBy(workers[i], id) == Held(workers, id) + HeldBy(worker, id)
  {
    if i == 0 {
      assert workers[0 := worker][1..] == workers[1..];
    } else {
      assert workers[i := worker][1..] == workers[1..][i - 1 := worker];
      HeldUpdate(workers[1..], i - 1, worker, id);
    }
  }

  function HeldByMain(main: MainPc, id: RequestId): nat {
    if main.Controlling? && main.id == id then 1 else 0
  }

  /** A parsed request is in exactly one place, once: with the main thread, in the queue, with a worker, replied to or
      dropped; a request that was not parsed is nowhere. */
  ghost predicate Conserved(w: World, id: RequestId) {
    && (if id < w.parsed then 1 else 0) == w.accepted[id] + HeldByMain(w.main, id) + w.mainReplies[id]
    && w.accepted[id] == multiset(w.queue)[id] + Held(w.workers, id) + w.workerReplies[id] + w.dropped[id]
  }

  lemma ConservedAccept(w: World, id: RequestId)
    requires Conserved(w, id) && Enabled(w, ReadRequest) && |w.queue| < REQUEST_QUEUE_CAPACITY
    ensures Conserved(Next(w, ReadRequest), id)
  {
    hide Held, HeldByMain;
  }

  lemma ConservedTurnAway(w: World, id: RequestId)
    requires Conserved(w, id) && Enabled(w, ReadRequest) && |w.queue| >= REQUEST_QUEUE_CAPACITY
    ensures Conserved(Next(w, ReadRequest), id)
  {
    hide Held, HeldByMain;
  }

  lemma ConservedReadRequest(w: World, id: RequestId)
    requires Conserved(w, id) && Enabled(w, ReadRequest)
    ensures Conserved(Next(w, ReadRequest), id)
  {
    hide Conserved, Next, Enabled;
    if |w.queue| < REQUEST_QUEUE_CAPACITY {
      ConservedAccept(w, id);
    } else {
      ConservedTurnAway(w, id);
    }
  }

  lemma ConservedControl(w: World, step: Step, id: RequestId)
    requires Conserved(w, id) && Enabled(w, step) && (step.ReadControl? || step.ReplyControl?)
    ensures Conserved(Next(w, step), id)
  {
    hide Held;
  }

  lemma ConservedAtTheEnd(w: World, step: Step, id: RequestId)
    requires Conserved(w, id) && Enabled(w, step)
    requires step.ReadInvalid? || step.LeaveLoop? || step.StoreFlag? || step.DropSender? || step.JoinWorkers?
    ensures Conserved(Next(w, step), id)
  {
    hide Held;
  }

  lemma ConservedMainStep(w: World, step: Step, id: RequestId)
    requires Conserved(w, id) && Enabled(w, step) && !IsWorkerStep(step)
    ensures Conserved(Next(w, step), id)
  {
    hide Conserved, Next, Enabled;
    match step
    case ReadRequest => ConservedReadRequest(w, id);
    case ReadControl(_) => ConservedControl(w, step, id);
    case ReplyControl => ConservedControl(w, step, id);
    case _ => ConservedAtTheEnd(w, step, id);
  }

  lemma ConservedReceive(w: World, i: nat, id: RequestId)
    requires Conserved(w, id) && Enabled(w, Receive(i))
    ensures Conserved(Next(w, Receive(i)), id)
  {
    hide Held;
    var head := w.queue[0];
    HeldUpdate(w.workers, i, Received(head), id);
    assert w.queue == [head] + w.queue[1..];
  }

  lemma ConservedCheckFlag(w: World, i: nat, id: RequestId)
    requires Conserved(w, id) && Enabled(w, CheckFlag(i))
    ensures Conserved(Next(w, CheckFlag(i)), id)
  {
    hide Held;
    HeldUpdate(w.workers, i, if w.shuttingDown then Exited else Dispatching(w.workers[i].id), id);
  }

  lemma ConservedReply(w: World, i: nat, id: RequestId)
    requires Conserved(w, id) && Enabled(w, ReplyRequest(i))
    ensures Conserved(Next(w, ReplyRequest(i)), id)
  {
    hide Held;
    HeldUpdate(w.workers, i, Locking, id);
  }

  lemma ConservedWithoutRequest(w: World, step: Step, id: RequestId)
    requires Conserved(w, id) && Enabled(w, step) && (step.TakeLock? || step.ReceiveClosed?)
    ensures Conserved(Next(w, step), id)
  {
    hide Held;
    HeldUpdate(w.workers, step.worker, Next(w, step).workers[step.worker], id);
  }

  lemma ConservedWorkerStep(w: World, step: Step, id: RequestId)
    requires Conserved(w, id) && Enabled(w, step) && IsWorkerStep(step)
    ensures Conserved(Next(w, step), id)
  {
    hide Conserved, Next, Enabled;
    match step
    case Receive(i) => ConservedReceive(w, i, id);
    case CheckFlag(i) => ConservedCheckFlag(w, i, id);
    case ReplyRequest(i) => ConservedReply(w, i, id);
    case _ => ConservedWithoutRequest(w, step, id);
  }

  lemma ConservedStep(w: World, step: Step)
    requires (forall id :: Conserved(w, id)) && Enabled(w, step)
    ensures forall id :: Conserved(Next(w, step), id)
  {
    hide Conserved, Next, Enabled;
    forall id
      ensures Conserved(Next(w, step), id)
    {
      if IsWorkerStep(step) {
        ConservedWorkerStep(w, step, id);
      } else {
        ConservedMainStep(w, step, id);
      }
    }
  }

  /** What the queue may hold. */
  ghost predicate QueueInv(w: World) {
    && |w.queue| <= REQUEST_QUEUE_CAPACITY
    && |w.workers| == REQUEST_WORKER_COUNT
    && (forall id | id in w.control :: id < w.parsed && id !in w.accepted)
    && (forall id | id in w.accepted :: id < w.parsed)
  }

  /** How far the shutdown has come. */
  ghost predicate ShutdownInv(w: World) {
    && (w.shuttingDown <==> w.main == FlagStored || w.main == Joining || w.main == Returned)
    && (w.senderOpen <==> w.main != Joining && w.main != Returned)
    && (!w.shuttingDown ==> w.dropped == multiset{})
    && (w.main == Returned ==> w.queue == [] && forall i | 0 <= i < |w.workers| :: w.workers[i] == Exited)
  }

  lemma QueueInvStep(w: World, step: Step)
    requires QueueInv(w) && Enabled(w, step)
    ensures QueueInv(Next(w, step))
  {
  }

  lemma ShutdownInvWorkerStep(w: World, step: Step)
    requires ShutdownInv(w) && Enabled(w, step) && IsWorkerStep(step)
    ensures ShutdownInv(Next(w, step))
  {
    assert w.workers[step.worker] != Exited && w.main != Returned;
  }

  lemma ShutdownInvMainStep(w: World, step: Step)
    requires ShutdownInv(w) && Enabled(w, step) && !IsWorkerStep(step)
    ensures ShutdownInv(Next(w, step))
  {
  }

  lemma ShutdownInvStep(w: World, step: Step)
    requires ShutdownInv(w) && Enabled(w, step)
    ensures ShutdownInv(Next(w, step))
  {
    hide ShutdownInv, Next, Enabled;
    if IsWorkerStep(step) {
      ShutdownInvWorkerStep(w, step);
    } else {
      ShutdownInvMainStep(w, step);
    }
  }

  lemma {:induction false} InvHolds(run: seq<World>, i: nat)
    requires IsRun(run) && i < |run|
    ensures (forall id :: Conserved(run[i], id)) && QueueInv(run[i]) && ShutdownInv(run[i])
  {
    hide Conserved, QueueInv, ShutdownInv, Next, Enabled;
    if i > 0 {
      InvHolds(run, i - 1);
      var step := StepTaken(run, i - 1);
      ConservedStep(run[i - 1], step);
      QueueInvStep(run[i - 1], step);
      ShutdownInvStep(run[i - 1], step);
    } else {
      InitiallyInv(run[0]);
    }
  }

  lemma InitiallyInv(w: World)
    requires Initial(w)
    ensures (forall id :: Conserved(w, id)) && QueueInv(w) && ShutdownInv(w)
  {
    forall id
      ensures Conserved(w, id)
    {
      HeldByNobody(w.workers, id);
    }
  }

  lemma {:induction false} HeldByNobody(workers: seq<WorkerPc>, id: RequestId)
    requires forall i | 0 <= i < |workers| :: !workers[i].Received? && !workers[i].Dispatching?
    ensures Held(workers, id) == 0
  {
    if workers != [] {
      HeldByNobody(workers[1..], id);
    }
  }

  // ----- replies

  /** How often the request has been answered. */
  ghost function Replies(w: World, id: RequestId): nat {
    w.mainReplies[id] + w.workerReplies[id]
  }

  /** A request is answered at most once, one that was not read is not answered, and a dropped one is not answered. */
  lemma AtMostOneReply(run: seq<World>, i: nat, id: RequestId)
    requires IsRun(run) && i < |run|
    ensures Replies(run[i], id) + run[i].dropped[id] <= (if id < run[i].parsed then 1 else 0)
  {
    InvHolds(run, i);
    assert Conserved(run[i], id);
  }

  /** When serve has returned, no worker is alive, the queue is empty, and every parsed request was answered exactly
      once or dropped, the latter only after having entered the queue. */
  lemma ServeSettlesEveryRequest(run: seq<World>, i: nat, id: RequestId)
    requires IsRun(run) && i < |run| && run[i].main == Returned && id < run[i].parsed
    ensures Replies(run[i], id) + run[i].dropped[id] == 1
    ensures run[i].accepted[id] == run[i].workerReplies[id] + run[i].dropped[id]
    ensures id in run[i].dropped ==> id !in run[i].control
    ensures run[i].queue == [] && forall k | 0 <= k < |run[i].workers| :: run[i].workers[k] == Exited
  {
    InvHolds(run, i);
    assert Conserved(run[i], id);
    HeldByNobody(run[i].workers, id);
  }

  /** Nothing is dropped before the shutdown flag is set; until then an accepted request is queued, with a worker, or
      answered. */
  lemma NothingIsDroppedBeforeShutdown(run: seq<World>, i: nat, id: RequestId)
    requires IsRun(run) && i < |run| && !run[i].shuttingDown && id in run[i].accepted
    ensures run[i].dropped == multiset{}
    ensures multiset(run[i].queue)[id] + Held(run[i].workers, id) + Replies(run[i], id) == 1
  {
    InvHolds(run, i);
    assert Conserved(run[i], id);
  }

  /** The queue holds at most 64 requests, there are 4 workers, and no control request is with them. */
  lemma QueueIsBounded(run: seq<World>, i: nat, id: RequestId)
    requires IsRun(run) && i < |run|
    ensures |run[i].queue| <= 64 && |run[i].workers| == 4
    ensures id in run[i].control ==> id !in run[i].queue && Held(run[i].workers, id) == 0 && run[i].dropped[id] == 0
  {
    InvHolds(run, i);
    assert Conserved(run[i], id);
    assert id in run[i].queue ==> id in multiset(run[i].queue);
  }

  // ----- shutdown comes to an end

  /** How many steps a worker can still take once the flag is set. */
  function Rank(worker: WorkerPc): nat {
    match worker
    case Dispatching(_) => 4
    case Locking => 3
    case Receiving => 2
    case Received(_) => 1
    case Exited => 0
  }

  function Ranks(workers: seq<WorkerPc>): nat {
    if workers == [] then 0 else Rank(workers[0]) + Ranks(workers[1..])
  }

  lemma {:induction false} RanksUpdate(workers: seq<WorkerPc>, i: nat, worker: WorkerPc)
    requires i < |workers|
    ensures Ranks(workers[i := worker]) + Rank(workers[i]) == Ranks(workers) + Rank(worker)
  {
    if i == 0 {
      assert workers[0 := worker][1..] == workers[1..];
    } else {
      assert workers[i := worker][1..] == workers[1..][i - 1 := worker];
      RanksUpdate(workers[1..], i - 1, worker);
    }
  }

  lemma {:induction false} RanksBound(workers: seq<WorkerPc>)
    ensures Ranks(workers) <= 4 * |workers|
  {
    if workers != [] {
      RanksBound(workers[1..]);
    }
  }

  /** Once the flag is set, every step of a worker brings the pool closer to its end, and steps of the main thread do
      not take it back: at most 16 worker steps are left. */
  lemma ShutdownMakesProgress(run: seq<World>, i: nat, step: Step)
    requires IsRun(run) && i < |run| && run[i].shuttingDown && Enabled(run[i], step)
    ensures Ranks(run[i].workers) <= 16
    ensures if IsWorkerStep(step) then Ranks(Next(run[i], step).workers) < Ranks(run[i].workers)
            else Next(run[i], step).workers == run[i].workers
  {
    hide IsRun, Ranks, Conserved;
    InvHolds(run, i);
    RanksBound(run[i].workers);
    var w := run[i];
    if IsWorkerStep(step) {
      RanksUpdate(w.workers, step.worker, Next(w, step).workers[step.worker]);
    }
  }

  /** While serve waits for its workers, it is never stuck: some worker can take a step, or all have exited. */
  lemma JoinIsNeverStuck(run: seq<World>, i: nat)
    requires IsRun(run) && i < |run| && run[i].main == Joining
    ensures Enabled(run[i], JoinWorkers) || exists step :: IsWorkerStep(step) && Enabled(run[i], step)
  {
    hide IsRun, Conserved;
    InvHolds(run, i);
    var w := run[i];
    if k :| 0 <= k < |w.workers| && w.workers[k] != Exited {
      if w.workers[k].Received? {
        assert Enabled(w, CheckFlag(k));
      } else if w.workers[k].Dispatching? {
        assert Enabled(w, ReplyRequest(k));
      } else if Receiving in w.workers {
        var j :| 0 <= j < |w.workers| && w.workers[j] == Receiving;
        assert Enabled(w, Receive(j)) || Enabled(w, ReceiveClosed(j));
      } else {
        assert Enabled(w, TakeLock(k));
      }
    }
  }
}
