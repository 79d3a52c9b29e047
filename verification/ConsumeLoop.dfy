/** The command consume loops of one agent instance and its two in-flight sets.

    A loop is a coroutine; each method of the class runs the code between two awaits, and loops says at which await each
    loop is suspended. Handlers settle between any two of these steps. */
module ConsumeLoop {
  type MessageId = nat
  type TaskId = nat

  const READ_COUNT: nat := 10

  /** XREADGROUP for the consumer's pending entries, or for entries never delivered. */
  datatype StreamPosition = Pending | New

  datatype Pc =
    | Stopped
    | Starting                                                // await ready()
    | WaitingForSlot(position: StreamPosition, block: bool)   // await waitForCommandSlot()
    | Reading(position: StreamPosition, block: bool, count: nat)
    | BatchDone(position: StreamPosition, handled: bool)      // readBatch has returned to the loop
    | Sleeping

  /** The state of the queue object that the loop works on. tasks tells which message each promise handles. */
  datatype LoopState = LoopState(
    loops: seq<Pc>,   // in the order in which they were begun
    subscribed: bool,
    running: bool,
    closed: bool,
    inFlightMessages: set<TaskId>,
    inFlightMessageIds: set<MessageId>,
    tasks: map<TaskId, MessageId>,
    nextTask: TaskId,
    doubled: bool     // history: a loop was begun while another was alive
  )

  /** What the environment does between two steps of a loop, or the result a loop is resumed with. */
  datatype Event =
    | Subscribe
    | Unsubscribe
    | Close
    | Settle(task: TaskId)
    | Resume(loop: nat)
    | Batch(loop: nat, messages: seq<MessageId>)
    | ReadError(loop: nat)

  // ----- the steps of the loops

  function AvailableSlots(maxConcurrentRuns: nat, s: LoopState): int {
    maxConcurrentRuns - |s.inFlightMessages|
  }

  predicate SomeAlive(s: LoopState) {
    exists k | 0 <= k < |s.loops| :: s.loops[k] != Stopped
  }

  function LoopTop(s: LoopState): Pc {
    if s.closed || !s.running then Stopped else WaitingForSlot(Pending, false)
  }

  /** The wait for a slot is over when there is one, or when the loop is to stop. */
  predicate SlotWaitOver(maxConcurrentRuns: nat, s: LoopState) {
    AvailableSlots(maxConcurrentRuns, s) > 0 || s.closed || !s.running
  }

  function IssueRead(maxConcurrentRuns: nat, s: LoopState, pc: Pc): Pc
    requires pc.WaitingForSlot?
  {
    var slots := AvailableSlots(maxConcurrentRuns, s);
    if !s.subscribed || slots <= 0 then BatchDone(pc.position, false)
    else Reading(pc.position, pc.block, if READ_COUNT <= slots then READ_COUNT else slots)
  }

  function AfterBatch(s: LoopState, pc: Pc): Pc
    requires pc.BatchDone?
  {
    if pc.handled then LoopTop(s)
    else if pc.position == Pending then WaitingForSlot(New, s.inFlightMessages == {})
    else Sleeping
  }

  /** Where the loop is suspended next. */
  function Resumed(maxConcurrentRuns: nat, s: LoopState, pc: Pc): Pc {
    match pc
    case WaitingForSlot(_, _) => IssueRead(maxConcurrentRuns, s, pc)
    case BatchDone(_, _) => AfterBatch(s, pc)
    case Starting => LoopTop(s)
    case Sleeping => LoopTop(s)
    case Reading(_, _, _) => pc
    case Stopped => pc
  }

  /** trackInFlightMessage: both sets grow together. */
  function Track(s: LoopState, id: MessageId): LoopState {
    s.(inFlightMessageIds := s.inFlightMessageIds + {id},
       inFlightMessages := s.inFlightMessages + {s.nextTask},
       tasks := s.tasks[s.nextTask := id],
       nextTask := s.nextTask + 1)
  }

  /** The messages of a batch in order; those already in flight are skipped. */
  function TrackAll(s: LoopState, messages: seq<MessageId>): LoopState
    decreases |messages|
  {
    if messages == [] then s
    else if messages[0] in s.inFlightMessageIds then TrackAll(s, messages[1..])
    else TrackAll(Track(s, messages[0]), messages[1..])
  }

  /** Some message of the batch is not in flight yet. */
  predicate SomeNew(s: LoopState, messages: seq<MessageId>) {
    exists id | id in messages :: id !in s.inFlightMessageIds
  }

  predicate Enabled(maxConcurrentRuns: nat, s: LoopState, event: Event) {
    match event
    case Subscribe => true
    case Unsubscribe => true
    case Close => true
    case Settle(task) => task in s.tasks
    case Resume(k) =>
      && k < |s.loops|
      && !s.loops[k].Reading? && !s.loops[k].Stopped?
      && (s.loops[k].WaitingForSlot? ==> SlotWaitOver(maxConcurrentRuns, s))
    case Batch(k, messages) => k < |s.loops| && s.loops[k].Reading? && |messages| <= s.loops[k].count
    case ReadError(k) => k < |s.loops| && s.loops[k].Reading?
  }

  /** subscribe begins a loop unless one is meant to run. */
  function Begin(s: LoopState): LoopState {
    if s.running then s.(subscribed := true)
    else s.(subscribed := true, running := true, loops := s.loops + [Starting], doubled := s.doubled || SomeAlive(s))
  }

  function Next(maxConcurrentRuns: nat, s: LoopState, event: Event): LoopState
    requires Enabled(maxConcurrentRuns, s, event)
  {
    match event
    case Subscribe => Begin(s)
    case Unsubscribe => s.(subscribed := false, running := false)
    case Close => s.(running := false, closed := true)
    case Settle(task) =>
      s.(inFlightMessages := s.inFlightMessages - {task},
         inFlightMessageIds := s.inFlightMessageIds - {s.tasks[task]},
         tasks := s.tasks - {task})
    case Resume(k) => s.(loops := s.loops[k := Resumed(maxConcurrentRuns, s, s.loops[k])])
    case Batch(k, messages) =>
      TrackAll(s, messages).(loops := s.loops[k := BatchDone(s.loops[k].position, SomeNew(s, messages))])
    case ReadError(k) => s.(loops := s.loops[k := if s.closed || !s.running then Stopped else Sleeping])
  }

  function InitialState(): LoopState {
    LoopState([], false, false, false, {}, {}, map[], 0, false)
  }

  ghost predicate IsRun(maxConcurrentRuns: nat, run: seq<LoopState>) {
    && run != []
    && run[0] == InitialState()
    && forall i | 0 <= i < |run| - 1 :: Follows(maxConcurrentRuns, run[i], run[i + 1])
  }

  ghost predicate Follows(maxConcurrentRuns: nat, s: LoopState, s': LoopState) {
    exists event :: Enabled(maxConcurrentRuns, s, event) && s' == Next(maxConcurrentRuns, s, event)
  }

  // ----- what every step keeps

  /** The two sets are in one-to-one step: one promise per message id. */
  ghost predicate InStep(s: LoopState) {
    && s.inFlightMessages == s.tasks.Keys
    && (forall id :: id in s.inFlightMessageIds <==> exists t :: t in s.tasks && s.tasks[t] == id)
    && (forall t, u | t in s.tasks && u in s.tasks && s.tasks[t] == s.tasks[u] :: t == u)
    && (forall t | t in s.tasks :: t < s.nextTask)
  }

  /** A loop asks for no more messages than there are slots, and blocks only while nothing is in flight. */
  ghost predicate LoopFits(maxConcurrentRuns: nat, s: LoopState, pc: Pc) {
    && (pc.Reading? ==> |s.inFlightMessages| + pc.count <= maxConcurrentRuns)
    && ((pc.Reading? || pc.WaitingForSlot?) && pc.block ==> pc.position == New && s.inFlightMessages == {})
  }

  /** What holds unless a loop was begun while another was alive. */
  ghost predicate Bounded(maxConcurrentRuns: nat, s: LoopState) {
    && |s.inFlightMessages| <= maxConcurrentRuns
    && (forall k | 0 <= k < |s.loops| - 1 :: s.loops[k] == Stopped)
    && (forall k | 0 <= k < |s.loops| :: LoopFits(maxConcurrentRuns, s, s.loops[k]))
  }

  ghost predicate Inv(maxConcurrentRuns: nat, s: LoopState) {
    && InStep(s)
    && (forall k | 0 <= k < |s.loops| && s.loops[k].Reading? :: 1 <= s.loops[k].count <= READ_COUNT)
    && (!s.doubled ==> Bounded(maxConcurrentRuns, s))
  }

  lemma TrackKeepsStep(s: LoopState, id: MessageId)
    requires InStep(s) && id !in s.inFlightMessageIds
    ensures InStep(Track(s, id))
    ensures |Track(s, id).inFlightMessages| == |s.inFlightMessages| + 1
  {
    var s' := Track(s, id);
    assert s.nextTask !in s.inFlightMessages;
    assert s'.tasks[s.nextTask] == id;
    forall i | i in s'.inFlightMessageIds
      ensures exists t :: t in s'.tasks && s'.tasks[t] == i
    {
      if i != id {
        var t :| t in s.tasks && s.tasks[t] == i;
        assert s'.tasks[t] == i;
      }
    }
  }

  lemma {:induction false} TrackAllKeepsStep(s: LoopState, messages: seq<MessageId>)
    requires InStep(s)
    ensures InStep(TrackAll(s, messages))
    ensures |TrackAll(s, messages).inFlightMessages| <= |s.inFlightMessages| + |messages|
    decreases |messages|
  {
    if messages != [] {
      if messages[0] in s.inFlightMessageIds {
        TrackAllKeepsStep(s, messages[1..]);
      } else {
        TrackKeepsStep(s, messages[0]);
        TrackAllKeepsStep(Track(s, messages[0]), messages[1..]);
      }
    }
  }

  lemma {:induction false} TrackAllGrows(s: LoopState, messages: seq<MessageId>)
    ensures TrackAll(s, messages).nextTask >= s.nextTask
    ensures TrackAll(s, messages).nextTask > s.nextTask <==> SomeNew(s, messages)
    ensures TrackAll(s, messages).loops == s.loops && TrackAll(s, messages).doubled == s.doubled
    decreases |messages|
  {
    if messages != [] {
      assert messages == [messages[0]] + messages[1..];
      if messages[0] in s.inFlightMessageIds {
        TrackAllGrows(s, messages[1..]);
      } else {
        TrackAllGrows(Track(s, messages[0]), messages[1..]);
      }
    }
  }

  lemma TrackAllStep(s: LoopState, messages: seq<MessageId>)
    requires messages != []
    ensures TrackAll(s, messages) ==
            TrackAll(if messages[0] in s.inFlightMessageIds then s else Track(s, messages[0]), messages[1..])
  {
  }

  lemma TrackAllOfNothing(s: LoopState)
    ensures TrackAll(s, []) == s
  {
  }

  lemma SettleKeepsStep(s: LoopState, task: TaskId)
    requires InStep(s) && task in s.tasks
    ensures InStep(s.(inFlightMessages := s.inFlightMessages - {task},
                      inFlightMessageIds := s.inFlightMessageIds - {s.tasks[task]},
                      tasks := s.tasks - {task}))
  {
    var tasks := s.tasks - {task};
    forall id | id in s.inFlightMessageIds && id != s.tasks[task]
      ensures exists t :: t in tasks && tasks[t] == id
    {
      var t :| t in s.tasks && s.tasks[t] == id;
      assert t in tasks && tasks[t] == id;
    }
  }

  /** The loop at k, which is the only one alive, gets on. */
  lemma LoopGetsOn(maxConcurrentRuns: nat, s: LoopState, s': LoopState, k: nat)
    requires Bounded(maxConcurrentRuns, s) && k < |s.loops| == |s'.loops| && s.loops[k] != Stopped
    requires s'.loops == s.loops[k := s'.loops[k]] && |s'.inFlightMessages| <= maxConcurrentRuns
    requires LoopFits(maxConcurrentRuns, s', s'.loops[k])
    ensures Bounded(maxConcurrentRuns, s')
  {
    forall j | 0 <= j < |s'.loops|
      ensures LoopFits(maxConcurrentRuns, s', s'.loops[j])
      ensures j < |s'.loops| - 1 ==> s'.loops[j] == Stopped
    {
      assert k == |s.loops| - 1;
    }
  }

  lemma InvStepBatch(maxConcurrentRuns: nat, s: LoopState, k: nat, messages: seq<MessageId>)
    requires Inv(maxConcurrentRuns, s) && Enabled(maxConcurrentRuns, s, Batch(k, messages))
    ensures Inv(maxConcurrentRuns, Next(maxConcurrentRuns, s, Batch(k, messages)))
  {
    hide TrackAll, SomeNew, InStep, Bounded;
    TrackAllKeepsStep(s, messages);
    TrackAllGrows(s, messages);
    var s' := Next(maxConcurrentRuns, s, Batch(k, messages));
    InStepFrame(TrackAll(s, messages), s');
    if !s.doubled {
      LoopFitsAt(maxConcurrentRuns, s, k);
      LoopGetsOn(maxConcurrentRuns, s, s', k);
    }
  }

  lemma LoopFitsAt(maxConcurrentRuns: nat, s: LoopState, k: nat)
    requires Bounded(maxConcurrentRuns, s) && k < |s.loops|
    ensures LoopFits(maxConcurrentRuns, s, s.loops[k]) && |s.inFlightMessages| <= maxConcurrentRuns
  {
  }

  lemma InvStepSettle(maxConcurrentRuns: nat, s: LoopState, task: TaskId)
    requires Inv(maxConcurrentRuns, s) && Enabled(maxConcurrentRuns, s, Settle(task))
    ensures Inv(maxConcurrentRuns, Next(maxConcurrentRuns, s, Settle(task)))
  {
    SettleKeepsStep(s, task);
    assert task in s.inFlightMessages;
    assert |s.inFlightMessages - {task}| < |s.inFlightMessages|;
    if !s.doubled {
      forall k | 0 <= k < |s.loops|
        ensures LoopFits(maxConcurrentRuns, Next(maxConcurrentRuns, s, Settle(task)), s.loops[k])
      {
        assert LoopFits(maxConcurrentRuns, s, s.loops[k]);
      }
    }
  }

  lemma InStepFrame(s: LoopState, s': LoopState)
    requires InStep(s)
    requires s'.inFlightMessages == s.inFlightMessages && s'.inFlightMessageIds == s.inFlightMessageIds
    requires s'.tasks == s.tasks && s'.nextTask == s.nextTask
    ensures InStep(s')
  {
  }

  lemma InvStepSubscribe(maxConcurrentRuns: nat, s: LoopState)
    requires Inv(maxConcurrentRuns, s)
    ensures Inv(maxConcurrentRuns, Begin(s))
  {
    hide InStep;
    InStepFrame(s, Begin(s));
    if !Begin(s).doubled {
      forall k | 0 <= k < |Begin(s).loops|
        ensures LoopFits(maxConcurrentRuns, Begin(s), Begin(s).loops[k])
      {
        assert k < |s.loops| ==> LoopFits(maxConcurrentRuns, s, s.loops[k]);
      }
    }
  }

  lemma InvStepResume(maxConcurrentRuns: nat, s: LoopState, event: Event)
    requires Inv(maxConcurrentRuns, s) && Enabled(maxConcurrentRuns, s, event) && (event.Resume? || event.ReadError?)
    ensures Inv(maxConcurrentRuns, Next(maxConcurrentRuns, s, event))
  {
    hide InStep, Bounded;
    InStepFrame(s, Next(maxConcurrentRuns, s, event));
    if !s.doubled {
      LoopFitsAt(maxConcurrentRuns, s, event.loop);
      LoopGetsOn(maxConcurrentRuns, s, Next(maxConcurrentRuns, s, event), event.loop);
    }
  }

  lemma InvStepStop(maxConcurrentRuns: nat, s: LoopState, event: Event)
    requires Inv(maxConcurrentRuns, s) && (event.Unsubscribe? || event.Close?)
    ensures Inv(maxConcurrentRuns, Next(maxConcurrentRuns, s, event))
  {
    hide InStep;
    InStepFrame(s, Next(maxConcurrentRuns, s, event));
    if !s.doubled {
      forall k | 0 <= k < |s.loops|
        ensures LoopFits(maxConcurrentRuns, Next(maxConcurrentRuns, s, event), s.loops[k])
      {
        assert LoopFits(maxConcurrentRuns, s, s.loops[k]);
      }
    }
  }

  lemma InvStep(maxConcurrentRuns: nat, s: LoopState, event: Event)
    requires Inv(maxConcurrentRuns, s) && Enabled(maxConcurrentRuns, s, event)
    ensures Inv(maxConcurrentRuns, Next(maxConcurrentRuns, s, event))
  {
    hide Inv, TrackAll, SomeNew;
    match event
    case Subscribe => InvStepSubscribe(maxConcurrentRuns, s);
    case Batch(k, messages) => InvStepBatch(maxConcurrentRuns, s, k, messages);
    case Settle(task) => InvStepSettle(maxConcurrentRuns, s, task);
    case Resume(_) => InvStepResume(maxConcurrentRuns, s, event);
    case ReadError(_) => InvStepResume(maxConcurrentRuns, s, event);
    case Unsubscribe => InvStepStop(maxConcurrentRuns, s, event);
    case Close => InvStepStop(maxConcurrentRuns, s, event);
  }

  lemma {:induction false} InvHolds(maxConcurrentRuns: nat, run: seq<LoopState>, i: nat)
    requires IsRun(maxConcurrentRuns, run) && i < |run|
    ensures Inv(maxConcurrentRuns, run[i])
  {
    hide Inv, Next, Enabled, InitialState;
    if i > 0 {
      InvHolds(maxConcurrentRuns, run, i - 1);
      assert Follows(maxConcurrentRuns, run[i - 1], run[i - 1 + 1]);
      var event :| Enabled(maxConcurrentRuns, run[i - 1], event)
                   && run[i] == Next(maxConcurrentRuns, run[i - 1], event);
      InvStep(maxConcurrentRuns, run[i - 1], event);
    } else {
      InitialInv(maxConcurrentRuns);
    }
  }

  lemma InitialInv(maxConcurrentRuns: nat)
    ensures Inv(maxConcurrentRuns, InitialState())
  {
  }

  /** In every reachable state in which no loop was begun while another was alive: only the last loop is alive, at most
      maxConcurrentRuns handlers are in flight, reads in progress included, and a blocking read is outstanding only
      while nothing is in flight. */
  lemma LoopIsBounded(maxConcurrentRuns: nat, run: seq<LoopState>, i: nat)
    requires IsRun(maxConcurrentRuns, run) && i < |run| && !run[i].doubled
    ensures |run[i].inFlightMessages| <= maxConcurrentRuns
    ensures forall k | 0 <= k < |run[i].loops| - 1 :: run[i].loops[k] == Stopped
    ensures forall k | 0 <= k < |run[i].loops| :: LoopFits(maxConcurrentRuns, run[i], run[i].loops[k])
  {
    InvHolds(maxConcurrentRuns, run, i);
  }

  /** The sizes of the two sets agree. */
  lemma {:induction false} SetsHaveOneSize(tasks: map<TaskId, MessageId>)
    requires forall t, u | t in tasks && u in tasks && tasks[t] == tasks[u] :: t == u
    ensures |tasks.Values| == |tasks.Keys|
  {
    if tasks != map[] {
      var t :| t in tasks;
      var rest := tasks - {t};
      assert tasks.Keys == rest.Keys + {t} && t !in rest.Keys;
      assert tasks.Values == rest.Values + {tasks[t]} && tasks[t] !in rest.Values by {
        forall v | v in tasks.Values
          ensures v in rest.Values + {tasks[t]}
        {
          var u :| u in tasks && tasks[u] == v;
          if u != t {
            assert u in rest && rest[u] == v;
          }
        }
      }
      SetsHaveOneSize(rest);
    }
  }

  /** In every reachable state no message is handled twice at once, and the two sets have one size. */
  lemma InFlightSetsAgree(maxConcurrentRuns: nat, run: seq<LoopState>, i: nat)
    requires IsRun(maxConcurrentRuns, run) && i < |run|
    ensures |run[i].inFlightMessageIds| == |run[i].inFlightMessages|
    ensures forall t, u | t in run[i].tasks && u in run[i].tasks && run[i].tasks[t] == run[i].tasks[u] :: t == u
  {
    InvHolds(maxConcurrentRuns, run, i);
    var s := run[i];
    assert s.inFlightMessageIds == s.tasks.Values;
    SetsHaveOneSize(s.tasks);
  }

  // ----- several loops

  function ReservedBy(pc: Pc): nat {
    if pc.Reading? then pc.count else 0
  }

  /** How many messages the reads in progress may still bring. */
  function Reserved(loops: seq<Pc>): nat {
    if loops == [] then 0 else Reserved(loops[..|loops| - 1]) + ReservedBy(loops[|loops| - 1])
  }

  lemma {:induction false} ReservedUpdate(loops: seq<Pc>, k: nat, pc: Pc)
    requires k < |loops|
    ensures Reserved(loops[k := pc]) + ReservedBy(loops[k]) == Reserved(loops) + ReservedBy(pc)
    decreases |loops|
  {
    var n := |loops| - 1;
    if k == n {
      assert loops[n := pc][..n] == loops[..n];
    } else {
      assert loops[k := pc][..n] == loops[..n][k := pc];
      ReservedUpdate(loops[..n], k, pc);
    }
  }

  lemma {:induction false} ReservedIsBounded(loops: seq<Pc>, each: nat)
    requires forall k | 0 <= k < |loops| :: ReservedBy(loops[k]) <= each
    ensures Reserved(loops) <= |loops| * each
    decreases |loops|
  {
    if loops != [] {
      ReservedIsBounded(loops[..|loops| - 1], each);
      assert |loops| * each == (|loops| - 1) * each + each;
    }
  }

  lemma {:induction false} ReservedWithout(loops: seq<Pc>, k: nat, each: nat)
    requires k < |loops| && forall j | 0 <= j < |loops| :: ReservedBy(loops[j]) <= each
    ensures Reserved(loops) - ReservedBy(loops[k]) <= (|loops| - 1) * each
  {
    hide Reserved;
    ReservedUpdate(loops, k, Stopped);
    ReservedLeaves(loops[k := Stopped], k, each);
  }

  lemma {:induction false} ReservedLeaves(loops: seq<Pc>, k: nat, each: nat)
    requires k < |loops| && loops[k] == Stopped && forall j | 0 <= j < |loops| :: ReservedBy(loops[j]) <= each
    ensures Reserved(loops) <= (|loops| - 1) * each
    decreases |loops|
  {
    var n := |loops| - 1;
    if k == n {
      ReservedIsBounded(loops[..n], each);
    } else {
      ReservedLeaves(loops[..n], k, each);
      assert n * each == (n - 1) * each + each;
    }
  }

  /** What is in flight or reserved by reads, against the number of loops begun. */
  ghost predicate SharesInv(maxConcurrentRuns: nat, s: LoopState) {
    && InStep(s)
    && (forall k | 0 <= k < |s.loops| :: ReservedBy(s.loops[k]) <= maxConcurrentRuns)
    && |s.inFlightMessages| + Reserved(s.loops) <= |s.loops| * maxConcurrentRuns
  }

  lemma SharesSubscribe(maxConcurrentRuns: nat, s: LoopState)
    requires SharesInv(maxConcurrentRuns, s)
    ensures SharesInv(maxConcurrentRuns, Begin(s))
  {
    InStepFrame(s, Begin(s));
    assert (s.loops + [Starting])[..|s.loops|] == s.loops;
    assert (|s.loops| + 1) * maxConcurrentRuns == |s.loops| * maxConcurrentRuns + maxConcurrentRuns;
  }

  lemma SharesResume(maxConcurrentRuns: nat, s: LoopState, event: Event)
    requires SharesInv(maxConcurrentRuns, s) && Enabled(maxConcurrentRuns, s, event)
    requires event.Resume? || event.ReadError?
    ensures SharesInv(maxConcurrentRuns, Next(maxConcurrentRuns, s, event))
  {
    hide InStep, Reserved;
    var s', k := Next(maxConcurrentRuns, s, event), event.loop;
    InStepFrame(s, s');
    ReservedUpdate(s.loops, k, s'.loops[k]);
    ReservedWithout(s.loops, k, maxConcurrentRuns);
    assert |s.loops| * maxConcurrentRuns == (|s.loops| - 1) * maxConcurrentRuns + maxConcurrentRuns;
  }

  lemma SharesBatch(maxConcurrentRuns: nat, s: LoopState, k: nat, messages: seq<MessageId>)
    requires SharesInv(maxConcurrentRuns, s) && Enabled(maxConcurrentRuns, s, Batch(k, messages))
    ensures SharesInv(maxConcurrentRuns, Next(maxConcurrentRuns, s, Batch(k, messages)))
  {
    hide InStep, Reserved, TrackAll, SomeNew;
    var s' := Next(maxConcurrentRuns, s, Batch(k, messages));
    TrackAllKeepsStep(s, messages);
    TrackAllGrows(s, messages);
    InStepFrame(TrackAll(s, messages), s');
    ReservedUpdate(s.loops, k, s'.loops[k]);
  }

  lemma SharesSettle(maxConcurrentRuns: nat, s: LoopState, task: TaskId)
    requires SharesInv(maxConcurrentRuns, s) && Enabled(maxConcurrentRuns, s, Settle(task))
    ensures SharesInv(maxConcurrentRuns, Next(maxConcurrentRuns, s, Settle(task)))
  {
    SettleKeepsStep(s, task);
    assert |s.inFlightMessages - {task}| <= |s.inFlightMessages|;
  }

  lemma SharesStep(maxConcurrentRuns: nat, s: LoopState, event: Event)
    requires SharesInv(maxConcurrentRuns, s) && Enabled(maxConcurrentRuns, s, event)
    ensures SharesInv(maxConcurrentRuns, Next(maxConcurrentRuns, s, event))
  {
    hide InStep, Reserved, TrackAll, SomeNew;
    match event
    case Subscribe => SharesSubscribe(maxConcurrentRuns, s);
    case Batch(k, messages) => SharesBatch(maxConcurrentRuns, s, k, messages);
    case Settle(task) => SharesSettle(maxConcurrentRuns, s, task);
    case Resume(_) => SharesResume(maxConcurrentRuns, s, event);
    case ReadError(_) => SharesResume(maxConcurrentRuns, s, event);
    case _ => InStepFrame(s, Next(maxConcurrentRuns, s, event));
  }

  /** In every reachable state at most maxConcurrentRuns handlers are in flight per loop that was ever begun. */
  lemma {:induction false} EachLoopHasItsShare(maxConcurrentRuns: nat, run: seq<LoopState>, i: nat)
    requires IsRun(maxConcurrentRuns, run) && i < |run|
    ensures SharesInv(maxConcurrentRuns, run[i])
    ensures |run[i].inFlightMessages| <= |run[i].loops| * maxConcurrentRuns
  {
    hide Next, Enabled;
    if i > 0 {
      EachLoopHasItsShare(maxConcurrentRuns, run, i - 1);
      assert Follows(maxConcurrentRuns, run[i - 1], run[i - 1 + 1]);
      var event :| Enabled(maxConcurrentRuns, run[i - 1], event)
                   && run[i] == Next(maxConcurrentRuns, run[i - 1], event);
      SharesStep(maxConcurrentRuns, run[i - 1], event);
    }
  }

  lemma RunExtends(maxConcurrentRuns: nat, run: seq<LoopState>, event: Event) returns (longer: seq<LoopState>)
    requires IsRun(maxConcurrentRuns, run) && Enabled(maxConcurrentRuns, run[|run| - 1], event)
    ensures IsRun(maxConcurrentRuns, longer) && |longer| == |run| + 1
    ensures longer[|run|] == Next(maxConcurrentRuns, run[|run| - 1], event)
  {
    hide Next, Enabled, InitialState;
    var s, s' := run[|run| - 1], Next(maxConcurrentRuns, run[|run| - 1], event);
    longer := run + [s'];
    forall i | 0 <= i < |longer| - 1
      ensures Follows(maxConcurrentRuns, longer[i], longer[i + 1])
    {
      if i < |run| - 1 {
        assert Follows(maxConcurrentRuns, run[i], run[i + 1]);
      } else {
        assert Enabled(maxConcurrentRuns, s, event) && s' == Next(maxConcurrentRuns, s, event);
      }
    }
  }

  /** Both loops read although there is one slot. */
  lemma TwoReadersOneSlot() returns (run: seq<LoopState>)
    ensures IsRun(1, run)
    ensures run[|run| - 1] ==
            LoopState([Reading(Pending, false, 1), Reading(Pending, false, 1)], true, true, false, {}, {}, map[], 0,
                      true)
  {
    run := [InitialState()];
    run := RunExtends(1, run, Subscribe);
    run := RunExtends(1, run, Unsubscribe);
    run := RunExtends(1, run, Subscribe);
    assert run[|run| - 1].loops == [Starting, Starting];
    run := RunExtends(1, run, Resume(0));
    run := RunExtends(1, run, Resume(1));
    assert run[|run| - 1].loops == [WaitingForSlot(Pending, false), WaitingForSlot(Pending, false)];
    run := RunExtends(1, run, Resume(0));
    run := RunExtends(1, run, Resume(1));
    assert run[|run| - 1].loops == [Reading(Pending, false, 1), Reading(Pending, false, 1)];
  }

  /** A handler that is taken away and given again at once leaves the old loop alive beside the new one, and together
      they have two messages in flight where one is allowed. */
  lemma TwoLoopsExceedTheBound()
    ensures exists run: seq<LoopState> :: IsRun(1, run) && |run[|run| - 1].inFlightMessages| == 2
  {
    var run := TwoReadersOneSlot();
    run := RunExtends(1, run, Batch(0, [5]));
    var s := run[|run| - 1];
    assert s.inFlightMessages == {0} && s.inFlightMessageIds == {5} && s.nextTask == 1;
    run := RunExtends(1, run, Batch(1, [6]));
    assert run[|run| - 1].inFlightMessages == {0, 1};
  }

  // ----- the object

  class CommandQueue {
    const maxConcurrentRuns: nat
    var inFlightMessages: set<TaskId>
    var inFlightMessageIds: set<MessageId>
    var hasHandler: bool
    var running: bool
    var closed: bool
    var loops: seq<Pc>
    ghost var tasks: map<TaskId, MessageId>
    var nextTask: TaskId
    ghost var doubled: bool

    ghost function State(): LoopState
      reads this
    {
      LoopState(loops, hasHandler, running, closed, inFlightMessages, inFlightMessageIds, tasks, nextTask, doubled)
    }

    ghost predicate Valid()
      reads this
    {
      Inv(maxConcurrentRuns, State())
    }

    constructor (maxConcurrentRuns: nat)
      ensures Valid() && this.maxConcurrentRuns == maxConcurrentRuns && State() == InitialState()
    {
      this.maxConcurrentRuns := maxConcurrentRuns;
      inFlightMessages, inFlightMessageIds, tasks := {}, {}, map[];
      hasHandler, running, closed := false, false, false;
      loops, nextTask, doubled := [], 0, false;
    }

    method SubscribeHandler()
      requires Valid()
      modifies this
      ensures Valid() && State() == Next(maxConcurrentRuns, old(State()), Subscribe)
    {
      hide Inv, InStep;
      InvStep(maxConcurrentRuns, State(), Subscribe);
      hasHandler := true;
      if !running {
        running := true;
        doubled := doubled || SomeAlive(State());
        loops := loops + [Starting];
      }
    }

    method UnsubscribeHandler()
      requires Valid()
      modifies this
      ensures Valid() && State() == Next(maxConcurrentRuns, old(State()), Unsubscribe)
    {
      hide Inv, InStep;
      InvStep(maxConcurrentRuns, State(), Unsubscribe);
      hasHandler := false;
      running := false;
    }

    method TrackInFlightMessage(messageId: MessageId)
      requires messageId !in inFlightMessageIds
      modifies this
      ensures State() == Track(old(State()), messageId)
    {
      inFlightMessageIds := inFlightMessageIds + {messageId};
      tasks := tasks[nextTask := messageId];
      inFlightMessages := inFlightMessages + {nextTask};
      nextTask := nextTask + 1;
    }

    /** A handler's promise settles: its finally clause leaves both sets. */
    method SettleTask(task: TaskId, messageId: MessageId)
      requires Valid() && task in tasks && tasks[task] == messageId
      modifies this
      ensures Valid() && State() == Next(maxConcurrentRuns, old(State()), Settle(task))
    {
      hide Inv, InStep;
      InvStep(maxConcurrentRuns, State(), Settle(task));
      inFlightMessages := inFlightMessages - {task};
      inFlightMessageIds := inFlightMessageIds - {messageId};
      tasks := tasks - {task};
    }

    /** readBatch after its read has returned. */
    method ReceiveBatch(loop: nat, messages: seq<MessageId>) returns (handledMessage: bool)
      requires Valid() && Enabled(maxConcurrentRuns, State(), Batch(loop, messages))
      modifies this
      ensures Valid() && State() == Next(maxConcurrentRuns, old(State()), Batch(loop, messages))
      ensures handledMessage <==> exists id | id in messages :: id !in old(inFlightMessageIds)
    {
      hide Inv, InStep, TrackAll;
      InvStepBatch(maxConcurrentRuns, State(), loop, messages);
      TrackAllGrows(State(), messages);
      handledMessage := false;
      ghost var start := State();
      var i := 0;
      while i < |messages|
        invariant 0 <= i <= |messages|
        invariant TrackAll(State(), messages[i..]) == TrackAll(start, messages)
        invariant loops == start.loops && start.nextTask <= nextTask
        invariant handledMessage <==> start.nextTask < nextTask
      {
        TrackAllStep(State(), messages[i..]);
        assert messages[i..][1..] == messages[i + 1..];
        if messages[i] !in inFlightMessageIds {
          handledMessage := true;
          TrackInFlightMessage(messages[i]);
        }
        i := i + 1;
      }
      assert messages[i..] == [];
      TrackAllOfNothing(State());
      loops := loops[loop := BatchDone(loops[loop].position, handledMessage)];
    }

    /** A loop goes on behind the await at which it is suspended, up to the next one. */
    method ResumeLoop(loop: nat)
      requires Valid() && Enabled(maxConcurrentRuns, State(), Resume(loop))
      modifies this
      ensures Valid() && State() == Next(maxConcurrentRuns, old(State()), Resume(loop))
    {
      hide Inv, InStep;
      InvStep(maxConcurrentRuns, State(), Resume(loop));
      var pc := loops[loop];
      match pc {
        case WaitingForSlot(position, block) =>
          var availableSlots := maxConcurrentRuns - |inFlightMessages|;
          if !hasHandler || availableSlots <= 0 {
            pc := BatchDone(position, false);
          } else {
            pc := Reading(position, block, if READ_COUNT <= availableSlots then READ_COUNT else availableSlots);
          }
        case BatchDone(position, handled) =>
          if handled {
            pc := GoToTop();
          } else if position == Pending {
            pc := WaitingForSlot(New, inFlightMessages == {});
          } else {
            pc := Sleeping;
          }
        case Starting => pc := GoToTop();
        case Sleeping => pc := GoToTop();
      }
      loops := loops[loop := pc];
    }

    method GoToTop() returns (pc: Pc)
      ensures pc == LoopTop(State())
    {
      return if closed || !running then Stopped else WaitingForSlot(Pending, false);
    }
  }
}
