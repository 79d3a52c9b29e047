/** The command stream, its consumer group, the dead-letter stream and the idempotency marks, as every agent instance
    sees them, and the tasks that handle delivered messages.

    Each step is one atomic effect: one Redis command, or the code between two awaits. A Redis command that fails may
    or may not have been applied. A task may be started for any delivered message at any time, also for one
    that has been acknowledged since it was read; the consume loop, which starts fewer, is modelled in ConsumeLoop. */
module CommandProtocol {
  import opened Wrappers

  type MessageId = nat
  type TaskId = nat
  type Key = nat
  type Instance = nat

  /** A stream entry: its command field is missing, does not parse, or holds a command with an idempotency key. */
  datatype Entry = Missing | Malformed | Command(key: Key)

  /** Where handleMessage, and inside it the worker's handler, is suspended. */
  datatype Phase =
    | Ready                  // about to look at the entry, or to call the handler once more
    | Marking(key: Key)      // markStarted is on its way
    | Submitting(key: Key, lifetime: nat)   // runner.submit runs
    | Clearing(key: Key, lifetime: nat)     // submit threw, clear is on its way
    | Threw                  // the handler threw
    | DeadLettering          // the dead-letter entry is on its way
    | Acking                 // the acknowledgement is on its way
    | Settled                // handleMessage is over, the task is about to leave the in-flight sets

  /** foundFree is the answer to the task's latest markStarted. */
  datatype Task = Task(instance: Instance, id: MessageId, attempts: nat, phase: Phase, foundFree: bool)

  /** What is known about the latest submit for a key in the key's present lifetime: it runs; it returned; it threw
      and its mark is being cleared, or that is over; or its task died, or the mark was set and no submit followed. */
  datatype LastSubmit = Running(task: TaskId) | Returned | Failing(task: TaskId) | Failed | Unknown

  datatype World = World(
    maxAttempts: nat,
    stream: seq<Entry>,
    delivered: nat,               // the group has delivered stream[..delivered]
    pending: set<MessageId>,
    acked: set<MessageId>,
    deadLetters: set<MessageId>,
    marks: set<Key>,
    tasks: map<TaskId, Task>,
    nextTask: TaskId,
    // history
    handledFree: set<MessageId>,  // the handler returned normally for the message, having found its key free
    handledTaken: set<MessageId>, // the handler returned normally for the message, having found its key marked
    ownReturns: set<MessageId>,   // a submit for the message itself returned
    submits: map<Key, LastSubmit>,
    lifetimes: map<Key, nat>      // how many lifetimes of the key are over
  )

  /** The number of the key's present lifetime. A lifetime ends when the mark runs out, or when it is cleared for a
      submit that has outlived its own. */
  function Lifetime(w: World, key: Key): nat {
    if key in w.lifetimes then w.lifetimes[key] else 0
  }

  function EndLifetime(w: World, key: Key): World {
    w.(marks := w.marks - {key}, submits := w.submits - {key}, lifetimes := w.lifetimes[key := Lifetime(w, key) + 1])
  }

  // ----- the idempotency store

  /** SET key NX: whether the mark was free, and the marks afterwards. */
  function MarkStarted(marks: set<Key>, key: Key): (bool, set<Key>) {
    (key !in marks, marks + {key})
  }

  function Clear(marks: set<Key>, key: Key): set<Key> {
    marks - {key}
  }

  /** The store of a process without Redis. */
  class MemoryIdempotencyStore {
    var startedKeys: set<Key>

    constructor ()
      ensures startedKeys == {}
    {
      startedKeys := {};
    }

    method MarkKeyStarted(idempotencyKey: Key) returns (started: bool)
      modifies this
      ensures (started, startedKeys) == MarkStarted(old(startedKeys), idempotencyKey)
    {
      if idempotencyKey in startedKeys {
        assert startedKeys == startedKeys + {idempotencyKey};
        return false;
      }
      startedKeys := startedKeys + {idempotencyKey};
      return true;
    }

    method ClearKey(idempotencyKey: Key)
      modifies this
      ensures startedKeys == Clear(old(startedKeys), idempotencyKey)
    {
      startedKeys := startedKeys - {idempotencyKey};
    }
  }

  /** The worker's handler, with nothing in between its steps. It submits exactly if the key is free, and afterwards
      the key is free exactly if it was and the submit threw. */
  method HandleCommand(store: MemoryIdempotencyStore, idempotencyKey: Key, submitThrows: bool)
    returns (submitted: bool, threw: bool)
    modifies store
    ensures submitted <==> idempotencyKey !in old(store.startedKeys)
    ensures threw <==> submitted && submitThrows
    ensures store.startedKeys == if threw then old(store.startedKeys) else old(store.startedKeys) + {idempotencyKey}
  {
    var started := store.MarkKeyStarted(idempotencyKey);
    if !started {
      return false, false;
    }
    if submitThrows {
      store.ClearKey(idempotencyKey);
      return true, true;
    }
    return true, false;
  }

  // ----- steps

  datatype Step =
    | Publish(entry: Entry)
    | Deliver(count: nat)
    | Start(instance: Instance, id: MessageId)
    | Parse(t: TaskId)
    | Mark(t: TaskId)
    | MarkError(t: TaskId, applied: bool)
    | SubmitReturns(t: TaskId)
    | SubmitThrows(t: TaskId)
    | ClearMark(t: TaskId)
    | ClearError(t: TaskId, applied: bool)
    | Retry(t: TaskId)
    | DeadLetter(t: TaskId)
    | DeadLetterError(t: TaskId, applied: bool)
    | Ack(t: TaskId)
    | AckError(t: TaskId, applied: bool)
    | Leave(t: TaskId)
    | Crash(instance: Instance)
    | Expire(key: Key)

  function MoveTo(w: World, t: TaskId, phase: Phase): World
    requires t in w.tasks
  {
    w.(tasks := w.tasks[t := w.tasks[t].(phase := phase)])
  }

  /** An entry without a command, or one whose attempts are used up, goes to the dead-letter stream. */
  function AfterParse(entry: Entry, attempts: nat, maxAttempts: nat): Phase {
    if entry.Command? && attempts < maxAttempts then Marking(entry.key) else DeadLettering
  }

  /** What becomes of the latest submit of every key when an instance dies. */
  function AfterCrash(submits: map<Key, LastSubmit>, survivors: map<TaskId, Task>): map<Key, LastSubmit> {
    map k | k in submits ::
      if (submits[k].Running? || submits[k].Failing?) && submits[k].task !in survivors then Unknown else submits[k]
  }

  function IdsBetween(low: nat, high: nat): (ids: set<MessageId>)
    requires low <= high
    ensures forall id :: id in ids <==> low <= id < high
    decreases high - low
  {
    if low == high then {} else {low} + IdsBetween(low + 1, high)
  }

  predicate Enabled(w: World, step: Step) {
    match step
    case Publish(_) => true
    case Deliver(count) => w.delivered + count <= |w.stream|
    case Start(_, id) => id < w.delivered
    case Parse(t) => t in w.tasks && w.tasks[t].phase == Ready && w.tasks[t].id < |w.stream|
    case Mark(t) => t in w.tasks && w.tasks[t].phase.Marking?
    case MarkError(t, _) => t in w.tasks && w.tasks[t].phase.Marking?
    case SubmitReturns(t) => t in w.tasks && w.tasks[t].phase.Submitting?
    case SubmitThrows(t) => t in w.tasks && w.tasks[t].phase.Submitting?
    case ClearMark(t) => t in w.tasks && w.tasks[t].phase.Clearing?
    case ClearError(t, _) => t in w.tasks && w.tasks[t].phase.Clearing?
    case Retry(t) => t in w.tasks && w.tasks[t].phase == Threw
    case DeadLetter(t) => t in w.tasks && w.tasks[t].phase == DeadLettering
    case DeadLetterError(t, _) => t in w.tasks && w.tasks[t].phase == DeadLettering
    case Ack(t) => t in w.tasks && w.tasks[t].phase == Acking
    case AckError(t, _) => t in w.tasks && w.tasks[t].phase == Acking
    case Leave(t) => t in w.tasks && w.tasks[t].phase == Settled
    case Crash(_) => true
    case Expire(key) => key in w.marks
  }

  /** The handler returns normally for the task's message. */
  function HandlerReturns(w: World, t: TaskId): (w': World)
    requires t in w.tasks
    ensures w' == MoveTo(w, t, Acking).(handledFree := w'.handledFree, handledTaken := w'.handledTaken)
  {
    var moved := MoveTo(w, t, Acking);
    if w.tasks[t].foundFree then moved.(handledFree := w.handledFree + {w.tasks[t].id})
    else moved.(handledTaken := w.handledTaken + {w.tasks[t].id})
  }

  function AckMessage(w: World, id: MessageId): World {
    w.(pending := w.pending - {id}, acked := if id in w.pending then w.acked + {id} else w.acked)
  }

  /** The task has got its answer from markStarted. */
  function Answered(w: World, t: TaskId, free: bool): World
    requires t in w.tasks
  {
    w.(tasks := w.tasks[t := w.tasks[t].(foundFree := free)])
  }

  /** What becomes known about the submit of a task; a submit that has outlived its lifetime is not the latest one. */
  function Note(w: World, phase: Phase, known: LastSubmit): (w': World)
    requires phase.Submitting? || phase.Clearing?
    ensures w' == w.(submits := w'.submits)
  {
    if phase.lifetime == Lifetime(w, phase.key) then w.(submits := w.submits[phase.key := known]) else w
  }

  /** The mark is deleted for a submit that threw, whoever set it. */
  function ClearFor(w: World, phase: Phase): (w': World)
    requires phase.Clearing?
    ensures w' == w.(marks := w'.marks, submits := w'.submits, lifetimes := w'.lifetimes)
  {
    if phase.lifetime == Lifetime(w, phase.key) then w.(marks := Clear(w.marks, phase.key))
    else if phase.key in w.marks then EndLifetime(w, phase.key)
    else w
  }

  function Next(w: World, step: Step): World
    requires Enabled(w, step)
  {
    match step
    case Publish(entry) =>
      w.(stream := w.stream + [entry])
    case Deliver(count) =>
      w.(delivered := w.delivered + count, pending := w.pending + IdsBetween(w.delivered, w.delivered + count))
    case Start(instance, id) =>
      w.(tasks := w.tasks[w.nextTask := Task(instance, id, 0, Ready, false)], nextTask := w.nextTask + 1)
    case Parse(t) =>
      var task := w.tasks[t];
      var phase := AfterParse(w.stream[task.id], task.attempts, w.maxAttempts);
      w.(tasks := w.tasks[t := task.(phase := phase, attempts := task.attempts + 1)])
    case Mark(t) =>
      var key := w.tasks[t].phase.key;
      var (started, marks) := MarkStarted(w.marks, key);
      var answered := Answered(w, t, started);
      if started then
        MoveTo(answered, t, Submitting(key, Lifetime(w, key))).(marks := marks, submits := w.submits[key := Running(t)])
      else
        HandlerReturns(answered, t)
    case MarkError(t, applied) =>
      var key := w.tasks[t].phase.key;
      var (started, marks) := MarkStarted(w.marks, key);
      if applied && started then
        MoveTo(w, t, Threw).(marks := marks, submits := w.submits[key := Unknown])
      else
        MoveTo(w, t, Threw)
    case SubmitReturns(t) =>
      Note(HandlerReturns(w, t).(ownReturns := w.ownReturns + {w.tasks[t].id}), w.tasks[t].phase, Returned)
    case SubmitThrows(t) =>
      var phase := w.tasks[t].phase;
      Note(MoveTo(w, t, Clearing(phase.key, phase.lifetime)), phase, Failing(t))
    case ClearMark(t) =>
      Note(ClearFor(MoveTo(w, t, Threw), w.tasks[t].phase), w.tasks[t].phase, Failed)
    case ClearError(t, applied) =>
      var moved := MoveTo(w, t, Threw);
      Note(if applied then ClearFor(moved, w.tasks[t].phase) else moved, w.tasks[t].phase, Failed)
    case Retry(t) =>
      MoveTo(w, t, Ready)
    case DeadLetter(t) =>
      MoveTo(w, t, Acking).(deadLetters := w.deadLetters + {w.tasks[t].id})
    case DeadLetterError(t, applied) =>
      MoveTo(w, t, Settled).(deadLetters := if applied then w.deadLetters + {w.tasks[t].id} else w.deadLetters)
    case Ack(t) =>
      AckMessage(MoveTo(w, t, Settled), w.tasks[t].id)
    case AckError(t, applied) =>
      var settled := MoveTo(w, t, Settled);
      if applied then AckMessage(settled, w.tasks[t].id) else settled
    case Leave(t) =>
      w.(tasks := w.tasks - {t})
    case Crash(instance) =>
      var survivors := map t | t in w.tasks && w.tasks[t].instance != instance :: w.tasks[t];
      w.(tasks := survivors, submits := AfterCrash(w.submits, survivors))
    case Expire(key) =>
      EndLifetime(w, key)
  }

  predicate Initial(w: World) {
    && w.delivered == 0
    && w.pending == w.acked == w.deadLetters == {}
    && w.handledFree == w.handledTaken == w.ownReturns == {}
    && w.marks == {}
    && w.tasks == map[]
    && w.submits == map[]
    && w.lifetimes == map[]
  }

  /** The run takes this step at this place. */
  ghost predicate Takes(run: seq<World>, i: nat, step: Step) {
    i + 1 < |run| && Enabled(run[i], step) && run[i + 1] == Next(run[i], step)
  }

  /** A run: every world follows from the one before by some enabled step. */
  ghost predicate IsRun(run: seq<World>) {
    && run != []
    && Initial(run[0])
    && forall i | 0 <= i < |run| - 1 :: Follows(run[i], run[i + 1])
  }

  ghost predicate Follows(w: World, w': World) {
    exists step :: Enabled(w, step) && w' == Next(w, step)
  }

  lemma StepTaken(run: seq<World>, i: nat) returns (step: Step)
    requires IsRun(run) && i < |run| - 1
    ensures Takes(run, i, step)
  {
    assert Follows(run[i], run[i + 1]);
    step :| Enabled(run[i], step) && run[i + 1] == Next(run[i], step);
  }

  // ----- no command is lost

  /** The handler has returned normally for the message. */
  predicate Handled(w: World, id: MessageId) {
    id in w.handledFree || id in w.handledTaken
  }

  ghost predicate DeliveredInv(w: World) {
    && w.delivered <= |w.stream|
    && w.pending !! w.acked
    && (forall id: MessageId :: id in w.pending || id in w.acked <==> id < w.delivered)
  }

  ghost predicate DeliveryInv(w: World) {
    && DeliveredInv(w)
    && (forall id | id in w.acked :: Handled(w, id) || id in w.deadLetters)
    && (forall t | t in w.tasks :: w.tasks[t].id < w.delivered && t < w.nextTask)
    && (forall t | t in w.tasks && w.tasks[t].phase == Acking ::
          Handled(w, w.tasks[t].id) || w.tasks[t].id in w.deadLetters)
  }

  /** The step of a task, which changes no other task. */
  predicate IsTaskStep(step: Step) {
    !step.Publish? && !step.Deliver? && !step.Start? && !step.Leave? && !step.Crash? && !step.Expire?
  }

  lemma OwnTaskOnly(w: World, step: Step)
    requires Enabled(w, step) && IsTaskStep(step)
    ensures var w', t := Next(w, step), step.t;
            && t in w.tasks && t in w'.tasks && w'.tasks[t].id == w.tasks[t].id
            && w'.tasks == w.tasks[t := w'.tasks[t]] && w'.nextTask == w.nextTask
            && w'.stream == w.stream && w'.delivered == w.delivered
  {
    hide Note, ClearFor, Lifetime, AfterParse, HandlerReturns, MarkStarted;
  }

  lemma MovesMessages(w: World, step: Step)
    requires DeliveredInv(w) && Enabled(w, step) && (step.Deliver? || step.Ack? || step.AckError?)
    ensures DeliveredInv(Next(w, step))
  {
  }

  lemma MovesNoMessage(w: World, step: Step)
    requires Enabled(w, step) && !step.Deliver? && !step.Ack? && !step.AckError?
    ensures var w' := Next(w, step);
            && w'.pending == w.pending && w'.acked == w.acked && w'.delivered == w.delivered
            && w.stream <= w'.stream
  {
    hide Note, ClearFor, HandlerReturns, Lifetime, AfterCrash, AfterParse, MarkStarted;
  }

  lemma DeliveredStep(w: World, step: Step)
    requires DeliveredInv(w) && Enabled(w, step)
    ensures DeliveredInv(Next(w, step))
  {
    hide Next, Enabled;
    if step.Deliver? || step.Ack? || step.AckError? {
      MovesMessages(w, step);
    } else {
      MovesNoMessage(w, step);
    }
  }

  lemma AcknowledgedStep(w: World, step: Step)
    requires DeliveryInv(w) && Enabled(w, step)
    ensures forall id | id in Next(w, step).acked :: Handled(Next(w, step), id) || id in Next(w, step).deadLetters
  {
    hide Note, ClearFor, Lifetime, AfterCrash, AfterParse;
  }

  lemma TasksStep(w: World, step: Step)
    requires DeliveryInv(w) && Enabled(w, step)
    ensures var w' := Next(w, step);
            forall t | t in w'.tasks :: w'.tasks[t].id < w'.delivered && t < w'.nextTask
  {
    if IsTaskStep(step) {
      hide Next;
      OwnTaskOnly(w, step);
    } else {
      hide Note, ClearFor, Lifetime, AfterCrash, AfterParse, HandlerReturns, Handled;
    }
  }

  lemma AckingOwnStep(w: World, step: Step)
    requires DeliveryInv(w) && Enabled(w, step) && IsTaskStep(step)
    ensures var w', t := Next(w, step), step.t;
            t in w'.tasks && w'.tasks[t].phase == Acking ==>
              Handled(w', w'.tasks[t].id) || w'.tasks[t].id in w'.deadLetters
  {
    hide Note, ClearFor, Lifetime, DeliveryInv, MarkStarted;
  }

  lemma HandledGrows(w: World, step: Step, id: MessageId)
    requires Enabled(w, step) && (Handled(w, id) || id in w.deadLetters)
    ensures Handled(Next(w, step), id) || id in Next(w, step).deadLetters
  {
    hide Note, ClearFor, Lifetime, AfterCrash, AfterParse, MarkStarted;
  }

  lemma AckingStep(w: World, step: Step)
    requires DeliveryInv(w) && Enabled(w, step)
    ensures var w' := Next(w, step);
            forall t | t in w'.tasks && w'.tasks[t].phase == Acking ::
              Handled(w', w'.tasks[t].id) || w'.tasks[t].id in w'.deadLetters
  {
    hide Handled;
    if IsTaskStep(step) {
      hide Next;
      OwnTaskOnly(w, step);
      AckingOwnStep(w, step);
      forall t | t in w.tasks && w.tasks[t].phase == Acking
        ensures Handled(Next(w, step), w.tasks[t].id) || w.tasks[t].id in Next(w, step).deadLetters
      {
        HandledGrows(w, step, w.tasks[t].id);
      }
    } else {
      hide Note, ClearFor, Lifetime, AfterCrash, AfterParse, HandlerReturns;
      OthersHandleNothing(w, step);
    }
  }

  lemma OthersHandleNothing(w: World, step: Step)
    requires Enabled(w, step) && !IsTaskStep(step)
    ensures Next(w, step).deadLetters == w.deadLetters
    ensures forall id :: Handled(Next(w, step), id) <==> Handled(w, id)
  {
  }

  lemma DeliveryStep(w: World, step: Step)
    requires DeliveryInv(w) && Enabled(w, step)
    ensures DeliveryInv(Next(w, step))
  {
    hide Next, Enabled;
    DeliveredStep(w, step);
    AcknowledgedStep(w, step);
    TasksStep(w, step);
    AckingStep(w, step);
  }

  /** In every world of every run, a delivered command is pending or acknowledged, not both; and an acknowledged one
      had its handler return normally or has a dead-letter entry. */
  lemma {:induction false} NoCommandIsLost(run: seq<World>, i: nat)
    requires IsRun(run) && i < |run|
    ensures DeliveryInv(run[i])
  {
    if i > 0 {
      NoCommandIsLost(run, i - 1);
      var step := StepTaken(run, i - 1);
      DeliveryStep(run[i - 1], step);
    }
  }

  // ----- one submit per key

  /** The submit that a task's phase belongs to, by key and lifetime. */
  function SubmitOf(phase: Phase): Option<(Key, nat)> {
    if phase.Submitting? || phase.Clearing? then Some((phase.key, phase.lifetime)) else None
  }

  ghost predicate SubmitInv(w: World, t: TaskId)
    requires t in w.tasks
  {
    var phase := w.tasks[t].phase;
    && t < w.nextTask
    && (phase.Submitting? || phase.Clearing? ==> phase.lifetime <= Lifetime(w, phase.key))
    && ((phase.Submitting? || phase.Clearing?) && phase.lifetime == Lifetime(w, phase.key) ==>
          && phase.key in w.marks && phase.key in w.submits
          && w.submits[phase.key] == if phase.Submitting? then Running(t) else Failing(t))
  }

  ghost predicate KeyInv(w: World, k: Key)
    requires k in w.submits
  {
    && (k !in w.marks ==> w.submits[k] == Failed)
    && (w.submits[k].Running? ==>
          w.submits[k].task in w.tasks && w.tasks[w.submits[k].task].phase == Submitting(k, Lifetime(w, k)))
    && (w.submits[k].Failing? ==>
          w.submits[k].task in w.tasks && w.tasks[w.submits[k].task].phase == Clearing(k, Lifetime(w, k)))
  }

  /** No two tasks are at submits of one key and one lifetime. */
  ghost predicate OneTaskEach(w: World) {
    forall t, u | t in w.tasks && u in w.tasks && SubmitOf(w.tasks[t].phase) == SubmitOf(w.tasks[u].phase)
                  && SubmitOf(w.tasks[t].phase).Some? :: t == u
  }

  ghost predicate IdempotencyInv(w: World) {
    && (forall t | t in w.tasks :: SubmitInv(w, t))
    && (forall k | k in w.submits :: KeyInv(w, k))
    && w.marks <= w.submits.Keys
    && OneTaskEach(w)
  }

  /** Nothing that the invariant speaks of has changed. */
  ghost predicate Unconcerned(w: World, w': World) {
    && w'.marks == w.marks && w'.submits == w.submits && w'.lifetimes == w.lifetimes && w.nextTask <= w'.nextTask
    && (forall t | t in w'.tasks :: t < w'.nextTask)
    && (forall t | t in w'.tasks && SubmitOf(w'.tasks[t].phase).Some? ::
          t in w.tasks && w'.tasks[t].phase == w.tasks[t].phase)
    && (forall t | t in w.tasks && SubmitOf(w.tasks[t].phase).Some? ::
          t in w'.tasks && w'.tasks[t].phase == w.tasks[t].phase)
  }

  predicate ConcernsSubmits(step: Step) {
    step.Mark? || step.MarkError? || step.SubmitReturns? || step.SubmitThrows? || step.ClearMark? || step.ClearError?
    || step.Crash? || step.Expire?
  }

  lemma OtherStepKeepsTasks(w: World, step: Step)
    requires IdempotencyInv(w) && Enabled(w, step) && !ConcernsSubmits(step)
    ensures var w' := Next(w, step);
            forall t | t in w.tasks && SubmitOf(w.tasks[t].phase).Some? ::
              t in w'.tasks && w'.tasks[t].phase == w.tasks[t].phase
  {
    hide KeyInv, OneTaskEach, Note, ClearFor, Lifetime, AfterCrash, EndLifetime, HandlerReturns;
  }

  lemma OtherStepAddsNone(w: World, step: Step)
    requires IdempotencyInv(w) && Enabled(w, step) && !ConcernsSubmits(step)
    ensures var w' := Next(w, step);
            && w'.marks == w.marks && w'.submits == w.submits && w'.lifetimes == w.lifetimes
            && w.nextTask <= w'.nextTask
            && (forall t | t in w'.tasks :: t < w'.nextTask)
            && (forall t | t in w'.tasks && SubmitOf(w'.tasks[t].phase).Some? ::
                  t in w.tasks && w'.tasks[t].phase == w.tasks[t].phase)
  {
    hide KeyInv, OneTaskEach, Note, ClearFor, Lifetime, AfterCrash, EndLifetime, HandlerReturns;
  }

  lemma OtherStep(w: World, step: Step)
    requires IdempotencyInv(w) && Enabled(w, step) && !ConcernsSubmits(step)
    ensures Unconcerned(w, Next(w, step))
  {
    hide IdempotencyInv, Next;
    OtherStepKeepsTasks(w, step);
    OtherStepAddsNone(w, step);
  }

  lemma UnconcernedKeeps(w: World, w': World)
    requires IdempotencyInv(w) && Unconcerned(w, w')
    ensures IdempotencyInv(w')
  {
    forall t | t in w'.tasks
      ensures SubmitInv(w', t)
    {
      if SubmitOf(w'.tasks[t].phase).Some? {
        assert SubmitInv(w, t);
      }
    }
    forall k | k in w'.submits
      ensures KeyInv(w', k)
    {
      assert KeyInv(w, k);
    }
  }

  lemma MarkFreeStep(w: World, t: TaskId)
    requires IdempotencyInv(w) && Enabled(w, Mark(t)) && w.tasks[t].phase.key !in w.marks
    ensures IdempotencyInv(Next(w, Mark(t)))
  {
  }

  lemma MarkTakenStep(w: World, t: TaskId)
    requires IdempotencyInv(w) && Enabled(w, Mark(t)) && w.tasks[t].phase.key in w.marks
    ensures Unconcerned(w, Next(w, Mark(t)))
  {
    hide KeyInv, OneTaskEach, Lifetime;
    assert w.marks + {w.tasks[t].phase.key} == w.marks;
  }

  lemma MarkStep(w: World, t: TaskId)
    requires IdempotencyInv(w) && Enabled(w, Mark(t))
    ensures IdempotencyInv(Next(w, Mark(t)))
  {
    hide IdempotencyInv, Unconcerned, Next;
    if w.tasks[t].phase.key in w.marks {
      MarkTakenStep(w, t);
      UnconcernedKeeps(w, Next(w, Mark(t)));
    } else {
      MarkFreeStep(w, t);
    }
  }

  lemma MarkErrorStep(w: World, t: TaskId, applied: bool)
    requires IdempotencyInv(w) && Enabled(w, MarkError(t, applied))
    ensures IdempotencyInv(Next(w, MarkError(t, applied)))
  {
    hide HandlerReturns, Note, ClearFor;
    if applied && w.tasks[t].phase.key !in w.marks {
      LostMarkKeeps(w, t);
    } else {
      UnconcernedKeeps(w, Next(w, MarkError(t, applied)));
    }
  }

  lemma LostMarkKeeps(w: World, t: TaskId)
    requires IdempotencyInv(w) && t in w.tasks && w.tasks[t].phase.Marking? && w.tasks[t].phase.key !in w.marks
    ensures var key := w.tasks[t].phase.key;
            IdempotencyInv(MoveTo(w, t, Threw).(marks := w.marks + {key}, submits := w.submits[key := Unknown]))
  {
  }

  lemma SubmitReturnsStep(w: World, t: TaskId)
    requires IdempotencyInv(w) && Enabled(w, SubmitReturns(t))
    ensures IdempotencyInv(Next(w, SubmitReturns(t)))
  {
  }

  lemma SubmitThrowsStep(w: World, t: TaskId)
    requires IdempotencyInv(w) && Enabled(w, SubmitThrows(t))
    ensures IdempotencyInv(Next(w, SubmitThrows(t)))
  {
  }

  lemma EndLifetimeKeeps(w: World, key: Key)
    requires IdempotencyInv(w)
    ensures IdempotencyInv(EndLifetime(w, key))
  {
  }

  /** A task leaves a submit that is not the latest one of its key. */
  lemma StaleLeaves(w: World, t: TaskId)
    requires IdempotencyInv(w) && t in w.tasks && w.tasks[t].phase.Clearing?
    requires w.tasks[t].phase.lifetime < Lifetime(w, w.tasks[t].phase.key)
    ensures IdempotencyInv(MoveTo(w, t, Threw))
  {
    assert forall k | k in w.submits :: KeyInv(w, k);
  }

  lemma OwnClearStep(w: World, t: TaskId, applied: bool)
    requires IdempotencyInv(w) && t in w.tasks && w.tasks[t].phase.Clearing?
    requires w.tasks[t].phase.lifetime == Lifetime(w, w.tasks[t].phase.key)
    ensures var key := w.tasks[t].phase.key;
            IdempotencyInv(MoveTo(w, t, Threw).(marks := if applied then w.marks - {key} else w.marks,
                                                submits := w.submits[key := Failed]))
  {
  }

  lemma ClearStep(w: World, t: TaskId, applied: bool)
    requires IdempotencyInv(w) && Enabled(w, ClearMark(t))
    ensures IdempotencyInv(Next(w, ClearMark(t)))
    ensures IdempotencyInv(Next(w, ClearError(t, applied)))
  {
    hide IdempotencyInv;
    assert w.tasks[t].phase.lifetime <= Lifetime(w, w.tasks[t].phase.key) by { LifetimeBehind(w, t); }
    if w.tasks[t].phase.lifetime == Lifetime(w, w.tasks[t].phase.key) {
      OwnClearStep(w, t, true);
      OwnClearStep(w, t, applied);
    } else {
      StaleLeaves(w, t);
      EndLifetimeKeeps(MoveTo(w, t, Threw), w.tasks[t].phase.key);
    }
  }

  lemma LifetimeBehind(w: World, t: TaskId)
    requires IdempotencyInv(w) && t in w.tasks && w.tasks[t].phase.Clearing?
    ensures w.tasks[t].phase.lifetime <= Lifetime(w, w.tasks[t].phase.key)
  {
    assert SubmitInv(w, t);
  }

  lemma CrashStep(w: World, instance: Instance)
    requires IdempotencyInv(w)
    ensures IdempotencyInv(Next(w, Crash(instance)))
  {
  }

  lemma IdempotencyStep(w: World, step: Step)
    requires IdempotencyInv(w) && Enabled(w, step)
    ensures IdempotencyInv(Next(w, step))
  {
    hide IdempotencyInv, Unconcerned;
    match step
    case Mark(t) => MarkStep(w, t);
    case MarkError(t, applied) => MarkErrorStep(w, t, applied);
    case SubmitReturns(t) => SubmitReturnsStep(w, t);
    case SubmitThrows(t) => SubmitThrowsStep(w, t);
    case ClearMark(t) => ClearStep(w, t, true);
    case ClearError(t, applied) => ClearStep(w, t, applied);
    case Crash(instance) => CrashStep(w, instance);
    case Expire(key) => EndLifetimeKeeps(w, key);
    case _ =>
      OtherStep(w, step);
      UnconcernedKeeps(w, Next(w, step));
  }

  lemma {:induction false} IdempotencyHolds(run: seq<World>, i: nat)
    requires IsRun(run) && i < |run|
    ensures IdempotencyInv(run[i])
  {
    hide IdempotencyInv, Next, Enabled;
    if i == 0 {
      NothingSubmitted(run);
    } else {
      IdempotencyHolds(run, i - 1);
      var step := StepTaken(run, i - 1);
      IdempotencyStep(run[i - 1], step);
    }
  }

  lemma NothingSubmitted(run: seq<World>)
    requires IsRun(run)
    ensures IdempotencyInv(run[0])
  {
  }

  /** At most one submit runs per key and lifetime, whatever instances, redeliveries and duplicates there are. */
  lemma AtMostOneSubmit(run: seq<World>, i: nat, t: TaskId, u: TaskId)
    requires IsRun(run) && i < |run| && t in run[i].tasks && u in run[i].tasks
    requires run[i].tasks[t].phase.Submitting? && run[i].tasks[u].phase == run[i].tasks[t].phase
    ensures t == u
  {
    IdempotencyHolds(run, i);
    assert SubmitOf(run[i].tasks[t].phase).Some?;
  }

  // ----- the latest submit of a key, step by step

  /** The key's task at markStarted finds the key free and goes on to submit. */
  predicate Begins(w: World, step: Step, key: Key) {
    step.Mark? && step.t in w.tasks && w.tasks[step.t].phase == Marking(key) && key !in w.marks
  }

  /** The latest submit of the key returns. */
  predicate Completes(w: World, step: Step, key: Key) {
    step.SubmitReturns? && step.t in w.tasks && w.tasks[step.t].phase == Submitting(key, Lifetime(w, key))
  }

  /** The latest submit of the key throws, dies with its instance while it runs or is being cleared, or has its mark set
      without the task's knowing. */
  predicate Spoils(w: World, step: Step, key: Key) {
    || (step.SubmitThrows? && step.t in w.tasks && w.tasks[step.t].phase == Submitting(key, Lifetime(w, key)))
    || (step.Crash? && exists t | t in w.tasks ::
          w.tasks[t].instance == step.instance && SubmitOf(w.tasks[t].phase) == Some((key, Lifetime(w, key))))
    || (step.MarkError? && step.applied && step.t in w.tasks && w.tasks[step.t].phase == Marking(key)
        && key !in w.marks)
  }

  predicate HasReturned(w: World, key: Key) {
    key in w.submits && w.submits[key] == Returned
  }

  /** The latest submit of the key is over without having returned. */
  predicate IsSpoiled(w: World, key: Key) {
    key in w.submits && (w.submits[key].Failing? || w.submits[key].Failed? || w.submits[key].Unknown?)
  }

  lemma HolderOf(w: World, key: Key)
    requires IdempotencyInv(w)
    ensures key in w.submits && (w.submits[key].Running? || w.submits[key].Failing?) ==>
              var t := w.submits[key].task;
              t in w.tasks && w.tasks[t].phase == if w.submits[key].Running? then Submitting(key, Lifetime(w, key))
                                                  else Clearing(key, Lifetime(w, key))
    ensures forall t | t in w.tasks && SubmitOf(w.tasks[t].phase) == Some((key, Lifetime(w, key))) ::
              && key in w.marks && key in w.submits
              && w.submits[key] == if w.tasks[t].phase.Submitting? then Running(t) else Failing(t)
    ensures key in w.marks ==> key in w.submits
    ensures key in w.submits && key !in w.marks ==> w.submits[key] == Failed
  {
    if key in w.submits {
      assert KeyInv(w, key);
    }
    forall t | t in w.tasks && SubmitOf(w.tasks[t].phase) == Some((key, Lifetime(w, key)))
      ensures key in w.marks && key in w.submits
      ensures w.submits[key] == if w.tasks[t].phase.Submitting? then Running(t) else Failing(t)
    {
      assert SubmitInv(w, t);
    }
  }

  /** What becomes of the latest submit of the key: it has returned if it had or does now; it is over without having
      returned if it was and no new one begins, or is spoiled now. */
  predicate FateLaw(w: World, step: Step, key: Key)
    requires Enabled(w, step)
  {
    && (HasReturned(Next(w, step), key) <==> HasReturned(w, key) || Completes(w, step, key))
    && (IsSpoiled(Next(w, step), key) <==> Spoils(w, step, key) || (IsSpoiled(w, key) && !Begins(w, step, key)))
  }

  lemma FateByAnsweredMark(w: World, step: Step, key: Key)
    requires IdempotencyInv(w) && Enabled(w, step) && step.Mark?
    ensures FateLaw(w, step, key)
  {
    hide IdempotencyInv, HandlerReturns, Lifetime;
    HolderOf(w, key);
  }

  lemma FateByLostMark(w: World, step: Step, key: Key)
    requires IdempotencyInv(w) && Enabled(w, step) && step.MarkError?
    ensures FateLaw(w, step, key)
  {
    hide IdempotencyInv, HandlerReturns, Lifetime;
    HolderOf(w, key);
  }

  lemma FateByEnd(w: World, step: Step, key: Key)
    requires IdempotencyInv(w) && Enabled(w, step) && (step.SubmitReturns? || step.SubmitThrows?)
    ensures FateLaw(w, step, key)
  {
    hide IdempotencyInv, HandlerReturns;
    HolderOf(w, key);
  }

  /** The latest submit has stayed as it was, or has gone from failing to failed. */
  predicate FailsAtMost(w: World, w': World, key: Key) {
    && (key in w'.submits <==> key in w.submits)
    && (key in w.submits ==>
          w'.submits[key] == w.submits[key] || (w.submits[key].Failing? && w'.submits[key] == Failed))
  }

  lemma ClearMarkChangesLittle(w: World, t: TaskId, key: Key)
    requires IdempotencyInv(w) && Enabled(w, ClearMark(t)) && Lifetime(Next(w, ClearMark(t)), key) == Lifetime(w, key)
    ensures FailsAtMost(w, Next(w, ClearMark(t)), key)
  {
    hide IdempotencyInv, KeyInv, SubmitInv;
    HolderOf(w, key);
  }

  lemma ClearErrorChangesLittle(w: World, t: TaskId, applied: bool, key: Key)
    requires IdempotencyInv(w) && Enabled(w, ClearError(t, applied))
    requires Lifetime(Next(w, ClearError(t, applied)), key) == Lifetime(w, key)
    ensures FailsAtMost(w, Next(w, ClearError(t, applied)), key)
  {
    hide IdempotencyInv, KeyInv, SubmitInv;
    HolderOf(w, key);
  }

  /** A clear within the key's lifetime changes the latest submit from failing to failed, or leaves it. */
  lemma ClearChangesLittle(w: World, step: Step, key: Key)
    requires IdempotencyInv(w) && Enabled(w, step) && Lifetime(Next(w, step), key) == Lifetime(w, key)
    requires step.ClearMark? || step.ClearError?
    ensures FailsAtMost(w, Next(w, step), key)
  {
    hide IdempotencyInv, Next, Enabled, FailsAtMost;
    match step
    case ClearMark(t) => ClearMarkChangesLittle(w, t, key);
    case ClearError(t, applied) => ClearErrorChangesLittle(w, t, applied, key);
  }

  lemma FateByClear(w: World, step: Step, key: Key)
    requires IdempotencyInv(w) && Enabled(w, step) && Lifetime(Next(w, step), key) == Lifetime(w, key)
    requires step.ClearMark? || step.ClearError?
    ensures FateLaw(w, step, key)
  {
    hide IdempotencyInv, Next;
    ClearChangesLittle(w, step, key);
  }

  lemma FateByExpiry(w: World, step: Step, key: Key)
    requires Enabled(w, step) && Lifetime(Next(w, step), key) == Lifetime(w, key) && step.Expire?
    ensures FateLaw(w, step, key)
  {
  }

  lemma FateByCrash(w: World, step: Step, key: Key)
    requires IdempotencyInv(w) && step.Crash?
    ensures FateLaw(w, step, key)
  {
    hide IdempotencyInv;
    HolderOf(w, key);
  }

  /** The law holds of every step that does not end the key's lifetime. */
  lemma FateStep(w: World, step: Step, key: Key)
    requires IdempotencyInv(w) && Enabled(w, step) && Lifetime(Next(w, step), key) == Lifetime(w, key)
    ensures FateLaw(w, step, key)
  {
    hide IdempotencyInv, Next;
    if step.Crash? {
      FateByCrash(w, step, key);
    } else if step.Mark? {
      FateByAnsweredMark(w, step, key);
    } else if step.MarkError? {
      FateByLostMark(w, step, key);
    } else if step.SubmitReturns? || step.SubmitThrows? {
      FateByEnd(w, step, key);
    } else if step.ClearMark? || step.ClearError? {
      FateByClear(w, step, key);
    } else if step.Expire? {
      FateByExpiry(w, step, key);
    } else {
      OtherStepAddsNone(w, step);
    }
  }

  /** A submit that has outlived its lifetime threw, and its clear deletes the mark that a later task has set. */
  predicate ClearsSuccessor(w: World, step: Step, key: Key) {
    && (step.ClearMark? || (step.ClearError? && step.applied))
    && step.t in w.tasks && w.tasks[step.t].phase.Clearing? && w.tasks[step.t].phase.key == key
    && w.tasks[step.t].phase.lifetime < Lifetime(w, key) && key in w.marks
  }

  lemma ClearEndsExactly(w: World, step: Step, key: Key)
    requires IdempotencyInv(w) && Enabled(w, step) && (step.ClearMark? || step.ClearError?)
    ensures Lifetime(Next(w, step), key) == Lifetime(w, key) + if ClearsSuccessor(w, step, key) then 1 else 0
  {
    hide IdempotencyInv;
    LifetimeBehind(w, step.t);
  }

  lemma OthersEndExactly(w: World, step: Step, key: Key)
    requires Enabled(w, step) && !step.ClearMark? && !step.ClearError?
    ensures Lifetime(Next(w, step), key) == Lifetime(w, key) + if step == Expire(key) then 1 else 0
  {
    hide HandlerReturns, AfterCrash, AfterParse, IdsBetween, MarkStarted;
  }

  /** A key's lifetime ends exactly if its mark runs out, or is cleared for a submit that has outlived its own. */
  lemma LifetimeEndsExactly(w: World, step: Step, key: Key)
    requires IdempotencyInv(w) && Enabled(w, step)
    ensures Lifetime(Next(w, step), key) ==
            Lifetime(w, key) + if step == Expire(key) || ClearsSuccessor(w, step, key) then 1 else 0
  {
    hide IdempotencyInv, Next, Enabled, Lifetime;
    if step.ClearMark? || step.ClearError? {
      ClearEndsExactly(w, step, key);
    } else {
      OthersEndExactly(w, step, key);
    }
  }

  lemma NewLifetimeIsFree(w: World, step: Step, key: Key)
    requires IdempotencyInv(w) && Enabled(w, step) && (step == Expire(key) || ClearsSuccessor(w, step, key))
    ensures key in w.marks && key !in Next(w, step).marks && key !in Next(w, step).submits
  {
    hide IdempotencyInv, AfterCrash;
  }

  /** A lifetime ends exactly by such a step, and the next one begins with a key that has become free and has no
      submit. */
  lemma LifetimeStep(w: World, step: Step, key: Key)
    requires IdempotencyInv(w) && Enabled(w, step)
    ensures Lifetime(w, key) <= Lifetime(Next(w, step), key)
    ensures Lifetime(w, key) < Lifetime(Next(w, step), key) <==> step == Expire(key) || ClearsSuccessor(w, step, key)
    ensures Lifetime(w, key) < Lifetime(Next(w, step), key) ==>
              key in w.marks && key !in Next(w, step).marks && key !in Next(w, step).submits
  {
    hide IdempotencyInv, Next, Enabled, Lifetime, ClearsSuccessor;
    LifetimeEndsExactly(w, step, key);
    if step == Expire(key) || ClearsSuccessor(w, step, key) {
      NewLifetimeIsFree(w, step, key);
    }
  }

  // ----- the latest submit of a key over a run

  /** The run takes these steps. */
  ghost predicate TakesAll(run: seq<World>, steps: seq<Step>) {
    IsRun(run) && |steps| == |run| - 1 && forall i | 0 <= i < |steps| :: Takes(run, i, steps[i])
  }

  /** Some step from j to i - 1 ends a lifetime of the key. */
  ghost predicate SomeEnd(run: seq<World>, steps: seq<Step>, j: nat, i: nat, key: Key)
    requires |steps| == |run| - 1 && i < |run|
  {
    exists k :: j <= k < i && (steps[k] == Expire(key) || ClearsSuccessor(run[k], steps[k], key))
  }

  lemma SomeEndStep(run: seq<World>, steps: seq<Step>, j: nat, i: nat, key: Key)
    requires |steps| == |run| - 1 && j <= i < |run|
    ensures SomeEnd(run, steps, j, i, key) <==>
            j < i && (SomeEnd(run, steps, j, i - 1, key)
                      || steps[i - 1] == Expire(key) || ClearsSuccessor(run[i - 1], steps[i - 1], key))
  {
    hide ClearsSuccessor;
    if j < i {
      var last := i - 1;
      assert steps[last] == Expire(key) || ClearsSuccessor(run[last], steps[last], key) ==>
               SomeEnd(run, steps, j, i, key);
    }
  }

  /** Over a run, the lifetime of a key is another one exactly if some step in between has ended one. */
  lemma {:induction false} LifetimeChangesExactly(run: seq<World>, steps: seq<Step>, j: nat, i: nat, key: Key)
    requires TakesAll(run, steps) && j <= i < |run|
    ensures Lifetime(run[j], key) < Lifetime(run[i], key) <==> SomeEnd(run, steps, j, i, key)
    ensures Lifetime(run[j], key) <= Lifetime(run[i], key)
    decreases i
  {
    hide IsRun, Next, Enabled, Lifetime, ClearsSuccessor, SomeEnd;
    if j < i {
      LifetimeChangesExactly(run, steps, j, i - 1, key);
      IdempotencyHolds(run, i - 1);
      assert Takes(run, i - 1, steps[i - 1]);
      LifetimeEndsExactly(run[i - 1], steps[i - 1], key);
    }
    SomeEndStep(run, steps, j, i, key);
  }

  /** Clearing for an outlived submit needs an expiry before it: as long as no mark of the key has run out, the key is
      in its first lifetime. */
  lemma {:induction false} UnexpiredIsFirst(run: seq<World>, steps: seq<Step>, i: nat, key: Key)
    requires TakesAll(run, steps) && i < |run| && forall k | 0 <= k < i :: steps[k] != Expire(key)
    ensures Lifetime(run[i], key) == 0
  {
    hide IsRun, Next, Enabled;
    if i == 0 {
      FirstLifetime(run, key);
    } else {
      UnexpiredIsFirst(run, steps, i - 1, key);
      IdempotencyHolds(run, i - 1);
      assert Takes(run, i - 1, steps[i - 1]);
      LifetimeEndsExactly(run[i - 1], steps[i - 1], key);
    }
  }

  lemma FirstLifetime(run: seq<World>, key: Key)
    requires IsRun(run)
    ensures Lifetime(run[0], key) == 0
  {
  }

  lemma SubmitBehind(w: World, t: TaskId)
    requires IdempotencyInv(w) && t in w.tasks && w.tasks[t].phase.Submitting?
    ensures w.tasks[t].phase.lifetime <= Lifetime(w, w.tasks[t].phase.key)
  {
    assert SubmitInv(w, t);
  }

  /** As long as no mark of a key has run out, at most one submit for the key runs. */
  lemma AtMostOneSubmitUnexpired(run: seq<World>, steps: seq<Step>, i: nat, t: TaskId, u: TaskId, key: Key)
    requires TakesAll(run, steps) && i < |run| && forall k | 0 <= k < i :: steps[k] != Expire(key)
    requires t in run[i].tasks && u in run[i].tasks
    requires run[i].tasks[t].phase.Submitting? && run[i].tasks[t].phase.key == key
    requires run[i].tasks[u].phase.Submitting? && run[i].tasks[u].phase.key == key
    ensures t == u
  {
    hide IsRun, Next, Enabled, IdempotencyInv, Lifetime;
    UnexpiredIsFirst(run, steps, i, key);
    IdempotencyHolds(run, i);
    SubmitBehind(run[i], t);
    SubmitBehind(run[i], u);
    AtMostOneSubmit(run, i, t, u);
  }

  ghost predicate CompletedAt(run: seq<World>, steps: seq<Step>, j: nat, i: nat, key: Key)
    requires TakesAll(run, steps) && i < |run|
  {
    j < i && Lifetime(run[j], key) == Lifetime(run[i], key) && Completes(run[j], steps[j], key)
  }

  /** In a lifetime, the latest submit of a key has returned exactly if it did so at some step of this lifetime. */
  lemma {:induction false} ReturnedExactly(run: seq<World>, steps: seq<Step>, i: nat, key: Key)
    requires TakesAll(run, steps) && i < |run|
    ensures HasReturned(run[i], key) <==> exists j :: CompletedAt(run, steps, j, i, key)
  {
    hide IsRun, Next, Enabled, HasReturned, Completes, IsSpoiled, Spoils;
    if i == 0 {
      NoSubmitYet(run, key);
    } else {
      var w, step := run[i - 1], steps[i - 1];
      ReturnedExactly(run, steps, i - 1, key);
      IdempotencyHolds(run, i - 1);
      assert Takes(run, i - 1, step);
      LifetimeStep(w, step, key);
      if Lifetime(run[i], key) == Lifetime(w, key) {
        FateStep(w, step, key);
        if HasReturned(w, key) {
          var j :| CompletedAt(run, steps, j, i - 1, key);
          assert CompletedAt(run, steps, j, i, key);
        }
        if Completes(w, step, key) {
          assert CompletedAt(run, steps, i - 1, i, key);
        }
        if j :| CompletedAt(run, steps, j, i, key) {
          assert j == i - 1 || CompletedAt(run, steps, j, i - 1, key);
        }
      } else {
        NoSubmitInNewLifetime(run[i], key);
        NothingInNewLifetime(run, steps, i, key);
      }
    }
  }

  lemma NoSubmitYet(run: seq<World>, key: Key)
    requires IsRun(run)
    ensures !HasReturned(run[0], key) && !IsSpoiled(run[0], key)
  {
  }

  lemma NoSubmitInNewLifetime(w: World, key: Key)
    requires key !in w.submits
    ensures !HasReturned(w, key) && !IsSpoiled(w, key)
  {
  }

  ghost predicate SpoiledSince(run: seq<World>, steps: seq<Step>, j: nat, i: nat, key: Key)
    requires TakesAll(run, steps) && i < |run|
  {
    && j < i && Lifetime(run[j], key) == Lifetime(run[i], key) && Spoils(run[j], steps[j], key)
    && forall k | j < k < i :: !Begins(run[k], steps[k], key)
  }

  lemma SpoiledLater(run: seq<World>, steps: seq<Step>, i: nat, next: nat, key: Key)
    requires TakesAll(run, steps) && next == i + 1 < |run| && Lifetime(run[next], key) == Lifetime(run[i], key)
    ensures (exists j :: SpoiledSince(run, steps, j, next, key)) <==>
              || Spoils(run[i], steps[i], key)
              || ((exists j :: SpoiledSince(run, steps, j, i, key)) && !Begins(run[i], steps[i], key))
  {
    hide IsRun, Next, Enabled, Spoils, Begins;
    if Spoils(run[i], steps[i], key) {
      assert SpoiledSince(run, steps, i, next, key);
    }
    if !Begins(run[i], steps[i], key) {
      if j :| SpoiledSince(run, steps, j, i, key) {
        assert SpoiledSince(run, steps, j, next, key);
      }
    }
    if j :| SpoiledSince(run, steps, j, next, key) {
      assert j == i || SpoiledSince(run, steps, j, i, key);
    }
  }

  lemma NothingInNewLifetime(run: seq<World>, steps: seq<Step>, i: nat, key: Key)
    requires TakesAll(run, steps) && 0 < i < |run| && Lifetime(run[i], key) > Lifetime(run[i - 1], key)
    ensures forall j | 0 <= j < i :: Lifetime(run[j], key) < Lifetime(run[i], key)
  {
    hide IsRun, Next, Enabled;
    forall j | 0 <= j < i
      ensures Lifetime(run[j], key) < Lifetime(run[i], key)
    {
      LifetimeChangesExactly(run, steps, j, i - 1, key);
    }
  }

  /** In a lifetime, the latest submit of a key is over without having returned exactly if, at some step of this
      lifetime, it threw, died with its instance, or had its mark set without an answer, and none has begun since. */
  lemma {:induction false} SpoiledExactly(run: seq<World>, steps: seq<Step>, i: nat, key: Key)
    requires TakesAll(run, steps) && i < |run|
    ensures IsSpoiled(run[i], key) <==> exists j :: SpoiledSince(run, steps, j, i, key)
  {
    hide IsRun, Next, Enabled, HasReturned, Completes, IsSpoiled, Spoils, Begins;
    if i == 0 {
      NoSubmitYet(run, key);
    } else {
      var w, step := run[i - 1], steps[i - 1];
      SpoiledExactly(run, steps, i - 1, key);
      IdempotencyHolds(run, i - 1);
      assert Takes(run, i - 1, step);
      LifetimeStep(w, step, key);
      if Lifetime(run[i], key) == Lifetime(w, key) {
        FateStep(w, step, key);
        SpoiledLater(run, steps, i - 1, i, key);
      } else {
        NoSubmitInNewLifetime(run[i], key);
        NothingInNewLifetime(run, steps, i, key);
      }
    }
  }

  /** Once a submit for a key has returned, its mark stays and no submit of this lifetime runs any more, as long as the
      lifetime lasts. */
  lemma NoSubmitAfterReturn(run: seq<World>, steps: seq<Step>, i: nat, j: nat, key: Key)
    requires TakesAll(run, steps) && i <= j < |run|
    requires HasReturned(run[i], key) && Lifetime(run[j], key) == Lifetime(run[i], key)
    ensures HasReturned(run[j], key) && key in run[j].marks
    ensures forall t | t in run[j].tasks :: SubmitOf(run[j].tasks[t].phase) != Some((key, Lifetime(run[j], key)))
  {
    hide IsRun, Next, Enabled, Completes, IdempotencyInv;
    ReturnedExactly(run, steps, i, key);
    var k :| CompletedAt(run, steps, k, i, key);
    assert CompletedAt(run, steps, k, j, key);
    ReturnedExactly(run, steps, j, key);
    IdempotencyHolds(run, j);
    HolderOf(run[j], key);
  }

  lemma NoneSubmits(w: World, key: Key)
    requires IdempotencyInv(w) && Lifetime(w, key) == 0
    requires forall t | t in w.tasks :: SubmitOf(w.tasks[t].phase) != Some((key, 0))
    ensures forall t | t in w.tasks && w.tasks[t].phase.Submitting? :: w.tasks[t].phase.key != key
  {
    forall t | t in w.tasks && w.tasks[t].phase.Submitting?
      ensures w.tasks[t].phase.key != key
    {
      SubmitBehind(w, t);
    }
  }

  /** As long as no mark of a key has run out, nothing submits for it any more once a submit has returned, and it stays
      marked. */
  lemma NoSubmitAfterReturnUnexpired(run: seq<World>, steps: seq<Step>, i: nat, j: nat, key: Key)
    requires TakesAll(run, steps) && i <= j < |run| && HasReturned(run[i], key)
    requires forall k | 0 <= k < j :: steps[k] != Expire(key)
    ensures key in run[j].marks
    ensures forall t | t in run[j].tasks && run[j].tasks[t].phase.Submitting? :: run[j].tasks[t].phase.key != key
  {
    hide IsRun, Next, Enabled, IdempotencyInv, Lifetime, HasReturned;
    UnexpiredIsFirst(run, steps, i, key);
    UnexpiredIsFirst(run, steps, j, key);
    NoSubmitAfterReturn(run, steps, i, j, key);
    IdempotencyHolds(run, j);
    NoneSubmits(run[j], key);
  }

  /** A key that was marked in the present lifetime is free only after its latest submit threw. */
  lemma FreeOnlyAfterThrow(run: seq<World>, i: nat, key: Key)
    requires IsRun(run) && i < |run| && key in run[i].submits && key !in run[i].marks
    ensures run[i].submits[key] == Failed
  {
    IdempotencyHolds(run, i);
    HolderOf(run[i], key);
  }

  /** Within a lifetime, the only way to free a key is to clear it for its latest submit, which threw. */
  lemma FreedOnlyByClear(w: World, step: Step, key: Key)
    requires IdempotencyInv(w) && Enabled(w, step) && Lifetime(Next(w, step), key) == Lifetime(w, key)
    requires key in w.marks && key !in Next(w, step).marks
    ensures key in w.submits && w.submits[key].Failing?
    ensures step == ClearMark(w.submits[key].task) || step == ClearError(w.submits[key].task, true)
  {
    hide IdempotencyInv, Next;
    if ConcernsSubmits(step) {
      FreedBySubmits(w, step, key);
    } else {
      OtherStepAddsNone(w, step);
    }
  }

  lemma FreedBySubmits(w: World, step: Step, key: Key)
    requires IdempotencyInv(w) && Enabled(w, step) && Lifetime(Next(w, step), key) == Lifetime(w, key)
    requires key in w.marks && key !in Next(w, step).marks && ConcernsSubmits(step)
    ensures key in w.submits && w.submits[key].Failing?
    ensures step == ClearMark(w.submits[key].task) || step == ClearError(w.submits[key].task, true)
  {
    hide IdempotencyInv, Next;
    if step.ClearMark? || step.ClearError? {
      FreedByThisClear(w, step, key);
    } else {
      OthersFreeNothing(w, step, key);
    }
  }

  lemma FreedByThisClear(w: World, step: Step, key: Key)
    requires IdempotencyInv(w) && Enabled(w, step) && Lifetime(Next(w, step), key) == Lifetime(w, key)
    requires key in w.marks && key !in Next(w, step).marks && (step.ClearMark? || step.ClearError?)
    ensures key in w.submits && w.submits[key].Failing?
    ensures step == ClearMark(w.submits[key].task) || step == ClearError(w.submits[key].task, true)
  {
    hide IdempotencyInv;
    HolderOf(w, key);
  }

  lemma OthersFreeNothing(w: World, step: Step, key: Key)
    requires Enabled(w, step) && Lifetime(Next(w, step), key) == Lifetime(w, key)
    requires !step.ClearMark? && !step.ClearError?
    requires key in w.marks
    ensures key in Next(w, step).marks
  {
    hide HandlerReturns, AfterCrash, AfterParse, IdsBetween;
  }

  // ----- what an acknowledgement says about the command

  ghost predicate CommandInv(w: World, t: TaskId)
    requires t in w.tasks
  {
    var task := w.tasks[t];
    && task.id < |w.stream|
    && (task.phase.Marking? || task.phase.Submitting? ==> w.stream[task.id] == Command(task.phase.key))
    && (task.phase.Submitting? ==> task.foundFree)
  }

  ghost predicate HandledInv(w: World) {
    && w.delivered <= |w.stream|
    && (forall id | id in w.pending :: id < |w.stream|)
    && (forall t | t in w.tasks :: CommandInv(w, t))
    && (forall id | id in w.handledFree || id in w.handledTaken :: id < |w.stream| && w.stream[id].Command?)
    && w.handledFree == w.ownReturns
  }

  lemma StreamStep(w: World, step: Step)
    requires HandledInv(w) && Enabled(w, step)
    ensures var w' := Next(w, step);
            w'.delivered <= |w'.stream| && w.stream <= w'.stream && forall id | id in w'.pending :: id < |w'.stream|
  {
    hide Note, ClearFor, Lifetime, AfterCrash, HandlerReturns, CommandInv, AfterParse;
  }

  lemma CommandOwnStep(w: World, step: Step)
    requires HandledInv(w) && Enabled(w, step) && IsTaskStep(step)
    ensures step.t in Next(w, step).tasks && CommandInv(Next(w, step), step.t)
  {
    hide Note, ClearFor, Lifetime, HandlerReturns;
    assert CommandInv(w, step.t);
  }

  lemma CommandOtherStep(w: World, step: Step)
    requires HandledInv(w) && Enabled(w, step) && !IsTaskStep(step)
    ensures forall t | t in Next(w, step).tasks :: CommandInv(Next(w, step), t)
  {
    hide AfterCrash, IdsBetween, Lifetime;
    forall t | t in Next(w, step).tasks
      ensures CommandInv(Next(w, step), t)
    {
      assert t in w.tasks ==> CommandInv(w, t);
    }
  }

  lemma CommandInvStep(w: World, step: Step)
    requires HandledInv(w) && Enabled(w, step)
    ensures forall t | t in Next(w, step).tasks :: CommandInv(Next(w, step), t)
  {
    hide Next, Enabled;
    if IsTaskStep(step) {
      OwnTaskOnly(w, step);
      CommandOwnStep(w, step);
      forall t | t in w.tasks && t != step.t
        ensures CommandInv(Next(w, step), t)
      {
        assert CommandInv(w, t);
      }
    } else {
      CommandOtherStep(w, step);
    }
  }

  lemma HandledAreCommands(w: World, step: Step)
    requires HandledInv(w) && Enabled(w, step)
    ensures var w' := Next(w, step);
            forall id | id in w'.handledFree || id in w'.handledTaken :: id < |w'.stream| && w'.stream[id].Command?
  {
    hide Note, ClearFor, Lifetime, AfterCrash, IdsBetween;
  }

  lemma FreeIsOwn(w: World, step: Step)
    requires HandledInv(w) && Enabled(w, step)
    ensures Next(w, step).handledFree == Next(w, step).ownReturns
  {
    hide Note, ClearFor, Lifetime, AfterCrash, IdsBetween, AfterParse;
    assert IsTaskStep(step) ==> CommandInv(w, step.t);
  }

  lemma ReturnsStep(w: World, step: Step)
    requires HandledInv(w) && Enabled(w, step)
    ensures var w' := Next(w, step);
            && (forall id | id in w'.handledFree || id in w'.handledTaken :: id < |w'.stream| && w'.stream[id].Command?)
            && w'.handledFree == w'.ownReturns
  {
    hide HandledInv, Next, Enabled;
    HandledAreCommands(w, step);
    FreeIsOwn(w, step);
  }

  lemma {:induction false} HandledHolds(run: seq<World>, i: nat)
    requires IsRun(run) && i < |run|
    ensures HandledInv(run[i])
  {
    if i > 0 {
      HandledHolds(run, i - 1);
      var step := StepTaken(run, i - 1);
      StreamStep(run[i - 1], step);
      CommandInvStep(run[i - 1], step);
      ReturnsStep(run[i - 1], step);
    }
  }

  /** The task finds its message's key marked, and its handler returns. */
  predicate TurnsAway(w: World, step: Step, id: MessageId) {
    step.Mark? && step.t in w.tasks && w.tasks[step.t].id == id && w.tasks[step.t].phase.Marking?
    && w.tasks[step.t].phase.key in w.marks
  }

  /** The submit of a task for the message returns. */
  predicate ReturnsFor(w: World, step: Step, id: MessageId) {
    step.SubmitReturns? && step.t in w.tasks && w.tasks[step.t].id == id
  }

  /** The task finds the key free. */
  predicate FindsFree(w: World, step: Step, t: TaskId, key: Key) {
    step == Mark(t) && t in w.tasks && w.tasks[t].phase == Marking(key) && key !in w.marks
  }

  lemma TurnsAwayLaw(w: World, step: Step, id: MessageId)
    requires HandledInv(w) && Enabled(w, step)
    ensures id in Next(w, step).handledTaken <==> id in w.handledTaken || TurnsAway(w, step, id)
  {
    hide Note, ClearFor, Lifetime, AfterCrash;
  }

  lemma ReturnsForLaw(w: World, step: Step, id: MessageId)
    requires Enabled(w, step)
    ensures id in Next(w, step).ownReturns <==> id in w.ownReturns || ReturnsFor(w, step, id)
  {
    hide Note, ClearFor, Lifetime, AfterCrash, HandlerReturns;
  }

  lemma SubmittingLaw(w: World, step: Step, t: TaskId)
    requires Enabled(w, step) && t in Next(w, step).tasks && Next(w, step).tasks[t].phase.Submitting?
    ensures var phase := Next(w, step).tasks[t].phase;
            (t in w.tasks && w.tasks[t].phase == phase) || FindsFree(w, step, t, phase.key)
  {
    hide Note, ClearFor, AfterCrash, HandlerReturns, Lifetime;
    if IsTaskStep(step) {
      OwnTaskOnly(w, step);
    }
  }

  lemma {:induction false} TurnedAwayExactly(run: seq<World>, steps: seq<Step>, i: nat, id: MessageId)
    requires TakesAll(run, steps) && i < |run|
    ensures id in run[i].handledTaken <==> exists j :: 0 <= j < i && TurnsAway(run[j], steps[j], id)
  {
    hide IsRun, Next, Enabled, TurnsAway, HandledInv;
    if i == 0 {
      NothingHandledYet(run);
    } else {
      TurnedAwayExactly(run, steps, i - 1, id);
      HandledHolds(run, i - 1);
      assert Takes(run, i - 1, steps[i - 1]);
      TurnsAwayLaw(run[i - 1], steps[i - 1], id);
    }
  }

  lemma {:induction false} ReturnedForExactly(run: seq<World>, steps: seq<Step>, i: nat, id: MessageId)
    requires TakesAll(run, steps) && i < |run|
    ensures id in run[i].ownReturns <==> exists j :: 0 <= j < i && ReturnsFor(run[j], steps[j], id)
  {
    hide IsRun, Next, Enabled, ReturnsFor;
    if i == 0 {
      NothingHandledYet(run);
    } else {
      ReturnedForExactly(run, steps, i - 1, id);
      assert Takes(run, i - 1, steps[i - 1]);
      ReturnsForLaw(run[i - 1], steps[i - 1], id);
    }
  }

  lemma NothingHandledYet(run: seq<World>)
    requires IsRun(run)
    ensures run[0].handledTaken == run[0].ownReturns == {} && run[0].tasks == map[]
  {
  }

  /** A task that submits has found its key free. */
  lemma {:induction false} SubmittingFoundFree(run: seq<World>, steps: seq<Step>, i: nat, t: TaskId)
    requires TakesAll(run, steps) && i < |run| && t in run[i].tasks && run[i].tasks[t].phase.Submitting?
    ensures exists k :: 0 <= k < i && FindsFree(run[k], steps[k], t, run[i].tasks[t].phase.key)
  {
    hide IsRun, Next, Enabled, FindsFree;
    if i == 0 {
      NothingHandledYet(run);
    } else {
      assert Takes(run, i - 1, steps[i - 1]);
      SubmittingLaw(run[i - 1], steps[i - 1], t);
      if !FindsFree(run[i - 1], steps[i - 1], t, run[i].tasks[t].phase.key) {
        SubmittingFoundFree(run, steps, i - 1, t);
      }
    }
  }

  /** A task for the message found the key free at step k, and its submit returned at step j. */
  ghost predicate SubmittedItself(run: seq<World>, steps: seq<Step>, k: nat, j: nat, i: nat, id: MessageId)
    requires TakesAll(run, steps) && i < |run|
  {
    && k < j < i && ReturnsFor(run[j], steps[j], id) && run[j].tasks[steps[j].t].phase.Submitting?
    && FindsFree(run[k], steps[k], steps[j].t, run[j].tasks[steps[j].t].phase.key)
  }

  lemma OwnReturnFoundFree(run: seq<World>, steps: seq<Step>, j: nat, i: nat, id: MessageId)
    requires TakesAll(run, steps) && j < i < |run| && ReturnsFor(run[j], steps[j], id)
    ensures exists k :: SubmittedItself(run, steps, k, j, i, id)
  {
    hide IsRun, Next, FindsFree;
    var t := steps[j].t;
    assert Takes(run, j, steps[j]);
    SubmittingFoundFree(run, steps, j, t);
    var k :| 0 <= k < j && FindsFree(run[k], steps[k], t, run[j].tasks[t].phase.key);
    assert SubmittedItself(run, steps, k, j, i, id);
  }

  /** What an acknowledgement without a dead-letter entry says about a message: it is a command, and a submit for it
      has returned exactly if its handler returned in a handling that found the key free; otherwise each handling that
      returned had found the key marked. */
  lemma AcknowledgedExactly(run: seq<World>, steps: seq<Step>, i: nat, id: MessageId)
    requires TakesAll(run, steps) && i < |run| && id in run[i].acked && id !in run[i].deadLetters
    ensures id < |run[i].stream| && run[i].stream[id].Command?
    ensures id in run[i].ownReturns <==> id in run[i].handledFree
    ensures id in run[i].ownReturns <==> exists k, j :: SubmittedItself(run, steps, k, j, i, id)
    ensures id !in run[i].ownReturns ==> exists j :: 0 <= j < i && TurnsAway(run[j], steps[j], id)
  {
    hide IsRun, Next, FindsFree, TurnsAway, CommandInv, ReturnsFor;
    NoCommandIsLost(run, i);
    HandledHolds(run, i);
    TurnedAwayExactly(run, steps, i, id);
    ReturnedForExactly(run, steps, i, id);
    if j :| 0 <= j < i && ReturnsFor(run[j], steps[j], id) {
      OwnReturnFoundFree(run, steps, j, i, id);
    }
  }

  // ----- acknowledged without a submit of its own

  lemma Extend(run: seq<World>, step: Step) returns (run': seq<World>)
    requires IsRun(run) && Enabled(run[|run| - 1], step)
    ensures IsRun(run') && run'[0] == run[0] && run'[|run'| - 1] == Next(run[|run| - 1], step)
  {
    run' := run + [Next(run[|run| - 1], step)];
    forall i | 0 <= i < |run'| - 1
      ensures Follows(run'[i], run'[i + 1])
    {
      if i < |run| - 1 {
        assert Follows(run[i], run[i + 1]);
      }
    }
  }

  /** The mark outlives a crash: a command whose submit died with its instance is acknowledged on redelivery, without a
      second submit and without a dead-letter entry. */
  lemma CrashedSubmitIsNotRepeated(w: World) returns (run: seq<World>)
    requires Initial(w) && w.stream == [Command(7)] && w.nextTask == 0 && w.maxAttempts == 1
    ensures IsRun(run) && run[0] == w
    ensures var last := run[|run| - 1];
            && 0 in last.acked && last.deadLetters == {} && last.ownReturns == {}
            && last.submits == map[7 := Unknown] && last.lifetimes == map[]
  {
    hide IsRun;
    run := SubmitCrashes(w);
    run := Extend(run, Start(1, 0));
    run := Extend(run, Parse(1));
    run := Extend(run, Mark(1));
    run := Extend(run, Ack(1));
  }

  /** The first half: a submit dies with its instance. */
  lemma SubmitCrashes(w: World) returns (run: seq<World>)
    requires Initial(w) && w.stream == [Command(7)] && w.nextTask == 0 && w.maxAttempts == 1
    ensures IsRun(run) && run[0] == w
    ensures var last := run[|run| - 1];
            && last.stream == w.stream && last.maxAttempts == 1 && last.delivered == 1 && last.nextTask == 1
            && last.pending == {0} && last.acked == {} && last.deadLetters == {} && last.marks == {7}
            && last.ownReturns == {} && last.lifetimes == map[]
            && last.tasks == map[] && last.submits == map[7 := Unknown]
  {
    run := [w];
    assert IsRun(run);
    hide IsRun;
    run := Extend(run, Deliver(1));
    run := Extend(run, Start(0, 0));
    run := Extend(run, Parse(0));
    run := Extend(run, Mark(0));
    run := Extend(run, Crash(0));
  }

  /** A duplicate is acknowledged while the submit of its twin runs, which then throws: neither command has had a submit
      that returned, though no instance died and no answer was lost. */
  lemma DuplicateIsDropped(w: World) returns (run: seq<World>)
    requires Initial(w) && w.stream == [Command(7), Command(7)] && w.nextTask == 0 && w.maxAttempts == 1
    ensures IsRun(run) && run[0] == w
    ensures var last := run[|run| - 1];
            && 1 in last.acked && 1 !in last.deadLetters && last.ownReturns == {}
            && last.submits == map[7 := Failed] && last.lifetimes == map[] && 7 !in last.marks
  {
    hide IsRun;
    run := TwinIsTurnedAway(w);
    run := Extend(run, SubmitThrows(0));
    run := Extend(run, ClearMark(0));
  }

  lemma TwinIsTurnedAway(w: World) returns (run: seq<World>)
    requires Initial(w) && w.stream == [Command(7), Command(7)] && w.nextTask == 0 && w.maxAttempts == 1
    ensures IsRun(run) && run[0] == w
    ensures var last := run[|run| - 1];
            && last.acked == {1} && last.deadLetters == {} && last.ownReturns == {} && last.marks == {7}
            && 0 in last.tasks && last.tasks[0].phase == Submitting(7, 0)
            && last.submits == map[7 := Running(0)] && last.lifetimes == map[]
  {
    hide IsRun;
    run := TwinsStart(w);
    run := Extend(run, Mark(0));
    run := Extend(run, Mark(1));
    run := Extend(run, Ack(1));
  }

  lemma TwinsStart(w: World) returns (run: seq<World>)
    requires Initial(w) && w.stream == [Command(7), Command(7)] && w.nextTask == 0 && w.maxAttempts == 1
    ensures IsRun(run) && run[0] == w
    ensures var last := run[|run| - 1];
            && last.pending == {0, 1} && last.acked == {} && last.deadLetters == {} && last.ownReturns == {}
            && last.marks == {} && last.submits == map[] && last.lifetimes == map[]
            && last.tasks == map[0 := Task(0, 0, 1, Marking(7), false), 1 := Task(0, 1, 1, Marking(7), false)]
  {
    run := [w];
    assert IsRun(run);
    hide IsRun;
    run := Extend(run, Deliver(2));
    run := Extend(run, Start(0, 0));
    run := Extend(run, Start(0, 1));
    run := Extend(run, Parse(0));
    run := Extend(run, Parse(1));
  }

  // ----- a straggler frees a live mark

  lemma ExtendTaken(run: seq<World>, steps: seq<Step>, step: Step) returns (run': seq<World>, steps': seq<Step>)
    requires TakesAll(run, steps) && |run| == |steps| + 1 && Enabled(run[|run| - 1], step)
    ensures TakesAll(run', steps') && steps' == steps + [step] && |run'| == |steps'| + 1
    ensures run'[|run'| - 1] == Next(run[|run| - 1], step)
  {
    hide Next, Enabled, Initial;
    run', steps' := run + [Next(run[|run| - 1], step)], steps + [step];
    forall i | 0 <= i < |steps'|
      ensures Takes(run', i, steps'[i]) && Follows(run'[i], run'[i + 1])
    {
      if i < |steps| {
        assert Takes(run, i, steps[i]);
      }
    }
    assert run'[0] == run[0];
  }

  /** A submit whose mark has run out goes on beside the submit of the task that set the mark again. */
  lemma StragglerRuns(w: World) returns (run: seq<World>, steps: seq<Step>)
    requires Initial(w) && w.stream == [Command(7), Command(7), Command(7)] && w.nextTask == 0 && w.maxAttempts == 1
    ensures TakesAll(run, steps) && |run| == |steps| + 1
    ensures |steps| == 10 && steps[8..] == [Expire(7), Mark(1)] && forall k | 0 <= k < 8 :: !steps[k].Expire?
    ensures var last := run[|run| - 1];
            && last.marks == {7} && last.ownReturns == {} && last.lifetimes == map[7 := 1]
            && last.tasks == map[0 := Task(0, 0, 1, Submitting(7, 0), true), 1 := Task(0, 1, 1, Submitting(7, 1), true),
                                 2 := Task(0, 2, 1, Marking(7), false)]
            && last.submits == map[7 := Running(1)]
  {
    hide TakesAll, Initial;
    run, steps := ThreeStart(w);
    run, steps := ExtendTaken(run, steps, Mark(0));
    run, steps := ExtendTaken(run, steps, Expire(7));
    run, steps := ExtendTaken(run, steps, Mark(1));
  }

  lemma ThreeStart(w: World) returns (run: seq<World>, steps: seq<Step>)
    requires Initial(w) && w.stream == [Command(7), Command(7), Command(7)] && w.nextTask == 0 && w.maxAttempts == 1
    ensures TakesAll(run, steps) && |run| == |steps| + 1
    ensures steps == [Deliver(3), Start(0, 0), Start(0, 1), Start(0, 2), Parse(0), Parse(1), Parse(2)]
    ensures var last := run[|run| - 1];
            && last.marks == {} && last.ownReturns == {} && last.lifetimes == map[] && last.submits == map[]
            && last.tasks == map[0 := Task(0, 0, 1, Marking(7), false), 1 := Task(0, 1, 1, Marking(7), false),
                                 2 := Task(0, 2, 1, Marking(7), false)]
  {
    hide TakesAll, Initial;
    run, steps := ThreeTasks(w);
    run, steps := ExtendTaken(run, steps, Parse(0));
    run, steps := ExtendTaken(run, steps, Parse(1));
    run, steps := ExtendTaken(run, steps, Parse(2));
  }

  lemma ThreeTasks(w: World) returns (run: seq<World>, steps: seq<Step>)
    requires Initial(w) && w.stream == [Command(7), Command(7), Command(7)] && w.nextTask == 0 && w.maxAttempts == 1
    ensures TakesAll(run, steps) && |run| == |steps| + 1
    ensures steps == [Deliver(3), Start(0, 0), Start(0, 1), Start(0, 2)]
    ensures var last := run[|run| - 1];
            && last.stream == w.stream && last.maxAttempts == 1
            && last.marks == {} && last.ownReturns == {} && last.lifetimes == map[] && last.submits == map[]
            && last.tasks == map[0 := Task(0, 0, 0, Ready, false), 1 := Task(0, 1, 0, Ready, false),
                                 2 := Task(0, 2, 0, Ready, false)]
  {
    run, steps := [w], [];
    assert TakesAll(run, steps);
    hide TakesAll, Initial, IdsBetween;
    run, steps := ExtendTaken(run, steps, Deliver(3));
    run, steps := ExtendTaken(run, steps, Start(0, 0));
    run, steps := ExtendTaken(run, steps, Start(0, 1));
    run, steps := ExtendTaken(run, steps, Start(0, 2));
  }

  /** What the clear of the straggler and the third task do to a world. */
  lemma StragglerClears(w: World)
    requires 0 in w.tasks && w.tasks[0].phase == Submitting(7, 0) && 2 in w.tasks && w.tasks[2].phase == Marking(7)
    requires w.lifetimes == map[7 := 1] && w.marks == {7}
    ensures Enabled(w, SubmitThrows(0)) && Enabled(Next(w, SubmitThrows(0)), ClearMark(0))
    ensures var w' := Next(Next(w, SubmitThrows(0)), ClearMark(0));
            && Enabled(w', Mark(2)) && Next(w', Mark(2)).ownReturns == w.ownReturns
            && 2 in Next(w', Mark(2)).tasks && Next(w', Mark(2)).tasks[2].phase == Submitting(7, 2)
            && (1 in w.tasks ==> 1 in Next(w', Mark(2)).tasks && Next(w', Mark(2)).tasks[1] == w.tasks[1])
  {
  }

  /** The straggler throws, and clears the mark of its successor: a third task submits beside the second, whose mark has
      not run out. */
  lemma StragglerFreesLiveMark(w: World) returns (run: seq<World>, steps: seq<Step>)
    requires Initial(w) && w.stream == [Command(7), Command(7), Command(7)] && w.nextTask == 0 && w.maxAttempts == 1
    ensures TakesAll(run, steps) && |run| == |steps| + 1
    ensures |steps| == 13 && steps[8..] == [Expire(7), Mark(1), SubmitThrows(0), ClearMark(0), Mark(2)]
    ensures var last := run[|run| - 1];
            && 1 in last.tasks && last.tasks[1].phase == Submitting(7, 1)
            && 2 in last.tasks && last.tasks[2].phase == Submitting(7, 2)
  {
    hide TakesAll, Initial, Next, Enabled;
    run, steps := StragglerRuns(w);
    StragglerClears(run[|run| - 1]);
    run, steps := ExtendTaken(run, steps, SubmitThrows(0));
    run, steps := ExtendTaken(run, steps, ClearMark(0));
    run, steps := ExtendTaken(run, steps, Mark(2));
  }

  lemma SecondReturns(w: World)
    requires 0 in w.tasks && w.tasks[0].phase == Submitting(7, 0) && 2 in w.tasks && w.tasks[2].phase == Marking(7)
    requires w.lifetimes == map[7 := 1] && w.marks == {7} && w.ownReturns == {}
    requires 1 in w.tasks && w.tasks[1] == Task(0, 1, 1, Submitting(7, 1), true)
    ensures Enabled(w, SubmitReturns(1))
    ensures var w' := Next(w, SubmitReturns(1));
            && w'.lifetimes == w.lifetimes && w'.marks == w.marks && w'.ownReturns == {1}
            && 0 in w'.tasks && w'.tasks[0] == w.tasks[0] && 2 in w'.tasks && w'.tasks[2] == w.tasks[2]
  {
  }

  /** The same after the second submit has returned: a new one begins although its mark has not run out. */
  lemma StragglerRepeatsReturned(w: World) returns (run: seq<World>, steps: seq<Step>)
    requires Initial(w) && w.stream == [Command(7), Command(7), Command(7)] && w.nextTask == 0 && w.maxAttempts == 1
    ensures TakesAll(run, steps) && |run| == |steps| + 1
    ensures |steps| == 14
    ensures steps[8..] == [Expire(7), Mark(1), SubmitReturns(1), SubmitThrows(0), ClearMark(0), Mark(2)]
    ensures var last := run[|run| - 1];
            last.ownReturns == {1} && 2 in last.tasks && last.tasks[2].phase == Submitting(7, 2)
  {
    hide TakesAll, Initial, Next, Enabled;
    run, steps := StragglerRuns(w);
    SecondReturns(run[|run| - 1]);
    run, steps := ExtendTaken(run, steps, SubmitReturns(1));
    StragglerClears(run[|run| - 1]);
    run, steps := ExtendTaken(run, steps, SubmitThrows(0));
    run, steps := ExtendTaken(run, steps, ClearMark(0));
    run, steps := ExtendTaken(run, steps, Mark(2));
  }
}
