/** What becomes of a delivered command: how often its handler is called, when it goes to the dead-letter stream, and
    that handling it comes to an end. */
module CommandAttempts {
  import opened CommandProtocol

  // ----- what the steps of a run say about a task

  predicate IsOf(step: Step, t: TaskId) {
    IsTaskStep(step) && step.t == t
  }

  /** The task calls the handler. */
  predicate Calls(step: Step, w': World, t: TaskId) {
    step == Parse(t) && t in w'.tasks && w'.tasks[t].phase.Marking?
  }

  /** The handler throws: the mark could not be set, or the submit threw and its mark was cleared, or that failed. */
  predicate Throws(step: Step, t: TaskId) {
    IsOf(step, t) && (step.MarkError? || step.ClearMark? || step.ClearError?)
  }

  /** The handler returns: its submit did, or its key was marked. */
  predicate Returns(w: World, step: Step, t: TaskId) {
    || step == SubmitReturns(t)
    || (step == Mark(t) && t in w.tasks && w.tasks[t].phase.Marking? && w.tasks[t].phase.key in w.marks)
  }

  /** The task sends a dead letter. */
  predicate SendsDeadLetter(step: Step, t: TaskId) {
    IsOf(step, t) && (step.DeadLetter? || step.DeadLetterError?)
  }

  /** How often the task has called the handler, how often that threw and returned, and how many dead letters the task
      has sent. */
  datatype Tally = Tally(calls: nat, throws: nat, normalReturns: nat, deadLetters: nat)

  function OneMore(tally: Tally, w: World, step: Step, w': World, t: TaskId): Tally {
    Tally(tally.calls + (if Calls(step, w', t) then 1 else 0),
          tally.throws + (if Throws(step, t) then 1 else 0),
          tally.normalReturns + (if Returns(w, step, t) then 1 else 0),
          tally.deadLetters + (if SendsDeadLetter(step, t) then 1 else 0))
  }

  ghost function TallyOf(run: seq<World>, steps: seq<Step>, i: nat, t: TaskId): Tally
    requires |steps| == |run| - 1 && i < |run|
  {
    if i == 0 then Tally(0, 0, 0, 0) else OneMore(TallyOf(run, steps, i - 1, t), run[i - 1], steps[i - 1], run[i], t)
  }

  // ----- the law

  /** What is known about a task in each of its phases. */
  predicate TaskLaw(task: Task, entry: Entry, maxAttempts: nat, tally: Tally) {
    && tally.calls <= maxAttempts
    && (tally.calls > 0 ==> entry.Command?)
    && match task.phase
       case Ready => task.attempts == tally.calls && tally == Tally(tally.calls, tally.calls, 0, 0)
       case Marking(_) => task.attempts == tally.calls > 0 && tally == Tally(tally.calls, tally.calls - 1, 0, 0)
       case Submitting(_, _) => task.attempts == tally.calls > 0 && tally == Tally(tally.calls, tally.calls - 1, 0, 0)
       case Clearing(_, _) => task.attempts == tally.calls > 0 && tally == Tally(tally.calls, tally.calls - 1, 0, 0)
       case Threw => task.attempts == tally.calls > 0 && tally == Tally(tally.calls, tally.calls, 0, 0)
       case DeadLettering =>
         if entry.Command? then tally == Tally(maxAttempts, maxAttempts, 0, 0) else tally == Tally(0, 0, 0, 0)
       case Acking => Over(entry, maxAttempts, tally)
       case Settled => Over(entry, maxAttempts, tally)
  }

  /** The handler has returned after throwing less often than it may; or it has used up its calls, or could not be
      called, and a dead letter has been sent. */
  predicate Over(entry: Entry, maxAttempts: nat, tally: Tally) {
    if !entry.Command? then tally == Tally(0, 0, 0, 1)
    else
      || tally == Tally(maxAttempts, maxAttempts, 0, 1)
      || (0 < tally.calls <= maxAttempts && tally == Tally(tally.calls, tally.calls - 1, 1, 0))
  }

  /** What an own step does to its task. */
  predicate Moves(w: World, step: Step, task: Task, task': Task)
    requires task.id < |w.stream|
  {
    && task'.id == task.id
    && task'.attempts == task.attempts + (if step.Parse? then 1 else 0)
    && match step
       case Parse(_) =>
         task.phase == Ready && task'.phase == AfterParse(w.stream[task.id], task.attempts, w.maxAttempts)
       case Mark(_) =>
         && task.phase.Marking?
         && if task.phase.key in w.marks then task'.phase == Acking else task'.phase.Submitting?
       case MarkError(_, _) => task.phase.Marking? && task'.phase == Threw
       case SubmitReturns(_) => task.phase.Submitting? && task'.phase == Acking
       case SubmitThrows(_) => task.phase.Submitting? && task'.phase.Clearing?
       case ClearMark(_) => task.phase.Clearing? && task'.phase == Threw
       case ClearError(_, _) => task.phase.Clearing? && task'.phase == Threw
       case Retry(_) => task.phase == Threw && task'.phase == Ready
       case DeadLetter(_) => task.phase == DeadLettering && task'.phase == Acking
       case DeadLetterError(_, _) => task.phase == DeadLettering && task'.phase == Settled
       case Ack(_) => task.phase == Acking && task'.phase == Settled
       case AckError(_, _) => task.phase == Acking && task'.phase == Settled
       case _ => true
  }

  predicate IsHandlerStep(step: Step) {
    step.Mark? || step.MarkError? || step.SubmitReturns? || step.SubmitThrows? || step.ClearMark? || step.ClearError?
  }

  lemma MarkStepMoves(w: World, step: Step, t: TaskId)
    requires Enabled(w, step) && IsOf(step, t) && (step.Mark? || step.MarkError?) && w.tasks[t].id < |w.stream|
    ensures t in Next(w, step).tasks && Moves(w, step, w.tasks[t], Next(w, step).tasks[t])
  {
    hide Lifetime, AfterParse;
  }

  lemma SubmitStepMoves(w: World, step: Step, t: TaskId)
    requires Enabled(w, step) && IsOf(step, t) && IsHandlerStep(step) && !step.Mark? && !step.MarkError?
    requires w.tasks[t].id < |w.stream|
    ensures t in Next(w, step).tasks && Moves(w, step, w.tasks[t], Next(w, step).tasks[t])
  {
    hide Note, ClearFor, Lifetime, AfterParse;
  }

  lemma LoopStepMoves(w: World, step: Step, t: TaskId)
    requires Enabled(w, step) && IsOf(step, t) && !IsHandlerStep(step) && w.tasks[t].id < |w.stream|
    ensures t in Next(w, step).tasks && Moves(w, step, w.tasks[t], Next(w, step).tasks[t])
  {
    hide AfterParse;
  }

  lemma OwnStepMoves(w: World, step: Step, t: TaskId)
    requires Enabled(w, step) && IsOf(step, t) && w.tasks[t].id < |w.stream|
    ensures t in Next(w, step).tasks && Moves(w, step, w.tasks[t], Next(w, step).tasks[t])
  {
    hide Next, Moves;
    if step.Mark? || step.MarkError? {
      MarkStepMoves(w, step, t);
    } else if IsHandlerStep(step) {
      SubmitStepMoves(w, step, t);
    } else {
      LoopStepMoves(w, step, t);
    }
  }

  lemma MoveKeepsLaw(w: World, step: Step, w': World, t: TaskId, tally: Tally)
    requires t in w.tasks && t in w'.tasks && IsOf(step, t) && w.tasks[t].id < |w.stream|
    requires Moves(w, step, w.tasks[t], w'.tasks[t])
    requires TaskLaw(w.tasks[t], w.stream[w.tasks[t].id], w.maxAttempts, tally)
    ensures TaskLaw(w'.tasks[t], w.stream[w.tasks[t].id], w.maxAttempts, OneMore(tally, w, step, w', t))
  {
  }

  /** Steps of others leave a task alone. */
  lemma OtherStepKeepsTask(w: World, step: Step, t: TaskId)
    requires Enabled(w, step) && !IsOf(step, t) && t < w.nextTask
    ensures t in Next(w, step).tasks ==> t in w.tasks && Next(w, step).tasks[t] == w.tasks[t]
    ensures t in w.tasks && t !in Next(w, step).tasks ==>
              (step == Leave(t) && w.tasks[t].phase == Settled) || step == Crash(w.tasks[t].instance)
  {
    if IsTaskStep(step) {
      hide Next, Enabled;
      OwnTaskOnly(w, step);
    } else {
      hide Lifetime, AfterCrash;
    }
  }

  lemma WorldGrows(w: World, step: Step)
    requires Enabled(w, step)
    ensures Next(w, step).maxAttempts == w.maxAttempts && w.stream <= Next(w, step).stream
    ensures Next(w, step).nextTask == w.nextTask + if step.Start? then 1 else 0
  {
    hide Note, ClearFor, Lifetime, AfterCrash, AfterParse, MarkStarted, HandlerReturns;
  }

  lemma StartsReady(w: World, step: Step)
    requires Enabled(w, step) && step.Start?
    ensures var w' := Next(w, step);
            w'.tasks == w.tasks[w.nextTask := Task(step.instance, step.id, 0, Ready, false)]
  {
  }

  lemma NothingCounted(tally: Tally, w: World, step: Step, w': World, t: TaskId)
    requires !IsOf(step, t)
    ensures OneMore(tally, w, step, w', t) == tally
  {
  }

  lemma NoTask(w: World, step: Step, t: TaskId)
    requires Enabled(w, step) && IsOf(step, t)
    ensures t in w.tasks
  {
  }

  lemma NoTaskAtFirst(run: seq<World>, steps: seq<Step>)
    requires TakesAll(run, steps)
    ensures run[0].tasks == map[]
  {
  }

  lemma TakenStep(run: seq<World>, steps: seq<Step>, i: nat)
    requires TakesAll(run, steps) && i < |steps|
    ensures Enabled(run[i], steps[i]) && run[i + 1] == Next(run[i], steps[i])
  {
    assert Takes(run, i, steps[i]);
  }

  lemma Delivered(run: seq<World>, steps: seq<Step>, i: nat, t: TaskId)
    requires TakesAll(run, steps) && i < |run|
    ensures |steps| == |run| - 1
    ensures t in run[i].tasks ==> t < run[i].nextTask && run[i].tasks[t].id < run[i].delivered <= |run[i].stream|
  {
    hide Handled;
    NoCommandIsLost(run, i);
  }

  /** The law holds of every task in every world of every run. */
  lemma {:induction false} LawHolds(run: seq<World>, steps: seq<Step>, i: nat, t: TaskId)
    requires TakesAll(run, steps) && i < |run|
    ensures t >= run[i].nextTask ==> t !in run[i].tasks && TallyOf(run, steps, i, t) == Tally(0, 0, 0, 0)
    ensures t in run[i].tasks ==>
              && run[i].tasks[t].id < |run[i].stream|
              && TaskLaw(run[i].tasks[t], run[i].stream[run[i].tasks[t].id], run[i].maxAttempts,
                         TallyOf(run, steps, i, t))
    decreases i
  {
    hide Next, Enabled, TaskLaw, TakesAll, Moves, IsOf, OneMore;
    Delivered(run, steps, i, t);
    if i == 0 {
      NoTaskAtFirst(run, steps);
    } else {
      var w, step := run[i - 1], steps[i - 1];
      LawHolds(run, steps, i - 1, t);
      TakenStep(run, steps, i - 1);
      WorldGrows(w, step);
      if IsOf(step, t) {
        NoTask(w, step, t);
        OwnStepMoves(w, step, t);
        MoveKeepsLaw(w, step, run[i], t, TallyOf(run, steps, i - 1, t));
        MoveKeepsId(w, step, w.tasks[t], run[i].tasks[t]);
      } else {
        NothingCounted(TallyOf(run, steps, i - 1, t), w, step, run[i], t);
        if t < w.nextTask {
          OtherStepKeepsTask(w, step, t);
        } else if t in run[i].tasks {
          StartsReady(w, step);
          StartLaw(run[i].tasks[t], run[i].stream[run[i].tasks[t].id], run[i].maxAttempts);
        }
      }
    }
  }

  lemma MoveKeepsId(w: World, step: Step, task: Task, task': Task)
    requires task.id < |w.stream| && Moves(w, step, task, task')
    ensures task'.id == task.id
  {
  }

  lemma StartLaw(task: Task, entry: Entry, maxAttempts: nat)
    requires task.phase == Ready && task.attempts == 0
    ensures TaskLaw(task, entry, maxAttempts, Tally(0, 0, 0, 0))
  {
  }

  // ----- what becomes of a command

  /** The handling of the message is over, but for the acknowledgement. */
  predicate IsOver(w: World, t: TaskId) {
    t in w.tasks && (w.tasks[t].phase == Acking || w.tasks[t].phase == Settled)
  }

  /** A task calls the handler at most maxAttempts times, and only for a command. Once the handling is over, it has sent
      a dead letter exactly if there was no command to call the handler for, or if all maxAttempts calls threw;
      otherwise its last call has returned, and those before have thrown. */
  lemma DeadLetteredExactly(run: seq<World>, steps: seq<Step>, i: nat, t: TaskId)
    requires TakesAll(run, steps) && i < |run|
    ensures t in run[i].tasks ==> run[i].tasks[t].id < |run[i].stream|
    ensures TallyOf(run, steps, i, t).calls <= run[i].maxAttempts
    ensures IsOver(run[i], t) ==>
              var tally, entry := TallyOf(run, steps, i, t), run[i].stream[run[i].tasks[t].id];
              && (tally.calls > 0 ==> entry.Command?)
              && (tally.deadLetters > 0 <==> !entry.Command? || tally.throws == run[i].maxAttempts)
              && (tally.deadLetters == 0 ==>
                    tally.normalReturns == 1 && tally.throws == tally.calls - 1)
              && (tally.deadLetters > 0 ==>
                    tally.deadLetters == 1 && tally.normalReturns == 0 && tally.throws == tally.calls)
  {
    hide TakesAll;
    LawHolds(run, steps, i, t);
    CallsAreBounded(run, steps, i, t);
  }

  /** Also the calls of a task that is over or has crashed are bounded. */
  lemma {:induction false} CallsAreBounded(run: seq<World>, steps: seq<Step>, i: nat, t: TaskId)
    requires TakesAll(run, steps) && i < |run|
    ensures TallyOf(run, steps, i, t).calls <= run[i].maxAttempts
    decreases i
  {
    hide Next, Enabled, TakesAll, IsOf, OneMore;
    Delivered(run, steps, i, t);
    LawHolds(run, steps, i, t);
    if t !in run[i].tasks && i > 0 {
      var w, step := run[i - 1], steps[i - 1];
      CallsAreBounded(run, steps, i - 1, t);
      TakenStep(run, steps, i - 1);
      WorldGrows(w, step);
      Delivered(run, steps, i - 1, t);
      if IsOf(step, t) {
        NoTask(w, step, t);
        OwnStepMoves(w, step, t);
      } else {
        NothingCounted(TallyOf(run, steps, i - 1, t), w, step, run[i], t);
      }
    }
  }

  /** The task leaves after its handling, or its instance crashes. */
  predicate Goes(w: World, step: Step, t: TaskId) {
    t in w.tasks && ((step == Leave(t) && w.tasks[t].phase == Settled) || step == Crash(w.tasks[t].instance))
  }

  lemma GoingStep(w: World, step: Step, t: TaskId)
    requires Enabled(w, step) && Goes(w, step, t)
    ensures t !in Next(w, step).tasks
  {
  }

  lemma GoneStays(w: World, step: Step, t: TaskId)
    requires Enabled(w, step) && t !in w.tasks && t < w.nextTask
    ensures t !in Next(w, step).tasks
  {
    if IsTaskStep(step) {
      hide Next, Enabled;
      OwnTaskOnly(w, step);
    } else {
      hide Lifetime, AfterCrash;
    }
  }

  /** A task that was started is gone exactly if it has left after its handling, or its instance has crashed. */
  lemma {:induction false} TaskIsGone(run: seq<World>, steps: seq<Step>, i: nat, t: TaskId)
    requires TakesAll(run, steps) && i < |run| && run[0].nextTask <= t < run[i].nextTask
    ensures t !in run[i].tasks <==> exists j :: 0 <= j < i && Goes(run[j], steps[j], t)
    decreases i
  {
    hide Next, Enabled, TakesAll, IsOf, Goes;
    Delivered(run, steps, i, t);
    var w, step := run[i - 1], steps[i - 1];
    TakenStep(run, steps, i - 1);
    WorldGrows(w, step);
    if t >= w.nextTask {
      StartsReady(w, step);
      NobodyGoesBefore(run, steps, i, t);
    } else {
      TaskIsGone(run, steps, i - 1, t);
      GoesFromTasks(w, step, t);
      if t !in w.tasks {
        GoneStays(w, step, t);
      } else if Goes(w, step, t) {
        GoingStep(w, step, t);
      } else if IsOf(step, t) {
        Delivered(run, steps, i - 1, t);
        OwnStepMoves(w, step, t);
      } else {
        StaysUnlessGoing(w, step, t);
      }
    }
  }

  lemma GoesFromTasks(w: World, step: Step, t: TaskId)
    ensures Goes(w, step, t) ==> t in w.tasks
  {
  }

  lemma StaysUnlessGoing(w: World, step: Step, t: TaskId)
    requires Enabled(w, step) && t in w.tasks && t < w.nextTask && !IsOf(step, t) && !Goes(w, step, t)
    ensures t in Next(w, step).tasks
  {
    hide Next;
    OtherStepKeepsTask(w, step, t);
  }

  lemma {:induction false} NobodyGoesBefore(run: seq<World>, steps: seq<Step>, i: nat, t: TaskId)
    requires TakesAll(run, steps) && 0 < i < |run| && t >= run[i - 1].nextTask
    ensures forall j | 0 <= j < i :: !Goes(run[j], steps[j], t)
    decreases i
  {
    hide Next, Enabled, TakesAll, Goes;
    Delivered(run, steps, i - 1, t);
    GoesFromTasks(run[i - 1], steps[i - 1], t);
    if i > 1 {
      TakenStep(run, steps, i - 2);
      WorldGrows(run[i - 2], steps[i - 2]);
      NobodyGoesBefore(run, steps, i - 1, t);
    }
  }

  // ----- acknowledgements and dead letters

  /** The task's write to the stream is applied and settles this message. */
  predicate Acknowledges(w: World, step: Step, id: MessageId) {
    && (step.Ack? || (step.AckError? && step.applied))
    && step.t in w.tasks && w.tasks[step.t].id == id
  }

  predicate WritesDeadLetter(w: World, step: Step, id: MessageId) {
    && (step.DeadLetter? || (step.DeadLetterError? && step.applied))
    && step.t in w.tasks && w.tasks[step.t].id == id
  }

  lemma AckLaw(w: World, step: Step, id: MessageId)
    requires DeliveryInv(w) && Enabled(w, step)
    ensures id in Next(w, step).acked <==> id in w.acked || Acknowledges(w, step, id)
  {
    hide Note, ClearFor, Lifetime, AfterCrash, AfterParse, MarkStarted, HandlerReturns, Handled;
  }

  lemma DeadLetterLaw(w: World, step: Step, id: MessageId)
    requires Enabled(w, step)
    ensures id in Next(w, step).deadLetters <==> id in w.deadLetters || WritesDeadLetter(w, step, id)
  {
    hide Note, ClearFor, Lifetime, AfterCrash, AfterParse, MarkStarted;
  }

  lemma NothingAckedYet(run: seq<World>, steps: seq<Step>)
    requires TakesAll(run, steps)
    ensures run[0].acked == {} && run[0].deadLetters == {}
  {
  }

  /** A message is acknowledged exactly if an acknowledgement by one of its tasks was applied. */
  lemma {:induction false} AckedExactly(run: seq<World>, steps: seq<Step>, i: nat, id: MessageId)
    requires TakesAll(run, steps) && i < |run|
    ensures id in run[i].acked <==> exists j :: 0 <= j < i && Acknowledges(run[j], steps[j], id)
    decreases i
  {
    hide Next, Enabled, TakesAll, Acknowledges, DeliveryInv;
    Delivered(run, steps, i, 0);
    if i == 0 {
      NothingAckedYet(run, steps);
    } else {
      AckedExactly(run, steps, i - 1, id);
      TakenStep(run, steps, i - 1);
      InvOfTaken(run, steps, i - 1);
      AckLaw(run[i - 1], steps[i - 1], id);
    }
  }

  lemma InvOfTaken(run: seq<World>, steps: seq<Step>, i: nat)
    requires TakesAll(run, steps) && i < |run|
    ensures DeliveryInv(run[i])
  {
    NoCommandIsLost(run, i);
  }

  /** When a task sends its dead letter, its entry holds no command, or the task's maxAttempts calls have all thrown. */
  predicate IsPoison(w: World, t: TaskId, tally: Tally) {
    && t in w.tasks && w.tasks[t].id < |w.stream|
    && (!w.stream[w.tasks[t].id].Command?
        || (tally.calls == tally.throws == w.maxAttempts && tally.normalReturns == 0))
  }

  /** A message has a dead letter exactly if one of its tasks wrote one. */
  lemma {:induction false} DeadLettersExactly(run: seq<World>, steps: seq<Step>, i: nat, id: MessageId)
    requires TakesAll(run, steps) && i < |run|
    ensures id in run[i].deadLetters <==> exists j :: 0 <= j < i && WritesDeadLetter(run[j], steps[j], id)
    decreases i
  {
    hide Next, Enabled, TakesAll, WritesDeadLetter;
    Delivered(run, steps, i, 0);
    if i == 0 {
      NothingAckedYet(run, steps);
    } else {
      DeadLettersExactly(run, steps, i - 1, id);
      TakenStep(run, steps, i - 1);
      DeadLetterLaw(run[i - 1], steps[i - 1], id);
    }
  }

  /** And then that task had a reason. */
  lemma DeadLetterHasReason(run: seq<World>, steps: seq<Step>, j: nat, id: MessageId)
    requires TakesAll(run, steps) && j < |steps| && WritesDeadLetter(run[j], steps[j], id)
    ensures IsPoison(run[j], steps[j].t, TallyOf(run, steps, j, steps[j].t))
  {
    hide Next;
    TakenStep(run, steps, j);
    Delivered(run, steps, j, steps[j].t);
    LawHolds(run, steps, j, steps[j].t);
  }

  /** The task's own last write failed: the acknowledgement was not applied, or the dead letter raised an error. */
  predicate FailsToSettle(step: Step, t: TaskId) {
    step == AckError(t, false) || (step.DeadLetterError? && step.t == t)
  }

  lemma SettlesByAcknowledging(w: World, step: Step, task: Task, task': Task)
    requires task.id < |w.stream| && Moves(w, step, task, task') && IsTaskStep(step) && task'.phase == Settled
    requires step.t in w.tasks && w.tasks[step.t] == task && !FailsToSettle(step, step.t)
    ensures Acknowledges(w, step, task.id)
  {
    hide AfterParse;
    ParseDoesNotSettle(w.stream[task.id], task.attempts, w.maxAttempts);
  }

  lemma ParseDoesNotSettle(entry: Entry, attempts: nat, maxAttempts: nat)
    ensures AfterParse(entry, attempts, maxAttempts) != Settled
  {
  }

  /** A task that is through has acknowledged its message, unless its own last write failed. */
  lemma {:induction false} SettledHasAcknowledged(run: seq<World>, steps: seq<Step>, i: nat, t: TaskId)
    requires TakesAll(run, steps) && i < |run| && t in run[i].tasks && run[i].tasks[t].phase == Settled
    requires forall j | 0 <= j < i :: !FailsToSettle(steps[j], t)
    ensures run[i].tasks[t].id in run[i].acked
    decreases i
  {
    hide Next, Enabled, TakesAll, FailsToSettle, DeliveryInv, Moves, Acknowledges;
    Delivered(run, steps, i, t);
    if i == 0 {
      NoTaskAtFirst(run, steps);
    } else {
      var w, step := run[i - 1], steps[i - 1];
      TakenStep(run, steps, i - 1);
      InvOfTaken(run, steps, i - 1);
      Delivered(run, steps, i - 1, t);
      WorldGrows(w, step);
      if IsOf(step, t) {
        NoTask(w, step, t);
        OwnStepMoves(w, step, t);
        MoveKeepsId(w, step, w.tasks[t], run[i].tasks[t]);
        SettlesByAcknowledging(w, step, w.tasks[t], run[i].tasks[t]);
        AckLaw(w, step, w.tasks[t].id);
      } else if t < w.nextTask {
        OtherStepKeepsTask(w, step, t);
        SettledHasAcknowledged(run, steps, i - 1, t);
        AckLaw(w, step, w.tasks[t].id);
      } else {
        StartsReady(w, step);
      }
    }
  }

  // ----- handling comes to an end

  /** A bound on the own steps that a task has still before it. */
  function StepsLeft(task: Task, maxAttempts: nat): nat {
    var callsLeft := if task.attempts < maxAttempts then maxAttempts - task.attempts else 0;
    match task.phase
    case Marking(_) => 5 * callsLeft + 7
    case Submitting(_, _) => 5 * callsLeft + 6
    case Clearing(_, _) => 5 * callsLeft + 5
    case Threw => 5 * callsLeft + 4
    case Ready => 5 * callsLeft + 3
    case DeadLettering => 2
    case Acking => 1
    case Settled => 0
  }

  lemma MoveTakesAStep(w: World, step: Step, task: Task, task': Task, tally: Tally)
    requires task.id < |w.stream| && Moves(w, step, task, task') && IsTaskStep(step)
    requires TaskLaw(task, w.stream[task.id], w.maxAttempts, tally)
    ensures StepsLeft(task', w.maxAttempts) < StepsLeft(task, w.maxAttempts) <= 5 * w.maxAttempts + 3
  {
  }

  /** A task takes at most 5 * maxAttempts + 3 own steps, and until it is through it always has one that it can take. */
  lemma HandlingEnds(run: seq<World>, steps: seq<Step>, i: nat, t: TaskId, step: Step)
    requires TakesAll(run, steps) && i < |run| && t in run[i].tasks
    ensures StepsLeft(run[i].tasks[t], run[i].maxAttempts) <= 5 * run[i].maxAttempts + 3
    ensures run[i].tasks[t].phase != Settled ==> exists own :: IsOf(own, t) && Enabled(run[i], own)
    ensures IsOf(step, t) && Enabled(run[i], step) ==>
              && t in Next(run[i], step).tasks
              && StepsLeft(Next(run[i], step).tasks[t], run[i].maxAttempts) <
                 StepsLeft(run[i].tasks[t], run[i].maxAttempts)
  {
    hide Next, TakesAll, Moves, StepsLeft, TaskLaw;
    Delivered(run, steps, i, t);
    LawHolds(run, steps, i, t);
    var w, own := run[i], OwnStep(run[i].tasks[t].phase, t);
    OwnStepIsEnabled(w, t);
    StepsAreBounded(w.tasks[t], w.stream[w.tasks[t].id], w.maxAttempts, TallyOf(run, steps, i, t));
    if IsOf(step, t) && Enabled(w, step) {
      OwnStepMoves(w, step, t);
      MoveTakesAStep(w, step, w.tasks[t], Next(w, step).tasks[t], TallyOf(run, steps, i, t));
    }
  }

  lemma StepsAreBounded(task: Task, entry: Entry, maxAttempts: nat, tally: Tally)
    requires TaskLaw(task, entry, maxAttempts, tally)
    ensures StepsLeft(task, maxAttempts) <= 5 * maxAttempts + 3
  {
  }

  /** A step that the task can take. */
  function OwnStep(phase: Phase, t: TaskId): Step {
    match phase
    case Ready => Parse(t)
    case Marking(_) => Mark(t)
    case Submitting(_, _) => SubmitReturns(t)
    case Clearing(_, _) => ClearMark(t)
    case Threw => Retry(t)
    case DeadLettering => DeadLetter(t)
    case Acking => Ack(t)
    case Settled => Leave(t)
  }

  lemma OwnStepIsEnabled(w: World, t: TaskId)
    requires t in w.tasks && w.tasks[t].id < |w.stream|
    ensures Enabled(w, OwnStep(w.tasks[t].phase, t))
    ensures w.tasks[t].phase != Settled ==> IsOf(OwnStep(w.tasks[t].phase, t), t)
  {
  }

  // ----- marks

  /** The step sets the mark of the key, whether or not its answer arrives. */
  predicate SetsMark(w: World, step: Step, key: Key) {
    && (step.Mark? || (step.MarkError? && step.applied))
    && step.t in w.tasks && w.tasks[step.t].phase == Marking(key)
  }

  /** The step deletes it: for a submit that threw, or because it has run out. */
  predicate DeletesMark(w: World, step: Step, key: Key) {
    || step == Expire(key)
    || ((step.ClearMark? || (step.ClearError? && step.applied))
        && step.t in w.tasks && w.tasks[step.t].phase.Clearing? && w.tasks[step.t].phase.key == key)
  }

  lemma MarksStep(w: World, step: Step, key: Key)
    requires Enabled(w, step)
    ensures key in Next(w, step).marks <==> SetsMark(w, step, key) || (key in w.marks && !DeletesMark(w, step, key))
  {
    hide Lifetime, AfterCrash, AfterParse;
  }

  /** A key is marked exactly if its mark has been set and not been deleted since. */
  lemma {:induction false} MarkedExactly(run: seq<World>, steps: seq<Step>, i: nat, key: Key)
    requires TakesAll(run, steps) && i < |run|
    ensures key in run[i].marks <==>
            exists j :: 0 <= j < i && SetsMark(run[j], steps[j], key)
              && forall k | j < k < i :: !DeletesMark(run[k], steps[k], key)
    decreases i
  {
    hide Next, Enabled, TakesAll, SetsMark, DeletesMark;
    Delivered(run, steps, i, 0);
    if i == 0 {
      NoMarkAtFirst(run, steps);
    } else {
      var last := i - 1;
      MarkedExactly(run, steps, last, key);
      TakenStep(run, steps, last);
      MarksStep(run[last], steps[last], key);
      if key in run[last].marks && !DeletesMark(run[last], steps[last], key) {
        var j :| 0 <= j < last && SetsMark(run[j], steps[j], key)
                 && forall k | j < k < last :: !DeletesMark(run[k], steps[k], key);
        assert forall k | j < k < i :: !DeletesMark(run[k], steps[k], key);
      }
    }
  }

  lemma NoMarkAtFirst(run: seq<World>, steps: seq<Step>)
    requires TakesAll(run, steps)
    ensures run[0].marks == {}
  {
  }

  // ----- the stream

  function PublishedBy(steps: seq<Step>): seq<Entry> {
    if steps == [] then []
    else
      var last := steps[|steps| - 1];
      PublishedBy(steps[..|steps| - 1]) + if last.Publish? then [last.entry] else []
  }

  lemma StreamGrows(w: World, step: Step)
    requires Enabled(w, step)
    ensures Next(w, step).stream == w.stream + (if step.Publish? then [step.entry] else [])
    ensures Next(w, step).delivered == w.delivered + (if step.Deliver? then step.count else 0)
  {
    hide Note, ClearFor, Lifetime, AfterCrash, AfterParse, MarkStarted, HandlerReturns;
  }

  /** The stream holds what has been published, in order, behind what it held at first. */
  lemma {:induction false} StreamIsPublished(run: seq<World>, steps: seq<Step>, i: nat)
    requires TakesAll(run, steps) && i < |run|
    ensures i <= |steps| && run[i].stream == run[0].stream + PublishedBy(steps[..i])
    decreases i
  {
    hide Next, Enabled, TakesAll;
    Delivered(run, steps, i, 0);
    if i > 0 {
      StreamIsPublished(run, steps, i - 1);
      TakenStep(run, steps, i - 1);
      StreamGrows(run[i - 1], steps[i - 1]);
      assert steps[..i][..i - 1] == steps[..i - 1];
    }
  }
}
