/** The try-lock with expiring leases in Redis, and the in-memory lock that it refines.

    The thread lock of a chat thread is taken by the graph runs and by the delete commands of that thread. The periodic
    sweep of expired threads does not take it: see CheckpointSweep. */
module RuntimeLock {
  type Key = string
  type Token = nat

  datatype Purpose = GraphRun | DeleteCommand

  /** A call of tryRunExclusive that was granted the lock: its task runs, or its release script is on its way. */
  datatype Phase = Running | Releasing

  datatype Task = Task(key: Key, purpose: Purpose, phase: Phase)

  datatype World = World(
    leases: map<Key, Token>,
    tasks: map<Token, Task>,
    nextToken: Token,
    expired: set<Token>         // the lease of the token ran out before it was released
  )

  datatype Step =
    | Acquire(key: Key, purpose: Purpose)              // SET NX answers OK, the task starts
    | Refuse(key: Key)                                 // SET NX finds a lease, tryRunExclusive returns null
    | AcquireError(key: Key, applied: bool)            // the answer to SET NX is lost, no task starts
    | TaskEnds(token: Token)
    | Release(token: Token)
    | ReleaseError(token: Token, applied: bool)
    | Crash(tokens: set<Token>)
    | Expire(key: Key)

  predicate Enabled(w: World, step: Step) {
    match step
    case Acquire(key, _) => key !in w.leases
    case Refuse(key) => key in w.leases
    case AcquireError(_, _) => true
    case TaskEnds(token) => token in w.tasks && w.tasks[token].phase == Running
    case Release(token) => token in w.tasks && w.tasks[token].phase == Releasing
    case ReleaseError(token, _) => token in w.tasks && w.tasks[token].phase == Releasing
    case Crash(_) => true
    case Expire(key) => key in w.leases
  }

  function Grant(w: World, key: Key): World {
    w.(leases := w.leases[key := w.nextToken], nextToken := w.nextToken + 1)
  }

  /** The release script: it deletes the key only if the key still holds the caller's token. */
  function ReleaseScript(leases: map<Key, Token>, key: Key, token: Token): map<Key, Token> {
    if key in leases && leases[key] == token then leases - {key} else leases
  }

  function Next(w: World, step: Step): World
    requires Enabled(w, step)
  {
    match step
    case Acquire(key, purpose) => Grant(w, key).(tasks := w.tasks[w.nextToken := Task(key, purpose, Running)])
    case Refuse(_) => w
    case AcquireError(key, applied) => if applied && key !in w.leases then Grant(w, key) else w
    case TaskEnds(token) => w.(tasks := w.tasks[token := w.tasks[token].(phase := Releasing)])
    case Release(token) =>
      w.(leases := ReleaseScript(w.leases, w.tasks[token].key, token), tasks := w.tasks - {token})
    case ReleaseError(token, applied) =>
      w.(leases := if applied then ReleaseScript(w.leases, w.tasks[token].key, token) else w.leases,
         tasks := w.tasks - {token})
    case Crash(tokens) => w.(tasks := w.tasks - tokens)
    case Expire(key) => w.(leases := w.leases - {key}, expired := w.expired + {w.leases[key]})
  }

  predicate Initial(w: World) {
    w.leases == map[] && w.tasks == map[] && w.expired == {}
  }

  ghost predicate Follows(w: World, w': World) {
    exists step :: Enabled(w, step) && w' == Next(w, step)
  }

  ghost predicate IsRun(run: seq<World>) {
    run != [] && Initial(run[0]) && forall i | 0 <= i < |run| - 1 :: Follows(run[i], run[i + 1])
  }

  lemma StepTaken(run: seq<World>, i: nat) returns (step: Step)
    requires IsRun(run) && i < |run| - 1
    ensures Enabled(run[i], step) && run[i + 1] == Next(run[i], step)
  {
    assert Follows(run[i], run[i + 1]);
    step :| Enabled(run[i], step) && run[i + 1] == Next(run[i], step);
  }

  // ----- exclusion

  ghost predicate LeaseInv(w: World) {
    && (forall key | key in w.leases :: w.leases[key] < w.nextToken && w.leases[key] !in w.expired)
    && (forall key, key' | key in w.leases && key' in w.leases && w.leases[key] == w.leases[key'] :: key == key')
    && (forall token | token in w.expired :: token < w.nextToken)
  }

  /** A granted task whose lease has not run out holds the lease of its key. */
  ghost predicate TaskInv(w: World) {
    forall token | token in w.tasks ::
      && token < w.nextToken
      && (token !in w.expired ==> w.tasks[token].key in w.leases && w.leases[w.tasks[token].key] == token)
  }

  ghost predicate Inv(w: World) {
    LeaseInv(w) && TaskInv(w)
  }

  lemma LeaseInvStep(w: World, step: Step)
    requires LeaseInv(w) && Enabled(w, step)
    ensures LeaseInv(Next(w, step))
  {
  }

  lemma TaskInvStep(w: World, step: Step)
    requires Inv(w) && Enabled(w, step)
    ensures TaskInv(Next(w, step))
  {
  }

  lemma {:induction false} InvHolds(run: seq<World>, i: nat)
    requires IsRun(run) && i < |run|
    ensures Inv(run[i])
  {
    if i > 0 {
      InvHolds(run, i - 1);
      var step := StepTaken(run, i - 1);
      LeaseInvStep(run[i - 1], step);
      TaskInvStep(run[i - 1], step);
    }
  }

  /** Two granted tasks of one key are never both without an expired lease. */
  lemma AtMostOneLiveTask(run: seq<World>, i: nat, token: Token, other: Token)
    requires IsRun(run) && i < |run|
    requires token in run[i].tasks && other in run[i].tasks && run[i].tasks[token].key == run[i].tasks[other].key
    requires token !in run[i].expired && other !in run[i].expired
    ensures token == other
  {
    InvHolds(run, i);
  }

  /** A graph run and a delete command of one thread overlap only if the lease of one of them has run out. */
  lemma GraphRunAndDeleteCommandDoNotOverlap(run: seq<World>, i: nat, token: Token, other: Token)
    requires IsRun(run) && i < |run|
    requires token in run[i].tasks && run[i].tasks[token].purpose == GraphRun
    requires other in run[i].tasks && run[i].tasks[other].purpose == DeleteCommand
    requires run[i].tasks[token].key == run[i].tasks[other].key
    ensures token in run[i].expired || other in run[i].expired
  {
    if token !in run[i].expired && other !in run[i].expired {
      AtMostOneLiveTask(run, i, token, other);
    }
  }

  /** Beside a granted task, another call is granted the same key next exactly if the task's own lease has run out and
      nobody has taken the key since. */
  lemma OverlapNeedsExpiry(run: seq<World>, i: nat, token: Token, purpose: Purpose)
    requires IsRun(run) && i < |run| && token in run[i].tasks
    ensures var key := run[i].tasks[token].key;
            Enabled(run[i], Acquire(key, purpose)) <==> token in run[i].expired && key !in run[i].leases
  {
    InvHolds(run, i);
  }

  /** Leases that run out do let two tasks of one key run at once. */
  lemma ExpiryAllowsOverlap(w: World, key: Key) returns (run: seq<World>, token: Token, other: Token)
    requires Initial(w)
    ensures IsRun(run) && run[0] == w && token != other
    ensures var tasks := run[|run| - 1].tasks;
            && token in tasks && tasks[token] == Task(key, GraphRun, Running)
            && other in tasks && tasks[other] == Task(key, DeleteCommand, Running)
  {
    var w1 := Next(w, Acquire(key, GraphRun));
    var w2 := Next(w1, Expire(key));
    var w3 := Next(w2, Acquire(key, DeleteCommand));
    run := [w, w1, w2, w3];
    assert Follows(w, w1) && Follows(w1, w2) && Follows(w2, w3);
    token, other := w.nextToken, w2.nextToken;
  }

  /** A release deletes the releaser's own lease or nothing. */
  lemma ReleaseDeletesOwnLease(run: seq<World>, i: nat, token: Token, applied: bool)
    requires IsRun(run) && i < |run| && token in run[i].tasks && run[i].tasks[token].phase == Releasing
    ensures forall step | step == Release(token) || step == ReleaseError(token, applied) ::
              var w' := Next(run[i], step);
              && w'.leases.Keys <= run[i].leases.Keys
              && (forall key | key in run[i].leases && run[i].leases[key] != token ::
                    key in w'.leases && w'.leases[key] == run[i].leases[key])
              && token !in w'.tasks
    ensures token in run[i].expired ==> Next(run[i], Release(token)).leases == run[i].leases
    ensures token !in run[i].expired ==> run[i].tasks[token].key !in Next(run[i], Release(token)).leases
  {
    InvHolds(run, i);
  }

  // ----- what a lease stands for

  /** A run with its steps. */
  ghost predicate TakesAll(run: seq<World>, steps: seq<Step>) {
    && |run| == |steps| + 1 && Initial(run[0])
    && forall i | 0 <= i < |steps| :: Enabled(run[i], steps[i]) && run[i + 1] == Next(run[i], steps[i])
  }

  /** The step loses track of the lease of the token: its answer is lost, its holder crashes, or its release fails. */
  predicate LosesLease(w: World, step: Step, token: Token) {
    || (step.AcquireError? && step.applied && token == w.nextToken)
    || (step.Crash? && token in step.tokens)
    || step == ReleaseError(token, false)
  }

  lemma LeaseStep(w: World, step: Step, key: Key)
    requires LeaseInv(w) && TaskInv(w) && Enabled(w, step) && key in Next(w, step).leases
    requires key in w.leases ==> w.leases[key] in w.tasks && w.tasks[w.leases[key]].key == key
    ensures var w', token := Next(w, step), Next(w, step).leases[key];
            || (token in w'.tasks && w'.tasks[token].key == key)
            || LosesLease(w, step, token)
    ensures key in w.leases ==> Next(w, step).leases[key] == w.leases[key]
  {
  }

  lemma LostLeaseStep(w: World, step: Step, key: Key)
    requires Enabled(w, step) && key in Next(w, step).leases && key in w.leases
    ensures Next(w, step).leases[key] == w.leases[key]
  {
  }

  /** A lease stands for a granted call whose task runs or is being released; a lease without such a call was left
      behind by a lost answer, a crash or a failed release. */
  lemma {:induction false} LeaseStandsForTask(run: seq<World>, steps: seq<Step>, i: nat, key: Key)
    requires TakesAll(run, steps) && i < |run| && key in run[i].leases
    ensures var token := run[i].leases[key];
            || (token in run[i].tasks && run[i].tasks[token].key == key)
            || exists j :: 0 <= j < i && LosesLease(run[j], steps[j], token)
    decreases i
  {
    hide Next, Enabled, LosesLease, LeaseInv, TaskInv;
    if i == 0 {
      NoLeaseAtFirst(run, steps);
    } else {
      var w, step := run[i - 1], steps[i - 1];
      TakesInv(run, steps, i - 1);
      if key in w.leases {
        LeaseStandsForTask(run, steps, i - 1, key);
        LostLeaseStep(w, step, key);
        if w.leases[key] in w.tasks && w.tasks[w.leases[key]].key == key {
          LeaseStep(w, step, key);
        }
      } else {
        LeaseStep(w, step, key);
      }
    }
  }

  lemma NoLeaseAtFirst(run: seq<World>, steps: seq<Step>)
    requires TakesAll(run, steps)
    ensures run[0].leases == map[] && run[0].tasks == map[] && Inv(run[0])
  {
  }

  lemma {:induction false} TakesInv(run: seq<World>, steps: seq<Step>, i: nat)
    requires TakesAll(run, steps) && i < |run|
    ensures LeaseInv(run[i]) && TaskInv(run[i])
    decreases i
  {
    hide Next, Enabled, LeaseInv, TaskInv;
    if i == 0 {
      NoLeaseAtFirst(run, steps);
    } else {
      TakesInv(run, steps, i - 1);
      LeaseInvStep(run[i - 1], steps[i - 1]);
      TaskInvStep(run[i - 1], steps[i - 1]);
    }
  }

  /** A key that nobody holds is granted to the next caller, whose task runs under a lease of its own; a key that is
      held is refused, and nothing changes. */
  lemma GrantedExactlyWhenFree(w: World, key: Key, purpose: Purpose)
    ensures Enabled(w, Acquire(key, purpose)) <==> key !in w.leases
    ensures Enabled(w, Refuse(key)) <==> key in w.leases
    ensures key !in w.leases ==>
              var w' := Next(w, Acquire(key, purpose));
              && w'.leases == w.leases[key := w.nextToken]
              && w'.tasks == w.tasks[w.nextToken := Task(key, purpose, Running)]
    ensures key in w.leases ==> Next(w, Refuse(key)) == w
  {
  }

  // ----- the in-memory lock, and why the leases refine it

  /** The lock of a single process: the keys that are active, each with the task that holds it. */
  datatype MemoryStep = Enter(key: Key, token: Token) | Turn(key: Key) | Leave(key: Key, token: Token) | Stutter

  predicate MemoryEnabled(holders: map<Key, Token>, step: MemoryStep) {
    match step
    case Enter(key, _) => key !in holders
    case Turn(key) => key in holders
    case Leave(key, token) => key in holders && holders[key] == token
    case Stutter => true
  }

  function MemoryNext(holders: map<Key, Token>, step: MemoryStep): map<Key, Token>
    requires MemoryEnabled(holders, step)
  {
    match step
    case Enter(key, token) => holders[key := token]
    case Turn(_) => holders
    case Leave(key, _) => holders - {key}
    case Stutter => holders
  }

  class MemoryTryLock {
    var activeKeys: set<Key>

    constructor ()
      ensures activeKeys == {}
    {
      activeKeys := {};
    }

    /** The call is turned away, with null, exactly if the key is active. */
    method TryEnter(key: Key) returns (entered: bool)
      modifies this
      ensures entered <==> key !in old(activeKeys)
      ensures activeKeys == old(activeKeys) + {key}
    {
      if key in activeKeys {
        assert activeKeys == activeKeys + {key};
        return false;
      }
      activeKeys := activeKeys + {key};
      return true;
    }

    /** The finally clause. */
    method Exit(key: Key)
      modifies this
      ensures activeKeys == old(activeKeys) - {key}
    {
      activeKeys := activeKeys - {key};
    }
  }

  /** What the in-memory lock does while the Redis lock takes a step, as long as no lease runs out. A lease left behind
      by a crash or a lost answer is a task that never leaves. */
  function MemoryStepOf(w: World, step: Step): MemoryStep
    requires Enabled(w, step)
  {
    match step
    case Acquire(key, _) => Enter(key, w.nextToken)
    case Refuse(key) => Turn(key)
    case AcquireError(key, applied) => if applied && key !in w.leases then Enter(key, w.nextToken) else Stutter
    case TaskEnds(_) => Stutter
    case Release(token) => Leave(w.tasks[token].key, token)
    case ReleaseError(token, applied) => if applied then Leave(w.tasks[token].key, token) else Stutter
    case Crash(_) => Stutter
    case Expire(_) => Stutter
  }

  /** Without expiry, the leases behave as the in-memory lock: every step is a step of that lock on the same holders. */
  lemma LeasesRefineMemoryLock(run: seq<World>, i: nat, step: Step)
    requires IsRun(run) && i < |run| && Enabled(run[i], step)
    requires run[i].expired == {} && !step.Expire?
    ensures var w := run[i];
            && MemoryEnabled(w.leases, MemoryStepOf(w, step))
            && Next(w, step).leases == MemoryNext(w.leases, MemoryStepOf(w, step))
    ensures forall token | token in run[i].tasks ::
              run[i].tasks[token].key in run[i].leases && run[i].leases[run[i].tasks[token].key] == token
  {
    InvHolds(run, i);
  }
}
